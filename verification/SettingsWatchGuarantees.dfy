// No change of the settings file is lost, over every interleaving of writers, the watcher thread, the UI thread and the
// window's size loops and minimizing.
module SettingsWatchGuarantees {
  import opened SettingsNotices

  /** Where the watcher thread is; `open` says whether it holds a change handle. */
  datatype Watcher =
    | Opening
    | Waiting
    | Woken
    | Debouncing(open: bool)
    | Posting(open: bool)
    | Sending(open: bool)

  datatype Ui = Idle | Reading

  /** `version` counts the file's changes; `settled` is the last one the UI thread read and decided on: applied,
      rejected, reported or found unchanged. `failures` counts the watcher's failed posts, `missed` the failed
      replays. */
  datatype State = State(version: nat, settled: nat, signalled: bool, watcher: Watcher, notices: Notices, ui: Ui,
                         failures: nat, missed: nat)

  datatype Event =
    | Change
    | Open(ok: bool)
    | Wake
    | Rearm(ok: bool)
    | Debounced
    | Exchange
    | Post(ok: bool)
    | Take
    | Read(postponed: bool)
    | EnterSizeMove
    | ExitSizeMove(posted: bool)
    | Size(minimized: bool, posted: bool)
    | HostReload

  predicate Enabled(s: State, e: Event) {
    match e
    case Open(_) => s.watcher.Opening?
    case Wake => s.watcher.Waiting? && s.signalled
    case Rearm(_) => s.watcher.Woken?
    case Debounced => s.watcher.Debouncing?
    case Exchange => s.watcher.Posting?
    case Post(_) => s.watcher.Sending?
    case Take => s.ui.Idle? && s.notices.queue > 0
    case Read(postponed) => s.ui.Reading? && (postponed ==> s.notices.minimized)
    case EnterSizeMove => s.ui.Idle?
    case ExitSizeMove(_) => s.ui.Idle?
    case Size(_, _) => s.ui.Idle?
    case HostReload => s.ui.Idle?
    case Change => true
  }

  predicate HasHandle(w: Watcher) {
    match w
    case Opening => false
    case Waiting => true
    case Woken => true
    case Debouncing(open) => open
    case Posting(open) => open
    case Sending(open) => open
  }

  function Returned(open: bool): (r: Watcher) { if open then Waiting else Opening }

  function Next(s: State, e: Event): (r: State)
    requires Enabled(s, e)
  {
    match e
    case Change => s.(version := s.version + 1, signalled := s.signalled || HasHandle(s.watcher))
    case Open(ok) => if ok then s.(watcher := Posting(true), signalled := false) else s
    case Wake => s.(watcher := Woken)
    case Rearm(ok) => s.(watcher := Debouncing(ok), signalled := false)
    case Debounced => s.(watcher := Posting(s.watcher.open))
    case Exchange =>
      s.(watcher := if s.notices.pending then Returned(s.watcher.open) else Sending(s.watcher.open),
         notices := Exchanged(s.notices))
    case Post(ok) =>
      s.(watcher := Returned(s.watcher.open), notices := Sent(s.notices, ok),
         failures := s.failures + if ok then 0 else 1)
    case Take => s.(notices := Taken(s.notices), ui := if s.notices.inSizeMove then Idle else Reading)
    case Read(postponed) =>
      if postponed then s.(notices := s.notices.(deferred := true), ui := Idle)
      else s.(settled := s.version, ui := Idle)
    case EnterSizeMove => s.(notices := s.notices.(inSizeMove := true))
    case ExitSizeMove(posted) => Counted(s, SizeLoopEnded(s.notices, posted))
    case Size(minimized, posted) => Counted(s, Sized(s.notices, minimized, posted))
    case HostReload => s.(notices := s.notices.(queue := s.notices.queue + 1))
  }

  /** A replay that is due and was not posted is missed. */
  function Counted(s: State, n: Notices): (r: State) {
    s.(notices := n, missed := s.missed + if n.deferred && !n.inSizeMove && !n.minimized then 1 else 0)
  }

  function Start(): (r: State) { State(0, 0, false, Opening, Initial(), Idle, 0, 0) }

  // ---------------------------------------------------------------------------------------------------------------
  // The invariant

  /** The watcher is past a wake-up, or before a start, that ends in a post. */
  predicate OnItsWay(w: Watcher) { !w.Waiting? }

  predicate Announced(s: State) { s.notices.queue > 0 || s.notices.deferred }

  /** Something will still make the UI thread read the file. */
  predicate Covered(s: State) { s.signalled || OnItsWay(s.watcher) || Announced(s) || s.ui.Reading? }

  ghost predicate Inv(s: State) {
    s.settled <= s.version &&
    (s.signalled ==> HasHandle(s.watcher)) &&
    (s.notices.pending && !s.watcher.Sending? ==> Announced(s)) &&
    (s.settled < s.version ==> Covered(s) || s.failures > 0) &&
    (s.notices.deferred ==> s.notices.inSizeMove || s.notices.minimized || s.missed > 0)
  }

  lemma StepKeepsInv(s: State, e: Event)
    requires Inv(s) && Enabled(s, e)
    ensures Inv(Next(s, e))
  {
  }

  ghost predicate IsRun(s: State, es: seq<Event>, s': State)
    decreases |es|
  {
    if es == [] then s' == s else Enabled(s, es[0]) && IsRun(Next(s, es[0]), es[1..], s')
  }

  lemma {:induction false} RunKeepsInv(s: State, es: seq<Event>, s': State)
    requires Inv(s) && IsRun(s, es, s')
    ensures Inv(s')
    decreases |es|
  {
    if es != [] {
      StepKeepsInv(s, es[0]);
      RunKeepsInv(Next(s, es[0]), es[1..], s');
    }
  }

  /** In every reachable state, unless a post of the watcher failed, a change the UI thread has not settled is covered:
      the change handle is signalled, the watcher is on its way to post, a message is queued, the reload is deferred, or
      the UI thread is about to read. */
  lemma NoChangeIsLost(es: seq<Event>, s: State)
    requires IsRun(Start(), es, s)
    ensures s.settled < s.version && s.failures == 0 ==> Covered(s)
  {
    RunKeepsInv(Start(), es, s);
  }

  /** A deferred reload waits for nothing but the end of a size loop or a restored window, unless its message could not
      be posted. */
  lemma DeferredReloadIsReplayed(es: seq<Event>, s: State)
    requires IsRun(Start(), es, s)
    ensures s.notices.deferred && s.missed == 0 ==> s.notices.inSizeMove || s.notices.minimized
  {
    RunKeepsInv(Start(), es, s);
  }

  // ---------------------------------------------------------------------------------------------------------------
  // Coming to rest

  /** The steps the two threads take on their own, when the calls they make succeed. */
  predicate Internal(e: Event) {
    match e
    case Open(ok) => ok
    case Post(ok) => ok
    case Wake => true
    case Rearm(_) => true
    case Debounced => true
    case Exchange => true
    case Take => true
    case Read(_) => true
    case _ => false
  }

  function Rank(w: Watcher): (r: nat) {
    match w
    case Waiting => 0
    case Sending(open) => if open then 3 else 8
    case Posting(open) => if open then 4 else 9
    case Opening => 5
    case Debouncing(open) => if open then 5 else 10
    case Woken => 11
  }

  function Work(s: State): (r: nat) {
    Rank(s.watcher) + (if s.signalled && !s.watcher.Woken? then 12 else 0) + 2 * s.notices.queue +
    if s.ui.Reading? then 1 else 0
  }

  lemma InternalStepDescends(s: State, e: Event)
    requires Enabled(s, e) && Internal(e)
    ensures Work(Next(s, e)) < Work(s)
  {
  }

  /** Without new changes and window events the two threads take no more steps than there is work. */
  lemma {:induction false} RunsToRest(s: State, es: seq<Event>, s': State)
    requires IsRun(s, es, s') && forall i :: 0 <= i < |es| ==> Internal(es[i])
    ensures |es| + Work(s') <= Work(s)
    decreases |es|
  {
    if es != [] {
      assert Internal(es[0]);
      InternalStepDescends(s, es[0]);
      RunsToRest(Next(s, es[0]), es[1..], s');
    }
  }

  predicate AtRest(s: State) { Work(s) == 0 }

  lemma StepUntilRest(s: State) returns (e: Event)
    requires Inv(s) && !AtRest(s)
    ensures Enabled(s, e) && Internal(e)
  {
    e := if s.ui.Reading? then Read(false) else if s.notices.queue > 0 then Take
         else if s.watcher.Opening? then Open(true) else if s.watcher.Woken? then Rearm(true)
         else if s.watcher.Debouncing? then Debounced else if s.watcher.Posting? then Exchange
         else if s.watcher.Sending? then Post(true) else Wake;
  }

  /** At rest, with the window neither minimized nor in a size loop, the UI thread has read the last version of the file
      and decided on it: applied, rejected, reported or found unchanged. */
  lemma RestHasReadAll(es: seq<Event>, s: State)
    requires IsRun(Start(), es, s) && AtRest(s) && s.failures == 0 && s.missed == 0
    requires !s.notices.inSizeMove && !s.notices.minimized
    ensures s.settled == s.version && !s.notices.deferred
  {
    RunKeepsInv(Start(), es, s);
  }

  /** Ending the size loop, or restoring the window, posts a deferred reload again. */
  lemma EndOfDeferralPosts(s: State, e: Event)
    requires Inv(s) && Enabled(s, e) && s.notices.deferred
    requires e == ExitSizeMove(true) || e == Size(false, true)
    ensures var n := Next(s, e).notices;
            if n.inSizeMove || n.minimized then n.deferred
            else !n.deferred && n.queue == s.notices.queue + 1
  {
  }

  // ---------------------------------------------------------------------------------------------------------------
  // A failed post

  /** A change that is covered stops being so exactly when the watcher's post fails with nothing else under way. */
  lemma LostExactlyWhenPostFails(s: State, e: Event)
    requires Inv(s) && Enabled(s, e) && s.settled < s.version && Covered(s)
    ensures Next(s, e).settled < Next(s, e).version && !Covered(Next(s, e)) <==>
            e == Post(false) && s.watcher == Sending(true) && !s.signalled && !Announced(s) && !s.ui.Reading?
  {
  }

  ghost predicate PostLosesChange(es: seq<Event>, s: State) {
    IsRun(Start(), es, s) && s.failures == 1 && AtRest(s) && s.settled < s.version && !Announced(s)
  }

  lemma {:induction false} RunExtends(s: State, es: seq<Event>, mid: State, e: Event)
    requires IsRun(s, es, mid) && Enabled(mid, e)
    ensures IsRun(s, es + [e], Next(mid, e))
    decreases |es|
  {
    if es == [] {
      assert [e][1..] == [];
    } else {
      RunExtends(Next(s, es[0]), es[1..], mid, e);
      assert (es + [e])[1..] == es[1..] + [e];
    }
  }

  lemma Then(es: seq<Event>, s: State, e: Event) returns (es': seq<Event>, s': State)
    requires IsRun(Start(), es, s) && Enabled(s, e)
    ensures s' == Next(s, e) && es' == es + [e] && IsRun(Start(), es', s')
  {
    RunExtends(Start(), es, s, e);
    es', s' := es + [e], Next(s, e);
  }

  /** The watcher gives up a post that fails: the change then waits for the next one. */
  lemma FailedPostLosesChange() returns (es: seq<Event>, s: State)
    ensures PostLosesChange(es, s)
  {
    es, s := Then([], Start(), Open(true));
    es, s := Then(es, s, Exchange);
    es, s := Then(es, s, Post(true));
    es, s := Then(es, s, Take);
    es, s := Then(es, s, Read(false));
    es, s := LostNotice(es, s);
  }

  lemma LostNotice(es0: seq<Event>, s0: State) returns (es: seq<Event>, s: State)
    requires IsRun(Start(), es0, s0) && s0 == State(0, 0, false, Waiting, Initial(), Idle, 0, 0)
    ensures PostLosesChange(es, s)
  {
    es, s := Then(es0, s0, Change);
    es, s := Then(es, s, Wake);
    es, s := Then(es, s, Rearm(true));
    es, s := Then(es, s, Debounced);
    es, s := Then(es, s, Exchange);
    es, s := Then(es, s, Post(false));
  }

  // ---------------------------------------------------------------------------------------------------------------
  // Liveness

  /** Neither thread can take a successful step by itself. */
  ghost predicate Stuck(s: State) { forall e :: Internal(e) ==> !Enabled(s, e) }

  predicate AllInternal(es: seq<Event>) { forall e :: e in es ==> Internal(e) }

  predicate Undisturbed(s: State) {
    !s.notices.inSizeMove && !s.notices.minimized && s.failures == 0 && s.missed == 0
  }

  lemma {:induction false} InternalRunsStayUndisturbed(s: State, es: seq<Event>, s': State)
    requires Undisturbed(s) && IsRun(s, es, s') && AllInternal(es)
    ensures Undisturbed(s') && s'.version == s.version
    decreases |es|
  {
    if es != [] {
      assert Internal(es[0]);
      InternalRunsStayUndisturbed(Next(s, es[0]), es[1..], s');
    }
  }

  /** A change of the file is read: with the window neither minimized nor in a size loop and every post made, a run of
      the two threads that cannot be extended, and none is longer than the work there is, has settled the last
      version. */
  lemma ChangesAreSettled(before: seq<Event>, s: State, es: seq<Event>, s': State)
    requires IsRun(Start(), before, s) && Undisturbed(s)
    requires IsRun(s, es, s') && AllInternal(es) && Stuck(s')
    ensures |es| <= Work(s) && s'.settled == s.version && !s'.notices.deferred
  {
    RunKeepsInv(Start(), before, s);
    RunKeepsInv(s, es, s');
    assert forall i :: 0 <= i < |es| ==> es[i] in es;
    RunsToRest(s, es, s');
    InternalRunsStayUndisturbed(s, es, s');
    if !AtRest(s') {
      var e := StepUntilRest(s');
      assert false;
    }
  }

  // ---------------------------------------------------------------------------------------------------------------
  // Coalescing

  lemma SizeLoopStepCoalesces(s: State, e: Event)
    requires s.notices.inSizeMove && s.notices.pending && !s.watcher.Sending? && !s.ui.Reading?
    requires Enabled(s, e) && !e.ExitSizeMove? && !e.HostReload?
    ensures var s' := Next(s, e);
            s'.notices.inSizeMove && s'.notices.pending && !s'.watcher.Sending? && !s'.ui.Reading? &&
            s'.notices.queue <= s.notices.queue
  {
  }

  /** Through a size loop the notice stays pending: however often the file changes, the watcher posts no second one. */
  lemma {:induction false} SizeLoopCoalesces(s: State, es: seq<Event>, s': State)
    requires s.notices.inSizeMove && s.notices.pending && !s.watcher.Sending? && !s.ui.Reading?
    requires IsRun(s, es, s') && forall e :: e in es ==> !e.ExitSizeMove? && !e.HostReload?
    ensures s'.notices.pending && s'.notices.queue <= s.notices.queue
    decreases |es|
  {
    if es != [] {
      assert es[0] in es;
      SizeLoopStepCoalesces(s, es[0]);
      SizeLoopCoalesces(Next(s, es[0]), es[1..], s');
    }
  }

  /** A message taken in a size loop defers the reload and reads nothing; taken outside one it clears the notice before
      the read, so that a change during the read is announced again. */
  lemma TakingSpelled(s: State)
    requires Enabled(s, Take)
    ensures var s' := Next(s, Take);
            s'.notices.queue == s.notices.queue - 1 && s'.settled == s.settled &&
            if s.notices.inSizeMove then
              s'.ui == Idle && s'.notices.deferred && s'.notices.pending == s.notices.pending
            else
              s'.ui == Reading && !s'.notices.pending && s'.notices.deferred == s.notices.deferred
  {
  }
}
