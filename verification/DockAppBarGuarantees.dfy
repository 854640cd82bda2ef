// What the app-bar registration guarantees over every run of placements, shell moves, Explorer restarts and removals.
module DockAppBarGuarantees {
  import opened Basics
  import opened DockGeometry
  import opened DockAppBars

  datatype Event =
    | Place(q: Wanted, a: Answers)
    | Moved
    | Restart
    | TaskbarCreated(q: Wanted, a: Answers)
    | Drop(wait: Wait)

  function Initial(): (r: World) { World(NoRecord(), false, Absent, false, []) }

  function Next(w: World, e: Event): (r: World) {
    match e
    case Place(q, a) => Passed(w, q, a)
    case Moved => w.(stale := true)
    case Restart => Restarted(w, true)
    case TaskbarCreated(q, a) => Renewed(w, q, a)
    case Drop(wait) => Unregistered(w, wait.restarted)
  }

  // ---------------------------------------------------------------------------------------------------------------
  // The record agrees with the shell

  /** Same registration, same committed rectangle, and no rectangle held for an overlay. */
  ghost predicate Agree(record: Record, shell: Shell) {
    (record.registered <==> shell.Holding?) &&
    (shell.Holding? ==> shell.committed == if record.Reserves() then Some((record.edge, record.reserved)) else None) &&
    (!record.registered ==> record == NoRecord())
  }

  /** Even before TaskbarCreated is handled, the shell holds no bar RedXe does not know of. */
  ghost predicate Known(w: World) { !w.record.registered ==> w.shell.Absent? && w.record == NoRecord() }

  ghost predicate Inv(w: World) { Known(w) && (!w.gap ==> Agree(w.record, w.shell)) }

  /** The record a pass leaves, said without its messages: restarts do not show in it. */
  lemma PassRecords(w: World, q: Wanted, a: Answers)
    requires Known(w)
    ensures var w' := Passed(w, q, a);
            var registered := Keeps(w.record, q) || a.accepts;
            w'.record.registered == registered &&
            w'.record == (var base := if Keeps(w.record, q) then w.record else NoRecord().(registered := registered);
                          if registered && Reserves(w.record, q, w.stale) then Committed(base, q, a.committed)
                          else base)
  {
    PassSends(w, q, a);
  }

  lemma PassKeepsInv(w: World, q: Wanted, a: Answers)
    requires Inv(w)
    ensures Inv(Passed(w, q, a)) && (w.gap ==> Passed(w, q, a).gap)
  {
    PassSends(w, q, a);
  }

  /** A pass sends its messages in order: the removal, the registration, and the two that reserve. */
  lemma PassSends(w: World, q: Wanted, a: Answers)
    ensures var w0 := w.(stale := false);
            var w1 := if Drops(w.record, q) then Unregistered(w0, a.inRemove.restarted) else w0;
            var w2 := if Keeps(w.record, q) then w1 else Registered(w1, a);
            var w3 := if Reserves(w.record, q, w.stale) then Set(Queried(w2, q, a), q, a) else w2;
            Passed(w, q, a) == Restarted(w3, a.after.restarted).(stale := w3.stale || a.after.moved)
  {
    var w0 := w.(stale := false);
    var remove := if Drops(w.record, q) then [Remove] else [];
    var register := if Keeps(w.record, q) then [] else [New];
    var reserve := if Reserves(w.record, q, w.stale) then [QueryPos, SetPos] else [];
    PerformedConcat(w0, remove + register, reserve, q, a);
    PerformedConcat(w0, remove, register, q, a);
    PerformedAtMostTwo(w0, remove, q, a);
    PerformedAtMostTwo(Performed(w0, remove, q, a), register, q, a);
    PerformedAtMostTwo(Performed(w0, remove + register, q, a), reserve, q, a);
  }

  lemma {:induction false} PerformedAtMostTwo(w: World, plan: seq<Message>, q: Wanted, a: Answers)
    requires |plan| <= 2
    ensures |plan| == 0 ==> Performed(w, plan, q, a) == w
    ensures |plan| == 1 ==> Performed(w, plan, q, a) == Answered(w, plan[0], q, a)
    ensures |plan| == 2 ==> Performed(w, plan, q, a) == Answered(Answered(w, plan[0], q, a), plan[1], q, a)
    decreases |plan|
  {
    if |plan| == 2 {
      PerformedAtMostTwo(Answered(w, plan[0], q, a), plan[1..], q, a);
    } else if |plan| == 1 {
      assert plan[1..] == [];
    }
  }

  lemma {:induction false} PerformedConcat(w: World, first: seq<Message>, rest: seq<Message>, q: Wanted, a: Answers)
    ensures Performed(w, first + rest, q, a) == Performed(Performed(w, first, q, a), rest, q, a)
    decreases |first|
  {
    if first == [] {
      assert first + rest == rest;
    } else {
      PerformedConcat(Answered(w, first[0], q, a), first[1..], rest, q, a);
      assert (first + rest)[1..] == first[1..] + rest;
    }
  }

  lemma StepKeepsInv(w: World, e: Event)
    requires Inv(w)
    ensures Inv(Next(w, e))
  {
    match e
    case Place(q, a) => PassKeepsInv(w, q, a);
    case TaskbarCreated(q, a) => PassKeepsInv(Forgotten(w, a), q, a);
    case Moved =>
    case Restart =>
    case Drop(_) =>
  }

  function After(w: World, es: seq<Event>): (r: World)
    decreases |es|
  {
    if es == [] then w else After(Next(w, es[0]), es[1..])
  }

  lemma {:induction false} RunKeepsInv(w: World, es: seq<Event>)
    requires Inv(w)
    ensures Inv(After(w, es))
    decreases |es|
  {
    if es != [] {
      StepKeepsInv(w, es[0]);
      RunKeepsInv(Next(w, es[0]), es[1..]);
    }
  }

  /** Over every run, outside the gap between an Explorer restart and its TaskbarCreated, the record agrees with the
      shell; Explorer may restart between any two messages. */
  lemma RecordAgreesWithShell(es: seq<Event>)
    ensures var w := After(Initial(), es); !w.gap ==> Agree(w.record, w.shell)
  {
    RunKeepsInv(Initial(), es);
  }

  /** TaskbarCreated ends the gap: whatever it began with, record and shell agree after it unless Explorer has restarted
      once more. */
  lemma RenewalEndsGap(w: World, q: Wanted, a: Answers)
    requires Inv(w)
    requires !a.inRemove.restarted && !a.inNew.restarted && !a.inQuery.restarted && !a.inSet.restarted &&
             !a.after.restarted
    ensures !Renewed(w, q, a).gap && Agree(Renewed(w, q, a).record, Renewed(w, q, a).shell)
  {
    PassKeepsInv(Forgotten(w, a), q, a);
    PassSends(Forgotten(w, a), q, a);
  }

  // ---------------------------------------------------------------------------------------------------------------
  // Legal messages

  ghost predicate Lawful(m: Sent) { m.legal || m.inGap }

  /** What was sent stays sent, and whatever was added is legal or was sent in the gap. */
  ghost predicate AddsLawful(before: World, after: World) {
    before.sent <= after.sent && forall i :: |before.sent| <= i < |after.sent| ==> Lawful(after.sent[i])
  }

  lemma AddsChain(first: World, second: World, third: World)
    requires AddsLawful(first, second) && AddsLawful(second, third)
    ensures AddsLawful(first, third)
  {
    assert forall i :: 0 <= i < |second.sent| ==> third.sent[i] == second.sent[i];
  }

  lemma RemovalIsLawful(w: World, restarted: bool)
    requires Inv(w)
    ensures AddsLawful(w, Unregistered(w, restarted)) && Inv(Unregistered(w, restarted))
  {
  }

  lemma RegistrationIsLawful(w: World, a: Answers)
    requires Inv(w)
    ensures AddsLawful(w, Registered(w, a)) && Inv(Registered(w, a))
  {
  }

  lemma ReservingIsLawful(w: World, q: Wanted, a: Answers)
    requires Inv(w)
    ensures AddsLawful(w, Set(Queried(w, q, a), q, a))
  {
  }

  lemma PassIsLawful(w: World, q: Wanted, a: Answers)
    requires Inv(w)
    ensures AddsLawful(w, Passed(w, q, a))
  {
    PassSends(w, q, a);
    var w0 := w.(stale := false);
    RemovalIsLawful(w0, a.inRemove.restarted);
    var w1 := if Drops(w.record, q) then Unregistered(w0, a.inRemove.restarted) else w0;
    RegistrationIsLawful(w1, a);
    var w2 := if Keeps(w.record, q) then w1 else Registered(w1, a);
    ReservingIsLawful(w2, q, a);
    AddsChain(w0, w1, w2);
    AddsChain(w0, w2, Set(Queried(w2, q, a), q, a));
  }

  /** Every message a step sends outside the gap is legal when the shell gets it: no second registration, no position
      without a query before it, nothing for a bar the shell does not hold. */
  lemma MessagesAreLegal(w: World, e: Event)
    requires Inv(w)
    ensures AddsLawful(w, Next(w, e))
  {
    match e
    case Place(q, a) => PassIsLawful(w, q, a);
    case TaskbarCreated(q, a) =>
      RemovalIsLawful(w, a.inRemove.restarted);
      PassIsLawful(Forgotten(w, a), q, a);
      AddsChain(w, Forgotten(w, a), Renewed(w, q, a));
    case Moved =>
    case Restart =>
    case Drop(wait) => RemovalIsLawful(w, wait.restarted);
  }

  /** Over every run, Explorer restarts between any two messages included, each message ever sent outside the gap was
      legal when the shell got it. */
  lemma {:induction false} RunsSendLegalMessages(w: World, es: seq<Event>)
    requires Inv(w) && AllLawful(w)
    ensures AllLawful(After(w, es))
    decreases |es|
  {
    if es != [] {
      MessagesAreLegal(w, es[0]);
      AddsToLawful(w, Next(w, es[0]));
      StepKeepsInv(w, es[0]);
      RunsSendLegalMessages(Next(w, es[0]), es[1..]);
    }
  }

  ghost predicate AllLawful(w: World) { forall i :: 0 <= i < |w.sent| ==> Lawful(w.sent[i]) }

  lemma AddsToLawful(before: World, after: World)
    requires AllLawful(before) && AddsLawful(before, after)
    ensures AllLawful(after)
  {
    assert forall i :: 0 <= i < |before.sent| ==> after.sent[i] == before.sent[i];
  }

  // ---------------------------------------------------------------------------------------------------------------
  // What a placement achieves, and when it is silent

  /** A placement the shell did not refuse, and in which Explorer did not restart, holds exactly the reservation asked
      for; the position it set is the shell's own answer to the query, at the reservation's depth. */
  lemma PlacementHolds(w: World, q: Wanted, a: Answers)
    requires Inv(w) && Passed(w, q, a).record.registered && !Passed(w, q, a).gap
    ensures var w' := Passed(w, q, a);
            w'.record.reservation == q.reservation &&
            w'.shell.Holding? && (q.reservation.NoReservation? ==> w'.shell.committed == None) &&
            (!q.reservation.NoReservation? ==>
              w'.shell.committed == Some((q.edge, w'.record.reserved)) && w'.record.proposal == q.proposal &&
              w'.record.dpi == q.dpi)
    ensures var w' := Passed(w, q, a);
            Reserves(w.record, q, w.stale) ==>
              |w'.sent| >= 2 && w'.sent[|w'.sent| - 2] == Sent(QueryPos, q.proposal, true, false) &&
              w'.sent[|w'.sent| - 1] == Sent(SetPos, Trimmed(a.queried, q.edge, q.px), true, false) &&
              w'.record.reserved == a.committed
  {
    PassKeepsInv(w, q, a);
    PassRecords(w, q, a);
    PassSends(w, q, a);
  }

  /** A placement sends nothing exactly when the bar is registered and what it wants reserved is what is held,
      unmoved. */
  lemma SilentExactly(w: World, q: Wanted, a: Answers)
    requires Known(w)
    ensures Passed(w, q, a).sent == w.sent <==>
            w.record.registered && w.record.reservation == q.reservation &&
            (q.reservation.NoReservation? || (!w.stale && w.record.edge == q.edge && w.record.dpi == q.dpi &&
                                              w.record.proposal == q.proposal))
  {
    PassSends(w, q, a);
    var w0 := w.(stale := false);
    var w1 := if Drops(w.record, q) then Unregistered(w0, a.inRemove.restarted) else w0;
    assert |w1.sent| == |w.sent| + if Drops(w.record, q) then 1 else 0;
    var w2 := if Keeps(w.record, q) then w1 else Registered(w1, a);
    assert |w2.sent| == |w1.sent| + if Keeps(w.record, q) then 0 else 1;
  }

  /** An accepted placement repeated with unchanged inputs, and no move reported meanwhile, sends nothing. */
  lemma RepeatSendsNothing(w: World, q: Wanted, a: Answers, again: Answers)
    requires Inv(w) && Passed(w, q, a).record.registered && !Passed(w, q, a).stale
    ensures Passed(Passed(w, q, a), q, again).sent == Passed(w, q, a).sent
  {
    PassKeepsInv(w, q, a);
    PassRecords(w, q, a);
    SilentExactly(Passed(w, q, a), q, again);
  }

  /** A move the shell reports while a pass waits in a message that leaves a reservation in place is kept for the next
      pass, which reserves again. */
  lemma ReportedMoveReservesAgain(w: World, q: Wanted, a: Answers, again: Answers)
    requires Inv(w) && !q.reservation.NoReservation? && Passed(w, q, a).record.registered
    requires (a.inNew.moved && !Keeps(w.record, q)) || a.after.moved ||
             ((a.inQuery.moved || a.inSet.moved) && Reserves(w.record, q, w.stale))
    ensures Passed(w, q, a).stale
    ensures Reserves(Passed(w, q, a).record, q, true)
    ensures var w' := Passed(w, q, a);
            |Passed(w', q, again).sent| == |w'.sent| + 2 && Passed(w', q, again).sent[|w'.sent| + 1].message == SetPos
  {
    PassSends(w, q, a);
    PassKeepsInv(w, q, a);
    PassRecords(w, q, a);
    PassSends(Passed(w, q, a), q, again);
  }

  /** The reserved strip of an autohide bar is the collapsed window of the bar placed on it, whenever the shell keeps
      the depth it was handed. */
  lemma StripIsTheCollapsedBar(w: World, q: Wanted, a: Answers, work: Rect, thickness: int)
    requires Inv(w) && q.reservation.Strip? && q.edge != NoEdge && Passed(w, q, a).record.registered
    requires Cross(Passed(w, q, a).record.reserved, q.edge) == q.px
    ensures var record := Passed(w, q, a).record;
            Trimmed(FullRect(record, q.edge, work, thickness), q.edge, q.px) == record.reserved
  {
    PassRecords(w, q, a);
    var record := Passed(w, q, a).record;
    CollapsedWindowIsTheReservation(record.reserved, q.edge, thickness);
  }

  /** A dock wants reserved, against its monitor's edge, exactly what its window covers when nothing reveals it: the
      strip of an autohide bar, the whole of a fixed one, and nothing only for a fixed bar that leaves the work area
      alone. */
  lemma WantedIsTheRestingBar(mode: Mode, reserveWorkArea: bool, monitor: Rect, edge: Edge, dpi: nat, thickness: int,
                              peek: int)
    requires edge != NoEdge && 1 <= peek <= thickness
    ensures var q := WantedFor(mode, reserveWorkArea, monitor, edge, dpi, thickness, peek);
            var full := Trimmed(monitor, edge, thickness);
            (q.reservation.NoReservation? <==> mode.Fixed? && !reserveWorkArea) &&
                (q.reservation.Strip? <==> mode.Autohide?) &&
            (q.reservation.NoReservation? ==> q.proposal == EMPTY_RECT) &&
            (!q.reservation.NoReservation? ==>
              q.proposal == Trimmed(full, edge, if mode.Autohide? then peek else thickness) &&
              Cross(q.proposal, edge) == q.px && OuterEdge(q.proposal, edge) == OuterEdge(monitor, edge))
  {
  }

  /** The bar is as thick as its thickness, from the outer edge of what the shell holds for it, or of the work area when
      it holds nothing. */
  lemma FullRectSpelled(record: Record, edge: Edge, work: Rect, thickness: int)
    requires edge != NoEdge
    ensures var full := FullRect(record, edge, work, thickness);
            var base := if record.registered && record.reservation != NoReservation then record.reserved else work;
            Cross(full, edge) == thickness && OuterEdge(full, edge) == OuterEdge(base, edge) &&
            Along(full, edge) == Along(base, edge)
  {
  }

  /** A removal tells the shell exactly when the bar is registered, and forgets the record and every move reported. */
  lemma RemovalForgets(w: World, restarted: bool)
    requires Inv(w)
    ensures var w' := Unregistered(w, restarted);
            w'.record == Record(false, NoReservation, NoEdge, 0, Rect(0, 0, 0, 0), Rect(0, 0, 0, 0)) && !w'.stale &&
            w'.shell == Absent &&
            if w.record.registered then |w'.sent| == |w.sent| + 1 && w'.sent[|w.sent|].message == Remove
            else w'.sent == w.sent
  {
  }
}
