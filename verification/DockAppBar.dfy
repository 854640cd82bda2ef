// The dock's app-bar registration: the message planner of RedXe/DockPlacement.h, the placement pass and the handlers of
// RedXe/Application.cpp that send its messages, and beside them a model of what the shell holds for the window.
module DockAppBars {
  import opened Basics
  import opened DockGeometry

  datatype Mode = Fixed | Autohide
  datatype Reservation = NoReservation | Bar | Strip
  datatype Message = New | Remove | QueryPos | SetPos

  const EMPTY_RECT := Rect(0, 0, 0, 0)

  /** DockAppBarState: what RedXe believes the shell holds. */
  datatype Record = Record(registered: bool, reservation: Reservation, edge: Edge, dpi: nat, proposal: Rect,
                           reserved: Rect)
  {
    predicate Reserves() { registered && !reservation.NoReservation? }
  }

  function NoRecord(): (r: Record) { Record(false, NoReservation, NoEdge, 0, EMPTY_RECT, EMPTY_RECT) }

  /** What the shell holds: no bar, or the bar with the last rectangle set for it. A position is set only after it has
      been queried. */
  datatype Shell = Absent | Holding(committed: Option<(Edge, Rect)>, queried: bool)

  /** A message as the shell found it: whether it was legal then, and whether RedXe had yet to hear of a restart. */
  datatype Sent = Sent(message: Message, rect: Rect, legal: bool, inGap: bool)

  /** The record, the mark that the shell may have moved the reservation, the shell, and the messages sent so far. The
      gap lasts from an Explorer restart to the TaskbarCreated message RedXe handles for it. */
  datatype World = World(record: Record, stale: bool, shell: Shell, gap: bool, sent: seq<Sent>)

  /** What one placement pass asks for: a reservation `px` deep, proposed as `proposal`. */
  datatype Wanted = Wanted(reservation: Reservation, edge: Edge, proposal: Rect, dpi: nat, px: int)

  /** What happens while RedXe waits in a call: the shell reports a move (ABN_POSCHANGED, ABN_STATECHANGE, a display
      change), or Explorer has restarted when the call gets through. */
  datatype Wait = Wait(moved: bool, restarted: bool)

  /** The shell's answers to the messages of one pass, and what happens in each and in the window calls after them. */
  datatype Answers = Answers(accepts: bool, queried: Rect, committed: Rect, inRemove: Wait, inNew: Wait, inQuery: Wait,
                             inSet: Wait, after: Wait)

  // ---------------------------------------------------------------------------------------------------------------
  // What is wanted

  function ReservationFor(mode: Mode, reserveWorkArea: bool): (r: Reservation) {
    if mode.Autohide? then Strip else if reserveWorkArea then Bar else NoReservation
  }

  function ReservedPixels(reservation: Reservation, thickness: int, peek: int): (r: int) {
    match reservation
    case Bar => thickness
    case Strip => peek
    case NoReservation => 0
  }

  function Proposal(reservation: Reservation, monitor: Rect, edge: Edge, thickness: int, peek: int): (r: Rect) {
    var px := ReservedPixels(reservation, thickness, peek);
    if px > 0 then Trimmed(monitor, edge, px) else EMPTY_RECT
  }

  function WantedFor(mode: Mode, reserveWorkArea: bool, monitor: Rect, edge: Edge, dpi: nat, thickness: int, peek: int)
    : (r: Wanted)
  {
    var reservation := ReservationFor(mode, reserveWorkArea);
    Wanted(reservation, edge, Proposal(reservation, monitor, edge, thickness, peek), dpi,
           ReservedPixels(reservation, thickness, peek))
  }

  // ---------------------------------------------------------------------------------------------------------------
  // The shell

  predicate LegalNow(shell: Shell, message: Message) {
    match message
    case New => shell.Absent?
    case Remove => shell.Holding?
    case QueryPos => shell.Holding?
    case SetPos => shell.Holding? && shell.queried
  }

  /** A restarted Explorer knows no app bar. */
  function Restarted(w: World, restarted: bool): (r: World) {
    if restarted then w.(shell := Absent, gap := true) else w
  }

  /** One message. ABM_NEW is refused for a bar the shell already holds, and for reasons of its own. */
  function Told(w: World, message: Message, edge: Edge, rect: Rect, accepts: bool, committed: Rect, restarted: bool)
    : (r: World)
  {
    var heard := Restarted(w, restarted);
    var shell :=
      match message
      case New => if heard.shell.Absent? && accepts then Holding(None, false) else heard.shell
      case Remove => Absent
      case QueryPos => if heard.shell.Holding? then heard.shell.(queried := true) else heard.shell
      case SetPos => if heard.shell.Holding? then Holding(Some((edge, committed)), false) else heard.shell;
    heard.(shell := shell, sent := w.sent + [Sent(message, rect, LegalNow(heard.shell, message), heard.gap)])
  }

  // ---------------------------------------------------------------------------------------------------------------
  // The plan

  function Held(record: Record): (r: Reservation) {
    if record.registered then record.reservation else NoReservation
  }

  predicate Drops(record: Record, q: Wanted) {
    !Held(record).NoReservation? && q.reservation.NoReservation?
  }

  predicate Keeps(record: Record, q: Wanted) { record.registered && !Drops(record, q) }

  predicate Changed(record: Record, q: Wanted) {
    Held(record) != q.reservation || record.edge != q.edge || record.dpi != q.dpi || record.proposal != q.proposal
  }

  predicate Reserves(record: Record, q: Wanted, stale: bool) {
    !q.reservation.NoReservation? && (!Keeps(record, q) || stale || Changed(record, q))
  }

  function Planned(record: Record, q: Wanted, stale: bool): (plan: seq<Message>)
    ensures |plan| <= 4
  {
    (if Drops(record, q) then [Remove] else []) +
    (if Keeps(record, q) then [] else [New]) +
    (if Reserves(record, q, stale) then [QueryPos, SetPos] else [])
  }

  // ---------------------------------------------------------------------------------------------------------------
  // The handlers

  function Registered(w: World, a: Answers): (r: World) {
    if w.record.registered then w else
    var told := Told(w, New, NoEdge, EMPTY_RECT, a.accepts, EMPTY_RECT, a.inNew.restarted);
    told.(record := NoRecord().(registered := Restarted(w, a.inNew.restarted).shell.Absent? && a.accepts),
          stale := w.stale || a.inNew.moved)
  }

  function Unregistered(w: World, restarted: bool): (r: World) {
    var told := if w.record.registered then Told(w, Remove, NoEdge, EMPTY_RECT, false, EMPTY_RECT, restarted) else w;
    told.(record := NoRecord(), stale := false)
  }

  function Committed(record: Record, q: Wanted, reserved: Rect): (r: Record) {
    record.(reservation := q.reservation, edge := q.edge, dpi := q.dpi, proposal := q.proposal, reserved := reserved)
  }

  function Queried(w: World, q: Wanted, a: Answers): (r: World) {
    if !w.record.registered then w else
    Told(w, QueryPos, q.edge, q.proposal, false, EMPTY_RECT, a.inQuery.restarted).(stale := w.stale || a.inQuery.moved)
  }

  /** The rectangle RedXe hands to ABM_SETPOS: what the shell answered, at the reservation's own depth. */
  function Handed(q: Wanted, a: Answers): (r: Rect) { Trimmed(a.queried, q.edge, q.px) }

  function Set(w: World, q: Wanted, a: Answers): (r: World) {
    if !w.record.registered then w else
    var told := Told(w, SetPos, q.edge, Handed(q, a), false, a.committed, a.inSet.restarted);
    told.(record := Committed(w.record, q, a.committed), stale := w.stale || a.inSet.moved)
  }

  /** One turn of the loop over the plan. */
  function Answered(w: World, message: Message, q: Wanted, a: Answers): (r: World) {
    match message
    case New => Registered(w, a)
    case Remove => Unregistered(w, a.inRemove.restarted)
    case QueryPos => Queried(w, q, a)
    case SetPos => Set(w, q, a)
  }

  function Performed(w: World, plan: seq<Message>, q: Wanted, a: Answers): (r: World)
    decreases |plan|
  {
    if plan == [] then w else Performed(Answered(w, plan[0], q, a), plan[1..], q, a)
  }

  /** One placement pass up to its last shell or window call. */
  function Passed(w: World, q: Wanted, a: Answers): (r: World) {
    var done := Performed(w.(stale := false), Planned(w.record, q, w.stale), q, a);
    Restarted(done, a.after.restarted).(stale := done.stale || a.after.moved)
  }

  /** The full bar of a pass: grown from the rectangle the shell committed, or along the edge of the work area. */
  function FullRect(record: Record, edge: Edge, work: Rect, thickness: int): (r: Rect) {
    if record.Reserves() then Trimmed(record.reserved, edge, thickness) else Trimmed(work, edge, thickness)
  }

  /** The removal with which OnTaskbarCreated ends the gap, unless Explorer restarts once more while it waits in it. */
  function Forgotten(w: World, a: Answers): (r: World) {
    Unregistered(w, a.inRemove.restarted).(gap := w.record.registered && a.inRemove.restarted)
  }

  function Renewed(w: World, q: Wanted, a: Answers): (r: World) { Passed(Forgotten(w, a), q, a) }

  // ---------------------------------------------------------------------------------------------------------------
  // The code that updates it in place

  /** The part of Application that keeps the app bar; `shell`, `gap` and `sent` stand for the shell on the other
      side. */
  class DockAppBar {
    var record: Record
    var stale: bool
    var shell: Shell
    var gap: bool
    var sent: seq<Sent>

    function Value(): (r: World)
      reads this
    {
      World(record, stale, shell, gap, sent)
    }

    constructor ()
      ensures Value() == World(NoRecord(), false, Absent, false, [])
    {
      record, stale, shell, gap, sent := NoRecord(), false, Absent, false, [];
    }

    // Explorer, on the other side.
    method Restart(restarted: bool)
      modifies this`shell, this`gap
      ensures Value() == Restarted(old(Value()), restarted)
    {
      if restarted {
        shell, gap := Absent, true;
      }
    }

    /** SHAppBarMessage. */
    method Tell(message: Message, edge: Edge, rect: Rect, accepts: bool, committed: Rect, restarted: bool)
      returns (accepted: bool)
      modifies this`shell, this`gap, this`sent
      ensures Value() == Told(old(Value()), message, edge, rect, accepts, committed, restarted)
      ensures message.New? ==> (accepted <==> Restarted(old(Value()), restarted).shell.Absent? && accepts)
    {
      Restart(restarted);
      sent := sent + [Sent(message, rect, LegalNow(shell, message), gap)];
      accepted := true;
      match message {
        case New =>
          accepted := shell.Absent? && accepts;
          if accepted { shell := Holding(None, false); }
        case Remove =>
          shell := Absent;
        case QueryPos =>
          if shell.Holding? { shell := shell.(queried := true); }
        case SetPos =>
          if shell.Holding? { shell := Holding(Some((edge, committed)), false); }
      }
    }

    method Register(a: Answers)
      modifies this
      ensures Value() == Registered(old(Value()), a)
    {
      if record.registered {
        return;
      }
      record := NoRecord();
      var accepted := Tell(New, NoEdge, EMPTY_RECT, a.accepts, EMPTY_RECT, a.inNew.restarted);
      record := record.(registered := accepted);
      stale := stale || a.inNew.moved;
    }

    method Unregister(restarted: bool)
      modifies this
      ensures Value() == Unregistered(old(Value()), restarted)
    {
      if record.registered {
        var _ := Tell(Remove, NoEdge, EMPTY_RECT, false, EMPTY_RECT, restarted);
      }
      record := NoRecord();
      stale := false;
    }

    /** PlanDockAppBar. */
    method Plan(q: Wanted, wasStale: bool) returns (plan: seq<Message>)
      ensures plan == Planned(record, q, wasStale)
    {
      plan := [];
      var registered := record.registered;
      var held := if registered then record.reservation else NoReservation;
      if !held.NoReservation? && q.reservation.NoReservation? {
        plan := plan + [Remove];
        registered := false;
        held := NoReservation;
      }
      if !registered {
        plan := plan + [New];
      }
      var changed := held != q.reservation || record.edge != q.edge || record.dpi != q.dpi ||
          record.proposal != q.proposal;
      if !q.reservation.NoReservation? && (!registered || wasStale || changed) {
        plan := plan + [QueryPos];
        plan := plan + [SetPos];
      }
    }

    /** One message of the plan; `rc` is the rectangle handed from a query to the position set after it. */
    method Send(message: Message, rc: Rect, q: Wanted, a: Answers) returns (next: Rect)
      requires message.SetPos? && record.registered ==> rc == a.queried
      modifies this
      ensures Value() == Answered(old(Value()), message, q, a)
      ensures message.QueryPos? && record.registered ==> next == a.queried
    {
      next := rc;
      match message {
        case Remove =>
          Unregister(a.inRemove.restarted);
        case New =>
          Register(a);
        case QueryPos =>
          if record.registered {
            var _ := Tell(QueryPos, q.edge, q.proposal, false, EMPTY_RECT, a.inQuery.restarted);
            next := a.queried;
            stale := stale || a.inQuery.moved;
          }
        case SetPos =>
          if record.registered {
            var trimmed := Trimmed(rc, q.edge, q.px);
            var _ := Tell(SetPos, q.edge, trimmed, false, a.committed, a.inSet.restarted);
            next := a.committed;
            record := Committed(record, q, next);
            stale := stale || a.inSet.moved;
          }
      }
    }

    /** The messages of a plan, in order. */
    method SendAll(plan: seq<Message>, q: Wanted, a: Answers)
      requires forall j :: 0 <= j < |plan| && plan[j].SetPos? ==> j > 0 && plan[j - 1].QueryPos?
      modifies this
      ensures Value() == Performed(old(Value()), plan, q, a)
    {
      ghost var start := Value();
      var rc := EMPTY_RECT;
      var i := 0;
      assert plan[0..] == plan;
      while i < |plan|
        invariant i <= |plan|
        invariant Performed(Value(), plan[i..], q, a) == Performed(start, plan, q, a)
        invariant i > 0 && plan[i - 1].QueryPos? && record.registered ==> rc == a.queried
      {
        assert plan[i..][1..] == plan[i + 1..];
        rc := Send(plan[i], rc, q, a);
        i := i + 1;
      }
    }

    /** The registration part of PlaceDockPass. */
    method Pass(q: Wanted, a: Answers)
      modifies this
      ensures Value() == Passed(old(Value()), q, a)
    {
      var wasStale := stale;
      stale := false;
      var plan := Plan(q, wasStale);
      SendAll(plan, q, a);
      Restart(a.after.restarted);
      stale := stale || a.after.moved;
    }

    /** OnTaskbarCreated outside a placement: the bar is removed, registered again and placed. */
    method Renew(q: Wanted, a: Answers)
      modifies this
      ensures Value() == Renewed(old(Value()), q, a)
    {
      var wasRegistered := record.registered;
      Unregister(a.inRemove.restarted);
      gap := wasRegistered && a.inRemove.restarted;
      Pass(q, a);
    }
  }
}
