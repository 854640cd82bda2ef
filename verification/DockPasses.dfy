// RedXe/DockPlacement.h and Application::PlaceDock: a placement moves the window and calls the shell, and while it
// waits more placements can be asked for. They are recorded, and the running placement makes bounded extra passes for
// them.
module DockPasses {

  const MAXIMUM_EXTRA_PASSES: nat := 2

  datatype Requests = Requests(placing: bool, again: bool, againResizes: bool, extraPasses: nat)

  function Idle(): (r: Requests) { Requests(false, false, false, 0) }

  /** One pass of a placement: whether the dashboard follows, and whether the dock was still there to be placed. */
  datatype Pass = Pass(resizes: bool, ran: bool)

  /** `asked(i)` are the requests, each with its wish to resize, heard inside pass `i`; `live(i)` says whether the dock
      is still active when pass `i` would start. */
  datatype Script = Script(asked: nat -> seq<bool>, live: nat -> bool)
  {
    function Heard(i: nat): (r: seq<bool>) { if i == 0 || live(i) then asked(i) else [] }
  }

  /** The passes one outer placement makes: the first as asked; another after each pass that heard a request, while
      extra passes are left, resizing exactly when one of those requests asked for it. */
  ghost predicate Faithful(passes: seq<Pass>, resizes: bool, script: Script) {
    1 <= |passes| <= 1 + MAXIMUM_EXTRA_PASSES &&
    passes[0] == Pass(resizes, true) &&
    (forall i :: 0 <= i < |passes| ==> (i + 1 < |passes| <==> i < MAXIMUM_EXTRA_PASSES && script.Heard(i) != [])) &&
    forall i :: 0 < i < |passes| ==> passes[i] == Pass(true in script.Heard(i - 1), script.live(i))
  }

  /** That leaves no freedom: a placement's passes are determined by what asked for them. */
  lemma {:induction false} FaithfulPrefix(a: seq<Pass>, b: seq<Pass>, resizes: bool, script: Script, n: nat)
    requires Faithful(a, resizes, script) && Faithful(b, resizes, script) && n <= |a|
    ensures n <= |b| && a[..n] == b[..n]
  {
    if n > 1 {
      FaithfulPrefix(a, b, resizes, script, n - 1);
      assert script.Heard(n - 2) != [];
      assert n - 1 < |b|;
      assert a[n - 1] == b[n - 1];
      assert a[..n] == a[..n - 1] + [a[n - 1]] && b[..n] == b[..n - 1] + [b[n - 1]];
    } else if n == 1 {
      assert a[..1] == [a[0]] && b[..1] == [b[0]];
    }
  }

  lemma PassesAreDetermined(a: seq<Pass>, b: seq<Pass>, resizes: bool, script: Script)
    requires Faithful(a, resizes, script) && Faithful(b, resizes, script)
    ensures a == b
  {
    FaithfulPrefix(a, b, resizes, script, |a|);
    FaithfulPrefix(b, a, resizes, script, |b|);
    assert a[..|a|] == a && b[..|b|] == b;
  }

  /** A request recorded in a pass with an extra pass left is followed by a pass, which resizes if the request asked. */
  lemma RecordedRequestIsFollowed(passes: seq<Pass>, resizes: bool, script: Script, i: nat, asked: bool)
    requires Faithful(passes, resizes, script) && i < |passes| && asked in script.Heard(i) && i < MAXIMUM_EXTRA_PASSES
    ensures i + 1 < |passes| && (asked ==> passes[i + 1].resizes)
  {
    assert script.Heard(i) != [];
  }

  /** The dashboard follows only where a request asked it to. */
  lemma ResizesAreAskedFor(passes: seq<Pass>, resizes: bool, script: Script, i: nat)
    requires Faithful(passes, resizes, script) && i < |passes| && passes[i].resizes
    ensures if i == 0 then resizes else true in script.Heard(i - 1)
  {
  }

  // ---------------------------------------------------------------------------------------------------------------
  // The record and its driver

  class DockPlacement {
    var placing: bool
    var again: bool
    var againResizes: bool
    var extraPasses: nat

    function Value(): (r: Requests)
      reads this
    {
      Requests(placing, again, againResizes, extraPasses)
    }

    constructor ()
      ensures Value() == Idle()
    {
      placing, again, againResizes, extraPasses := false, false, false, 0;
    }

    /** BeginDockPlacement: the caller places now, or the running placement has the request recorded. */
    method Begin(resizes: bool) returns (first: bool)
      modifies this
      ensures first == !old(placing)
      ensures first ==> Value() == Idle().(placing := true)
      ensures !first ==> Value() == old(Value()).(again := true, againResizes := old(againResizes) || resizes)
    {
      if placing {
        again := true;
        againResizes := againResizes || resizes;
        return false;
      }
      placing, again, againResizes, extraPasses := true, false, false, 0;
      return true;
    }

    /** NextDockPlacementPass: one more pass for the recorded requests, or the end of the placement. */
    method NextPass() returns (more: bool, resizes: bool)
      modifies this
      ensures more == (old(placing) && old(again) && old(extraPasses) < MAXIMUM_EXTRA_PASSES)
      ensures more ==> resizes == old(againResizes) && Value() == Requests(true, false, false, old(extraPasses) + 1)
      ensures !more ==> Value() == Idle()
    {
      if !placing || !again || extraPasses >= MAXIMUM_EXTRA_PASSES {
        placing, again, againResizes, extraPasses := false, false, false, 0;
        return false, false;
      }
      resizes := againResizes;
      again := false;
      againResizes := false;
      extraPasses := extraPasses + 1;
      more := true;
    }

    /** The requests heard inside a pass: each comes through PlaceDock, finds it placing and is recorded. */
    method Hear(asked: seq<bool>)
      requires placing && !again && !againResizes
      modifies this
      ensures Value() == old(Value()).(again := asked != [], againResizes := true in asked)
    {
      for i := 0 to |asked|
        invariant Value() == old(Value()).(again := i > 0, againResizes := true in asked[..i])
      {
        var first := Begin(asked[i]);
        assert !first && asked[..i + 1] == asked[..i] + [asked[i]];
      }
      assert asked[..|asked|] == asked;
    }

    /** PlaceDock on an active dock: whatever is asked for inside the passes, there are at most three of them, they are
        the faithful ones, and the dock ends not placing. */
    method PlaceDock(resizes: bool, script: Script) returns (passes: seq<Pass>)
      requires !placing
      modifies this
      ensures Faithful(passes, resizes, script)
      ensures Value() == Idle()
    {
      var first := Begin(resizes);
      assert first;
      passes := [Pass(resizes, true)];
      Hear(script.asked(0));
      var more, resizeAgain := NextPass();
      while more
        invariant 1 <= |passes| <= 1 + MAXIMUM_EXTRA_PASSES && passes[0] == Pass(resizes, true)
        invariant forall i :: 0 <= i < |passes| - 1 ==> i < MAXIMUM_EXTRA_PASSES && script.Heard(i) != []
        invariant forall i :: 0 < i < |passes| ==> passes[i] == Pass(true in script.Heard(i - 1), script.live(i))
        invariant more ==> |passes| <= MAXIMUM_EXTRA_PASSES && script.Heard(|passes| - 1) != [] &&
                           resizeAgain == (true in script.Heard(|passes| - 1)) &&
                           Value() == Requests(true, false, false, |passes|)
        invariant !more ==> Value() == Idle() && (|passes| > MAXIMUM_EXTRA_PASSES || script.Heard(|passes| - 1) == [])
        decreases MAXIMUM_EXTRA_PASSES + 1 - |passes|, more
      {
        var pass := |passes|;
        var live := script.live(pass);
        passes := passes + [Pass(resizeAgain, live)];
        if live {
          Hear(script.asked(pass));
        }
        more, resizeAgain := NextPass();
      }
    }
  }
}
