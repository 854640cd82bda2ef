// RedXe/DashboardHost.cpp: pixel bounds of dashboard tiles placed by ratio splits. Every tile folds only its own path
// of split steps, yet the tiles of one page must fit together exactly.
module Layout {
  import opened Basics

  datatype Axis = LongSide | ShortSide

  /** One ratio split: the child takes `size` of `total` after `preceding`. */
  datatype SplitStep = SplitStep(axis: Axis, preceding: nat, size: nat, total: nat)
  {
    predicate Proper() { size > 0 && total > 0 && preceding + size <= total }
  }

  // ---------------------------------------------------------------------------------------------------------------
  // Floor arithmetic

  /** `ratio` parts of `total` of an extent, rounded down. */
  function Share(extent: nat, ratio: nat, total: nat): (r: nat)
    requires total > 0
  {
    extent * ratio / total
  }

  lemma ShareMonotone(extent: nat, a: nat, b: nat, total: nat)
    requires total > 0 && a <= b <= total
    ensures 0 == Share(extent, 0, total) <= Share(extent, a, total) <= Share(extent, b, total) <=
            Share(extent, total, total) == extent
  {
    MulMonotone(0, a, extent);
    MulMonotone(a, b, extent);
    MulMonotone(b, total, extent);
    DivMonotone(extent * a, extent * b, total);
    DivMonotone(extent * b, extent * total, total);
    QuotientIs(extent * total, total, extent);
  }

  // ---------------------------------------------------------------------------------------------------------------
  // Folding a path

  /** One turn of the loop: the bounds narrowed along the axis the step splits. */
  function Narrowed(bounds: Rect, step: SplitStep, landscape: bool): (r: Rect)
    requires step.Proper() && bounds.Ordered()
    ensures r.Inside(bounds)
  {
    if step.axis.LongSide? == landscape then
      var extent := bounds.right - bounds.left;
      ShareMonotone(extent, step.preceding, step.preceding + step.size, step.total);
      bounds.(left := bounds.left + Share(extent, step.preceding, step.total),
              right := bounds.left + Share(extent, step.preceding + step.size, step.total))
    else
      var extent := bounds.bottom - bounds.top;
      ShareMonotone(extent, step.preceding, step.preceding + step.size, step.total);
      bounds.(top := bounds.top + Share(extent, step.preceding, step.total),
              bottom := bounds.top + Share(extent, step.preceding + step.size, step.total))
  }

  predicate AllProper(path: seq<SplitStep>) { forall i :: 0 <= i < |path| ==> path[i].Proper() }

  /** The bounds a path of proper steps folds to. */
  function Folded(bounds: Rect, path: seq<SplitStep>, landscape: bool): (r: Rect)
    requires AllProper(path) && bounds.Ordered()
    ensures r.Inside(bounds)
    decreases path
  {
    if path == [] then bounds else Folded(Narrowed(bounds, path[0], landscape), path[1..], landscape)
  }

  lemma {:induction false} FoldedSnoc(bounds: Rect, path: seq<SplitStep>, step: SplitStep, landscape: bool)
    requires AllProper(path) && step.Proper() && bounds.Ordered()
    ensures AllProper(path + [step])
    ensures Folded(bounds, path + [step], landscape) == Narrowed(Folded(bounds, path, landscape), step, landscape)
    decreases path
  {
    if path != [] {
      assert (path + [step])[1..] == path[1..] + [step];
      FoldedSnoc(Narrowed(bounds, path[0], landscape), path[1..], step, landscape);
    }
  }

  function CanvasBounds(width: nat, height: nat): (r: Rect)
    ensures r.Ordered()
  {
    Rect(0, 0, width, height)
  }

  /** Where a tile's path puts it on a canvas; an improper step makes the tile empty. */
  function TileBounds(path: seq<SplitStep>, width: nat, height: nat): (r: Rect) {
    if AllProper(path) then Folded(CanvasBounds(width, height), path, width >= height) else Rect(0, 0, 0, 0)
  }

  method ToAdaptivePixelBounds(path: seq<SplitStep>, width: nat, height: nat) returns (bounds: Rect)
    ensures bounds == TileBounds(path, width, height)
  {
    bounds := Rect(0, 0, width, height);
    var landscape := width >= height;
    for index := 0 to |path|
      invariant AllProper(path[..index]) && bounds == Folded(CanvasBounds(width, height), path[..index], landscape)
    {
      var step := path[index];
      if step.size == 0 || step.total == 0 || step.preceding + step.size > step.total {
        return Rect(0, 0, 0, 0);
      }
      FoldedSnoc(CanvasBounds(width, height), path[..index], step, landscape);
      assert path[..index + 1] == path[..index] + [step];
      var horizontal := (step.axis == LongSide) == landscape;
      var origin := if horizontal then bounds.left else bounds.top;
      var extent := if horizontal then bounds.right - bounds.left else bounds.bottom - bounds.top;
      var first := origin + Share(extent, step.preceding, step.total);
      var last := origin + Share(extent, step.preceding + step.size, step.total);
      bounds := if horizontal then bounds.(left := first, right := last) else bounds.(top := first, bottom := last);
    }
    assert path[..|path|] == path;
  }

  // ---------------------------------------------------------------------------------------------------------------
  // Ratio split trees

  /** A page layout as the settings parser reads it: a tile, or an axis split among weighted items. */
  datatype Tree = Tile | Split(axis: Axis, items: Items)
  datatype Items = Last | Item(weight: nat, tree: Tree, rest: Items)

  function Total(items: Items): (r: nat) {
    match items case Last => 0 case Item(weight, _, rest) => weight + Total(rest)
  }

  predicate WellFormed(tree: Tree) {
    match tree case Tile => true case Split(_, items) => items.Item? && WellFormedItems(items)
  }

  predicate WellFormedItems(items: Items) {
    match items
    case Last => true
    case Item(weight, tree, rest) => weight > 0 && WellFormed(tree) && WellFormedItems(rest)
  }

  function Prefixed(step: SplitStep, paths: seq<seq<SplitStep>>): (r: seq<seq<SplitStep>>)
    ensures |r| == |paths|
  {
    seq(|paths|, i requires 0 <= i < |paths| => [step] + paths[i])
  }

  /** The step paths of the tiles in reading order, as the parser records them. */
  function Paths(tree: Tree): (paths: seq<seq<SplitStep>>)
    decreases tree
  {
    match tree case Tile => [[]] case Split(axis, items) => ItemPaths(axis, items, 0, Total(items))
  }

  function ItemPaths(axis: Axis, items: Items, preceding: nat, total: nat): (paths: seq<seq<SplitStep>>)
    decreases items
  {
    match items
    case Last => []
    case Item(weight, tree, rest) =>
      Prefixed(SplitStep(axis, preceding, weight, total), Paths(tree)) +
          ItemPaths(axis, rest, preceding + weight, total)
  }

  // ---------------------------------------------------------------------------------------------------------------
  // The tiles of a page fit together exactly

  /** How many of the paths fold to bounds that contain the pixel. */
  function Covering(bounds: Rect, paths: seq<seq<SplitStep>>, landscape: bool, x: int, y: int): (r: nat)
    requires bounds.Ordered() && forall i :: 0 <= i < |paths| ==> AllProper(paths[i])
  {
    if paths == [] then 0 else
    (if Folded(bounds, paths[0], landscape).Contains(x, y) then 1 else 0) +
        Covering(bounds, paths[1..], landscape, x, y)
  }

  lemma {:induction false} CoveringConcat(bounds: Rect, a: seq<seq<SplitStep>>, b: seq<seq<SplitStep>>, landscape: bool,
                                          x: int, y: int)
    requires bounds.Ordered()
    requires forall i :: 0 <= i < |a| ==> AllProper(a[i])
    requires forall i :: 0 <= i < |b| ==> AllProper(b[i])
    ensures forall i :: 0 <= i < |a + b| ==> AllProper((a + b)[i])
    ensures Covering(bounds, a + b, landscape, x, y) ==
              Covering(bounds, a, landscape, x, y) + Covering(bounds, b, landscape, x, y)
    decreases a
  {
    if a == [] {
      assert a + b == b;
    } else {
      CoveringConcat(bounds, a[1..], b, landscape, x, y);
      assert (a + b)[1..] == a[1..] + b;
    }
  }

  lemma {:induction false} CoveringPrefixed(bounds: Rect, step: SplitStep, paths: seq<seq<SplitStep>>, landscape: bool,
                                            x: int, y: int)
    requires bounds.Ordered() && step.Proper() && forall i :: 0 <= i < |paths| ==> AllProper(paths[i])
    ensures forall i :: 0 <= i < |paths| ==> AllProper(Prefixed(step, paths)[i])
    ensures Covering(bounds, Prefixed(step, paths), landscape, x, y) ==
            Covering(Narrowed(bounds, step, landscape), paths, landscape, x, y)
    decreases paths
  {
    if paths != [] {
      CoveringPrefixed(bounds, step, paths[1..], landscape, x, y);
      assert Prefixed(step, paths)[1..] == Prefixed(step, paths[1..]);
      assert ([step] + paths[0])[1..] == paths[0];
    }
  }

  /** The slice of the bounds that items from `preceding` on share. */
  function Remaining(bounds: Rect, axis: Axis, preceding: nat, total: nat, landscape: bool): (r: Rect)
    requires bounds.Ordered() && 0 < total && preceding <= total
    ensures r.Inside(bounds)
  {
    if axis.LongSide? == landscape then
      ShareMonotone(bounds.right - bounds.left, preceding, total, total);
      bounds.(left := bounds.left + Share(bounds.right - bounds.left, preceding, total))
    else
      ShareMonotone(bounds.bottom - bounds.top, preceding, total, total);
      bounds.(top := bounds.top + Share(bounds.bottom - bounds.top, preceding, total))
  }

  lemma SplitsRemaining(bounds: Rect, axis: Axis, preceding: nat, weight: nat, total: nat, landscape: bool, x: int,
                        y: int)
    requires bounds.Ordered() && weight > 0 && preceding + weight <= total
    ensures var item := Narrowed(bounds, SplitStep(axis, preceding, weight, total), landscape);
            var rest := Remaining(bounds, axis, preceding + weight, total, landscape);
            var all := Remaining(bounds, axis, preceding, total, landscape);
            !(item.Contains(x, y) && rest.Contains(x, y)) &&
            (all.Contains(x, y) <==> item.Contains(x, y) || rest.Contains(x, y))
  {
    var extent := if axis.LongSide? == landscape then bounds.right - bounds.left else bounds.bottom - bounds.top;
    ShareMonotone(extent, preceding, preceding + weight, total);
  }

  /** Each pixel of the bounds lies in exactly one tile of a well-formed tree, and no other pixel in any. */
  lemma {:induction false} TreeCovers(tree: Tree, bounds: Rect, landscape: bool, x: int, y: int)
    requires WellFormed(tree) && bounds.Ordered()
    ensures forall i :: 0 <= i < |Paths(tree)| ==> AllProper(Paths(tree)[i])
    ensures Covering(bounds, Paths(tree), landscape, x, y) == if bounds.Contains(x, y) then 1 else 0
    decreases tree
  {
    match tree
    case Tile =>
      assert Paths(tree)[1..] == [];
    case Split(axis, items) =>
      ItemsCover(axis, items, 0, Total(items), bounds, landscape, x, y);
      ShareMonotone(bounds.right - bounds.left, 0, Total(items), Total(items));
      ShareMonotone(bounds.bottom - bounds.top, 0, Total(items), Total(items));
  }

  lemma {:induction false} ItemsCover(axis: Axis, items: Items, preceding: nat, total: nat, bounds: Rect,
                                      landscape: bool,
                                      x: int, y: int)
    requires WellFormedItems(items) && bounds.Ordered() && 0 < total && preceding + Total(items) == total
    ensures var paths := ItemPaths(axis, items, preceding, total);
            (forall i :: 0 <= i < |paths| ==> AllProper(paths[i])) &&
            Covering(bounds, paths, landscape, x, y) ==
              if Remaining(bounds, axis, preceding, total, landscape).Contains(x, y) then 1 else 0
    decreases items
  {
    match items
    case Last =>
      ShareMonotone(bounds.right - bounds.left, preceding, total, total);
      ShareMonotone(bounds.bottom - bounds.top, preceding, total, total);
    case Item(weight, tree, rest) =>
      var step := SplitStep(axis, preceding, weight, total);
      TreeCovers(tree, Narrowed(bounds, step, landscape), landscape, x, y);
      ItemsCover(axis, rest, preceding + weight, total, bounds, landscape, x, y);
      CoveringPrefixed(bounds, step, Paths(tree), landscape, x, y);
      CoveringConcat(bounds, Prefixed(step, Paths(tree)), ItemPaths(axis, rest, preceding + weight, total), landscape,
                     x, y);
      SplitsRemaining(bounds, axis, preceding, weight, total, landscape, x, y);
  }

  /** Path `i` and no other folds to bounds that contain the pixel. */
  ghost predicate Alone(bounds: Rect, paths: seq<seq<SplitStep>>, landscape: bool, x: int, y: int, i: nat)
    requires bounds.Ordered() && forall i :: 0 <= i < |paths| ==> AllProper(paths[i])
  {
    i < |paths| && Folded(bounds, paths[i], landscape).Contains(x, y) &&
    forall j :: 0 <= j < |paths| && j != i ==> !Folded(bounds, paths[j], landscape).Contains(x, y)
  }

  lemma {:induction false} CoveringCounts(bounds: Rect, paths: seq<seq<SplitStep>>, landscape: bool, x: int, y: int)
    requires bounds.Ordered() && forall i :: 0 <= i < |paths| ==> AllProper(paths[i])
    ensures Covering(bounds, paths, landscape, x, y) == 0 ==>
              forall i :: 0 <= i < |paths| ==> !Folded(bounds, paths[i], landscape).Contains(x, y)
    ensures Covering(bounds, paths, landscape, x, y) == 1 ==> exists i: nat :: Alone(bounds, paths, landscape, x, y, i)
    decreases paths
  {
    if paths != [] {
      CoveringCounts(bounds, paths[1..], landscape, x, y);
      assert forall j :: 0 < j < |paths| ==> paths[j] == paths[1..][j - 1];
      if Covering(bounds, paths, landscape, x, y) == 1 {
        if Folded(bounds, paths[0], landscape).Contains(x, y) {
          assert Alone(bounds, paths, landscape, x, y, 0);
        } else {
          var i: nat :| Alone(bounds, paths[1..], landscape, x, y, i);
          AloneFurtherOn(bounds, paths, landscape, x, y, i);
        }
      }
    }
  }

  lemma AloneFurtherOn(bounds: Rect, paths: seq<seq<SplitStep>>, landscape: bool, x: int, y: int, i: nat)
    requires bounds.Ordered() && paths != [] && forall i :: 0 <= i < |paths| ==> AllProper(paths[i])
    requires !Folded(bounds, paths[0], landscape).Contains(x, y) && Alone(bounds, paths[1..], landscape, x, y, i)
    ensures Alone(bounds, paths, landscape, x, y, i + 1)
  {
    assert forall j :: 0 < j < |paths| ==> paths[j] == paths[1..][j - 1];
  }

  /** The tiles of any page tile its canvas, at every size: each pixel of the canvas lies in exactly one tile's bounds,
      computed from that tile's own path, and no tile reaches outside. */
  lemma TilesPartitionCanvas(tree: Tree, width: nat, height: nat, x: int, y: int)
    requires WellFormed(tree)
    ensures 0 <= x < width && 0 <= y < height ==>
              exists i :: 0 <= i < |Paths(tree)| && TileBounds(Paths(tree)[i], width, height).Contains(x, y) &&
                forall j :: 0 <= j < |Paths(tree)| && TileBounds(Paths(tree)[j], width, height).Contains(x, y) ==>
                  j == i
    ensures !(0 <= x < width && 0 <= y < height) ==>
              forall i :: 0 <= i < |Paths(tree)| ==> !TileBounds(Paths(tree)[i], width, height).Contains(x, y)
  {
    var canvas := CanvasBounds(width, height);
    TreeCovers(tree, canvas, width >= height, x, y);
    CoveringCounts(canvas, Paths(tree), width >= height, x, y);
    assert forall i :: 0 <= i < |Paths(tree)| ==>
      TileBounds(Paths(tree)[i], width, height) == Folded(canvas, Paths(tree)[i], width >= height);
    if canvas.Contains(x, y) {
      var i: nat :| Alone(canvas, Paths(tree), width >= height, x, y, i);
      assert TileBounds(Paths(tree)[i], width, height).Contains(x, y);
    }
  }

  // ---------------------------------------------------------------------------------------------------------------
  // Every tile gets its ratio

  /** `edge` is `parts` parts of `total` into an extent from `origin`, rounded down. */
  ghost predicate LiesAt(edge: int, origin: int, extent: int, parts: nat, total: nat) {
    total * (edge - origin) <= extent * parts < total * (edge - origin) + total
  }

  lemma ShareLies(extent: nat, parts: nat, total: nat)
    requires total > 0
    ensures total * Share(extent, parts, total) <= extent * parts < total * Share(extent, parts, total) + total
  {
    assert extent * parts == total * (extent * parts / total) + extent * parts % total;
  }

  /** One more step leaves the side it does not split as it was, and puts both edges of the other side where its ratio
      says. The side it splits is the horizontal one for a long-side step on a canvas at least as wide as high,
          and for a
      short-side step on one that is higher. */
  lemma StepTakesItsShare(path: seq<SplitStep>, step: SplitStep, width: nat, height: nat)
    requires AllProper(path) && step.Proper()
    ensures var before, after := TileBounds(path, width, height), TileBounds(path + [step], width, height);
            var wide, high := before.right - before.left, before.bottom - before.top;
            if (width >= height && step.axis == LongSide) || (width < height && step.axis == ShortSide) then
              after.top == before.top && after.bottom == before.bottom &&
              LiesAt(after.left, before.left, wide, step.preceding, step.total) &&
              LiesAt(after.right, before.left, wide, step.preceding + step.size, step.total)
            else
              after.left == before.left && after.right == before.right &&
              LiesAt(after.top, before.top, high, step.preceding, step.total) &&
              LiesAt(after.bottom, before.top, high, step.preceding + step.size, step.total)
  {
    FoldedSnoc(CanvasBounds(width, height), path, step, width >= height);
    NarrowedShares(TileBounds(path, width, height), step, width >= height);
  }

  lemma NarrowedShares(bounds: Rect, step: SplitStep, landscape: bool)
    requires bounds.Ordered() && step.Proper()
    ensures var after := Narrowed(bounds, step, landscape);
            if (landscape && step.axis == LongSide) || (!landscape && step.axis == ShortSide) then
              after.top == bounds.top && after.bottom == bounds.bottom &&
              LiesAt(after.left, bounds.left, bounds.right - bounds.left, step.preceding, step.total) &&
              LiesAt(after.right, bounds.left, bounds.right - bounds.left, step.preceding + step.size, step.total)
            else
              after.left == bounds.left && after.right == bounds.right &&
              LiesAt(after.top, bounds.top, bounds.bottom - bounds.top, step.preceding, step.total) &&
              LiesAt(after.bottom, bounds.top, bounds.bottom - bounds.top, step.preceding + step.size, step.total)
  {
    var extent := if step.axis.LongSide? == landscape then bounds.right - bounds.left else bounds.bottom - bounds.top;
    ShareLies(extent, step.preceding, step.total);
    ShareLies(extent, step.preceding + step.size, step.total);
  }

  /** A tile without steps is the whole canvas; one with an improper step is empty. */
  lemma StepsBegin(path: seq<SplitStep>, width: nat, height: nat)
    ensures TileBounds([], width, height) == Rect(0, 0, width, height)
    ensures (exists i :: 0 <= i < |path| && Overruns(path[i])) ==> TileBounds(path, width, height) == Rect(0, 0, 0, 0)
  {
    if i :| 0 <= i < |path| && Overruns(path[i]) {
      assert !path[i].Proper();
    }
  }

  predicate Overruns(step: SplitStep) {
    step.size == 0 || step.total == 0 || step.preceding + step.size > step.total
  }

  function Count(items: Items): (r: nat) { if items.Last? then 0 else 1 + Count(items.rest) }

  function Nth(items: Items, k: nat): (r: Items)
    requires k < Count(items)
    ensures r.Item?
  {
    if k == 0 then items else Nth(items.rest, k - 1)
  }

  function WeightBefore(items: Items, k: nat): (r: nat)
    requires k < Count(items)
  {
    if k == 0 then 0 else items.weight + WeightBefore(items.rest, k - 1)
  }

  /** A tile of a split has the split's own step first: its axis, the weights of the items before its own, the weight of
      its own and of all; its other steps are those of a tile inside that item. */
  lemma {:induction false} PathsFollowTheSplit(axis: Axis, items: Items, preceding: nat, total: nat, i: nat)
    requires i < |ItemPaths(axis, items, preceding, total)|
    ensures var path := ItemPaths(axis, items, preceding, total)[i];
            exists k :: 0 <= k < Count(items) && path != [] &&
              path[0] == SplitStep(axis, preceding + WeightBefore(items, k), Nth(items, k).weight, total) &&
              path[1..] in Paths(Nth(items, k).tree)
    decreases items
  {
    var first := Prefixed(SplitStep(axis, preceding, items.weight, total), Paths(items.tree));
    var path := ItemPaths(axis, items, preceding, total)[i];
    if i < |first| {
      assert path == [SplitStep(axis, preceding, items.weight, total)] + Paths(items.tree)[i];
      assert path[1..] == Paths(items.tree)[i];
      assert Nth(items, 0) == items;
    } else {
      var later := ItemPaths(axis, items.rest, preceding + items.weight, total);
      PathsFollowTheSplit(axis, items.rest, preceding + items.weight, total, i - |first|);
      assert path == later[i - |first|];
      var k :| 0 <= k < Count(items.rest) && path != [] &&
        path[0] == SplitStep(axis, preceding + items.weight + WeightBefore(items.rest, k), Nth(items.rest, k).weight,
                             total) &&
        path[1..] in Paths(Nth(items.rest, k).tree);
      assert Nth(items, k + 1) == Nth(items.rest, k);
    }
  }

  // ---------------------------------------------------------------------------------------------------------------
  // Turning the canvas

  lemma {:induction false} FoldedTransposes(bounds: Rect, path: seq<SplitStep>, landscape: bool)
    requires AllProper(path) && bounds.Ordered()
    ensures Folded(bounds.Transposed(), path, !landscape) == Folded(bounds, path, landscape).Transposed()
    decreases path
  {
    if path != [] {
      assert Narrowed(bounds.Transposed(), path[0], !landscape) == Narrowed(bounds, path[0], landscape).Transposed();
      FoldedTransposes(Narrowed(bounds, path[0], landscape), path[1..], landscape);
    }
  }

  /** Swapping unequal width and height transposes every tile. */
  lemma TurningTransposes(path: seq<SplitStep>, width: nat, height: nat)
    requires width != height
    ensures TileBounds(path, height, width) == TileBounds(path, width, height).Transposed()
  {
    if AllProper(path) {
      FoldedTransposes(CanvasBounds(width, height), path, width >= height);
      assert CanvasBounds(height, width) == CanvasBounds(width, height).Transposed();
    }
  }
}
