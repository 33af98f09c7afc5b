/**
  One sample of the dataset generator (create_dataset.py): obstacle slots,
  the furniture placement loop with a budget of 1000 attempts per item, the
  zero padding and the 50-entry row.

  Every random choice is injected through a `SampleDraw`; `ValidDraw`
  states the ranges numpy's generators draw from. Coordinates are integers
  (numpy's `randint`, whose upper bound is exclusive); the row is a float
  array, so its entries are reals.
 */
module Dataset {
  import opened Options
  import opened Geometry
  import opened Retry
  import opened Scene
  import opened Vectors
  import opened Catalog
  import opened Encoder

  const MaxAttempts: nat := 1000
  const RowWidth: nat := 50
  const ObstacleSlots: nat := 3

  /** An integer corner drawn by `randint`. */
  datatype Cell = Cell(x: int, y: int)

  function ToPoint(c: Cell): Point
  {
    Point(c.x as real, c.y as real)
  }

  function Points(cs: seq<Cell>): (r: seq<Point>)
    ensures |r| == |cs| && forall k {:trigger r[k]} :: 0 <= k < |cs| ==> r[k] == ToPoint(cs[k])
  {
    seq(|cs|, k requires 0 <= k < |cs| => ToPoint(cs[k]))
  }

  /** One of the three obstacle slots: the 70% coin came up (with the
      drawn size and corner) or it did not. */
  datatype ObstacleDraw = NoObstacle | ObstacleAt(x: int, y: int, width: int, height: int)

  /** One selected furniture name, its drawn size, and the corners drawn on
      successive attempts. */
  datatype FurnitureDraw = FurnitureDraw(name: string, width: int, height: int, candidates: seq<Cell>)

  datatype SampleDraw = SampleDraw(roomType: string, roomWidth: int, roomHeight: int,
                                   obstacles: seq<ObstacleDraw>, furniture: seq<FurnitureDraw>)

  // ------------------------------------------------------------ obstacles

  function SlotRect(d: ObstacleDraw): Rect
  {
    match d
    case NoObstacle => ZeroRect
    case ObstacleAt(x, y, w, h) => Rect(x as real, y as real, w as real, h as real)
  }

  /** The four numbers a slot contributes: those of its rectangle, zeros
      for an empty slot. */
  function SlotValues(d: ObstacleDraw): (r: seq<real>)
    ensures r == [SlotRect(d).x, SlotRect(d).y, SlotRect(d).width, SlotRect(d).height]
  {
    match d
    case NoObstacle => [0.0, 0.0, 0.0, 0.0]
    case ObstacleAt(x, y, w, h) => [x as real, y as real, w as real, h as real]
  }

  /** The `obstacles` list: four numbers per slot, zeros for an empty slot. */
  function ObstacleBlock(slots: seq<ObstacleDraw>): (r: seq<real>)
    ensures |r| == 4 * |slots|
    ensures forall j :: 0 <= j < |slots| ==> r[4 * j .. 4 * j + 4] == SlotValues(slots[j])
  {
    var rects := seq(|slots|, j requires 0 <= j < |slots| => SlotRect(slots[j]));
    var r := FlattenRects(rects);
    assert forall j :: 0 <= j < |slots| ==> rects[j] == SlotRect(slots[j]);
    r
  }

  /** The obstacle check reads the list four numbers at a time. */
  function ObstacleRects(block: seq<real>): (r: seq<Rect>)
    ensures |r| == |block| / 4
  {
    seq(|block| / 4, j requires 0 <= j < |block| / 4 =>
      Rect(block[4 * j], block[4 * j + 1], block[4 * j + 2], block[4 * j + 3]))
  }

  /** Reading the flat obstacle list back gives one rectangle per slot: the
      drawn obstacle, or the zero rectangle for an empty slot. */
  lemma ObstacleRectsRoundTrip(slots: seq<ObstacleDraw>)
    ensures |ObstacleRects(ObstacleBlock(slots))| == |slots|
    ensures forall j :: 0 <= j < |slots| ==> ObstacleRects(ObstacleBlock(slots))[j] == SlotRect(slots[j])
  {
    var block := ObstacleBlock(slots);
    assert |block| / 4 == |slots|;
    forall j | 0 <= j < |slots|
      ensures ObstacleRects(block)[j] == SlotRect(slots[j])
    {
      SlotReadBack(block, slots, j);
    }
  }

  lemma SlotReadBack(block: seq<real>, slots: seq<ObstacleDraw>, j: nat)
    requires |block| == 4 * |slots| && j < |slots|
    requires block[4 * j .. 4 * j + 4] == SlotValues(slots[j])
    ensures |block| / 4 == |slots| && ObstacleRects(block)[j] == SlotRect(slots[j])
  {
    var v := block[4 * j .. 4 * j + 4];
    assert block[4 * j] == v[0] && block[4 * j + 1] == v[1] && block[4 * j + 2] == v[2] && block[4 * j + 3] == v[3];
  }

  /** The ranges numpy draws an obstacle slot from: size in 1..4, corner
      in `[0, room - size)`. */
  predicate ObstacleInRange(d: ObstacleDraw, roomWidth: int, roomHeight: int)
  {
    match d
    case NoObstacle => true
    case ObstacleAt(x, y, w, h) =>
      1 <= w <= 4 && 1 <= h <= 4 && 0 <= x < roomWidth - w && 0 <= y < roomHeight - h
  }

  /** Room sides are drawn from 5..12. */
  predicate RoomInRange(roomWidth: int, roomHeight: int)
  {
    5 <= roomWidth <= 12 && 5 <= roomHeight <= 12
  }

  /** Every rectangle the obstacle check reads, empty slots included, lies
      inside `[0, W - 1] x [0, H - 1]`: because `randint` excludes its upper
      bound, an obstacle never reaches the far walls. */
  lemma ObstaclesInsideRoom(slots: seq<ObstacleDraw>, roomWidth: int, roomHeight: int)
    requires RoomInRange(roomWidth, roomHeight)
    requires forall j :: 0 <= j < |slots| ==> ObstacleInRange(slots[j], roomWidth, roomHeight)
    ensures var rs := ObstacleRects(ObstacleBlock(slots));
      forall j :: 0 <= j < |rs| ==> InsideWalls(rs[j], roomWidth, roomHeight)
  {
    ObstacleRectsRoundTrip(slots);
  }

  /** An empty slot's zero rectangle never blocks a candidate whose corner
      has a non-negative coordinate. */
  lemma EmptySlotNeverBlocks(c: Rect)
    requires c.x >= 0.0 || c.y >= 0.0
    ensures !Overlaps(c, ZeroRect)
  {
  }

  // ------------------------------------------------------------ placement

  predicate CandidatesFor(items: seq<FurnitureDraw>)
  {
    forall i :: 0 <= i < |items| ==> MaxAttempts <= |items[i].candidates|
  }

  lemma CandidatesForPrefix(items: seq<FurnitureDraw>, i: nat)
    requires CandidatesFor(items) && i <= |items|
    ensures CandidatesFor(items[..i])
  {
    assert forall j :: 0 <= j < i ==> items[..i][j] == items[j];
  }

  /** The retry loop for the item that follows the already placed `placed`:
      a candidate is valid when it overlaps no obstacle and no placed item. */
  function Outcome(obstacles: seq<Rect>, placed: seq<Rect>, item: FurnitureDraw): (r: Attempt)
    requires MaxAttempts <= |item.candidates|
  {
    Search(obstacles + placed, item.width as real, item.height as real, Points(item.candidates), MaxAttempts)
  }

  /** `placed_positions` after the first `|items|` items: an accepted item
      appends its rectangle; an item that used up its 1000 attempts appends
      nothing (its `(0, 0)` is assigned but never recorded). */
  function PlaceFurniture(obstacles: seq<Rect>, items: seq<FurnitureDraw>): (placed: seq<Rect>)
    requires CandidatesFor(items)
    ensures |placed| <= |items|
    decreases |items|
  {
    if |items| == 0 then []
    else
      var n := |items| - 1;
      CandidatesForPrefix(items, n);
      var prev := PlaceFurniture(obstacles, items[..n]);
      var it := items[n];
      match Outcome(obstacles, prev, it)
      case Accepted(p, _) => prev + [RectAt(p, it.width as real, it.height as real)]
      case Exhausted => prev
  }

  /** The last pass of the loop, spelled out. */
  lemma PlaceFurnitureLast(obstacles: seq<Rect>, items: seq<FurnitureDraw>)
    requires CandidatesFor(items) && |items| > 0
    ensures CandidatesFor(items[..|items| - 1])
    ensures var n := |items| - 1;
      var prev := PlaceFurniture(obstacles, items[..n]);
      var a := Outcome(obstacles, prev, items[n]);
      PlaceFurniture(obstacles, items) ==
        if a.Accepted? then prev + [RectAt(a.at, items[n].width as real, items[n].height as real)] else prev
  {
    CandidatesForPrefix(items, |items| - 1);
  }

  /** An accepted corner overlaps no obstacle and no recorded rectangle. */
  lemma AcceptedIsFree(obstacles: seq<Rect>, placed: seq<Rect>, it: FurnitureDraw)
    requires MaxAttempts <= |it.candidates|
    ensures var a := Outcome(obstacles, placed, it);
      a.Accepted? ==>
        && !OverlapsAny(RectAt(a.at, it.width as real, it.height as real), obstacles)
        && !OverlapsAny(RectAt(a.at, it.width as real, it.height as real), placed)
  {
    var a := Outcome(obstacles, placed, it);
    if a.Accepted? {
      OverlapsAnyAppend(RectAt(a.at, it.width as real, it.height as real), obstacles, placed);
    }
  }

  /** The loop invariant that holds whatever the draws: the recorded
      rectangles are pairwise non-overlapping and overlap no obstacle. */
  lemma {:induction false} PlacedAreDisjoint(obstacles: seq<Rect>, items: seq<FurnitureDraw>)
    requires CandidatesFor(items)
    ensures var placed := PlaceFurniture(obstacles, items);
      && PairwiseDisjoint(placed)
      && forall i, j :: 0 <= i < |placed| && 0 <= j < |obstacles| ==> !Overlaps(placed[i], obstacles[j])
    decreases |items|
  {
    if |items| > 0 {
      var n := |items| - 1;
      PlaceFurnitureLast(obstacles, items);
      PlacedAreDisjoint(obstacles, items[..n]);
      var prev := PlaceFurniture(obstacles, items[..n]);
      var it := items[n];
      var a := Outcome(obstacles, prev, it);
      AcceptedIsFree(obstacles, prev, it);
      if a.Accepted? {
        var c := RectAt(a.at, it.width as real, it.height as real);
        AppendFreeKeepsDisjoint(obstacles, prev, c);
        assert PlaceFurniture(obstacles, items) == prev + [c];
      } else {
        assert PlaceFurniture(obstacles, items) == prev;
      }
    } else {
      assert PlaceFurniture(obstacles, items) == [];
    }
  }

  /** Appending a rectangle that overlaps no obstacle and no earlier
      rectangle keeps the recorded list disjoint and clear of obstacles. */
  lemma AppendFreeKeepsDisjoint(obstacles: seq<Rect>, prev: seq<Rect>, c: Rect)
    requires PairwiseDisjoint(prev)
    requires forall i, j :: 0 <= i < |prev| && 0 <= j < |obstacles| ==> !Overlaps(prev[i], obstacles[j])
    requires !OverlapsAny(c, obstacles) && !OverlapsAny(c, prev)
    ensures PairwiseDisjoint(prev + [c])
    ensures forall i, j :: 0 <= i < |prev + [c]| && 0 <= j < |obstacles| ==> !Overlaps((prev + [c])[i], obstacles[j])
  {
    var placed := prev + [c];
    forall i, j | 0 <= i < j < |placed|
      ensures !Overlaps(placed[j], placed[i])
    {
      if j < |prev| {
        assert placed[j] == prev[j] && placed[i] == prev[i];
      } else {
        assert placed[j] == c && placed[i] == prev[i];
      }
    }
    forall i, j | 0 <= i < |placed| && 0 <= j < |obstacles|
      ensures !Overlaps(placed[i], obstacles[j])
    {
      if i < |prev| {
        assert placed[i] == prev[i];
      }
    }
  }

  /** `randint(0, room - size)`: every candidate corner keeps the item
      inside `[0, W - 1] x [0, H - 1]`. */
  predicate ItemInRange(it: FurnitureDraw, roomWidth: int, roomHeight: int)
  {
    forall k :: 0 <= k < |it.candidates| ==>
      && 0 <= it.candidates[k].x < roomWidth - it.width
      && 0 <= it.candidates[k].y < roomHeight - it.height
  }

  predicate CandidatesInRange(items: seq<FurnitureDraw>, roomWidth: int, roomHeight: int)
  {
    forall i :: 0 <= i < |items| ==> ItemInRange(items[i], roomWidth, roomHeight)
  }

  /** `0 <= x`, `x + width <= W - 1`, and likewise for y. */
  predicate InsideWalls(r: Rect, roomWidth: int, roomHeight: int)
  {
    && 0.0 <= r.x && r.x + r.width <= (roomWidth - 1) as real
    && 0.0 <= r.y && r.y + r.height <= (roomHeight - 1) as real
  }

  /** An accepted corner is one of the item's candidates, so it keeps the
      item inside the walls when every candidate does. */
  lemma AcceptedInsideWalls(obstacles: seq<Rect>, placed: seq<Rect>, it: FurnitureDraw, roomWidth: int, roomHeight: int)
    requires MaxAttempts <= |it.candidates|
    requires ItemInRange(it, roomWidth, roomHeight)
    ensures var a := Outcome(obstacles, placed, it);
      a.Accepted? ==> InsideWalls(RectAt(a.at, it.width as real, it.height as real), roomWidth, roomHeight)
  {
    var a := Outcome(obstacles, placed, it);
    if a.Accepted? {
      var cell := it.candidates[a.attempt];
      assert a.at == ToPoint(cell);
    }
  }

  lemma AppendInsideWalls(prev: seq<Rect>, c: Rect, roomWidth: int, roomHeight: int)
    requires AllInsideWalls(prev, roomWidth, roomHeight)
    requires InsideWalls(c, roomWidth, roomHeight)
    ensures AllInsideWalls(prev + [c], roomWidth, roomHeight)
  {
    forall i | 0 <= i < |prev + [c]|
      ensures InsideWalls((prev + [c])[i], roomWidth, roomHeight)
    {
      if i < |prev| {
        assert (prev + [c])[i] == prev[i];
      }
    }
  }

  /** Every rectangle of `rs` is inside the walls. */
  predicate AllInsideWalls(rs: seq<Rect>, roomWidth: int, roomHeight: int)
  {
    forall i :: 0 <= i < |rs| ==> InsideWalls(rs[i], roomWidth, roomHeight)
  }

  /** One pass keeps every recorded rectangle inside the walls. */
  lemma PlacedInsideStep(obstacles: seq<Rect>, items: seq<FurnitureDraw>, prev: seq<Rect>, roomWidth: int, roomHeight: int)
    requires CandidatesFor(items) && |items| > 0
    requires CandidatesFor(items[..|items| - 1])
    requires prev == PlaceFurniture(obstacles, items[..|items| - 1])
    requires AllInsideWalls(prev, roomWidth, roomHeight)
    requires ItemInRange(items[|items| - 1], roomWidth, roomHeight)
    ensures AllInsideWalls(PlaceFurniture(obstacles, items), roomWidth, roomHeight)
  {
    var n := |items| - 1;
    PlaceFurnitureLast(obstacles, items);
    var it := items[n];
    AcceptedInsideWalls(obstacles, prev, it, roomWidth, roomHeight);
    var a := Outcome(obstacles, prev, it);
    if a.Accepted? {
      var c := RectAt(a.at, it.width as real, it.height as real);
      AppendInsideWalls(prev, c, roomWidth, roomHeight);
      assert PlaceFurniture(obstacles, items) == prev + [c];
    } else {
      assert PlaceFurniture(obstacles, items) == prev;
    }
  }

  lemma CandidatesInRangePrefix(items: seq<FurnitureDraw>, roomWidth: int, roomHeight: int)
    requires CandidatesFor(items) && CandidatesInRange(items, roomWidth, roomHeight) && |items| > 0
    ensures CandidatesFor(items[..|items| - 1])
    ensures CandidatesInRange(items[..|items| - 1], roomWidth, roomHeight)
    ensures ItemInRange(items[|items| - 1], roomWidth, roomHeight)
  {
    var n := |items| - 1;
    CandidatesForPrefix(items, n);
    assert forall j :: 0 <= j < n ==> items[..n][j] == items[j];
  }

  /** Every recorded rectangle satisfies `0 <= x <= W - width - 1` and
      `0 <= y <= H - height - 1`. */
  lemma {:induction false} PlacedInsideRoom(obstacles: seq<Rect>, items: seq<FurnitureDraw>, roomWidth: int, roomHeight: int)
    requires CandidatesFor(items) && CandidatesInRange(items, roomWidth, roomHeight)
    ensures AllInsideWalls(PlaceFurniture(obstacles, items), roomWidth, roomHeight)
    decreases |items|
  {
    if |items| > 0 {
      var n := |items| - 1;
      CandidatesInRangePrefix(items, roomWidth, roomHeight);
      PlacedInsideRoom(obstacles, items[..n], roomWidth, roomHeight);
      PlacedInsideStep(obstacles, items, PlaceFurniture(obstacles, items[..n]), roomWidth, roomHeight);
    } else {
      assert PlaceFurniture(obstacles, items) == [];
    }
  }

  /** How every item's loop ended, in order, each against what was recorded
      for the items before it. */
  function Outcomes(obstacles: seq<Rect>, items: seq<FurnitureDraw>): (r: seq<Attempt>)
    requires CandidatesFor(items)
    ensures |r| == |items|
    decreases |items|
  {
    if |items| == 0 then []
    else
      var n := |items| - 1;
      CandidatesForPrefix(items, n);
      Outcomes(obstacles, items[..n]) + [Outcome(obstacles, PlaceFurniture(obstacles, items[..n]), items[n])]
  }

  /** The last pass, spelled out. */
  lemma OutcomesLast(obstacles: seq<Rect>, items: seq<FurnitureDraw>)
    requires CandidatesFor(items) && |items| > 0
    ensures CandidatesFor(items[..|items| - 1])
    ensures var n := |items| - 1;
      Outcomes(obstacles, items) ==
        Outcomes(obstacles, items[..n]) + [Outcome(obstacles, PlaceFurniture(obstacles, items[..n]), items[n])]
  {
    CandidatesForPrefix(items, |items| - 1);
  }

  /** The outcome of the loop for item `i`. */
  function ItemOutcome(obstacles: seq<Rect>, items: seq<FurnitureDraw>, i: nat): Attempt
    requires CandidatesFor(items) && i < |items|
  {
    Outcomes(obstacles, items)[i]
  }

  /** For each item, whether its loop accepted a corner. */
  function AcceptedFlags(obstacles: seq<Rect>, items: seq<FurnitureDraw>): (f: seq<bool>)
    requires CandidatesFor(items)
    ensures |f| == |items|
  {
    seq(|items|, i requires 0 <= i < |items| => ItemOutcome(obstacles, items, i).Accepted?)
  }

  /** The number of items whose loop accepted a corner. */
  function AcceptedCount(obstacles: seq<Rect>, items: seq<FurnitureDraw>): nat
    requires CandidatesFor(items)
  {
    CountTrue(AcceptedFlags(obstacles, items))
  }

  lemma AcceptedCountLast(obstacles: seq<Rect>, items: seq<FurnitureDraw>)
    requires CandidatesFor(items) && |items| > 0
    ensures CandidatesFor(items[..|items| - 1])
    ensures AcceptedCount(obstacles, items) ==
      AcceptedCount(obstacles, items[..|items| - 1]) + if ItemOutcome(obstacles, items, |items| - 1).Accepted? then 1 else 0
  {
    var n := |items| - 1;
    OutcomesLast(obstacles, items);
    var f := AcceptedFlags(obstacles, items);
    assert f[..n] == AcceptedFlags(obstacles, items[..n]);
  }

  /** Each pass records one rectangle when its item is accepted and none
      otherwise. */
  lemma {:induction false} PlacedLength(obstacles: seq<Rect>, items: seq<FurnitureDraw>)
    requires CandidatesFor(items)
    ensures |PlaceFurniture(obstacles, items)| == AcceptedCount(obstacles, items)
    decreases |items|
  {
    if |items| > 0 {
      var n := |items| - 1;
      PlaceFurnitureLast(obstacles, items);
      AcceptedCountLast(obstacles, items);
      PlacedLength(obstacles, items[..n]);
      OutcomesLast(obstacles, items);
    } else {
      assert PlaceFurniture(obstacles, items) == [];
    }
  }

  /** At most every item is accepted, and all are exactly when each one is. */
  lemma AllAcceptedIff(obstacles: seq<Rect>, items: seq<FurnitureDraw>)
    requires CandidatesFor(items)
    ensures AcceptedCount(obstacles, items) <= |items|
    ensures AcceptedCount(obstacles, items) == |items| <==>
            forall i :: 0 <= i < |items| ==> ItemOutcome(obstacles, items, i).Accepted?
  {
    var f := AcceptedFlags(obstacles, items);
    CountTrueAll(f);
    assert forall i :: 0 <= i < |items| ==> f[i] == ItemOutcome(obstacles, items, i).Accepted?;
  }

  /** `len(placed_positions)` is the number of items placed within 1000
      attempts; it reaches the number of items exactly when no item fell
      back. */
  lemma PlacedCount(obstacles: seq<Rect>, items: seq<FurnitureDraw>)
    requires CandidatesFor(items)
    ensures |PlaceFurniture(obstacles, items)| == AcceptedCount(obstacles, items) <= |items|
    ensures |PlaceFurniture(obstacles, items)| == |items| <==>
            forall i :: 0 <= i < |items| ==> ItemOutcome(obstacles, items, i).Accepted?
  {
    PlacedLength(obstacles, items);
    AllAcceptedIff(obstacles, items);
  }

  /** The outcomes of the first `n` items do not depend on later items. */
  lemma {:induction false} OutcomesOfPrefix(obstacles: seq<Rect>, items: seq<FurnitureDraw>, n: nat)
    requires CandidatesFor(items) && n <= |items|
    ensures CandidatesFor(items[..n])
    ensures Outcomes(obstacles, items[..n]) == Outcomes(obstacles, items)[..n]
    decreases |items|
  {
    CandidatesForPrefix(items, n);
    if n < |items| {
      var m := |items| - 1;
      OutcomesLast(obstacles, items);
      OutcomesOfPrefix(obstacles, items[..m], n);
      assert items[..m][..n] == items[..n];
      assert Outcomes(obstacles, items)[..m] == Outcomes(obstacles, items[..m]);
    } else {
      assert items[..n] == items;
    }
  }

  /** Item `i`'s outcome is the retry loop run against exactly the
      rectangles recorded for items `0..i-1`. */
  lemma ItemOutcomeIsLoop(obstacles: seq<Rect>, items: seq<FurnitureDraw>, i: nat)
    requires CandidatesFor(items) && i < |items|
    ensures CandidatesFor(items[..i])
    ensures ItemOutcome(obstacles, items, i) == Outcome(obstacles, PlaceFurniture(obstacles, items[..i]), items[i])
  {
    OutcomesOfPrefix(obstacles, items, i + 1);
    var pre := items[..i + 1];
    OutcomesLast(obstacles, pre);
    assert pre[..i] == items[..i] && pre[i] == items[i];
    var outs := Outcomes(obstacles, pre);
    assert Outcomes(obstacles, items)[i] == outs[i];
    assert outs[i] == Outcome(obstacles, PlaceFurniture(obstacles, pre[..i]), pre[i]);
  }

  /** The rectangles recorded for the first `n` items stay at the front of
      `placed_positions`: later items only append. */
  lemma {:induction false} PlacedOfPrefix(obstacles: seq<Rect>, items: seq<FurnitureDraw>, n: nat)
    requires CandidatesFor(items) && n <= |items|
    ensures CandidatesFor(items[..n])
    ensures PlaceFurniture(obstacles, items[..n]) <= PlaceFurniture(obstacles, items)
    decreases |items| - n
  {
    CandidatesForPrefix(items, n);
    if n == |items| {
      assert items[..n] == items;
    } else {
      PlacedOfPrefix(obstacles, items, n + 1);
      var pre := items[..n + 1];
      CandidatesForPrefix(items, n + 1);
      PlaceFurnitureLast(obstacles, pre);
      assert pre[..n] == items[..n] && pre[n] == items[n];
      var prev := PlaceFurniture(obstacles, items[..n]);
      var mid := PlaceFurniture(obstacles, pre);
      var a := Outcome(obstacles, prev, items[n]);
      if a.Accepted? {
        AppendedHasPrefix(prev, RectAt(a.at, items[n].width as real, items[n].height as real), mid);
      }
      PrefixTrans(prev, mid, PlaceFurniture(obstacles, items));
    }
  }

  lemma AppendedHasPrefix<T>(prev: seq<T>, last: T, next: seq<T>)
    requires next == prev + [last]
    ensures prev <= next
  {
    assert next[..|prev|] == prev;
  }

  lemma PrefixTrans<T>(a: seq<T>, b: seq<T>, c: seq<T>)
    requires a <= b && b <= c
    ensures a <= c
  {
    assert c[..|b|][..|a|] == c[..|a|];
  }

  /** Whatever fell back before it, an accepted item `i` lands in label slot
      `k`, where `k` is the number of items before `i` that were accepted:
      each fallback moves the later rectangles one slot to the left. */
  lemma AcceptedItemSlot(obstacles: seq<Rect>, items: seq<FurnitureDraw>, i: nat)
    requires CandidatesFor(items) && i < |items|
    requires ItemOutcome(obstacles, items, i).Accepted?
    ensures CandidatesFor(items[..i])
    ensures AcceptedCount(obstacles, items[..i]) < |PlaceFurniture(obstacles, items)|
    ensures PlaceFurniture(obstacles, items)[AcceptedCount(obstacles, items[..i])] ==
            RectAt(ItemOutcome(obstacles, items, i).at, items[i].width as real, items[i].height as real)
  {
    ItemOutcomeIsLoop(obstacles, items, i);
    PlacedLength(obstacles, items[..i]);
    var prev := PlaceFurniture(obstacles, items[..i]);
    var a := ItemOutcome(obstacles, items, i);
    PlaceFurnitureAccepted(obstacles, items, i, prev, a);
    PlacedOfPrefix(obstacles, items, i + 1);
    SlotOfAppended(prev, RectAt(a.at, items[i].width as real, items[i].height as real), PlaceFurniture(obstacles, items));
  }

  /** Item `i`, accepted at `a`, appends its rectangle to those of the
      items before it. */
  lemma PlaceFurnitureAccepted(obstacles: seq<Rect>, items: seq<FurnitureDraw>, i: nat, prev: seq<Rect>, a: Attempt)
    requires CandidatesFor(items) && i < |items| && CandidatesFor(items[..i])
    requires prev == PlaceFurniture(obstacles, items[..i])
    requires MaxAttempts <= |items[i].candidates| && a == Outcome(obstacles, prev, items[i]) && a.Accepted?
    ensures CandidatesFor(items[..i + 1])
    ensures PlaceFurniture(obstacles, items[..i + 1]) == prev + [RectAt(a.at, items[i].width as real, items[i].height as real)]
  {
    var pre := items[..i + 1];
    CandidatesForPrefix(items, i + 1);
    PlaceFurnitureLast(obstacles, pre);
    assert pre[..i] == items[..i] && pre[i] == items[i];
  }

  lemma SlotOfAppended<T>(prev: seq<T>, last: T, all: seq<T>)
    requires prev + [last] <= all
    ensures |prev| < |all| && all[|prev|] == last
  {
    assert all[|prev|] == (prev + [last])[|prev|];
  }

  /** When no item falls back, label slot `i` is item `i` at the corner its
      loop accepted. */
  lemma {:induction false} LabelsPairWithItemsWhenAllPlaced(obstacles: seq<Rect>, items: seq<FurnitureDraw>)
    requires CandidatesFor(items)
    requires forall i :: 0 <= i < |items| ==> ItemOutcome(obstacles, items, i).Accepted?
    ensures |PlaceFurniture(obstacles, items)| == |items|
    ensures forall i :: 0 <= i < |items| ==>
      PlaceFurniture(obstacles, items)[i] ==
        RectAt(ItemOutcome(obstacles, items, i).at, items[i].width as real, items[i].height as real)
    decreases |items|
  {
    if |items| > 0 {
      var n := |items| - 1;
      OutcomesLast(obstacles, items);
      var outs := Outcomes(obstacles, items);
      forall i | 0 <= i < |items|
        ensures outs[i].Accepted?
        ensures i < n ==> ItemOutcome(obstacles, items[..n], i) == outs[i]
      {
        assert ItemOutcome(obstacles, items, i) == outs[i];
      }
      LabelsPairWithItemsWhenAllPlaced(obstacles, items[..n]);
      var prev := PlaceFurniture(obstacles, items[..n]);
      forall i | 0 <= i < n
        ensures prev[i] == RectAt(outs[i].at, items[i].width as real, items[i].height as real)
      {
        assert items[..n][i] == items[i];
      }
      LabelsStep(obstacles, items, prev, outs);
    } else {
      assert PlaceFurniture(obstacles, items) == [];
    }
  }

  /** One pass of the induction above: the accepted last item is appended
      after the rectangles of the earlier items. */
  lemma LabelsStep(obstacles: seq<Rect>, items: seq<FurnitureDraw>, prev: seq<Rect>, outs: seq<Attempt>)
    requires CandidatesFor(items) && |items| > 0
    requires CandidatesFor(items[..|items| - 1])
    requires prev == PlaceFurniture(obstacles, items[..|items| - 1])
    requires outs == Outcomes(obstacles, items)
    requires forall i :: 0 <= i < |items| ==> outs[i].Accepted?
    requires |prev| == |items| - 1
    requires forall i :: 0 <= i < |items| - 1 ==>
      prev[i] == RectAt(outs[i].at, items[i].width as real, items[i].height as real)
    ensures |PlaceFurniture(obstacles, items)| == |items|
    ensures forall i :: 0 <= i < |items| ==>
      PlaceFurniture(obstacles, items)[i] == RectAt(outs[i].at, items[i].width as real, items[i].height as real)
  {
    var n := |items| - 1;
    PlaceFurnitureLast(obstacles, items);
    OutcomesLast(obstacles, items);
    var a := outs[n];
    assert a == Outcome(obstacles, prev, items[n]);
    var last := RectAt(a.at, items[n].width as real, items[n].height as real);
    var placed := PlaceFurniture(obstacles, items);
    assert placed == prev + [last];
    forall i | 0 <= i < |items|
      ensures placed[i] == RectAt(outs[i].at, items[i].width as real, items[i].height as real)
    {
      if i < n {
        assert placed[i] == prev[i];
      } else {
        assert placed[i] == last && outs[i] == a;
      }
    }
  }

  /** A fallback shifts the labels: in a 5 x 5 room whose only obstacle
      covers `[0, 3) x [0, 3)`, a 1 x 1 item that only ever draws `(0, 0)`
      is never recorded, so the next item's rectangle takes label slot 0,
      the slot that pairs with the first item's features. */
  lemma FallbackShiftsLabels()
    ensures var obstacles := [Rect(0.0, 0.0, 3.0, 3.0)];
      var first := FurnitureDraw("Desk", 1, 1, seq(MaxAttempts, k => Cell(0, 0)));
      var second := FurnitureDraw("Bed", 1, 1, seq(MaxAttempts, k => Cell(3, 3)));
      && CandidatesFor([first, second])
      && PlaceFurniture(obstacles, [first, second]) == [Rect(3.0, 3.0, 1.0, 1.0)]
  {
    var obstacles := [Rect(0.0, 0.0, 3.0, 3.0)];
    var first := FurnitureDraw("Desk", 1, 1, seq(MaxAttempts, k => Cell(0, 0)));
    var second := FurnitureDraw("Bed", 1, 1, seq(MaxAttempts, k => Cell(3, 3)));
    var items := [first, second];
    assert CandidatesFor(items);
    assert items[..1] == [first];
    assert CandidatesFor(items[..1]);
    assert [first][..0] == [];
    assert PlaceFurniture(obstacles, []) == [];
    var a := Outcome(obstacles, [], first);
    assert forall k :: 0 <= k < MaxAttempts ==> Points(first.candidates)[k] == Origin;
    assert Blocked(obstacles + [], Origin, 1.0, 1.0) by {
      assert Overlaps(RectAt(Origin, 1.0, 1.0), obstacles[0]);
    }
    SearchFirstFit(obstacles + [], 1.0, 1.0, Points(first.candidates), MaxAttempts);
    assert a.Exhausted?;
    assert PlaceFurniture(obstacles, [first]) == [];
    var b := Outcome(obstacles, [], second);
    var p := Point(3.0, 3.0);
    assert forall k :: 0 <= k < MaxAttempts ==> Points(second.candidates)[k] == p;
    assert !Blocked(obstacles + [], p, 1.0, 1.0) by {
      assert !Overlaps(RectAt(p, 1.0, 1.0), obstacles[0]);
      assert obstacles + [] == obstacles;
    }
    assert b.Accepted? && b.at == p;
  }

  // ------------------------------------------------------------ the row

  predicate NamesCatalogued(items: seq<FurnitureDraw>)
  {
    forall i :: 0 <= i < |items| ==> HasKey(DatasetFurnitureMapping, items[i].name)
  }

  /** What the row stores about an item: `[FURNITURE_MAPPING[name], w, h]`. */
  function ItemRecords(items: seq<FurnitureDraw>): (r: seq<Furniture>)
    requires NamesCatalogued(items)
    ensures |r| == |items|
    ensures forall i :: 0 <= i < |items| ==>
      r[i] == Furniture(Lookup(DatasetFurnitureMapping, items[i].name).value, items[i].width as real, items[i].height as real)
  {
    seq(|items|, i requires 0 <= i < |items| =>
      Furniture(Lookup(DatasetFurnitureMapping, items[i].name).value, items[i].width as real, items[i].height as real))
  }

  /** The ids the row stores scan back to the item names in the app's
      `get_furniture_id`, so a row's furniture type is the selected name. */
  lemma ItemRecordsNameBack(items: seq<FurnitureDraw>)
    requires NamesCatalogued(items)
    ensures forall i :: 0 <= i < |items| ==> GetFurnitureId(ItemRecords(items)[i].kind) == Some(items[i].name)
  {
    CatalogsAgree();
    forall i | 0 <= i < |items|
      ensures GetFurnitureId(ItemRecords(items)[i].kind) == Some(items[i].name)
    {
      FurnitureIdRoundTrip(items[i].name);
    }
  }

  /** `furniture_data` after its padding loop: the items' records, then
      zeros up to exactly 21 numbers; more than seven items are all kept
      here (the row cuts them at 21). */
  function FurnitureData(items: seq<FurnitureDraw>): (r: seq<real>)
    requires NamesCatalogued(items)
    ensures |r| == if |items| <= MaxFurniture then 3 * MaxFurniture else 3 * |items|
    ensures r[..3 * |items|] == FlattenFurniture(ItemRecords(items))
    ensures forall k :: 3 * |items| <= k < |r| ==> r[k] == 0.0
  {
    assert |items| <= MaxFurniture ==> IsMultiple(3 * MaxFurniture - 3 * |items|, 3) by {
      if |items| <= MaxFurniture {
        TimesIsMultiple(3, MaxFurniture - |items|);
      }
    }
    PadWithZeros(FlattenFurniture(ItemRecords(items)), 3, 3 * MaxFurniture)
  }

  /** `placed_positions` as lists: `[x, y, w, h]` per recorded rectangle. */
  function PositionEntries(placed: seq<Rect>): (r: seq<seq<real>>)
    ensures |r| == |placed|
    ensures forall j :: 0 <= j < |placed| ==> r[j] == [placed[j].x, placed[j].y, placed[j].width, placed[j].height]
  {
    seq(|placed|, j requires 0 <= j < |placed| => [placed[j].x, placed[j].y, placed[j].width, placed[j].height])
  }

  /** `[pos for p in entries for pos in p[:2]]`. */
  function FirstTwoOfEach(entries: seq<seq<real>>): (r: seq<real>)
    ensures (forall j :: 0 <= j < |entries| ==> |entries[j]| >= 2) ==>
      && |r| == 2 * |entries|
      && forall j :: 0 <= j < |entries| ==> r[2 * j] == entries[j][0] && r[2 * j + 1] == entries[j][1]
  {
    if |entries| == 0 then []
    else
      var n := |entries| - 1;
      var e := entries[n];
      var r := FirstTwoOfEach(entries[..n]) + e[..Min(2, |e|)];
      assert forall j :: 0 <= j < n ==> entries[..n][j] == entries[j];
      r
  }

  /** Every entry of the padded `placed_positions` has at least two numbers:
      four for a recorded rectangle, two for a padding pair. */
  lemma PaddedEntriesHaveCorners(placed: seq<Rect>)
    ensures var padded := PadList(PositionEntries(placed), [0.0, 0.0], MaxFurniture);
      forall j :: 0 <= j < |padded| ==> |padded[j]| >= 2
  {
    var entries := PositionEntries(placed);
    var padded := PadList(entries, [0.0, 0.0], MaxFurniture);
    forall j | 0 <= j < |padded|
      ensures |padded[j]| >= 2
    {
      if j < |entries| {
        assert padded[j] == padded[..|entries|][j];
      }
    }
  }

  /** The position labels before the final `[:14]`: two numbers per
      recorded rectangle, and never fewer than fourteen. */
  function LabelValues(placed: seq<Rect>): (r: seq<real>)
    ensures |r| == 2 * (if |placed| < MaxFurniture then MaxFurniture else |placed|)
  {
    PaddedEntriesHaveCorners(placed);
    FirstTwoOfEach(PadList(PositionEntries(placed), [0.0, 0.0], MaxFurniture))
  }

  /** The labels hold the recorded rectangles' corners in recording order,
      then `0.0` pairs up to seven entries. */
  lemma LabelValuesAreCorners(placed: seq<Rect>)
    ensures |LabelValues(placed)| >= 2 * MaxFurniture
    ensures forall j :: 0 <= j < MaxFurniture ==>
      && LabelValues(placed)[2 * j] == (if j < |placed| then placed[j].x else 0.0)
      && LabelValues(placed)[2 * j + 1] == (if j < |placed| then placed[j].y else 0.0)
  {
    var entries := PositionEntries(placed);
    var padded := PadList(entries, [0.0, 0.0], MaxFurniture);
    PaddedEntriesHaveCorners(placed);
    var flat := FirstTwoOfEach(padded);
    assert |flat| == 2 * |padded|;
    forall j | 0 <= j < MaxFurniture
      ensures flat[2 * j] == (if j < |placed| then placed[j].x else 0.0)
      ensures flat[2 * j + 1] == (if j < |placed| then placed[j].y else 0.0)
    {
      if j < |placed| {
        assert padded[j] == padded[..|entries|][j] == entries[j];
      }
    }
  }

  /** What the row assembly needs to run without a KeyError: a known room
      kind, three obstacle slots, known furniture names, and enough draws. */
  predicate WellFormed(d: SampleDraw)
  {
    && HasKey(DatasetRoomMapping, d.roomType)
    && |d.obstacles| == ObstacleSlots
    && NamesCatalogued(d.furniture)
    && CandidatesFor(d.furniture)
  }

  /** The rectangles recorded for a sample. */
  function SamplePlacement(d: SampleDraw): seq<Rect>
    requires WellFormed(d)
  {
    PlaceFurniture(ObstacleRects(ObstacleBlock(d.obstacles)), d.furniture)
  }

  /** `dataset[i] = [room_id, room_width, room_height] + obstacles +
      furniture_data[:21] + flat_positions[:14]`. */
  function GenerateRow(d: SampleDraw): (row: seq<real>)
    requires WellFormed(d)
    ensures |row| == RowWidth
  {
    var block := ObstacleBlock(d.obstacles);
    var fdata := FurnitureData(d.furniture);
    var flat := LabelValues(SamplePlacement(d));
    assert |fdata| >= 3 * MaxFurniture;
    LabelValuesAreCorners(SamplePlacement(d));
    [Lookup(DatasetRoomMapping, d.roomType).value as real, d.roomWidth as real, d.roomHeight as real]
      + block + fdata[..3 * MaxFurniture] + flat[..2 * MaxFurniture]
  }

  // ------------------------------------------------------------ the draws

  /** `FURNITURE_OPTIONS[room]`, empty for a room kind it does not list. */
  function OptionsFor(room: string): seq<string>
  {
    match Lookup(FurnitureOptions, room)
    case Some(names) => names
    case None => []
  }

  /** The laws of the random draws: the room kind comes from the room
      mapping and its sides from 5..12; three obstacle slots in range;
      `min(7, len(options))` distinct names from the room's list (numpy's
      `choice` without replacement); sizes from 1..3; and, for each item,
      at least 1000 corners from `randint(0, room - size)`. */
  predicate ValidDraw(d: SampleDraw)
  {
    && HasKey(DatasetRoomMapping, d.roomType)
    && RoomInRange(d.roomWidth, d.roomHeight)
    && |d.obstacles| == ObstacleSlots
    && (forall j :: 0 <= j < |d.obstacles| ==> ObstacleInRange(d.obstacles[j], d.roomWidth, d.roomHeight))
    && |d.furniture| == Min(MaxFurniture, |OptionsFor(d.roomType)|)
    && (forall i, j :: 0 <= i < j < |d.furniture| ==> d.furniture[i].name != d.furniture[j].name)
    && (forall i :: 0 <= i < |d.furniture| ==> d.furniture[i].name in OptionsFor(d.roomType))
    && (forall i :: 0 <= i < |d.furniture| ==> 1 <= d.furniture[i].width <= 3 && 1 <= d.furniture[i].height <= 3)
    && CandidatesFor(d.furniture)
    && CandidatesInRange(d.furniture, d.roomWidth, d.roomHeight)
  }

  /** Every sample the generator can draw gets through the row assembly
      without a missing key, and selects its room's whole furniture list,
      which has at most five entries. */
  lemma ValidDrawIsWellFormed(d: SampleDraw)
    requires ValidDraw(d)
    ensures WellFormed(d)
    ensures |d.furniture| == |OptionsFor(d.roomType)| <= 5
  {
    RoomKindsHaveOptions(d.roomType);
    var opts := OptionsFor(d.roomType);
    OptionsForIsCatalogued(d.roomType);
    forall i | 0 <= i < |d.furniture|
      ensures HasKey(DatasetFurnitureMapping, d.furniture[i].name)
    {
      var k :| 0 <= k < |opts| && opts[k] == d.furniture[i].name;
    }
  }

  /** A listed room kind's option list has at most five names, each with a
      furniture id. */
  lemma OptionsForIsCatalogued(room: string)
    requires HasKey(FurnitureOptions, room)
    ensures |OptionsFor(room)| <= 5
    ensures forall k :: 0 <= k < |OptionsFor(room)| ==> HasKey(DatasetFurnitureMapping, OptionsFor(room)[k])
  {
    OptionsAreSmallAndCatalogued();
    var opts := OptionsFor(room);
    var q :| 0 <= q < |FurnitureOptions| && FurnitureOptions[q] == (room, opts);
    assert forall k :: 0 <= k < |opts| ==> opts[k] == FurnitureOptions[q].1[k];
  }

  /** What holds of every generated sample: the recorded rectangles are
      pairwise disjoint, overlap no obstacle, and, like every obstacle,
      lie inside `[0, W - 1] x [0, H - 1]`; at most five are recorded, so
      the last two label pairs are always zero. */
  lemma SampleInvariants(d: SampleDraw)
    requires ValidDraw(d)
    ensures WellFormed(d)
    ensures var obstacles := ObstacleRects(ObstacleBlock(d.obstacles));
      var placed := SamplePlacement(d);
      && PairwiseDisjoint(placed)
      && (forall i, j :: 0 <= i < |placed| && 0 <= j < |obstacles| ==> !Overlaps(placed[i], obstacles[j]))
      && (forall i :: 0 <= i < |placed| ==> InsideWalls(placed[i], d.roomWidth, d.roomHeight))
      && (forall j :: 0 <= j < |obstacles| ==> InsideWalls(obstacles[j], d.roomWidth, d.roomHeight))
      && |placed| <= 5
  {
    ValidDrawIsWellFormed(d);
    var obstacles := ObstacleRects(ObstacleBlock(d.obstacles));
    PlacedAreDisjoint(obstacles, d.furniture);
    PlacedInsideRoom(obstacles, d.furniture, d.roomWidth, d.roomHeight);
    ObstaclesInsideRoom(d.obstacles, d.roomWidth, d.roomHeight);
  }
}
