/**
  The interactive layout of app.py: the request's furniture list, the
  random placement with a budget of 100 attempts per item, and the count
  checks done before drawing.

  Randomness is injected: `streams[i][k]` is the corner that
  `random.uniform` draws for item `i` on attempt `k`. The room size only
  enters through the range those draws come from (`UniformDraws`).
 */
module AppLayout {
  import opened Options
  import opened Geometry
  import opened Retry
  import opened Scene
  import opened Catalog

  const MaxAttempts: nat := 100

  /** The two lists the placement loop builds: `optimized_positions` and
      `occupied_spaces`. */
  datatype Occupancy = Occupancy(positions: seq<Point>, occupied: seq<Rect>)

  /** Where an item ends up: the accepted corner, or the origin. */
  function PositionOf(a: Attempt): Point
  {
    if a.Accepted? then a.at else Origin
  }

  /** One random stream per item, each long enough for the whole budget
      (the random source never runs dry). */
  predicate StreamsFor(items: seq<Furniture>, streams: seq<seq<Point>>)
  {
    |streams| == |items| && forall i :: 0 <= i < |streams| ==> MaxAttempts <= |streams[i]|
  }

  /** `random.uniform(0, hi)` returns a value between 0 and `hi` in either
      order, ends included. */
  predicate UniformIn(v: real, hi: real)
  {
    if hi >= 0.0 then 0.0 <= v <= hi else hi <= v <= 0.0
  }

  /** Every draw for item `i` lies in `[0, W - width] x [0, H - height]`. */
  predicate UniformDraws(roomWidth: real, roomHeight: real, items: seq<Furniture>, streams: seq<seq<Point>>)
    requires |streams| == |items|
  {
    forall i, k :: 0 <= i < |items| && 0 <= k < |streams[i]| ==>
      UniformIn(streams[i][k].x, roomWidth - items[i].width) &&
      UniformIn(streams[i][k].y, roomHeight - items[i].height)
  }

  /** One pass of the `for` loop: exactly one position and one occupied
      rectangle are appended, the rectangle being the item at that
      position. */
  function PlaceItem(s: Occupancy, item: Furniture, draws: seq<Point>): (s': Occupancy)
    requires MaxAttempts <= |draws|
    ensures |s'.positions| == |s.positions| + 1 && s'.positions[..|s.positions|] == s.positions
    ensures s'.occupied == s.occupied + [RectAt(s'.positions[|s.positions|], item.width, item.height)]
  {
    var p := PositionOf(Search(s.occupied, item.width, item.height, draws, MaxAttempts));
    assert (s.positions + [p])[..|s.positions|] == s.positions;
    Occupancy(s.positions + [p], s.occupied + [RectAt(p, item.width, item.height)])
  }

  /** The appended position is one of the first 100 draws that overlaps
      nothing occupied so far, or, when all 100 overlap, the origin, which
      is committed all the same. */
  lemma PlaceItemPosition(s: Occupancy, item: Furniture, draws: seq<Point>)
    requires MaxAttempts <= |draws|
    ensures var p := PlaceItem(s, item, draws).positions[|s.positions|];
      || ((exists k :: 0 <= k < MaxAttempts && p == draws[k]) && !Blocked(s.occupied, p, item.width, item.height))
      || (p == Origin && forall k :: 0 <= k < MaxAttempts ==> Blocked(s.occupied, draws[k], item.width, item.height))
  {
    var a := Search(s.occupied, item.width, item.height, draws, MaxAttempts);
    SearchFirstFit(s.occupied, item.width, item.height, draws, MaxAttempts);
    assert PlaceItem(s, item, draws).positions[|s.positions|] == PositionOf(a);
  }

  /** The loop over the first `|items|` items, in order: it starts from two
      empty lists (obstacles are never put into `occupied_spaces`) and
      processes the last item after all earlier ones. */
  function PlaceAll(items: seq<Furniture>, streams: seq<seq<Point>>): (s: Occupancy)
    requires StreamsFor(items, streams)
    ensures |s.positions| == |items| && |s.occupied| == |items|
    decreases |items|
  {
    if |items| == 0 then Occupancy([], [])
    else
      var n := |items| - 1;
      PlaceItem(PlaceAll(items[..n], streams[..n]), items[n], streams[n])
  }

  /** `optimize_furniture_positions`: one position per furniture item, in
      input order. The predicted positions passed in are not consulted, and
      neither are the obstacles (they are not even a parameter). */
  function OptimizeFurniturePositions(roomWidth: real, roomHeight: real, furniture: seq<Furniture>,
                                      predicted: seq<real>, streams: seq<seq<Point>>): (r: seq<Point>)
    requires StreamsFor(furniture, streams)
    ensures |r| == |furniture|
  {
    PlaceAll(furniture, streams).positions
  }

  lemma StreamsForPrefix(items: seq<Furniture>, streams: seq<seq<Point>>, i: nat)
    requires StreamsFor(items, streams) && i <= |items|
    ensures StreamsFor(items[..i], streams[..i])
  {
    assert forall j :: 0 <= j < i ==> streams[..i][j] == streams[j];
  }

  /** Item `i` is placed by one pass of the loop, run on the lists built
      for the items before it. */
  lemma PlaceAllStep(items: seq<Furniture>, streams: seq<seq<Point>>, i: nat)
    requires StreamsFor(items, streams) && i < |items|
    ensures StreamsFor(items[..i], streams[..i]) && StreamsFor(items[..i + 1], streams[..i + 1])
    ensures PlaceAll(items[..i + 1], streams[..i + 1]) ==
      PlaceItem(PlaceAll(items[..i], streams[..i]), items[i], streams[i])
  {
    StreamsForPrefix(items, streams, i);
    StreamsForPrefix(items, streams, i + 1);
    assert items[..i + 1][..i] == items[..i] && streams[..i + 1][..i] == streams[..i];
  }

  /** Placing a prefix of the items gives a prefix of both lists: an item's
      outcome never depends on the items after it. */
  lemma {:induction false} PlaceAllPrefix(items: seq<Furniture>, streams: seq<seq<Point>>, i: nat)
    requires StreamsFor(items, streams) && i <= |items|
    ensures StreamsFor(items[..i], streams[..i])
    ensures PlaceAll(items[..i], streams[..i]) ==
      Occupancy(PlaceAll(items, streams).positions[..i], PlaceAll(items, streams).occupied[..i])
    decreases |items| - i
  {
    StreamsForPrefix(items, streams, i);
    var s := PlaceAll(items, streams);
    if i == |items| {
      assert items[..i] == items && streams[..i] == streams;
      assert s.positions[..i] == s.positions && s.occupied[..i] == s.occupied;
    } else {
      PlaceAllPrefix(items, streams, i + 1);
      PlaceAllStep(items, streams, i);
      var prev := PlaceAll(items[..i], streams[..i]);
      DropLastOfPrefix(s, PlaceItem(prev, items[i], streams[i]), prev, i);
    }
  }

  lemma DropLastOfPrefix(s: Occupancy, t: Occupancy, prev: Occupancy, i: nat)
    requires i < |s.positions| && i < |s.occupied| && |prev.positions| == i
    requires t == Occupancy(s.positions[..i + 1], s.occupied[..i + 1])
    requires t.positions[..i] == prev.positions && t.occupied == prev.occupied + [t.occupied[i]]
    ensures prev == Occupancy(s.positions[..i], s.occupied[..i])
  {
    assert s.positions[..i + 1][..i] == s.positions[..i];
    assert s.occupied[..i + 1][..i] == s.occupied[..i];
    assert (prev.occupied + [t.occupied[i]])[..i] == prev.occupied;
  }

  /** What happened to item `i`: its occupied rectangle is the item at its
      position, and its position is decided by the retry loop against
      exactly the rectangles committed for items `0..i-1`. */
  lemma ItemDecision(items: seq<Furniture>, streams: seq<seq<Point>>, i: nat)
    requires StreamsFor(items, streams) && i < |items|
    ensures var s := PlaceAll(items, streams);
      && s.occupied[i] == RectAt(s.positions[i], items[i].width, items[i].height)
      && s.positions[i] == PositionOf(Search(s.occupied[..i], items[i].width, items[i].height, streams[i], MaxAttempts))
  {
    var s := PlaceAll(items, streams);
    PlaceAllPrefix(items, streams, i + 1);
    PlaceAllPrefix(items, streams, i);
    PlaceAllStep(items, streams, i);
    var prev := PlaceAll(items[..i], streams[..i]);
    var t := PlaceItem(prev, items[i], streams[i]);
    LastOfPrefix(s.positions, t.positions, i);
    LastOfPrefix(s.occupied, t.occupied, i);
  }

  lemma LastOfPrefix<T>(a: seq<T>, b: seq<T>, i: nat)
    requires i < |a| && b == a[..i + 1]
    ensures b[i] == a[i] && b[..i] == a[..i]
  {
    assert a[..i + 1][..i] == a[..i];
  }

  /** The occupied list is exactly the furniture at its positions, one
      rectangle per item: it grew by one per item from empty, and no
      obstacle ever entered it. */
  lemma OccupiedIsFurnitureOnly(items: seq<Furniture>, streams: seq<seq<Point>>)
    requires StreamsFor(items, streams)
    ensures var s := PlaceAll(items, streams);
      && |s.occupied| == |items|
      && forall i :: 0 <= i < |items| ==> s.occupied[i] == RectAt(s.positions[i], items[i].width, items[i].height)
  {
    forall i | 0 <= i < |items|
      ensures PlaceAll(items, streams).occupied[i] ==
              RectAt(PlaceAll(items, streams).positions[i], items[i].width, items[i].height)
    {
      ItemDecision(items, streams, i);
    }
  }

  /** An item for which some draw within the budget is free lands on the
      first free draw, and its rectangle overlaps none of the rectangles
      committed before it. */
  lemma AcceptedItemOverlapsNothingEarlier(items: seq<Furniture>, streams: seq<seq<Point>>, i: nat)
    requires StreamsFor(items, streams) && i < |items|
    requires exists k :: 0 <= k < MaxAttempts &&
               !Blocked(PlaceAll(items, streams).occupied[..i], streams[i][k], items[i].width, items[i].height)
    ensures var s := PlaceAll(items, streams);
      && (exists k :: 0 <= k < MaxAttempts && s.positions[i] == streams[i][k] &&
            forall j :: 0 <= j < k ==> Blocked(s.occupied[..i], streams[i][j], items[i].width, items[i].height))
      && forall j :: 0 <= j < i ==> !Overlaps(s.occupied[i], s.occupied[j])
  {
    ItemDecision(items, streams, i);
    var s := PlaceAll(items, streams);
    var a := Search(s.occupied[..i], items[i].width, items[i].height, streams[i], MaxAttempts);
    SearchFirstFit(s.occupied[..i], items[i].width, items[i].height, streams[i], MaxAttempts);
    assert a.Accepted?;
    forall j | 0 <= j < i
      ensures !Overlaps(s.occupied[i], s.occupied[j])
    {
      assert s.occupied[..i][j] == s.occupied[j];
    }
  }

  /** An item whose 100 draws all overlap something committed earlier is
      placed at the origin, and the rectangle at the origin is committed. */
  lemma FallbackAtOrigin(items: seq<Furniture>, streams: seq<seq<Point>>, i: nat)
    requires StreamsFor(items, streams) && i < |items|
    requires forall k :: 0 <= k < MaxAttempts ==>
      Blocked(PlaceAll(items, streams).occupied[..i], streams[i][k], items[i].width, items[i].height)
    ensures PlaceAll(items, streams).positions[i] == Origin
    ensures PlaceAll(items, streams).occupied[i] == Rect(0.0, 0.0, items[i].width, items[i].height)
  {
    ItemDecision(items, streams, i);
    var s := PlaceAll(items, streams);
    SearchFirstFit(s.occupied[..i], items[i].width, items[i].height, streams[i], MaxAttempts);
  }

  /** When every item fits in the room and the draws come from the uniform
      ranges, every position (accepted or fallback) keeps its item inside
      the room: `0 <= x <= W - width` and `0 <= y <= H - height`. */
  /** An item that fits the room, whose own draws lie in range, is placed
      inside the room, whatever the other items' sizes and draws are. */
  lemma PositionInsideRoom(roomWidth: real, roomHeight: real, items: seq<Furniture>, streams: seq<seq<Point>>, i: nat)
    requires StreamsFor(items, streams) && i < |items|
    requires items[i].width <= roomWidth && items[i].height <= roomHeight
    requires forall k :: 0 <= k < |streams[i]| ==>
      UniformIn(streams[i][k].x, roomWidth - items[i].width) && UniformIn(streams[i][k].y, roomHeight - items[i].height)
    ensures var r := OptimizeFurniturePositions(roomWidth, roomHeight, items, [], streams);
      && i < |r|
      && 0.0 <= r[i].x <= roomWidth - items[i].width
      && 0.0 <= r[i].y <= roomHeight - items[i].height
  {
    ItemDecision(items, streams, i);
    var s := PlaceAll(items, streams);
    var a := Search(s.occupied[..i], items[i].width, items[i].height, streams[i], MaxAttempts);
    if a.Accepted? {
      assert UniformIn(streams[i][a.attempt].x, roomWidth - items[i].width);
      assert UniformIn(streams[i][a.attempt].y, roomHeight - items[i].height);
    }
  }

  lemma PositionsInsideRoom(roomWidth: real, roomHeight: real, items: seq<Furniture>, streams: seq<seq<Point>>)
    requires StreamsFor(items, streams)
    requires forall i :: 0 <= i < |items| ==> items[i].width <= roomWidth && items[i].height <= roomHeight
    requires UniformDraws(roomWidth, roomHeight, items, streams)
    ensures var r := OptimizeFurniturePositions(roomWidth, roomHeight, items, [], streams);
      forall i :: 0 <= i < |r| ==>
        && 0.0 <= r[i].x <= roomWidth - items[i].width
        && 0.0 <= r[i].y <= roomHeight - items[i].height
  {
    var r := OptimizeFurniturePositions(roomWidth, roomHeight, items, [], streams);
    forall i | 0 <= i < |r|
      ensures 0.0 <= r[i].x <= roomWidth - items[i].width
      ensures 0.0 <= r[i].y <= roomHeight - items[i].height
    {
      PositionInsideRoom(roomWidth, roomHeight, items, streams, i);
    }
  }

  // ------------------------------------------------ request and drawing

  /** The names the comprehension's `if f in furniture_mapping` keeps: those
      with an id, in their selected order. */
  function WithIds(ids: seq<(string, int)>, selected: seq<string>): (r: seq<string>)
    ensures |r| <= |selected|
    ensures forall n :: n in r <==> n in selected && HasKey(ids, n)
    ensures (forall i :: 0 <= i < |selected| ==> HasKey(ids, selected[i])) ==> r == selected
  {
    if |selected| == 0 then []
    else
      var rest := WithIds(ids, selected[1..]);
      assert forall i :: 1 <= i < |selected| ==> selected[i] == selected[1..][i - 1];
      assert forall n :: n in selected <==> n == selected[0] || n in selected[1..];
      if HasKey(ids, selected[0]) then [selected[0]] + rest else rest
  }

  /** The list comprehension behind `furniture_list`, for any id and size
      catalogs: names without an id are skipped, a name with an id but no
      size raises a KeyError (None). */
  function CataloguedItems(ids: seq<(string, int)>, sizes: seq<(string, (real, real))>,
                           selected: seq<string>): (r: Option<seq<Furniture>>)
    ensures r.Some? <==> forall i :: 0 <= i < |selected| && HasKey(ids, selected[i]) ==> HasKey(sizes, selected[i])
    ensures r.Some? && (forall i :: 0 <= i < |selected| ==> HasKey(ids, selected[i])) ==>
      && |r.value| == |selected|
      && forall i :: 0 <= i < |selected| ==>
           && Lookup(ids, selected[i]) == Some(r.value[i].kind)
           && Lookup(sizes, selected[i]) == Some((r.value[i].width, r.value[i].height))
  {
    if |selected| == 0 then Some([])
    else
      var rest := CataloguedItems(ids, sizes, selected[1..]);
      assert forall i :: 1 <= i < |selected| ==> selected[i] == selected[1..][i - 1];
      var name := selected[0];
      match Lookup(ids, name)
      case None => rest
      case Some(id) =>
        match Lookup(sizes, name)
        case None => None
        case Some(size) =>
          if rest.None? then None
          else
            var r := [Furniture(id, size.0, size.1)] + rest.value;
            assert forall i :: 1 <= i < |r| ==> r[i] == rest.value[i - 1];
            Some(r)
  }

  /** In general the comprehension keeps, in order, one item for each
      selected name that has an id, with that name's id and size: the names
      without an id are the ones the `if` filters out. */
  lemma {:induction false} CataloguedItemsKeepsNamesWithIds(ids: seq<(string, int)>, sizes: seq<(string, (real, real))>,
                                                             selected: seq<string>)
    ensures var r := CataloguedItems(ids, sizes, selected);
      r.Some? ==>
        && |r.value| == |WithIds(ids, selected)|
        && forall i :: 0 <= i < |r.value| ==>
             && Lookup(ids, WithIds(ids, selected)[i]) == Some(r.value[i].kind)
             && Lookup(sizes, WithIds(ids, selected)[i]) == Some((r.value[i].width, r.value[i].height))
  {
    var r := CataloguedItems(ids, sizes, selected);
    if |selected| > 0 && r.Some? {
      CataloguedItemsKeepsNamesWithIds(ids, sizes, selected[1..]);
      var rest := CataloguedItems(ids, sizes, selected[1..]).value;
      var kept := WithIds(ids, selected[1..]);
      var w := WithIds(ids, selected);
      if HasKey(ids, selected[0]) {
        assert w == [selected[0]] + kept;
        assert r.value == [r.value[0]] + rest;
        KeptNamesStep(ids, sizes, w, kept, r.value, rest);
      } else {
        assert w == kept;
      }
    }
  }

  lemma KeptNamesStep(ids: seq<(string, int)>, sizes: seq<(string, (real, real))>,
                      names: seq<string>, kept: seq<string>, items: seq<Furniture>, rest: seq<Furniture>)
    requires |names| == |items| > 0 && names[1..] == kept && items[1..] == rest
    requires Lookup(ids, names[0]) == Some(items[0].kind)
    requires Lookup(sizes, names[0]) == Some((items[0].width, items[0].height))
    requires forall i :: 0 <= i < |rest| ==>
      Lookup(ids, kept[i]) == Some(rest[i].kind) && Lookup(sizes, kept[i]) == Some((rest[i].width, rest[i].height))
    ensures forall i :: 0 <= i < |items| ==>
      Lookup(ids, names[i]) == Some(items[i].kind) && Lookup(sizes, names[i]) == Some((items[i].width, items[i].height))
  {
    forall i | 1 <= i < |items|
      ensures names[i] == kept[i - 1] && items[i] == rest[i - 1]
    {
    }
  }

  /** `furniture_list` built from the selected names. */
  function BuildFurnitureList(selected: seq<string>): (r: Option<seq<Furniture>>)
    ensures r.Some? <==> forall i :: 0 <= i < |selected| && HasKey(FurnitureMapping, selected[i]) ==>
                                       HasKey(FurnitureSizes, selected[i])
    ensures r.Some? && (forall i :: 0 <= i < |selected| ==> HasKey(FurnitureMapping, selected[i])) ==>
      && |r.value| == |selected|
      && forall i :: 0 <= i < |selected| ==>
           && Lookup(FurnitureMapping, selected[i]) == Some(r.value[i].kind)
           && Lookup(FurnitureSizes, selected[i]) == Some((r.value[i].width, r.value[i].height))
  {
    CataloguedItems(FurnitureMapping, FurnitureSizes, selected)
  }

  /** `furniture_list` over the app's catalogs keeps exactly the selected
      names that have an id, in order, each with its id and size. */
  lemma BuildFurnitureListKeepsNamesWithIds(selected: seq<string>)
    ensures var r := BuildFurnitureList(selected);
      r.Some? ==>
        && |r.value| == |WithIds(FurnitureMapping, selected)|
        && forall i :: 0 <= i < |r.value| ==>
             && Lookup(FurnitureMapping, WithIds(FurnitureMapping, selected)[i]) == Some(r.value[i].kind)
             && Lookup(FurnitureSizes, WithIds(FurnitureMapping, selected)[i]) == Some((r.value[i].width, r.value[i].height))
  {
    CataloguedItemsKeepsNamesWithIds(FurnitureMapping, FurnitureSizes, selected);
  }

  /** Any selection out of a room kind's defaults becomes a request list
      with one item per selected name, in order, and each item's id scans
      back to its name (the label drawn on it). */
  lemma RoomSelectionIsKept(room: nat, selected: seq<string>)
    requires room < |RoomFurniture|
    requires forall i :: 0 <= i < |selected| ==> selected[i] in RoomFurniture[room].1
    ensures BuildFurnitureList(selected).Some?
    ensures var items := BuildFurnitureList(selected).value;
      && |items| == |selected|
      && forall i :: 0 <= i < |selected| ==> GetFurnitureId(items[i].kind) == Some(selected[i])
  {
    RoomListsAreCatalogued();
    forall i | 0 <= i < |selected|
      ensures HasKey(FurnitureMapping, selected[i]) && HasKey(FurnitureSizes, selected[i])
    {
      var k :| 0 <= k < |RoomFurniture[room].1| && RoomFurniture[room].1[k] == selected[i];
    }
    var items := BuildFurnitureList(selected).value;
    forall i | 0 <= i < |selected|
      ensures GetFurnitureId(items[i].kind) == Some(selected[i])
    {
      FurnitureIdRoundTrip(selected[i]);
    }
  }

  /** Every room kind offered by the selectbox has an id, so the request's
      `room_type` is never None. */
  lemma RequestRoomTypeIsDefined()
    ensures forall r :: 0 <= r < |RoomFurniture| ==> GetRoomId(RoomFurniture[r].0).Some?
  {
    assert RoomMapping[0].1 == RoomFurniture[0].0;
    assert RoomMapping[2].1 == RoomFurniture[1].0;
    assert RoomMapping[1].1 == RoomFurniture[2].0;
    assert RoomMapping[3].1 == RoomFurniture[3].0;
    assert RoomMapping[4].1 == RoomFurniture[4].0;
    assert RoomMapping[5].1 == RoomFurniture[5].0;
  }

  /** What `plot_room_layout` ends with: one of its two error messages, or
      the furniture rectangles and names it draws. */
  datatype PlotResult = InvalidPositionData | Mismatch | Drawn(rects: seq<Rect>, names: seq<Option<string>>)

  /** `plot_room_layout` after the obstacles are drawn: it rejects an odd
      number of predicted coordinates, then discards them and re-runs the
      random placement. The mismatch message can never be shown, and what
      is drawn is exactly the list of rectangles committed by the
      placement, each labelled with the name its id scans back to. */
  function PlotRoomLayout(roomWidth: real, roomHeight: real, furniture: seq<Furniture>,
                          positions: seq<real>, streams: seq<seq<Point>>): (r: PlotResult)
    requires StreamsFor(furniture, streams)
    ensures r.InvalidPositionData? <==> |positions| % 2 != 0
    ensures !r.Mismatch?
    ensures r.Drawn? ==> r.rects == PlaceAll(furniture, streams).occupied
    ensures r.Drawn? ==> |r.names| == |furniture|
    ensures r.Drawn? ==> forall i :: 0 <= i < |furniture| ==> r.names[i] == GetFurnitureId(furniture[i].kind)
  {
    if |positions| % 2 != 0 then InvalidPositionData
    else
      var placed := OptimizeFurniturePositions(roomWidth, roomHeight, furniture, positions, streams);
      if |placed| != |furniture| then Mismatch
      else
        OccupiedIsFurnitureOnly(furniture, streams);
        var rects := seq(|furniture|, i requires 0 <= i < |furniture| =>
          RectAt(placed[i], furniture[i].width, furniture[i].height));
        var names := seq(|furniture|, i requires 0 <= i < |furniture| => GetFurnitureId(furniture[i].kind));
        Drawn(rects, names)
  }
}
