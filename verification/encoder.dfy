/**
  The fixed-width scene encoding of backend.py: the 36-entry feature vector
  built from a request, and the step that turns the regressor's 14-entry
  output row back into room coordinates.
 */
module Encoder {
  import opened Options
  import opened Geometry
  import opened Scene
  import opened Vectors

  const MaxObstacles: nat := 3
  const MaxFurniture: nat := 7
  const FeatureCount: nat := 36
  const LabelCount: nat := 14

  /** `[x, y, width, height]` per obstacle, in order. */
  function FlattenRects(rs: seq<Rect>): (r: seq<real>)
    ensures |r| == 4 * |rs|
    ensures forall i :: 0 <= i < |rs| ==> r[4 * i .. 4 * i + 4] == [rs[i].x, rs[i].y, rs[i].width, rs[i].height]
  {
    if |rs| == 0 then []
    else
      var r := FlattenRects(rs[..|rs| - 1]) + [rs[|rs| - 1].x, rs[|rs| - 1].y, rs[|rs| - 1].width, rs[|rs| - 1].height];
      assert forall i :: 0 <= i < |rs| - 1 ==> rs[..|rs| - 1][i] == rs[i];
      r
  }

  /** `[type, width, height]` per furniture item, in order. */
  function FlattenFurniture(items: seq<Furniture>): (r: seq<real>)
    ensures |r| == 3 * |items|
    ensures forall i :: 0 <= i < |items| ==> r[3 * i .. 3 * i + 3] == [items[i].kind as real, items[i].width, items[i].height]
  {
    if |items| == 0 then []
    else
      var last := items[|items| - 1];
      var r := FlattenFurniture(items[..|items| - 1]) + [last.kind as real, last.width, last.height];
      assert forall i :: 0 <= i < |items| - 1 ==> items[..|items| - 1][i] == items[i];
      r
  }

  /** Flattening a prefix of the items gives a prefix of the flattening. */
  lemma {:induction false} FlattenFurniturePrefix(items: seq<Furniture>, k: nat)
    requires k <= |items|
    ensures FlattenFurniture(items[..k]) == FlattenFurniture(items)[..3 * k]
    decreases |items|
  {
    if k < |items| {
      var n := |items| - 1;
      var last := items[n];
      assert FlattenFurniture(items) == FlattenFurniture(items[..n]) + [last.kind as real, last.width, last.height];
      FlattenFurniturePrefix(items[..n], k);
      assert items[..n][..k] == items[..k];
    } else {
      assert items[..k] == items;
    }
  }

  /** Step 2: at most three obstacles, padded with zeros to 12 entries. */
  function ObstacleFeatures(obstacles: seq<Rect>): (r: seq<real>)
    ensures |r| == 4 * MaxObstacles
  {
    var taken := obstacles[..Min(MaxObstacles, |obstacles|)];
    var flat := FlattenRects(taken);
    assert IsMultiple(12 - |flat|, 4) by {
      TimesIsMultiple(4, 3 - |taken|);
    }
    PadWithZeros(flat, 4, 4 * MaxObstacles)
  }

  /** Step 3: at most seven furniture items, padded with zeros to 21 entries. */
  function FurnitureFeatures(items: seq<Furniture>): (r: seq<real>)
    ensures |r| == 3 * MaxFurniture
  {
    var taken := items[..Min(MaxFurniture, |items|)];
    var flat := FlattenFurniture(taken);
    assert IsMultiple(21 - |flat|, 3) by {
      TimesIsMultiple(3, 7 - |taken|);
    }
    PadWithZeros(flat, 3, 3 * MaxFurniture)
  }

  /** Steps 1-4 of `predict_layout`: room fields, then the obstacle block,
      then the furniture block. */
  function EncodeFeatures(roomType: int, roomWidth: real, roomHeight: real,
                          obstacles: seq<Rect>, furniture: seq<Furniture>): (r: seq<real>)
    ensures |r| == FeatureCount
    ensures r[0] == roomType as real && r[1] == roomWidth && r[2] == roomHeight
  {
    [roomType as real, roomWidth, roomHeight] + ObstacleFeatures(obstacles) + FurnitureFeatures(furniture)
  }

  /** Reads obstacle slot `i` (0..2) back out of a feature vector. */
  function ObstacleSlot(v: seq<real>, i: nat): Rect
    requires |v| == FeatureCount && i < MaxObstacles
  {
    Rect(v[3 + 4 * i], v[4 + 4 * i], v[5 + 4 * i], v[6 + 4 * i])
  }

  /** Reads furniture slot `j` (0..6) back out of a feature vector as
      `(type, width, height)`. */
  function FurnitureSlot(v: seq<real>, j: nat): (real, real, real)
    requires |v| == FeatureCount && j < MaxFurniture
  {
    (v[15 + 3 * j], v[16 + 3 * j], v[17 + 3 * j])
  }

  /** Obstacle slot `i` of the vector holds the request's obstacle `i` when
      there is one and all zeros otherwise: obstacles after the third are
      dropped, and padding is zero, never a sentinel. */
  lemma ObstacleSlotsRoundTrip(roomType: int, roomWidth: real, roomHeight: real,
                               obstacles: seq<Rect>, furniture: seq<Furniture>, i: nat)
    requires i < MaxObstacles
    ensures ObstacleSlot(EncodeFeatures(roomType, roomWidth, roomHeight, obstacles, furniture), i) ==
            if i < |obstacles| then obstacles[i] else ZeroRect
  {
    var v := EncodeFeatures(roomType, roomWidth, roomHeight, obstacles, furniture);
    var block := ObstacleFeatures(obstacles);
    var taken := obstacles[..Min(MaxObstacles, |obstacles|)];
    var flat := FlattenRects(taken);
    assert block[..|flat|] == flat;
    assert v[3..15] == block;
    var slot := block[4 * i .. 4 * i + 4];
    assert ObstacleSlot(v, i) == Rect(slot[0], slot[1], slot[2], slot[3]);
    if i < |obstacles| {
      assert taken[i] == obstacles[i];
      assert slot == flat[4 * i .. 4 * i + 4];
    } else {
      assert forall k :: 4 * i <= k < 4 * i + 4 ==> block[k] == 0.0;
    }
  }

  /** Furniture slot `j` of the vector holds the request's item `j` when
      there is one and all zeros otherwise: items after the seventh are
      dropped. */
  lemma FurnitureSlotsRoundTrip(roomType: int, roomWidth: real, roomHeight: real,
                                obstacles: seq<Rect>, furniture: seq<Furniture>, j: nat)
    requires j < MaxFurniture
    ensures FurnitureSlot(EncodeFeatures(roomType, roomWidth, roomHeight, obstacles, furniture), j) ==
            if j < |furniture| then (furniture[j].kind as real, furniture[j].width, furniture[j].height)
            else (0.0, 0.0, 0.0)
  {
    var v := EncodeFeatures(roomType, roomWidth, roomHeight, obstacles, furniture);
    var block := FurnitureFeatures(furniture);
    var taken := furniture[..Min(MaxFurniture, |furniture|)];
    var flat := FlattenFurniture(taken);
    assert block[..|flat|] == flat;
    assert v[15..36] == block;
    var slot := block[3 * j .. 3 * j + 3];
    assert FurnitureSlot(v, j) == (slot[0], slot[1], slot[2]);
    if j < |furniture| {
      assert taken[j] == furniture[j];
      assert slot == flat[3 * j .. 3 * j + 3];
    } else {
      assert forall k :: 3 * j <= k < 3 * j + 3 ==> block[k] == 0.0;
    }
  }

  /** Steps 7-8 of `predict_layout` after the inverse scaling: the first
      `2 * min(7, n)` predicted values, x values scaled by the room width
      and y values by the room height. The 14-entry row is the regressor's
      output; entries past `2 * min(7, n)` are never read. */
  method Denormalize(predictions: seq<real>, roomWidth: real, roomHeight: real, furnitureCount: nat)
    returns (positions: seq<real>)
    requires |predictions| == LabelCount
    ensures |positions| == 2 * Min(MaxFurniture, furnitureCount)
    ensures forall i :: 0 <= i < |positions| && i % 2 == 0 ==> positions[i] == predictions[i] * roomWidth
    ensures forall i :: 0 <= i < |positions| && i % 2 == 1 ==> positions[i] == predictions[i] * roomHeight
  {
    var numItems := Min(MaxFurniture, furnitureCount);
    positions := [];
    var i := 0;
    while i < 2 * numItems
      invariant 0 <= i <= 2 * numItems
      invariant |positions| == i
      invariant forall k :: 0 <= k < i && k % 2 == 0 ==> positions[k] == predictions[k] * roomWidth
      invariant forall k :: 0 <= k < i && k % 2 == 1 ==> positions[k] == predictions[k] * roomHeight
    {
      if i % 2 == 0 {
        positions := positions + [predictions[i] * roomWidth];
      } else {
        positions := positions + [predictions[i] * roomHeight];
      }
      i := i + 1;
    }
    var numValid := 2 * numItems;
    positions := positions[..numValid];
  }
}
