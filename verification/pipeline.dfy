/**
  Facts that tie the three scripts together: the training script's column
  split of a dataset row, the agreement between the dataset's feature
  columns and the service's feature vector, the label columns, and the
  interface's handling of the service's answer.
 */
module Pipeline {
  import opened Options
  import opened Geometry
  import opened Scene
  import opened Vectors
  import opened Catalog
  import opened Encoder
  import opened Dataset
  import AppLayout

  /** Training.py: `X[:, :-14]`, the feature columns of a row. */
  function TrainingFeatures(row: seq<real>): (r: seq<real>)
    requires |row| >= LabelCount
    ensures |r| == |row| - LabelCount && row == r + row[|row| - LabelCount..]
  {
    row[..|row| - LabelCount]
  }

  /** Training.py: `X[:, -14:]`, the label columns of a row. */
  function TrainingLabels(row: seq<real>): (r: seq<real>)
    requires |row| >= LabelCount
    ensures |r| == LabelCount && row == row[..|row| - LabelCount] + r
  {
    row[|row| - LabelCount..]
  }

  /** Reading a flat obstacle list four numbers at a time and flattening
      the rectangles again gives the list back. */
  lemma FlattenObstacleRects(block: seq<real>)
    requires |block| == 4 * ObstacleSlots
    ensures FlattenRects(ObstacleRects(block)) == block
  {
    var f := FlattenRects(ObstacleRects(block));
    FlattenedSlot(block, 0);
    FlattenedSlot(block, 1);
    FlattenedSlot(block, 2);
    assert f == f[0..4] + f[4..8] + f[8..12];
    assert block == block[0..4] + block[4..8] + block[8..12];
  }

  lemma FlattenedSlot(block: seq<real>, i: nat)
    requires |block| == 4 * ObstacleSlots && i < ObstacleSlots
    ensures |FlattenRects(ObstacleRects(block))| == |block|
    ensures FlattenRects(ObstacleRects(block))[4 * i .. 4 * i + 4] == block[4 * i .. 4 * i + 4]
  {
    var rs := ObstacleRects(block);
    assert FlattenRects(rs)[4 * i .. 4 * i + 4] == [rs[i].x, rs[i].y, rs[i].width, rs[i].height];
  }

  /** The dataset's twelve obstacle numbers are already the service's
      obstacle block: three slots need neither truncation nor padding. */
  lemma ObstacleBlockIsEncoded(block: seq<real>)
    requires |block| == 4 * ObstacleSlots
    ensures ObstacleFeatures(ObstacleRects(block)) == block
  {
    var rects := ObstacleRects(block);
    FlattenObstacleRects(block);
    assert rects[..Min(MaxObstacles, |rects|)] == rects;
    assert 4 * |rects| == 4 * MaxObstacles;
  }

  /** Seven items or fewer: padding the whole flattening to 21 numbers is
      the service's furniture block. */
  lemma FewRecordsEncoded(records: seq<Furniture>)
    requires |records| <= MaxFurniture
    ensures var padded := PadWithZeros(FlattenFurniture(records), 3, 3 * MaxFurniture);
      |padded| == 3 * MaxFurniture && FurnitureFeatures(records) == padded
  {
    assert records[..Min(MaxFurniture, |records|)] == records;
    TimesIsMultiple(3, MaxFurniture - |records|);
  }

  /** More than seven items: the flattening needs no padding, and its
      first 21 numbers are the service's furniture block. */
  lemma ManyRecordsEncoded(records: seq<Furniture>)
    requires |records| > MaxFurniture
    ensures var raw := FlattenFurniture(records);
      && PadWithZeros(raw, 3, 3 * MaxFurniture) == raw
      && FurnitureFeatures(records) == raw[..3 * MaxFurniture]
  {
    FlattenFurniturePrefix(records, MaxFurniture);
  }

  /** The dataset's `furniture_data[:21]` is the service's furniture block
      for the same records: both keep the first seven items and pad with
      zeros to 21 numbers. */
  lemma FurnitureDataIsEncoded(items: seq<FurnitureDraw>)
    requires NamesCatalogued(items)
    ensures |FurnitureData(items)| >= 3 * MaxFurniture
    ensures FurnitureFeatures(ItemRecords(items)) == FurnitureData(items)[..3 * MaxFurniture]
  {
    var records := ItemRecords(items);
    var fdata := FurnitureData(items);
    assert fdata == PadWithZeros(FlattenFurniture(records), 3, 3 * MaxFurniture);
    if |records| <= MaxFurniture {
      FewRecordsEncoded(records);
      assert fdata[..3 * MaxFurniture] == fdata;
    } else {
      ManyRecordsEncoded(records);
    }
  }

  /** The first 36 columns of every generated row are exactly the feature
      vector the service builds for the same room, obstacle slots (empty
      slots as zero rectangles) and furniture records: the two encoders
      agree on field order, truncation and padding. */
  lemma RowFeaturesMatchService(d: SampleDraw)
    requires WellFormed(d)
    ensures var row := GenerateRow(d);
      && |TrainingFeatures(row)| == FeatureCount
      && TrainingFeatures(row) ==
           EncodeFeatures(Lookup(DatasetRoomMapping, d.roomType).value, d.roomWidth as real, d.roomHeight as real,
                          ObstacleRects(ObstacleBlock(d.obstacles)), ItemRecords(d.furniture))
  {
    var row := GenerateRow(d);
    var block := ObstacleBlock(d.obstacles);
    var fdata := FurnitureData(d.furniture);
    ObstacleBlockIsEncoded(block);
    FurnitureDataIsEncoded(d.furniture);
    LabelValuesAreCorners(SamplePlacement(d));
    var head := [Lookup(DatasetRoomMapping, d.roomType).value as real, d.roomWidth as real, d.roomHeight as real];
    var features := head + block + fdata[..3 * MaxFurniture];
    SplitRow(row, features, LabelValues(SamplePlacement(d))[..2 * MaxFurniture]);
  }

  /** A row is its feature columns followed by its 14 label columns. */
  lemma SplitRow(row: seq<real>, features: seq<real>, labels: seq<real>)
    requires row == features + labels && |labels| == LabelCount
    ensures TrainingFeatures(row) == features && TrainingLabels(row) == labels
  {
    assert row[..|features|] == features;
  }

  /** The last 14 columns hold the corners of the first seven recorded
      rectangles, in recording order, as raw room coordinates, followed by
      zeros: label slot `j` belongs to the `j`-th RECORDED item, which is
      item `j` only when no earlier item fell back. */
  lemma RowLabelsAreRecordedCorners(d: SampleDraw)
    requires WellFormed(d)
    ensures var labels := TrainingLabels(GenerateRow(d));
      var placed := SamplePlacement(d);
      forall j :: 0 <= j < MaxFurniture ==>
        && labels[2 * j] == (if j < |placed| then placed[j].x else 0.0)
        && labels[2 * j + 1] == (if j < |placed| then placed[j].y else 0.0)
  {
    var placed := SamplePlacement(d);
    LabelValuesAreCorners(placed);
    var head := [Lookup(DatasetRoomMapping, d.roomType).value as real, d.roomWidth as real, d.roomHeight as real];
    var features := head + ObstacleBlock(d.obstacles) + FurnitureData(d.furniture)[..3 * MaxFurniture];
    SplitRow(GenerateRow(d), features, LabelValues(placed)[..2 * MaxFurniture]);
    LabelsAreCorners(TrainingLabels(GenerateRow(d)), placed);
  }

  lemma LabelsAreCorners(labels: seq<real>, placed: seq<Rect>)
    requires |LabelValues(placed)| >= 2 * MaxFurniture
    requires labels == LabelValues(placed)[..2 * MaxFurniture]
    ensures forall j :: 0 <= j < MaxFurniture ==>
      && labels[2 * j] == (if j < |placed| then placed[j].x else 0.0)
      && labels[2 * j + 1] == (if j < |placed| then placed[j].y else 0.0)
  {
    LabelValuesAreCorners(placed);
  }

  /** The service answers with `2 * min(7, n)` numbers, an even count, so
      the interface never reports invalid position data for it; and since
      the interface re-runs the random placement, the answer's values have
      no effect on what is drawn. */
  lemma ServiceAnswerIsDiscarded(roomWidth: real, roomHeight: real, furniture: seq<Furniture>,
                                 answer: seq<real>, streams: seq<seq<Point>>)
    requires AppLayout.StreamsFor(furniture, streams)
    requires |answer| == 2 * Min(MaxFurniture, |furniture|)
    ensures !AppLayout.PlotRoomLayout(roomWidth, roomHeight, furniture, answer, streams).InvalidPositionData?
    ensures AppLayout.PlotRoomLayout(roomWidth, roomHeight, furniture, answer, streams) ==
            AppLayout.PlotRoomLayout(roomWidth, roomHeight, furniture, [], streams)
  {
    var k := Min(MaxFurniture, |furniture|);
    assert |answer| == k + k;
  }
}
