/**
  The closed catalogs: room kinds, furniture kinds, furniture sizes and the
  default furniture of each room kind, as the two scripts embed them.

  Python dicts keep insertion order, so each catalog is an association
  list: `Lookup` is `d[k]` (None stands for the KeyError) and `KeyOf` is the
  linear scan of `get_furniture_id` / `get_room_id`, which returns the first
  key whose value matches.
 */
module Catalog {
  import opened Options

  function Lookup<K(==), V>(m: seq<(K, V)>, k: K): (r: Option<V>)
    ensures r.None? <==> forall i :: 0 <= i < |m| ==> m[i].0 != k
    ensures r.Some? ==> exists i :: 0 <= i < |m| && m[i] == (k, r.value)
  {
    if |m| == 0 then None
    else if m[0].0 == k then Some(m[0].1)
    else
      var r := Lookup(m[1..], k);
      assert forall i :: 1 <= i < |m| ==> m[i] == m[1..][i - 1];
      r
  }

  function KeyOf<K, V(==)>(m: seq<(K, V)>, v: V): (r: Option<K>)
    ensures r.None? <==> forall i :: 0 <= i < |m| ==> m[i].1 != v
    ensures r.Some? ==> exists i :: 0 <= i < |m| && m[i] == (r.value, v) && forall j :: 0 <= j < i ==> m[j].1 != v
  {
    if |m| == 0 then None
    else if m[0].1 == v then Some(m[0].0)
    else
      var r := KeyOf(m[1..], v);
      assert forall i :: 1 <= i < |m| ==> m[i] == m[1..][i - 1];
      r
  }

  predicate DistinctValues<K, V(==)>(m: seq<(K, V)>)
  {
    forall i, j :: 0 <= i < j < |m| ==> m[i].1 != m[j].1
  }

  predicate HasKey<K(==), V>(m: seq<(K, V)>, k: K)
  {
    exists i :: 0 <= i < |m| && m[i].0 == k
  }

  /** With distinct values, scanning for the value found under a key gives
      that key back. */
  lemma KeyOfLookup<K, V>(m: seq<(K, V)>, k: K)
    requires DistinctValues(m) && HasKey(m, k)
    ensures Lookup(m, k).Some? && KeyOf(m, Lookup(m, k).value) == Some(k)
  {
    var v := Lookup(m, k).value;
    var i :| 0 <= i < |m| && m[i] == (k, v);
    var r := KeyOf(m, v);
    var j :| 0 <= j < |m| && m[j] == (r.value, v);
    if i < j {
      assert m[i].1 != m[j].1;
    } else if j < i {
      assert m[j].1 != m[i].1;
    }
  }

  /** When every value is its own position, scanning for a value finds the
      key at that position, and nothing for a value outside the positions. */
  lemma KeyOfIndexed<K>(m: seq<(K, int)>, v: int)
    requires forall i :: 0 <= i < |m| ==> m[i].1 == i
    ensures KeyOf(m, v).Some? <==> 0 <= v < |m|
    ensures KeyOf(m, v).Some? ==> KeyOf(m, v).value == m[v].0
  {
    var r := KeyOf(m, v);
    if 0 <= v < |m| {
      assert m[v].1 == v;
    }
    if r.Some? {
      var i :| 0 <= i < |m| && m[i] == (r.value, v);
    }
  }

  // ---------------------------------------------------------------- app.py

  /** `room_furniture`: the default furniture of each room kind. */
  const RoomFurniture: seq<(string, seq<string>)> := [
    ("Bedroom", ["Bed", "Wardrobe", "Desk", "Bookshelf", "Storage Cabinet"]),
    ("Living Room", ["Sofa", "Coffee Table", "TV Stand", "Armchair", "Console Table"]),
    ("Dining Room", ["Dining Table", "Dining Chairs", "Sideboard", "Cabinets"]),
    ("Office", ["Desk", "Office Chair", "Bookshelf", "Filing Cabinet"]),
    ("Kitchen", ["Fridge", "Oven", "Cabinets", "Sink", "Microwave"]),
    ("Bathroom", ["Sink", "Toilet", "Bathtub", "Cabinets", "Mirror"])
  ]

  /** `furniture_sizes`: (width, height) in metres. */
  const FurnitureSizes: seq<(string, (real, real))> := [
    ("Bed", (2.0, 1.5)),
    ("Single Bed", (2.0, 1.0)),
    ("Double Bed", (2.5, 1.5)),
    ("Wardrobe", (1.2, 0.6)),
    ("Side Table", (0.5, 0.5)),
    ("Desk", (1.5, 0.8)),
    ("Bookshelf", (1.0, 0.5)),
    ("Storage Cabinet", (1.5, 0.6)),
    ("Sofa", (2.2, 1.0)),
    ("Coffee Table", (1.2, 0.6)),
    ("TV Stand", (1.8, 0.5)),
    ("Armchair", (0.8, 0.8)),
    ("Console Table", (1.2, 0.4)),
    ("Dining Table", (2.0, 1.2)),
    ("Dining Chairs", (0.5, 0.5)),
    ("Sideboard", (1.5, 0.6)),
    ("Cabinets", (1.8, 0.5)),
    ("Office Chair", (0.6, 0.6)),
    ("Filing Cabinet", (1.2, 0.5)),
    ("Fridge", (0.8, 0.7)),
    ("Oven", (0.9, 0.6)),
    ("Sink", (1.0, 0.5)),
    ("Microwave", (0.6, 0.4)),
    ("Toilet", (0.7, 0.5)),
    ("Bathtub", (1.8, 0.8)),
    ("Mirror", (0.8, 0.4))
  ]

  /** `room_mapping`: room id to room name. */
  const RoomMapping: seq<(int, string)> := [
    (0, "Bedroom"),
    (1, "Dining Room"),
    (2, "Living Room"),
    (3, "Office"),
    (4, "Kitchen"),
    (5, "Bathroom")
  ]

  /** `furniture_mapping`: furniture name to furniture id. */
  const FurnitureMapping: seq<(string, int)> := [
    ("Armchair", 0), ("Bathtub", 1), ("Dining Chairs", 2), ("Dining Table", 3),
    ("Filing Cabinet", 4), ("Fridge", 5), ("Microwave", 6), ("Mirror", 7),
    ("Office Chair", 8), ("Oven", 9), ("Sideboard", 10), ("Sink", 11),
    ("Bed", 12), ("Sofa", 13), ("Storage Cabinet", 14), ("TV Stand", 15),
    ("Toilet", 16), ("Wardrobe", 17), ("Bookshelf", 18), ("Cabinets", 19),
    ("Chair", 20), ("Coffee Table", 21), ("Console Table", 22), ("Couch", 23),
    ("Desk", 24)
  ]

  /** `get_furniture_id(id)`: despite its name, the scan maps a furniture
      id back to the furniture NAME (it is called with `item['type']`).
      The ids are the positions 0..24 of the list, so the name found is the
      one listed at that position, and an id outside 0..24 finds nothing. */
  function GetFurnitureId(id: int): (r: Option<string>)
    ensures r.Some? <==> 0 <= id < |FurnitureMapping|
    ensures r.Some? ==> r.value == FurnitureMapping[id].0
  {
    FurnitureIdsAreIndexes();
    KeyOfIndexed(FurnitureMapping, id);
    KeyOf(FurnitureMapping, id)
  }

  /** `get_room_id(name)`: the scan maps a room name to its id; a name that
      is not listed gives None. */
  function GetRoomId(name: string): (r: Option<int>)
    ensures r.None? <==> forall i :: 0 <= i < |RoomMapping| ==> RoomMapping[i].1 != name
    ensures r.Some? ==> 0 <= r.value < |RoomMapping| && RoomMapping[r.value] == (r.value, name)
  {
    RoomIdsAreIndexes();
    KeyOf(RoomMapping, name)
  }

  /** Looking up a furniture name and scanning back gives the name. */
  lemma FurnitureIdRoundTrip(name: string)
    requires HasKey(FurnitureMapping, name)
    ensures Lookup(FurnitureMapping, name).Some?
    ensures GetFurnitureId(Lookup(FurnitureMapping, name).value) == Some(name)
  {
    FurnitureIdsAreIndexes();
    KeyOfLookup(FurnitureMapping, name);
  }

  /** Looking up a room id and scanning back for the name gives the id. */
  lemma RoomIdRoundTrip(id: int)
    requires 0 <= id < |RoomMapping|
    ensures Lookup(RoomMapping, id).Some?
    ensures GetRoomId(Lookup(RoomMapping, id).value) == Some(id)
  {
    RoomIdsAreIndexes();
    RoomNamesDistinct();
    assert RoomMapping[id].0 == id;
    KeyOfLookup(RoomMapping, id);
  }

  lemma FurnitureIdsAreIndexes()
    ensures forall i :: 0 <= i < |FurnitureMapping| ==> FurnitureMapping[i].1 == i
    ensures DistinctValues(FurnitureMapping)
  {
  }

  lemma RoomIdsAreIndexes()
    ensures forall i :: 0 <= i < |RoomMapping| ==> RoomMapping[i].0 == i
  {
  }

  lemma RoomNamesDistinct()
    ensures DistinctValues(RoomMapping)
  {
  }

  /** Every default furniture name of every room kind has both an id and a
      size, so building the request list drops nothing and never fails. */
  lemma RoomListsAreCatalogued()
    ensures forall r, k :: 0 <= r < |RoomFurniture| && 0 <= k < |RoomFurniture[r].1| ==>
      HasKey(FurnitureMapping, RoomFurniture[r].1[k]) && HasKey(FurnitureSizes, RoomFurniture[r].1[k])
  {
    RoomListsHaveIds();
    RoomListsHaveSizes();
  }

  lemma RoomListsHaveIds()
    ensures forall r, k :: 0 <= r < |RoomFurniture| && 0 <= k < |RoomFurniture[r].1| ==>
      HasKey(FurnitureMapping, RoomFurniture[r].1[k])
  {
    forall r, k | 0 <= r < |RoomFurniture| && 0 <= k < |RoomFurniture[r].1|
      ensures HasKey(FurnitureMapping, RoomFurniture[r].1[k])
    {
      if r == 0 && k == 0 {
        assert FurnitureMapping[12].0 == RoomFurniture[r].1[k];
      } else if r == 0 && k == 1 {
        assert FurnitureMapping[17].0 == RoomFurniture[r].1[k];
      } else if r == 0 && k == 2 {
        assert FurnitureMapping[24].0 == RoomFurniture[r].1[k];
      } else if r == 0 && k == 3 {
        assert FurnitureMapping[18].0 == RoomFurniture[r].1[k];
      } else if r == 0 && k == 4 {
        assert FurnitureMapping[14].0 == RoomFurniture[r].1[k];
      } else if r == 1 && k == 0 {
        assert FurnitureMapping[13].0 == RoomFurniture[r].1[k];
      } else if r == 1 && k == 1 {
        assert FurnitureMapping[21].0 == RoomFurniture[r].1[k];
      } else if r == 1 && k == 2 {
        assert FurnitureMapping[15].0 == RoomFurniture[r].1[k];
      } else if r == 1 && k == 3 {
        assert FurnitureMapping[0].0 == RoomFurniture[r].1[k];
      } else if r == 1 && k == 4 {
        assert FurnitureMapping[22].0 == RoomFurniture[r].1[k];
      } else if r == 2 && k == 0 {
        assert FurnitureMapping[3].0 == RoomFurniture[r].1[k];
      } else if r == 2 && k == 1 {
        assert FurnitureMapping[2].0 == RoomFurniture[r].1[k];
      } else if r == 2 && k == 2 {
        assert FurnitureMapping[10].0 == RoomFurniture[r].1[k];
      } else if r == 2 && k == 3 {
        assert FurnitureMapping[19].0 == RoomFurniture[r].1[k];
      } else if r == 3 && k == 0 {
        assert FurnitureMapping[24].0 == RoomFurniture[r].1[k];
      } else if r == 3 && k == 1 {
        assert FurnitureMapping[8].0 == RoomFurniture[r].1[k];
      } else if r == 3 && k == 2 {
        assert FurnitureMapping[18].0 == RoomFurniture[r].1[k];
      } else if r == 3 && k == 3 {
        assert FurnitureMapping[4].0 == RoomFurniture[r].1[k];
      } else if r == 4 && k == 0 {
        assert FurnitureMapping[5].0 == RoomFurniture[r].1[k];
      } else if r == 4 && k == 1 {
        assert FurnitureMapping[9].0 == RoomFurniture[r].1[k];
      } else if r == 4 && k == 2 {
        assert FurnitureMapping[19].0 == RoomFurniture[r].1[k];
      } else if r == 4 && k == 3 {
        assert FurnitureMapping[11].0 == RoomFurniture[r].1[k];
      } else if r == 4 && k == 4 {
        assert FurnitureMapping[6].0 == RoomFurniture[r].1[k];
      } else if r == 5 && k == 0 {
        assert FurnitureMapping[11].0 == RoomFurniture[r].1[k];
      } else if r == 5 && k == 1 {
        assert FurnitureMapping[16].0 == RoomFurniture[r].1[k];
      } else if r == 5 && k == 2 {
        assert FurnitureMapping[1].0 == RoomFurniture[r].1[k];
      } else if r == 5 && k == 3 {
        assert FurnitureMapping[19].0 == RoomFurniture[r].1[k];
      } else if r == 5 && k == 4 {
        assert FurnitureMapping[7].0 == RoomFurniture[r].1[k];
      }
    }
  }

  lemma RoomListsHaveSizes()
    ensures forall r, k :: 0 <= r < |RoomFurniture| && 0 <= k < |RoomFurniture[r].1| ==>
      HasKey(FurnitureSizes, RoomFurniture[r].1[k])
  {
    forall r, k | 0 <= r < |RoomFurniture| && 0 <= k < |RoomFurniture[r].1|
      ensures HasKey(FurnitureSizes, RoomFurniture[r].1[k])
    {
      if r == 0 && k == 0 {
        assert FurnitureSizes[0].0 == RoomFurniture[r].1[k];
      } else if r == 0 && k == 1 {
        assert FurnitureSizes[3].0 == RoomFurniture[r].1[k];
      } else if r == 0 && k == 2 {
        assert FurnitureSizes[5].0 == RoomFurniture[r].1[k];
      } else if r == 0 && k == 3 {
        assert FurnitureSizes[6].0 == RoomFurniture[r].1[k];
      } else if r == 0 && k == 4 {
        assert FurnitureSizes[7].0 == RoomFurniture[r].1[k];
      } else if r == 1 && k == 0 {
        assert FurnitureSizes[8].0 == RoomFurniture[r].1[k];
      } else if r == 1 && k == 1 {
        assert FurnitureSizes[9].0 == RoomFurniture[r].1[k];
      } else if r == 1 && k == 2 {
        assert FurnitureSizes[10].0 == RoomFurniture[r].1[k];
      } else if r == 1 && k == 3 {
        assert FurnitureSizes[11].0 == RoomFurniture[r].1[k];
      } else if r == 1 && k == 4 {
        assert FurnitureSizes[12].0 == RoomFurniture[r].1[k];
      } else if r == 2 && k == 0 {
        assert FurnitureSizes[13].0 == RoomFurniture[r].1[k];
      } else if r == 2 && k == 1 {
        assert FurnitureSizes[14].0 == RoomFurniture[r].1[k];
      } else if r == 2 && k == 2 {
        assert FurnitureSizes[15].0 == RoomFurniture[r].1[k];
      } else if r == 2 && k == 3 {
        assert FurnitureSizes[16].0 == RoomFurniture[r].1[k];
      } else if r == 3 && k == 0 {
        assert FurnitureSizes[5].0 == RoomFurniture[r].1[k];
      } else if r == 3 && k == 1 {
        assert FurnitureSizes[17].0 == RoomFurniture[r].1[k];
      } else if r == 3 && k == 2 {
        assert FurnitureSizes[6].0 == RoomFurniture[r].1[k];
      } else if r == 3 && k == 3 {
        assert FurnitureSizes[18].0 == RoomFurniture[r].1[k];
      } else if r == 4 && k == 0 {
        assert FurnitureSizes[19].0 == RoomFurniture[r].1[k];
      } else if r == 4 && k == 1 {
        assert FurnitureSizes[20].0 == RoomFurniture[r].1[k];
      } else if r == 4 && k == 2 {
        assert FurnitureSizes[16].0 == RoomFurniture[r].1[k];
      } else if r == 4 && k == 3 {
        assert FurnitureSizes[21].0 == RoomFurniture[r].1[k];
      } else if r == 4 && k == 4 {
        assert FurnitureSizes[22].0 == RoomFurniture[r].1[k];
      } else if r == 5 && k == 0 {
        assert FurnitureSizes[21].0 == RoomFurniture[r].1[k];
      } else if r == 5 && k == 1 {
        assert FurnitureSizes[23].0 == RoomFurniture[r].1[k];
      } else if r == 5 && k == 2 {
        assert FurnitureSizes[24].0 == RoomFurniture[r].1[k];
      } else if r == 5 && k == 3 {
        assert FurnitureSizes[16].0 == RoomFurniture[r].1[k];
      } else if r == 5 && k == 4 {
        assert FurnitureSizes[25].0 == RoomFurniture[r].1[k];
      }
    }
  }

  // ------------------------------------------------------- create_dataset.py

  /** `ROOM_MAPPING`: room name to room id. */
  const DatasetRoomMapping: seq<(string, int)> := [
    ("Bedroom", 0), ("Dining Room", 1), ("Living Room", 2), ("Office", 3), ("Kitchen", 4), ("Bathroom", 5)
  ]

  /** `FURNITURE_MAPPING`: furniture name to furniture id. */
  const DatasetFurnitureMapping: seq<(string, int)> := [
    ("Armchair", 0), ("Bathtub", 1), ("Dining Chairs", 2), ("Dining Table", 3), ("Filing Cabinet", 4),
    ("Fridge", 5), ("Microwave", 6), ("Mirror", 7), ("Office Chair", 8), ("Oven", 9), ("Sideboard", 10),
    ("Sink", 11), ("Bed", 12), ("Sofa", 13), ("Storage Cabinet", 14), ("TV Stand", 15), ("Toilet", 16),
    ("Wardrobe", 17), ("Bookshelf", 18), ("Cabinets", 19), ("Chair", 20), ("Coffee Table", 21),
    ("Console Table", 22), ("Couch", 23), ("Desk", 24)
  ]

  /** `FURNITURE_OPTIONS`: the furniture a generated room of each kind gets. */
  const FurnitureOptions: seq<(string, seq<string>)> := [
    ("Bedroom", ["Bed", "Wardrobe", "Desk", "Bookshelf", "Storage Cabinet"]),
    ("Living Room", ["Sofa", "Coffee Table", "TV Stand", "Armchair", "Console Table"]),
    ("Dining Room", ["Dining Table", "Dining Chairs", "Sideboard", "Cabinets"]),
    ("Office", ["Desk", "Office Chair", "Bookshelf", "Filing Cabinet"]),
    ("Kitchen", ["Fridge", "Oven", "Cabinets", "Sink", "Microwave"]),
    ("Bathroom", ["Sink", "Toilet", "Bathtub", "Cabinets", "Mirror"])
  ]

  /** The two scripts embed the same catalogs: the dataset room ids are the
      interface's room ids read the other way round, and the furniture ids
      and per-room furniture lists coincide entry for entry. */
  lemma CatalogsAgree()
    ensures |DatasetRoomMapping| == |RoomMapping|
    ensures forall i :: 0 <= i < |RoomMapping| ==> DatasetRoomMapping[i] == (RoomMapping[i].1, RoomMapping[i].0)
    ensures DatasetFurnitureMapping == FurnitureMapping
    ensures FurnitureOptions == RoomFurniture
  {
  }

  /** Every room kind offers at most five pieces of furniture, so
      `min(7, len(FURNITURE_OPTIONS[room]))` is the whole list, and every
      offered name has a furniture id. */
  lemma OptionsAreSmallAndCatalogued()
    ensures forall r :: 0 <= r < |FurnitureOptions| ==> |FurnitureOptions[r].1| <= 5
    ensures forall r, k :: 0 <= r < |FurnitureOptions| && 0 <= k < |FurnitureOptions[r].1| ==>
      HasKey(DatasetFurnitureMapping, FurnitureOptions[r].1[k])
  {
    CatalogsAgree();
    RoomListsAreCatalogued();
  }

  /** Every room kind the generator can draw has a furniture list. */
  lemma RoomKindsHaveOptions(room: string)
    requires HasKey(DatasetRoomMapping, room)
    ensures HasKey(FurnitureOptions, room)
  {
    var i :| 0 <= i < |DatasetRoomMapping| && DatasetRoomMapping[i].0 == room;
    if i == 0 {
      assert FurnitureOptions[0].0 == room;
    } else if i == 1 {
      assert FurnitureOptions[2].0 == room;
    } else if i == 2 {
      assert FurnitureOptions[1].0 == room;
    } else if i == 3 {
      assert FurnitureOptions[3].0 == room;
    } else if i == 4 {
      assert FurnitureOptions[4].0 == room;
    } else {
      assert FurnitureOptions[5].0 == room;
    }
  }
}
