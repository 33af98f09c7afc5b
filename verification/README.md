# Furniture arrangement: placement, encoding and dataset rows in Dafny

This project models the non-UI core of a small furniture-arrangement system.
The system has three parts:

- **The interactive layout (`app.py`).** It builds a furniture list from the catalogs. It places every item with a randomised retry loop: up to 100 attempts, then a committed `(0, 0)` fallback. It checks the count of coordinates the prediction service returns before drawing.
- **The prediction service (`backend.py`).** It encodes a room into a fixed 36-number feature vector: room kind, width and height; three obstacle slots; seven furniture slots. It also turns a 14-number prediction back into `2 * min(7, n)` coordinates.
- **The dataset generator (`create_dataset.py`).** For each sample it draws a room, three obstacle slots and the room's furniture list. It places the furniture with up to 1000 integer attempts per item, checked against obstacles and earlier furniture. A fallback is never recorded. The result is assembled into a 50-number row, which the training script (`Training.py`) splits into 36 features and 14 labels.

Geometry uses `real`. Every random choice is injected:

- The layout receives `streams[i][k]`, the `k`-th corner drawn for item `i`.
- The dataset receives a `SampleDraw` record. `Dataset.ValidDraw` states the ranges numpy draws from.

The one retry loop, `Retry.Search`, is shared by both placements. Its budget is a parameter. Both use the same strict overlap test, `Geometry.Overlaps`.

Modules: `Options` (option type, `Min`), `Geometry` (rectangles, overlap), `Vectors` (zero padding), `Retry` (bounded retry), `Scene` (furniture record), `Catalog` (static catalogs and their scans), `AppLayout` (`app.py`), `Encoder` (`backend.py`), `Dataset` (`create_dataset.py`), `Pipeline` (facts that connect the scripts).

### Behaviour of the code that the model keeps

- The generator stores raw corners as labels, not corners divided by the room size, while the service multiplies its predictions by the room size (`Pipeline.RowLabelsAreRecordedCorners`, `Encoder.Denormalize`).
- `app.py` commits `(0, 0)` for an item whose 100 attempts all fail. The generator assigns `(0, 0)` in that case but never records it, so the labels of later items move one slot to the left (`Dataset.AcceptedItemSlot`, `Dataset.FallbackShiftsLabels`).
- `app.py` has no check for an item larger than the room: `random.uniform(0, negative)` draws from `[negative, 0]` (`AppLayout.UniformIn`), so `AppLayout.PositionInsideRoom` requires that the item in question fits.
- The interface discards the service's answer and re-runs the random placement (`Pipeline.ServiceAnswerIsDiscarded`).

## Model

| member | source | states |
|---|---|---|
| `Options.Min` | backend.py:81 | `min(a, b)` is at most both arguments and equal to one of them |
| `Geometry.OverlapsAny` | app.py:146-151 | the scan over occupied rectangles is true exactly when some listed rectangle overlaps the candidate |
| `Geometry.OverlapsIffCommonInterior` | app.py:149 | for rectangles of positive size, the strict four-inequality test holds exactly when the two rectangles share an interior point |
| `Geometry.TouchingDoesNotOverlap` | app.py:149 | rectangles that only share an edge (`x == ox + ow`) do not overlap |
| `Geometry.OverlapsAnyAppend` | create_dataset.py:91-105 | checking obstacles then placed furniture is the same as checking their concatenation |
| `Vectors.Zeros` | backend.py:44 | a zero block has the requested length and only zeros |
| `Vectors.PadWithZeros` | backend.py:43-44 | the `while len < target: extend(zeros)` loop keeps its input as a prefix and adds only zeros; it overshoots by less than one block, and it lands exactly on the target when the gap is a multiple of the block |
| `Vectors.PadList` | create_dataset.py:126-127 | appending a fill element up to `n` entries keeps the list as a prefix, and every added entry is the fill |
| `Vectors.CountTrue` | create_dataset.py:107-108 | the count of accepted flags is at most the number of flags |
| `Vectors.CountTrueAll` | create_dataset.py:107-115 | every flag is counted exactly when every flag is set |
| `Retry.SearchFrom` | app.py:158-168 | from attempt `a`, an accepted attempt lies in `[a, budget)`, its corner is the draw of that attempt, and the item placed there is not blocked |
| `Retry.SearchFromFirstFit` | app.py:158-168 | every draw the loop passed over before accepting was blocked, and the loop is exhausted exactly when every draw in `[a, budget)` is blocked |
| `Retry.Search` | create_dataset.py:84-111 | the bounded retry loop from attempt 0: an accepted corner is an unblocked draw within the budget |
| `Retry.SearchFirstFit` | create_dataset.py:84-111 | the accepted draw is the first free one within the budget, and exhaustion happens exactly when all budgeted draws are blocked |
| `Catalog.Lookup` | create_dataset.py:119 | `d[k]` is None exactly when no entry has key `k`; otherwise the value comes from an entry listed under `k` |
| `Catalog.KeyOf` | app.py:119-130 | the linear scan finds nothing exactly when no entry has the value; otherwise it returns the key of the FIRST entry holding that value |
| `Catalog.KeyOfLookup` | app.py:119-123 | when values are distinct, scanning for the value stored under a key returns that key |
| `Catalog.KeyOfIndexed` | app.py:119-123 | when each value equals its position, the scan succeeds exactly for in-range values and returns the key at that position |
| `Catalog.GetFurnitureId` | app.py:119-123 | `get_furniture_id(id)` returns a name exactly for ids 0..24, namely the name listed with that id |
| `Catalog.GetRoomId` | app.py:126-130 | `get_room_id(name)` is None exactly for unlisted names; otherwise it is the id listed with that name |
| `Catalog.FurnitureIdRoundTrip` | app.py:57-83 | for every catalogued furniture name, looking up its id and scanning back gives the name |
| `Catalog.RoomIdRoundTrip` | app.py:47-54 | for every room id 0..5, scanning for its name gives the id back |
| `Catalog.FurnitureIdsAreIndexes` | app.py:57-83 | furniture ids are the positions 0..24, so they are distinct |
| `Catalog.RoomIdsAreIndexes` | app.py:47-54 | room ids are the positions 0..5 |
| `Catalog.RoomNamesDistinct` | app.py:47-54 | no room name is listed twice |
| `Catalog.RoomListsAreCatalogued` | app.py:8-44 | every default furniture name of every room kind has an id and a size |
| `Catalog.RoomListsHaveIds` | app.py:8-44 | every default furniture name of every room kind has an id |
| `Catalog.RoomListsHaveSizes` | app.py:8-44 | every default furniture name of every room kind has a size |
| `Catalog.CatalogsAgree` | create_dataset.py:4-25 | the generator's room mapping is the app's with keys and values swapped; its furniture mapping and option lists equal the app's |
| `Catalog.OptionsAreSmallAndCatalogued` | create_dataset.py:18-25 | every room's option list has at most five names, each with a furniture id |
| `Catalog.RoomKindsHaveOptions` | create_dataset.py:46-68 | every room kind the generator can draw has an option list |
| `AppLayout.PlaceItem` | app.py:153-173 | one loop pass keeps the earlier positions and appends exactly one position and one occupied rectangle, the item at that position |
| `AppLayout.PlaceItemPosition` | app.py:155-173 | the appended position is one of the first 100 draws and is not blocked, or it is the origin and all 100 draws were blocked |
| `AppLayout.PlaceAll` | app.py:142-175 | starting from empty lists, the loop yields one position and one occupied rectangle per item |
| `AppLayout.OptimizeFurniturePositions` | app.py:142-175 | returns exactly one position per furniture item |
| `AppLayout.PlaceAllPrefix` | app.py:153-173 | placing a prefix of the items gives a prefix of both lists: later items never change earlier positions |
| `AppLayout.ItemDecision` | app.py:153-173 | item `i`'s position is decided by the retry loop against exactly the rectangles committed for items `0..i-1`, and its occupied rectangle is the item there |
| `AppLayout.OccupiedIsFurnitureOnly` | app.py:144 | the occupied list holds exactly the furniture at its positions, one per item; no obstacle is ever in it |
| `AppLayout.AcceptedItemOverlapsNothingEarlier` | app.py:163-166 | when some draw within the budget is free, the item lands on the first free draw and overlaps no rectangle committed before it |
| `AppLayout.FallbackAtOrigin` | app.py:170-173 | after 100 blocked draws the item sits at `(0, 0)`, and that rectangle is committed |
| `AppLayout.PositionInsideRoom` | app.py:160-161 | an item that fits the room, whose own draws are uniform in range, gets a position with `0 <= x <= W - width` and `0 <= y <= H - height`, whatever the other items' sizes and draws |
| `AppLayout.PositionsInsideRoom` | app.py:160-161 | when items fit and draws are uniform in range, every position satisfies `0 <= x <= W - width` and `0 <= y <= H - height` |
| `AppLayout.CataloguedItems` | app.py:112-116 | the comprehension fails exactly when a name with an id has no size; when every name has an id, it keeps one item per name, in order, with that id and size; the general case is `AppLayout.CataloguedItemsKeepsNamesWithIds` |
| `AppLayout.WithIds` | app.py:115 | the `if f in furniture_mapping` filter keeps exactly the selected names that have an id, and keeps all of them when every name has one |
| `AppLayout.CataloguedItemsKeepsNamesWithIds` | app.py:112-116 | whatever is selected, a successful comprehension yields, in order, one item per kept name, with that name's id and size; names without an id are dropped |
| `AppLayout.BuildFurnitureList` | app.py:112-116 | `furniture_list` over the app's catalogs: the same failure condition, and the same per-name contents when every name has an id |
| `AppLayout.BuildFurnitureListKeepsNamesWithIds` | app.py:112-116 | `furniture_list` over the app's catalogs keeps, in order, exactly the selected names that have an id, each with its id and size |
| `AppLayout.RoomSelectionIsKept` | app.py:88-116 | any selection from a room's defaults yields one item per name, each of whose id scans back to the name |
| `AppLayout.RequestRoomTypeIsDefined` | app.py:133-134 | every selectable room kind has a room id, so `room_type` is never None |
| `AppLayout.PlotRoomLayout` | app.py:198-216 | an odd coordinate count is reported, and only then; the mismatch message never appears; what is drawn is the committed rectangles, named by scanning their ids |
| `Encoder.FlattenRects` | backend.py:39-41 | four numbers per obstacle, `[x, y, width, height]`, in order |
| `Encoder.FlattenFurniture` | backend.py:48-50 | three numbers per item, `[type, width, height]`, in order |
| `Encoder.FlattenFurniturePrefix` | backend.py:48 | flattening the first `k` items gives the first `3k` numbers |
| `Encoder.ObstacleFeatures` | backend.py:37-44 | the obstacle block always has exactly 12 numbers |
| `Encoder.FurnitureFeatures` | backend.py:46-53 | the furniture block always has exactly 21 numbers |
| `Encoder.EncodeFeatures` | backend.py:34-57 | the feature vector has 36 numbers, starting with room kind, width and height |
| `Encoder.ObstacleSlotsRoundTrip` | backend.py:37-44 | obstacle slot `i` of the vector reads back as obstacle `i`, or as the zero rectangle when there are `i` or fewer obstacles |
| `Encoder.FurnitureSlotsRoundTrip` | backend.py:46-53 | furniture slot `j` reads back as item `j`'s `(type, width, height)`, or zeros when there are `j` or fewer items |
| `Encoder.Denormalize` | backend.py:81-95 | the answer has `2 * min(7, n)` numbers: even entries are predictions times width, odd entries predictions times height; later predictions play no part |
| `Dataset.SlotValues` | create_dataset.py:59-63 | a slot contributes the four numbers of its rectangle, which are zeros for an empty slot |
| `Dataset.ObstacleBlock` | create_dataset.py:51-63 | four numbers per slot: the obstacle's `[x, y, w, h]`, or `[0, 0, 0, 0]` for an empty slot |
| `Dataset.ObstacleRects` | create_dataset.py:92-93 | the obstacle check reads one rectangle per four numbers |
| `Dataset.ObstacleRectsRoundTrip` | create_dataset.py:52-63 | reading the block back gives one rectangle per slot: the obstacle, or the zero rectangle |
| `Dataset.ObstaclesInsideRoom` | create_dataset.py:55-60 | every obstacle rectangle, empty slots included, lies within `[0, W - 1] x [0, H - 1]` |
| `Dataset.EmptySlotNeverBlocks` | create_dataset.py:92-97 | an empty slot never blocks a candidate with a non-negative coordinate |
| `Dataset.PlaceFurniture` | create_dataset.py:77-115 | at most one rectangle is recorded per item; which rectangle lands in which slot is stated by `Dataset.AcceptedItemSlot` |
| `Dataset.AcceptedIsFree` | create_dataset.py:91-109 | an accepted corner puts the item clear of every obstacle and every recorded rectangle |
| `Dataset.PlacedAreDisjoint` | create_dataset.py:91-109 | for every draw, recorded rectangles are pairwise disjoint and overlap no obstacle |
| `Dataset.AppendFreeKeepsDisjoint` | create_dataset.py:107-108 | appending a rectangle that overlaps nothing keeps the list disjoint and clear of obstacles |
| `Dataset.AcceptedInsideWalls` | create_dataset.py:87-88 | an accepted corner is one of the item's candidates, so it keeps the item inside the walls when every candidate does |
| `Dataset.AppendInsideWalls` | create_dataset.py:108 | appending a rectangle that is inside the walls keeps every recorded rectangle inside |
| `Dataset.PlacedInsideStep` | create_dataset.py:86-109 | one pass of the loop keeps every recorded rectangle inside the walls |
| `Dataset.PlacedInsideRoom` | create_dataset.py:87-88 | every recorded rectangle satisfies `0 <= x <= W - w - 1` and `0 <= y <= H - h - 1` |
| `Dataset.Outcomes` | create_dataset.py:77-111 | one loop outcome per item; which outcome is stated by `Dataset.ItemOutcomeIsLoop` |
| `Dataset.AcceptedFlags` | create_dataset.py:107-114 | one accepted-or-not flag per item; its meaning is stated by `Dataset.AllAcceptedIff` and `Dataset.AcceptedCountLast` |
| `Dataset.AcceptedCountLast` | create_dataset.py:107-114 | the accepted count grows by one exactly when the last item is accepted |
| `Dataset.PlacedLength` | create_dataset.py:107-115 | `len(placed_positions)` equals the number of accepted items |
| `Dataset.AllAcceptedIff` | create_dataset.py:107-115 | the accepted count is at most the item count, and equals it exactly when every item is accepted |
| `Dataset.PlacedCount` | create_dataset.py:84-115 | `len(placed_positions)` is the number of accepted items, at most the item count, and equals it exactly when no item fell back |
| `Dataset.OutcomesOfPrefix` | create_dataset.py:77-111 | the outcomes for a prefix of the items are the prefix of the outcomes: an item's outcome never depends on later items |
| `Dataset.ItemOutcomeIsLoop` | create_dataset.py:84-111 | item `i`'s outcome is the retry loop run against exactly the rectangles recorded for items `0..i-1` |
| `Dataset.PlacedOfPrefix` | create_dataset.py:77-111 | the rectangles recorded for the first `n` items stay at the front of `placed_positions`: later items only append |
| `Dataset.AcceptedItemSlot` | create_dataset.py:107-115 | for every draw, an accepted item `i` is recorded in slot `k`, where `k` counts the items before `i` that were accepted, so each earlier fallback moves it one slot left |
| `Dataset.LabelsPairWithItemsWhenAllPlaced` | create_dataset.py:107-108 | when no item falls back, recorded rectangle `i` is item `i` at its accepted corner |
| `Dataset.FallbackShiftsLabels` | create_dataset.py:113-115 | a concrete sample: the first item falls back, so the second item's rectangle takes label slot 0 |
| `Dataset.ItemRecordsNameBack` | create_dataset.py:117-119 | the furniture id stored for each item scans back, through the app's `get_furniture_id`, to the item's name |
| `Dataset.FurnitureData` | create_dataset.py:117-123 | `furniture_data` holds the items' `[type, w, h]` records, then zeros; exactly 21 numbers for seven items or fewer, three per item otherwise |
| `Dataset.FirstTwoOfEach` | create_dataset.py:130 | when every entry has at least two numbers, the result is their first two numbers, entry by entry |
| `Dataset.LabelValues` | create_dataset.py:125-130 | the labels before the final `[:14]` have two numbers per recorded rectangle and never fewer than fourteen; their values are stated by `Dataset.LabelValuesAreCorners` |
| `Dataset.LabelValuesAreCorners` | create_dataset.py:125-130 | labels hold the recorded corners in recording order, then `0, 0` pairs up to seven |
| `Dataset.GenerateRow` | create_dataset.py:132-134 | every row has exactly 50 numbers |
| `Dataset.ValidDrawIsWellFormed` | create_dataset.py:46-70 | every drawable sample has a known room kind and known furniture names, and selects as many names as its option list holds, at most five |
| `Dataset.OptionsForIsCatalogued` | create_dataset.py:18-25 | a listed room kind's option list has at most five names, each with a furniture id |
| `Dataset.SampleInvariants` | create_dataset.py:44-134 | for every drawable sample, recorded rectangles are disjoint, clear of obstacles and inside the walls, like every obstacle; at most five are recorded |
| `Pipeline.TrainingFeatures` | Training.py:13 | `X[:, :-14]` is the row minus its last 14 columns |
| `Pipeline.TrainingLabels` | Training.py:12 | `X[:, -14:]` is the last 14 columns |
| `Pipeline.FlattenObstacleRects` | create_dataset.py:92-93 | reading 12 obstacle numbers as rectangles and flattening them back gives the same numbers |
| `Pipeline.ObstacleBlockIsEncoded` | backend.py:37-44 | the generator's 12 obstacle numbers are exactly the service's obstacle block for the same rectangles |
| `Pipeline.FewRecordsEncoded` | backend.py:46-53 | for seven items or fewer, the service's furniture block is the whole flattening padded to 21 numbers |
| `Pipeline.ManyRecordsEncoded` | backend.py:46-53 | for more than seven items, padding leaves the flattening alone, and the service's block is its first 21 numbers |
| `Pipeline.FurnitureDataIsEncoded` | create_dataset.py:121-134 | the generator's `furniture_data[:21]` is exactly the service's furniture block for the same records |
| `Pipeline.RowFeaturesMatchService` | create_dataset.py:133-134 | the 36 training features of every row equal the service's feature vector for the same room, obstacles and furniture |
| `Pipeline.SplitRow` | Training.py:12-13 | a 50-number row built as features plus 14 labels splits back into exactly those two parts |
| `Pipeline.RowLabelsAreRecordedCorners` | Training.py:12 | label pair `j` holds recorded rectangle `j`'s raw corner, or zeros |
| `Pipeline.ServiceAnswerIsDiscarded` | app.py:198-204 | the service's `2 * min(7, n)` coordinates always pass the parity check, and what is drawn does not depend on their values |

## Left out

- The Streamlit widgets, matplotlib drawing and colours (`app.py:86-110`, `app.py:178-197`, `app.py:213-218`) and the HTTP request (`app.py:222-230`). These are I/O. The request's room and furniture become parameters.
- FastAPI, model and scaler loading, min-max scaling, `model.predict`, `inverse_transform` and the debug prints (`backend.py:1-33`, `backend.py:59-79`). These are foreign ML calls. The 14-number prediction row is an input to `Encoder.Denormalize`.
- All of `Training.py` apart from the column split: training, validation splitting and saving.
- `np.save` and the 3300-sample outer loop of `create_dataset.py`. One sample is modelled, and the file write is I/O.
- The probability laws are not modelled: uniform, the 70% obstacle coin, and `choice` without replacement. `Dataset.ValidDraw` and `AppLayout.UniformDraws` state only the ranges and the shape of the draws.
- IEEE and float32 rounding. Every number is a mathematical real.
- `AppLayout.PositionInsideRoom`: states nothing about the position of an item that is itself larger than the room. The code has no check for that case, and that item's position then lies outside the room; the other items are covered.
- `Dataset.ValidDrawIsWellFormed`: states the selection's size and membership, not that it is a permutation of the option list.
- `Dataset.GenerateRow`: states only the row's width. Its column contents are stated by `Pipeline.RowFeaturesMatchService` and `Pipeline.RowLabelsAreRecordedCorners`.
- `Dataset.Outcomes`: its own contract states only the length. What each outcome is is stated by `Dataset.ItemOutcomeIsLoop`, which keeps this widely unfolded function cheap to verify.
- `Dataset.AcceptedFlags`: its own contract states only the length. What the flags mean is stated by `Dataset.AllAcceptedIff`.
- `Vectors.CountTrue`: its own contract states only the upper bound. When the count is full is stated by `Vectors.CountTrueAll`.
