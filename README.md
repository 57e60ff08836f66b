# Warehouse logistics model

A Dafny model of the logistics core of the WarehouseManagement Unity simulation.

- **Shop.** Customers queue at the shop and each orders 1 to 5 items. Each frame the shop hands the current customer one item from the warehouse.
- **Warehouse.** It keeps a LIFO stack of items with an X/Z/Y placement cursor. It accumulates the requested demand and covers it by sending out forklifts, each asked for 5 items.
- **Production.** Each request also has the manufacturer manager spawn manufacturers. Each manufacturer stores one item in the manager's shared LIFO buffer whenever its production interval has elapsed.
- **Forklifts.** A forklift drives to the manufacturers and loads from the buffer until it is full. It drives back, unloads its hold into the warehouse and is removed.
- **Idle shop.** With nobody to serve, the shop requests a single item to keep the warehouse stocked, and cuts the manufacturers down to one or none.

Every class of the original is a Dafny `class` in the default module. The files are `warehouse.dfy`, `manufacturer_manager.dfy`, `forklift.dfy`, `shop.dfy`, `customer.dfy`, `item_manufacturer.dfy` and `item.dfy`.

- **State.** Each class has the original's fields. A C# `Stack<T>` is a `seq` whose last element is the top. A `Queue<T>` is a `seq` whose first element is the front.
- **Methods.** They carry `modifies` clauses. Their `ensures` give the new value of each field they change and say that the other fields in their frame stay as they were; a field fixed by `Valid()`, such as the manager's spawn slot or the forklift's placement slot, is stated through it. The invariant of each class is `Valid()`.
- **Queries.** The warehouse's `StoredAmount`, `HasRequestedItems` and `HasActiveForklifts` are functions of its fields: the stock size, demand > 0, and a non-empty forklift list. Contracts in the table below use them. The manager's `ManufacturersAmount` and `StoredItems` are `|manufacturers|` and `|storage|`.
- **Pure modules.** The pure parts are modules, and their lemmas state the properties:
  - `WarehouseGrid`: the warehouse cursor;
  - `SharedShelf`: the buffer cursor;
  - `ForkliftSlots`: the forklift's item placement;
  - `ProductionTimer`: the manufacturer timer;
  - `Dispatch`: trips of 5;
  - `Stacks`: reversal, distinctness and `List.Remove`;
  - `Arith`: the minimum and maximum of two integers, which the contracts share.
- **Call sequences.** `scenarios.dfy` states what calls in a row give: N stores followed by N gets, a load followed by an unload, and filling one order.
- **Not modelled.** `Items/Item.cs` is not part of this model: an item is an opaque object.

Unity's `Update` hooks are plain methods that a caller invokes. Randomness is a parameter: `Shop.SpawnCustomer(roll)` takes the order size `Random.Range(1, 6)` would draw. The `Move` coroutine is the explicit step `Forklift.Arrive()`. The boolean `atSpawn` says that the return trip has brought the forklift back to the warehouse's spawn anchor. A forklift is created on that anchor, but it is outbound by then, so the position test in `Forklift.Update` can only succeed again on the way back.

Some behaviours of the code are easy to misread, and the model follows the code in each:

- `Warehouse.Store` never consults `MaxCapacity`: a warehouse at or above capacity still accepts the item.
- The warehouse cursor is separate state, not a function of the stored count. `Get` wraps x and z to `PerLineAmount`, not `PerLineAmount - 1`, so the cursor drifts from the count (`WarehouseGrid.CursorNotDerivedFromCount`).
- `EnsureProduction(r)` adds `r - StoredItems` manufacturers on top of those already present. `StoredItems` is the manager's buffer, not the warehouse's stock, and the existing manufacturers are not counted against `r`.
- `CleanManufacturers` removes manufacturers in one call until only the minimum is left.
- `Shop.Update` cuts the manufacturers whenever the shop has no customer, whatever demand is outstanding and whether or not forklifts are out (`Shop.KeptWarm`).
- The trip size is the literal 5, and `ForkliftCapacity` is never read. A demand of 7 therefore sends two forklifts.
- The `requestedAmount` argument of `ManufacturerManager.Load` is unused, and so is that of `Warehouse.SendForklifts`.

## Model

| member | source | states |
|---|---|---|
| Stacks.Reversed | Assets/WarehouseManagement/Scripts/Carriers/Forklift.cs:92-95 | the order in which draining a stack hands out its items: same length, element k is element \|s\|-1-k |
| Stacks.ReversedSuffixStep | Assets/WarehouseManagement/Scripts/Manufacturers/ManufacturerManager.cs:81-86 | popping the element at position k extends what was popped before it by exactly that element |
| Stacks.ReversedTwice | Assets/WarehouseManagement/Scripts/Carriers/Forklift.cs:92-95 | draining a stack into another and draining that again restores the original order |
| Stacks.RemoveFirst | Assets/WarehouseManagement/Scripts/Warehouses/Warehouse.cs:136 | List.Remove: the length drops by one iff x was present; an absent x leaves the list as it was |
| Stacks.RemoveFirstMultiset | Assets/WarehouseManagement/Scripts/Warehouses/Warehouse.cs:136 | List.Remove takes away exactly one copy of x, if there is one, and no other element |
| Stacks.RemoveFirstDistinct | Assets/WarehouseManagement/Scripts/Warehouses/Warehouse.cs:134-137 | on a list without duplicates, Remove takes x out altogether and keeps the rest without duplicates |
| Stacks.RemoveFirstOnlyRemoves | Assets/WarehouseManagement/Scripts/Warehouses/Warehouse.cs:136 | Remove adds no element |
| WarehouseGrid.AfterStore | Assets/WarehouseManagement/Scripts/Warehouses/Warehouse.cs:74-87 | Store's cursor step keeps x and z in [0, PerLineAmount], leaves x below PerLineAmount, and raises the layer by at most one |
| WarehouseGrid.AfterGet | Assets/WarehouseManagement/Scripts/Warehouses/Warehouse.cs:101-113 | Get's cursor step keeps x and z in [0, PerLineAmount]; a wrapping step sets x to PerLineAmount; otherwise only x goes down by one |
| WarehouseGrid.StoreThenGetRestores | Assets/WarehouseManagement/Scripts/Warehouses/Warehouse.cs:74-113 | a Store whose x step does not wrap, followed by a Get, restores x, z and y exactly |
| WarehouseGrid.AfterStores | Assets/WarehouseManagement/Scripts/Carriers/Forklift.cs:92-95 | n Stores in a row keep the cursor in range and raise the layer by at most n |
| WarehouseGrid.RunStaysInRange | Assets/WarehouseManagement/Scripts/Warehouses/Warehouse.cs:74-113 | no sequence of Store and Get calls moves x or z out of [0, PerLineAmount] |
| WarehouseGrid.CursorNotDerivedFromCount | Assets/WarehouseManagement/Scripts/Warehouses/Warehouse.cs:101-113 | two call sequences that leave the same count leave different cursors, so the cursor is not a function of the count |
| SharedShelf.Normalised | Assets/WarehouseManagement/Scripts/Manufacturers/ManufacturerManager.cs:94-98 | starting a new layer past the last slot keeps the count and lands on a slot in [1, P] |
| SharedShelf.SlotUsed | Assets/WarehouseManagement/Scripts/Manufacturers/ManufacturerManager.cs:100 | the StoragePositions index Store reads is always within the list |
| SharedShelf.AfterStore | Assets/WarehouseManagement/Scripts/Manufacturers/ManufacturerManager.cs:94-108 | buffer Store keeps the index in [1, P+1] and the derived count goes up by one |
| SharedShelf.AfterGet | Assets/WarehouseManagement/Scripts/Manufacturers/ManufacturerManager.cs:118-124 | buffer Get keeps the index in [1, P+1] and the derived count goes down by one |
| SharedShelf.AfterGets | Assets/WarehouseManagement/Scripts/Manufacturers/ManufacturerManager.cs:79-87 | n Gets in a row, as Load's loop makes, keep the index in [1, P+1] and lower the derived count by exactly n |
| ForkliftSlots.Next | Assets/WarehouseManagement/Scripts/Carriers/Forklift.cs:78-84 | Load's placement step keeps the index in {0, 1} and raises the layer by at most one |
| ForkliftSlots.AfterLoadsClosedForm | Assets/WarehouseManagement/Scripts/Carriers/Forklift.cs:78-84 | after n loads from fresh, index == n % 2 and layer == n / 2 |
| ProductionTimer.Interval | Assets/WarehouseManagement/Scripts/Manufacturers/ItemManufacturer.cs:44 | the tick interval is positive and interval * ProductionPerMinute == 60 |
| ProductionTimer.Step | Assets/WarehouseManagement/Scripts/Manufacturers/ItemManufacturer.cs:53-60 | an active frame produces iff timer + dt reaches the interval, then restarts at 0 and drops the surplus; otherwise it adds dt; with a positive interval the timer is below the interval afterwards |
| ProductionTimer.RunNeverAheadOfClock | Assets/WarehouseManagement/Scripts/Manufacturers/ItemManufacturer.cs:49-62 | over any run of frames, items * interval + timer is at most the starting timer plus the elapsed time |
| Dispatch.Trips | Assets/WarehouseManagement/Scripts/Warehouses/Warehouse.cs:153-163 | a positive demand starts ceil(demand / 5) trips: (n-1)*5 < demand <= n*5; any other demand starts none |
| Customer.IsSatisfied | Assets/WarehouseManagement/Scripts/Shops/Customers/Customer.cs:20-23 | satisfied iff nothing more is owed (RequestedItems - count <= 0); a valid customer holding nothing is not satisfied |
| Customer.constructor | Assets/WarehouseManagement/Scripts/Shops/Customers/Customer.cs:27-31 | the order size is the draw from [1, 6), the inventory is empty, and a fresh customer is not satisfied |
| Customer.AddItem | Assets/WarehouseManagement/Scripts/Shops/Customers/Customer.cs:36-39 | appends exactly that item; a satisfied customer stays satisfied |
| FillOrder | Assets/WarehouseManagement/Scripts/Shops/Customers/Customer.cs:20-39 | exactly RequestedItems AddItem calls from fresh satisfy the customer, and the inventory holds those items in order |
| ItemManufacturer.constructor | Assets/WarehouseManagement/Scripts/Manufacturers/ItemManufacturer.cs:42-47 | Awake: the interval is 60 / ProductionPerMinute, the unit is active, the timer is 0 |
| ItemManufacturer.TurnOn | Assets/WarehouseManagement/Scripts/Manufacturers/ItemManufacturer.cs:29-32 | sets the active flag and changes nothing else |
| ItemManufacturer.TurnOff | Assets/WarehouseManagement/Scripts/Manufacturers/ItemManufacturer.cs:37-40 | clears the active flag and changes nothing else |
| ItemManufacturer.Update | Assets/WarehouseManagement/Scripts/Manufacturers/ItemManufacturer.cs:49-62 | inactive: timer and buffer unchanged; active: timer per Step, exactly one item stored when Step produces, none otherwise; the timer stays below the interval |
| ItemManufacturer.Produce | Assets/WarehouseManagement/Scripts/Manufacturers/ItemManufacturer.cs:64-67 | one new item is stored in the manager's buffer |
| ManufacturerManager.constructor | Assets/WarehouseManagement/Scripts/Manufacturers/ManufacturerManager.cs:39-44 | an empty buffer, cursor at index 1 of layer 0, no manufacturers |
| ManufacturerManager.SpawnManufacturer | Assets/WarehouseManagement/Scripts/Manufacturers/ManufacturerManager.cs:68-74 | pushes exactly one fresh, valid, active manufacturer with timer 0 and the prefab's ProductionPerMinute, and advances the spawn slot by one; the buffer and its cursor are unchanged |
| ManufacturerManager.Load | Assets/WarehouseManagement/Scripts/Manufacturers/ManufacturerManager.cs:79-87 | afterwards the forklift is full or the buffer empty; it takes min(stored, still needed) items off the top of the buffer onto the forklift in pop order; the buffer's cursor steps back once per item taken (unchanged when nothing is taken); the total is conserved; the forklift keeps its other state |
| ManufacturerManager.Store | Assets/WarehouseManagement/Scripts/Manufacturers/ManufacturerManager.cs:92-109 | pushes one fresh item, keeps count == layer*P + index - 1, and returns a slot inside StoragePositions |
| ManufacturerManager.Get | Assets/WarehouseManagement/Scripts/Manufacturers/ManufacturerManager.cs:114-127 | on a non-empty buffer, pops and returns the most recent item and moves the cursor back one step |
| ManufacturerManager.EnsureProduction | Assets/WarehouseManagement/Scripts/Manufacturers/ManufacturerManager.cs:133-141 | nothing changes when requested <= StoredItems; otherwise exactly requested - StoredItems fresh manufacturers are pushed, each valid, active, with timer 0 and the prefab's rate; the buffer and its cursor are unchanged |
| ManufacturerManager.CleanManufacturers | Assets/WarehouseManagement/Scripts/Manufacturers/ManufacturerManager.cs:146-155 | leaves the oldest min(count, minimum) manufacturers, turns off every one removed, and moves the spawn slot back once per removal |
| Forklift.IsFull | Assets/WarehouseManagement/Scripts/Carriers/Forklift.cs:34-37 | full iff the hold needs nothing more: max(0, requested - held) == 0 |
| Forklift.constructor | Assets/WarehouseManagement/Scripts/Carriers/Forklift.cs:39-50 | a fresh forklift: active, not traveling or returning, empty hold, placement slot 0/0, nothing requested |
| Forklift.Carry | Assets/WarehouseManagement/Scripts/Carriers/Forklift.cs:55-64 | requested = min(amount, MaxCarriedItems); warehouse and manager are set and the forklift is traveling; the hold, the load count and the placement slot are as before |
| Forklift.Load | Assets/WarehouseManagement/Scripts/Carriers/Forklift.cs:69-85 | pushes exactly that item, moves the placement slot one step, and changes nothing else |
| Forklift.EmptyHold | Assets/WarehouseManagement/Scripts/Carriers/Forklift.cs:92-95 | the hold ends empty; the warehouse receives the held items most recently loaded first, with its cursor advanced once per item; its demand and forklift list are unchanged |
| Forklift.Unload | Assets/WarehouseManagement/Scripts/Carriers/Forklift.cs:90-99 | every held item is stored in the warehouse in LIFO order, the hold is empty, the forklift is inactive and no longer in the warehouse's list |
| Forklift.Arrive | Assets/WarehouseManagement/Scripts/Carriers/Forklift.cs:101-114 | finishing the outbound trip clears traveling; finishing the return trip puts the forklift on the spawn anchor; hold, request, flags and placement slot otherwise stay |
| Forklift.Update | Assets/WarehouseManagement/Scripts/Carriers/Forklift.cs:116-141 | inactive or traveling: nothing changes; arrived and not full: the manager loads it, `LoadedInto` fixing the buffer and its cursor; full: the return trip starts once; returning and at the anchor: Unload; items leave, or the forklift deactivates, only after the return trip has started; every branch keeps the requested count, the manager and the warehouse, and when it is inactive, traveling or full, the load count, the slot position, `traveling` and `atSpawn` are kept |
| Warehouse.constructor | Assets/WarehouseManagement/Scripts/Warehouses/Warehouse.cs:55-64 | an empty warehouse, cursor at the origin, no demand and no forklifts |
| Warehouse.StoredAmount | Assets/WarehouseManagement/Scripts/Warehouses/Warehouse.cs:26-29 | a natural number that is 0 exactly when the stack is empty |
| Warehouse.HasRequestedItems | Assets/WarehouseManagement/Scripts/Warehouses/Warehouse.cs:34-37 | holds iff the outstanding demand would start at least one trip of 5, i.e. iff demand > 0 |
| Warehouse.HasActiveForklifts | Assets/WarehouseManagement/Scripts/Warehouses/Warehouse.cs:42-45 | holds iff the forklift list is not empty |
| Warehouse.Store | Assets/WarehouseManagement/Scripts/Warehouses/Warehouse.cs:69-92 | pushes the item as the new top, StoredAmount goes up by exactly one, the cursor takes Store's step; MaxCapacity is not consulted |
| Warehouse.Get | Assets/WarehouseManagement/Scripts/Warehouses/Warehouse.cs:97-120 | on non-empty storage, returns the most recently stored item, StoredAmount goes down by one, the cursor takes Get's step |
| StoreAllThenGetAll | Assets/WarehouseManagement/Scripts/Warehouses/Warehouse.cs:69-120 | N Stores followed by N Gets return the items in reverse order and restore the stock |
| LoadThenUnload | Assets/WarehouseManagement/Scripts/Carriers/Forklift.cs:90-99 | a forklift that loads from the buffer with an empty hold and then unloads gives the warehouse the buffer's top items in their original order; the buffer keeps the rest |
| Warehouse.RequestItems | Assets/WarehouseManagement/Scripts/Warehouses/Warehouse.cs:125-129 | demand goes up by amount, then the manager's production is ensured for the new total: the new manufacturers are valid, active and at timer 0; stock, cursor, forklifts and MaxCapacity are unchanged |
| Warehouse.DestroyForklift | Assets/WarehouseManagement/Scripts/Warehouses/Warehouse.cs:134-138 | the list is List.Remove of that forklift, which afterwards is no longer in it; the rest of the warehouse is unchanged |
| Warehouse.Update | Assets/WarehouseManagement/Scripts/Warehouses/Warehouse.cs:145-151 | without demand nothing changes; with demand d the forklifts are dispatched for d |
| Warehouse.SendForklifts | Assets/WarehouseManagement/Scripts/Warehouses/Warehouse.cs:153-163 | appends exactly ceil(d/5) fresh forklifts, each outbound with a request of min(5, MaxCarriedItems); demand ends at 0; storage is unchanged |
| Shop.constructor | Assets/WarehouseManagement/Scripts/Shops/Shop.cs:32-46 | no customers, both counters at 0 |
| Shop.SpawnCustomer | Assets/WarehouseManagement/Scripts/Shops/Shop.cs:74-83 | enqueues one fresh customer at the back of the queue and requests exactly its order size from the warehouse, spawning units as RequestItems does; stock, warehouse cursor, forklifts, MaxCapacity and the shop's other state are unchanged |
| Shop.KeepWarm | Assets/WarehouseManagement/Scripts/Shops/Shop.cs:89-98 | requests 1 item iff stored < MaxCapacity, no demand is outstanding and no forklift is out; then cuts the manufacturers to 1 if below capacity, else to 0, keeping the oldest and turning off each one removed; the kept units keep their active flag and timer, and a unit the request spawned that is kept is valid, active and at timer 0; the buffer and its cursor, the stock, the warehouse cursor, the forklifts and the shop's own state are unchanged |
| Shop.Update | Assets/WarehouseManagement/Scripts/Shops/Shop.cs:85-123 | idle: KeepWarm; otherwise dequeues FIFO when no one is served. A satisfied customer adds 1 to SatisfiedCustomers and its order to DeliveredItems and is dismissed. An unsatisfied one gets the warehouse's top item iff stock > 0, which the warehouse loses; these branches leave the manager, every manufacturer, the waiting customers, the forklifts and MaxCapacity untouched. The counters never decrease; a customer never holds more than it ordered |

## Left out

- Rendering, transforms, parenting and item positions are not modelled: they are floating-point scene work with no effect on the logistics. This covers `m_nextItemPosition`, item heights, `StoragingPosition` and the `±7` spawn offset, which is the integer `spawnSlot`.
- `OnGUI`, `Start`, and the `int.Parse` of the capacity field in `Shop.cs` are not modelled. `maxCapacity` is a plain field a caller may set.
- Random customer placement is left out. The order size is the `roll` parameter, restricted to the range `Random.Range(1, 6)` yields.
- `GameObject.Instantiate` and `Destroy` are object allocation and list removal. `Customer.CleanItems` only destroys the items' game objects, so it is not modelled.
- The `Move` coroutine's interpolation and the exact float comparison of positions are not modelled. Travel is the `Forklift.Arrive` step, and reaching the spawn anchor is `atSpawn`, which only a return trip sets.
- The `ManufacturerManager.Instance` singleton and `Awake` wiring are replaced by passing the manager explicitly. `Store`'s `itemPrefab` and `height` arguments only shape the new item's game object, so they are dropped.
- Time is `real` seconds with no rounding.
- ItemManufacturer.constructor: requires `ProductionPerMinute > 0`. The float division `60.0f / ProductionPerMinute` does not throw: a rate of 0 gives an infinite interval, so the unit never produces, and a negative rate gives a negative interval, so the unit produces on every active frame. Neither case is modelled.
- ManufacturerManager.constructor: requires at least one entry in `StoragePositions`. With none, every `Store` reads `StoragePositions[0]` and throws; the model does not cover a manager in that state.
- Integers are unbounded. The C# `int` counters wrap around past 2^31 - 1 (demand, `SatisfiedCustomers`, `DeliveredItems`, the cursor layers, the spawn slot), and the model does not capture that wrap-around.
- Forklift.Carry: requires a freshly spawned forklift, since its only caller is `SendForklifts` right after `Instantiate`.
- ManufacturerManager.CleanManufacturers: requires `minimum >= 0`, since a negative minimum would pop an empty `Stack`, which throws.
- Warehouse.Get and ManufacturerManager.Get: require a non-empty store, since popping an empty `Stack` throws. Every caller checks first.
- Unity's frame order between objects is not modelled: no scheduler interleaves the `Update` methods. Nor is a global invariant that counts items across buffer, forklifts, warehouse and customers; each transfer is stated on its own.
