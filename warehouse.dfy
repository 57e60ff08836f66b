/**
 * The warehouse (Warehouses/Warehouse.cs): a LIFO store of items with a
 * placement cursor, the outstanding demand, and the forklifts it has sent
 * out.
 */
class Warehouse {
  /** The manager whose production EnsureProduction sizes. */
  const manager: ManufacturerManager
  /** MaxCapacity: consulted by the shop, never by Store. */
  var maxCapacity: int
  /** PerLineAmount: width of the placement grid. */
  const perLineAmount: int
  /** ForkliftCapacity: declared but never read. */
  const forkliftCapacity: int
  /** MaxCarriedItems of the forklift prefab each dispatch instantiates. */
  const forkliftMaxCarriedItems: int

  /** m_storage: the stored items, top last. */
  var storage: seq<Item>
  /** m_forklifts: the forklifts sent out and not yet unloaded. */
  var forklifts: seq<Forklift>
  /** m_currentStoragingIndexX, m_currentStoragingIndexZ, m_currentStoragingY. */
  var indexX: int
  var indexZ: int
  var layerY: int
  /** m_requestedItems: outstanding demand. */
  var requestedItems: int

  function Cursor(): WarehouseGrid.Cursor
    reads this
  {
    WarehouseGrid.Cursor(indexX, indexZ, layerY)
  }

  /** No forklift is listed twice; with PerLineAmount >= 0 the cursor's x
      and z stay within [0, PerLineAmount]. */
  ghost predicate Valid()
    reads this
  {
    && Stacks.Distinct(forklifts)
    && (perLineAmount >= 0 ==> WarehouseGrid.InRange(Cursor(), perLineAmount))
  }

  /** An empty warehouse with the cursor at the origin and no demand. */
  constructor (manager: ManufacturerManager, maxCapacity: int, perLineAmount: int,
               forkliftCapacity: int, forkliftMaxCarriedItems: int)
    ensures Valid()
    ensures this.manager == manager && this.maxCapacity == maxCapacity
    ensures this.perLineAmount == perLineAmount && this.forkliftCapacity == forkliftCapacity
    ensures this.forkliftMaxCarriedItems == forkliftMaxCarriedItems
    ensures storage == [] && forklifts == [] && requestedItems == 0
    ensures Cursor() == WarehouseGrid.Origin
  {
    this.manager := manager;
    this.maxCapacity := maxCapacity;
    this.perLineAmount := perLineAmount;
    this.forkliftCapacity := forkliftCapacity;
    this.forkliftMaxCarriedItems := forkliftMaxCarriedItems;
    storage, forklifts := [], [];
    indexX, indexZ, layerY := 0, 0, 0;
    requestedItems := 0;
  }

  /** StoredAmount: the number of stored items; none exactly when the
      stack is empty. */
  function StoredAmount(): (n: nat)
    reads this
    ensures n == 0 <==> storage == []
  {
    |storage|
  }

  /** HasRequestedItems: some demand is outstanding, which is exactly when
      SendForklifts would start at least one trip. */
  predicate HasRequestedItems()
    reads this
    ensures HasRequestedItems() <==> Dispatch.Trips(requestedItems) > 0
  {
    requestedItems > 0
  }

  /** HasActiveForklifts: some forklift is out. */
  predicate HasActiveForklifts()
    reads this
    ensures HasActiveForklifts() <==> forklifts != []
  {
    |forklifts| > 0
  }

  /** Pushes the item and advances the cursor.  MaxCapacity is not
      consulted: a full warehouse still accepts the item. */
  method Store(item: Item)
    requires Valid()
    modifies this
    ensures Valid()
    ensures storage == old(storage) + [item]
    ensures StoredAmount() == old(StoredAmount()) + 1
    ensures Cursor() == WarehouseGrid.AfterStore(old(Cursor()), perLineAmount)
    ensures forklifts == old(forklifts) && requestedItems == old(requestedItems)
    ensures maxCapacity == old(maxCapacity)
  {
    indexX := indexX + 1;
    storage := storage + [item];
    if indexX >= perLineAmount {
      indexX := 0;
      indexZ := indexZ + 1;
      if indexZ >= perLineAmount {
        layerY := layerY + 1;
        indexZ := 0;
      }
    }
  }

  /** Pops the most recently stored item and moves the cursor back.
      Popping an empty Stack throws, so the storage must not be empty. */
  method Get() returns (item: Item)
    requires Valid() && |storage| > 0
    modifies this
    ensures Valid()
    ensures item == old(storage)[|old(storage)| - 1]
    ensures storage == old(storage)[..|old(storage)| - 1]
    ensures StoredAmount() == old(StoredAmount()) - 1
    ensures Cursor() == WarehouseGrid.AfterGet(old(Cursor()), perLineAmount)
    ensures forklifts == old(forklifts) && requestedItems == old(requestedItems)
    ensures maxCapacity == old(maxCapacity)
  {
    item := storage[|storage| - 1];
    storage := storage[..|storage| - 1];
    indexX := indexX - 1;
    if indexX < 0 {
      indexX := perLineAmount;
      indexZ := indexZ - 1;
      if indexZ < 0 {
        layerY := layerY - 1;
        indexZ := perLineAmount;
      }
    }
  }

  /** Adds amount to the outstanding demand, then has the manager ensure
      production for the new total. */
  method RequestItems(amount: int)
    requires Valid() && manager.Valid()
    modifies this, manager
    ensures Valid() && manager.Valid()
    ensures requestedItems == old(requestedItems) + amount
    ensures manager.ProductionEnsured(requestedItems)
    ensures storage == old(storage) && Cursor() == old(Cursor())
    ensures forklifts == old(forklifts) && maxCapacity == old(maxCapacity)
  {
    requestedItems := requestedItems + amount;
    manager.EnsureProduction(requestedItems);
  }

  /** Removes the forklift from the list (its first occurrence, as
      List.Remove does; it occurs at most once). */
  method DestroyForklift(forklift: Forklift)
    requires Valid()
    modifies this
    ensures Valid()
    ensures forklifts == Stacks.RemoveFirst(old(forklifts), forklift)
    ensures forklift !in forklifts
    ensures storage == old(storage) && Cursor() == old(Cursor())
    ensures requestedItems == old(requestedItems) && maxCapacity == old(maxCapacity)
  {
    Stacks.RemoveFirstDistinct(forklifts, forklift);
    forklifts := Stacks.RemoveFirst(forklifts, forklift);
  }

  /** One frame: with demand outstanding, send forklifts for it. */
  method Update()
    requires Valid()
    modifies this
    ensures Valid()
    ensures old(requestedItems) <= 0 ==> unchanged(this)
    ensures old(requestedItems) > 0 ==> Dispatched(old(requestedItems))
  {
    if requestedItems > 0 {
      SendForklifts(requestedItems);
    }
  }

  /** What SendForklifts leaves, for an outstanding demand of demand: one new
      forklift per started trip of 5, appended to the list, each outbound
      with a request of 5 (capped by its capacity); demand 0; storage as
      before. */
  twostate predicate Dispatched(demand: int)
    reads this, forklifts
  {
    && requestedItems == 0
    && |forklifts| == |old(forklifts)| + Dispatch.Trips(demand)
    && forklifts[..|old(forklifts)|] == old(forklifts)
    && (forall k :: |old(forklifts)| <= k < |forklifts| ==>
          && fresh(forklifts[k])
          && forklifts[k].Outbound(this, manager, Arith.Min(Dispatch.TripSize, forkliftMaxCarriedItems)))
    && storage == old(storage) && Cursor() == old(Cursor())
    && maxCapacity == old(maxCapacity)
  }

  /** Spawns forklifts, asking each for 5 and taking 5 off the demand, while
      demand is positive; then sets demand to 0, dropping whatever the last
      trip over-covered.  The requestedAmount argument is not used. */
  method SendForklifts(requestedAmount: int)
    requires Valid()
    modifies this
    ensures Valid() && Dispatched(old(requestedItems))
  {
    while requestedItems > 0
      invariant Valid()
      invariant |forklifts| >= |old(forklifts)|
      invariant requestedItems == old(requestedItems) - Dispatch.TripSize * (|forklifts| - |old(forklifts)|)
      invariant requestedItems > -Dispatch.TripSize || |forklifts| == |old(forklifts)|
      invariant forklifts[..|old(forklifts)|] == old(forklifts)
      invariant forall k :: |old(forklifts)| <= k < |forklifts| ==>
        && fresh(forklifts[k])
        && forklifts[k].Outbound(this, manager, Arith.Min(Dispatch.TripSize, forkliftMaxCarriedItems))
      invariant storage == old(storage) && Cursor() == old(Cursor())
      invariant maxCapacity == old(maxCapacity)
    {
      var forklift := new Forklift(forkliftMaxCarriedItems);
      forklifts := forklifts + [forklift];
      forklift.Carry(this, manager, Dispatch.TripSize);
      requestedItems := requestedItems - Dispatch.TripSize;
    }
    requestedItems := 0;
  }
}
