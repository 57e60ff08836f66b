/**
 * A forklift (Carriers/Forklift.cs): sent out by the warehouse with a
 * requested amount, it travels to the manufacturers, loads until full,
 * travels back, unloads into the warehouse and is removed.
 *
 * Travel is abstract: Arrive() is the Move coroutine reaching its target,
 * and atSpawn says that the return trip has reached the warehouse's spawn
 * anchor.  A forklift is created on that anchor, but by then it is already
 * outbound, so the position comparison in Update can only succeed again on
 * the return trip, which is when atSpawn is set.
 */
class Forklift {
  /** MaxCarriedItems. */
  const maxCarriedItems: int
  /** m_requestedItems. */
  var requestedItems: int
  /** m_traveling: set by Carry, cleared when the outbound trip arrives. */
  var traveling: bool
  /** m_positionIndex and m_positionLayer: placement of the next item. */
  var positionIndex: int
  var positionLayer: int
  /** m_manager and m_warehouse, set by Carry. */
  var manager: ManufacturerManager?
  var warehouse: Warehouse?
  /** m_isReturning: the return trip has been started. */
  var returning: bool
  /** m_isActive: cleared by Unload. */
  var active: bool
  /** m_storage: the hold, top last. */
  var storage: seq<Item>
  /** The return trip has brought transform.position back to the
      warehouse's ForkliftSpawnPosition. */
  var atSpawn: bool
  /** The number of Load calls so far. */
  ghost var loads: nat

  /** Fresh from Instantiate: nothing assigned yet. */
  ghost predicate Spawned()
    reads this
  {
    && manager == null && warehouse == null
    && !traveling && !returning && active && storage == [] && !atSpawn
    && loads == 0 && positionIndex == 0 && positionLayer == 0 && requestedItems == 0
  }

  /** The forklift's invariant once carrying: the placement slot follows
      the number of loads; no more is requested than can be carried; the
      return trip starts only when full and leads to the spawn anchor; an
      outbound trip and a return trip are never both under way. */
  ghost predicate Valid()
    reads this
  {
    && manager != null && warehouse != null
    && requestedItems <= maxCarriedItems
    && ForkliftSlots.Slot(positionIndex, positionLayer) == ForkliftSlots.AfterLoads(loads)
    && (active && returning ==> IsFull())
    && (atSpawn ==> returning)
    && (traveling ==> !returning)
  }

  /** Everything but the hold and its placement cursor is as before. */
  twostate predicate OnlyHoldChanged()
    reads this
  {
    && requestedItems == old(requestedItems)
    && traveling == old(traveling) && returning == old(returning)
    && active == old(active) && atSpawn == old(atSpawn)
    && manager == old(manager) && warehouse == old(warehouse)
  }

  /** The state Carry leaves: outbound to the manufacturers with an empty
      hold. */
  ghost predicate Outbound(w: Warehouse, m: ManufacturerManager, requested: int)
    reads this
  {
    && Valid()
    && warehouse == w && manager == m && requestedItems == requested
    && traveling && !returning && active && !atSpawn && storage == []
  }

  /** Full once the hold has at least the requested number of items, that
      is, once nothing more is needed. */
  predicate IsFull()
    reads this
    ensures IsFull() <==> Arith.Max(0, requestedItems - |storage|) == 0
  {
    |storage| >= requestedItems
  }

  /** Instantiate of the forklift prefab. */
  constructor (maxCarriedItems: int)
    ensures Spawned() && this.maxCarriedItems == maxCarriedItems
  {
    this.maxCarriedItems := maxCarriedItems;
    traveling, returning, active, atSpawn := false, false, true, false;
    positionIndex, positionLayer := 0, 0;
    requestedItems := 0;
    manager, warehouse := null, null;
    storage := [];
    loads := 0;
  }

  /** Asks for min(amount, MaxCarriedItems) items and starts the outbound
      trip to the manufacturers. */
  method Carry(warehouse: Warehouse, manager: ManufacturerManager, amount: int)
    requires Spawned()
    modifies this
    ensures Outbound(warehouse, manager, Arith.Min(amount, maxCarriedItems))
    ensures requestedItems <= amount && requestedItems <= maxCarriedItems
    ensures loads == old(loads) && positionIndex == old(positionIndex) && positionLayer == old(positionLayer)
  {
    requestedItems := if amount <= maxCarriedItems then amount else maxCarriedItems;
    this.manager := manager;
    this.warehouse := warehouse;
    traveling := true;
  }

  /** Pushes one item on the hold and moves the placement slot on: index
      alternates 0, 1 and layer goes up every second item. */
  method Load(item: Item)
    requires Valid()
    modifies this
    ensures Valid() && OnlyHoldChanged()
    ensures storage == old(storage) + [item]
    ensures loads == old(loads) + 1
    ensures ForkliftSlots.Slot(positionIndex, positionLayer)
         == ForkliftSlots.Next(ForkliftSlots.Slot(old(positionIndex), old(positionLayer)))
  {
    storage := storage + [item];
    positionIndex := positionIndex + 1;
    if positionIndex > 1 {
      positionIndex := 0;
      positionLayer := positionLayer + 1;
    }
    loads := loads + 1;
  }

  /** What Unload leaves: every held item stored in the warehouse, most
      recently loaded first; the hold empty; the forklift inactive and off
      the warehouse's list. */
  twostate predicate Unloaded()
    reads this, warehouse
    requires warehouse != null
  {
    && storage == [] && !active
    && warehouse == old(warehouse)
    && warehouse.storage == old(warehouse.storage) + Stacks.Reversed(old(storage))
    && warehouse.Cursor() == WarehouseGrid.AfterStores(old(warehouse.Cursor()), warehouse.perLineAmount, |old(storage)|)
    && warehouse.forklifts == Stacks.RemoveFirst(old(warehouse.forklifts), this)
    && warehouse.requestedItems == old(warehouse.requestedItems)
    && warehouse.maxCapacity == old(warehouse.maxCapacity)
  }

  /** Unload's loop: pops every held item and stores it in the warehouse,
      so the warehouse receives the hold in reverse order of loading. */
  method EmptyHold()
    requires Valid() && warehouse.Valid()
    modifies this`storage, warehouse
    ensures warehouse.Valid() && storage == []
    ensures warehouse.storage == old(warehouse.storage) + Stacks.Reversed(old(storage))
    ensures warehouse.Cursor()
      == WarehouseGrid.AfterStores(old(warehouse.Cursor()), warehouse.perLineAmount, |old(storage)|)
    ensures warehouse.forklifts == old(warehouse.forklifts)
    ensures warehouse.requestedItems == old(warehouse.requestedItems)
    ensures warehouse.maxCapacity == old(warehouse.maxCapacity)
  {
    while |storage| > 0
      invariant warehouse.Valid()
      invariant storage == old(storage)[..|storage|]
      invariant warehouse.storage == old(warehouse.storage) + Stacks.Reversed(old(storage)[|storage|..])
      invariant warehouse.Cursor()
        == WarehouseGrid.AfterStores(old(warehouse.Cursor()), warehouse.perLineAmount, |old(storage)| - |storage|)
      invariant warehouse.forklifts == old(warehouse.forklifts)
      invariant warehouse.requestedItems == old(warehouse.requestedItems)
      invariant warehouse.maxCapacity == old(warehouse.maxCapacity)
    {
      Stacks.ReversedSuffixStep(old(storage), |storage| - 1);
      var item := storage[|storage| - 1];
      storage := storage[..|storage| - 1];
      warehouse.Store(item);
    }
    assert old(storage)[0..] == old(storage);
  }

  /** Empties the hold into the warehouse, then deactivates the forklift
      and has the warehouse remove it. */
  method Unload()
    requires Valid() && warehouse.Valid()
    modifies this, warehouse
    ensures Valid() && warehouse.Valid() && Unloaded()
    ensures this !in warehouse.forklifts
    ensures manager == old(manager) && warehouse == old(warehouse)
    ensures requestedItems == old(requestedItems) && returning == old(returning)
    ensures traveling == old(traveling) && atSpawn == old(atSpawn) && loads == old(loads)
    ensures positionIndex == old(positionIndex) && positionLayer == old(positionLayer)
  {
    ghost var slot := ForkliftSlots.Slot(positionIndex, positionLayer);
    EmptyHold();
    assert slot == ForkliftSlots.Slot(positionIndex, positionLayer);
    active := false;
    assert Valid();
    warehouse.DestroyForklift(this);
  }

  /** The Move coroutine reaching its target.  Outbound: the forklift is no
      longer traveling and stands at the manufacturers.  Return: it stands on
      the spawn anchor.  With no trip under way nothing happens. */
  method Arrive()
    requires Valid()
    modifies this
    ensures old(traveling) ==> !traveling && atSpawn == old(atSpawn)
    ensures !old(traveling) && old(returning) ==> atSpawn && !traveling
    ensures !old(traveling) && !old(returning) ==> unchanged(this)
    ensures Valid() && storage == old(storage) && loads == old(loads)
    ensures requestedItems == old(requestedItems) && returning == old(returning) && active == old(active)
    ensures manager == old(manager) && warehouse == old(warehouse)
    ensures positionIndex == old(positionIndex) && positionLayer == old(positionLayer)
  {
    if traveling {
      traveling := false;
    } else if returning {
      atSpawn := true;
    }
  }

  /** One frame.  Inactive: nothing.  Active and arrived (not traveling):
      not full, load from the manager; full, start the return trip once.
      Then, returning and standing on the spawn anchor: unload. */
  method Update()
    requires Valid() && warehouse.Valid() && manager.Valid()
    modifies this, warehouse, manager
    ensures Valid() && warehouse.Valid() && manager.Valid()
    ensures !old(active) ==> unchanged(this) && unchanged(old(warehouse)) && unchanged(old(manager))
    ensures old(active) && old(traveling) ==>
      unchanged(this) && unchanged(old(warehouse)) && unchanged(old(manager))
    ensures old(active) && !old(traveling) && !old(IsFull()) ==>
      old(manager).LoadedInto(this) && unchanged(old(warehouse)) && active
    ensures old(active) && !old(traveling) && old(IsFull()) && !old(returning) ==>
      && returning && !atSpawn && active && storage == old(storage)
      && unchanged(old(warehouse)) && unchanged(old(manager))
    ensures old(active) && old(returning) && !old(atSpawn) ==>
      unchanged(this) && unchanged(old(warehouse)) && unchanged(old(manager))
    ensures old(active) && old(returning) && old(atSpawn) ==>
      Unloaded() && unchanged(old(manager)) && this !in warehouse.forklifts
    ensures |storage| < |old(storage)| || (old(active) && !active) ==> old(returning) && old(atSpawn)
    ensures requestedItems == old(requestedItems) && manager == old(manager) && warehouse == old(warehouse)
    ensures old(IsFull()) || !old(active) || old(traveling) ==>
      && loads == old(loads) && positionIndex == old(positionIndex) && positionLayer == old(positionLayer)
      && traveling == old(traveling) && atSpawn == old(atSpawn)
  {
    if active {
      if !traveling {
        if !IsFull() {
          manager.Load(this, requestedItems);
        } else if !returning {
          returning := true;
        }
      }
      if returning && atSpawn {
        Unload();
      }
    }
  }
}
