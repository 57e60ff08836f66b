/**
 * The manager of all manufacturers (Manufacturers/ManufacturerManager.cs):
 * the stack of spawned manufacturers, the shared LIFO buffer they produce
 * into, and the loading of forklifts from that buffer.
 */
class ManufacturerManager {
  /** StoragePositions.Count: the slots of one layer of the buffer. */
  const slotCount: int
  /** ProductionPerMinute of the manufacturer prefab every spawn copies. */
  const productionPerMinute: int

  /** m_storage: the shared buffer, top last. */
  var storage: seq<Item>
  /** m_currentStoragingIndex (1-based) and m_currentStoragingLayer. */
  var currentIndex: int
  var currentLayer: int
  /** Manufacturers: the spawned units, most recent last. */
  var manufacturers: seq<ItemManufacturer>
  /** ManufacturersSpawnPosition, in steps of 7 units along x from where it
      started. */
  var spawnSlot: int

  function Cursor(): SharedShelf.Cursor
    reads this
  {
    SharedShelf.Cursor(currentIndex, currentLayer)
  }

  /** The cursor stays in [1, slotCount + 1] and always equals the count:
      |storage| == layer * slotCount + index - 1.  The spawn position is as
      many steps out as there are manufacturers, each spawned by this
      manager and none twice. */
  ghost predicate Valid()
    reads this
  {
    && slotCount >= 1
    && productionPerMinute > 0
    && SharedShelf.InBounds(Cursor(), slotCount)
    && |storage| == SharedShelf.Count(Cursor(), slotCount)
    && spawnSlot == |manufacturers|
    && Stacks.Distinct(manufacturers)
    && (forall k :: 0 <= k < |manufacturers| ==> manufacturers[k].manager == this)
  }

  /** The state a single Store leaves: one new item on top, the cursor one
      step on, the manufacturers untouched. */
  twostate predicate StoredOne()
    reads this
  {
    && |storage| == |old(storage)| + 1
    && storage[..|old(storage)|] == old(storage)
    && fresh(storage[|storage| - 1])
    && Cursor() == SharedShelf.AfterStore(old(Cursor()), slotCount)
    && manufacturers == old(manufacturers) && spawnSlot == old(spawnSlot)
  }

  /** The state EnsureProduction(requested) leaves: as many new, fresh
      manufacturers on top as requested exceeds the stored items, each a
      valid, active copy of the prefab with its timer at 0, and the buffer
      untouched. */
  twostate predicate ProductionEnsured(requested: int)
    reads this, manufacturers
  {
    && storage == old(storage) && Cursor() == old(Cursor())
    && |manufacturers| == |old(manufacturers)| + Shortfall(requested, |old(storage)|)
    && manufacturers[..|old(manufacturers)|] == old(manufacturers)
    && (forall k :: |old(manufacturers)| <= k < |manufacturers| ==> NewUnit(manufacturers[k]))
  }

  /** A manufacturer just spawned by this manager: fresh from the prefab,
      valid, active and with nothing accumulated yet. */
  twostate predicate NewUnit(new m: ItemManufacturer)
    reads this, m
  {
    && fresh(m) && m.Valid() && m.manager == this
    && m.productionPerMinute == productionPerMinute
    && m.active && m.timer == 0.0
  }

  /** By how much requested exceeds stored; 0 if it does not. */
  static function Shortfall(requested: int, stored: int): int
  {
    if requested <= stored then 0 else requested - stored
  }

  /** An empty buffer with its cursor at slot 1 of layer 0 and no
      manufacturers. */
  constructor (slotCount: int, productionPerMinute: int)
    requires slotCount >= 1 && productionPerMinute > 0
    ensures Valid()
    ensures this.slotCount == slotCount && this.productionPerMinute == productionPerMinute
    ensures storage == [] && manufacturers == [] && Cursor() == SharedShelf.Start
  {
    this.slotCount := slotCount;
    this.productionPerMinute := productionPerMinute;
    storage := [];
    currentIndex, currentLayer := 1, 0;
    manufacturers := [];
    spawnSlot := 0;
  }

  /** Pushes exactly one new, active manufacturer with its timer at 0 and
      moves the spawn position one step on. */
  method SpawnManufacturer()
    requires Valid()
    modifies this
    ensures Valid()
    ensures |manufacturers| == |old(manufacturers)| + 1
    ensures manufacturers[..|old(manufacturers)|] == old(manufacturers)
    ensures NewUnit(manufacturers[|manufacturers| - 1])
    ensures spawnSlot == old(spawnSlot) + 1
    ensures storage == old(storage) && Cursor() == old(Cursor())
  {
    var manufacturer := new ItemManufacturer(this, productionPerMinute);
    manufacturers := manufacturers + [manufacturer];
    spawnSlot := spawnSlot + 1;
  }

  /** Moves items from the top of the buffer into the forklift, one at a
      time, until the forklift is full or the buffer is empty.  The
      requestedAmount argument is not used: the forklift's own requested
      count decides. */
  method Load(forklift: Forklift, requestedAmount: int)
    requires Valid() && forklift.Valid()
    modifies this, forklift
    ensures Valid() && forklift.Valid()
    ensures LoadedInto(forklift)
  {
    while |storage| > 0
      invariant Valid() && forklift.Valid()
      invariant |storage| <= |old(storage)|
      invariant storage == old(storage)[..|storage|]
      invariant forklift.storage == old(forklift.storage) + Stacks.Reversed(old(storage)[|storage|..])
      invariant |old(storage)| - |storage| <= Arith.Max(0, forklift.requestedItems - |old(forklift.storage)|)
      invariant forklift.loads == old(forklift.loads) + (|old(storage)| - |storage|)
      invariant forklift.OnlyHoldChanged()
      invariant Cursor() == SharedShelf.AfterGets(old(Cursor()), slotCount, |old(storage)| - |storage|)
      invariant manufacturers == old(manufacturers) && spawnSlot == old(spawnSlot)
    {
      if forklift.IsFull() {
        break;
      }
      Stacks.ReversedSuffixStep(old(storage), |storage| - 1);
      var item := Get();
      forklift.Load(item);
    }
  }

  /** What Load leaves: the forklift is full or the buffer empty; the items
      taken, min(stored, what the forklift still needs), came off the top of
      the buffer and are on top of the forklift's hold in pop order, and the
      buffer's cursor has stepped back once per item taken; no item was lost
      or created. */
  twostate predicate LoadedInto(forklift: Forklift)
    reads this, forklift
  {
    var taken := |old(storage)| - |storage|;
    && 0 <= taken
    && (forklift.IsFull() || storage == [])
    && taken == Arith.Min(|old(storage)|, Arith.Max(0, forklift.requestedItems - |old(forklift.storage)|))
    && |storage| + |forklift.storage| == |old(storage)| + |old(forklift.storage)|
    && storage == old(storage)[..|storage|]
    && forklift.storage == old(forklift.storage) + Stacks.Reversed(old(storage)[|storage|..])
    && forklift.loads == old(forklift.loads) + taken
    && forklift.OnlyHoldChanged()
    && Cursor() == SharedShelf.AfterGets(old(Cursor()), slotCount, taken)
    && manufacturers == old(manufacturers) && spawnSlot == old(spawnSlot)
  }

  /** Produces one item into the buffer: on passing the last slot, starts
      the next layer; pushes the item; advances the cursor.  Returns the
      slot (0-based index into StoragePositions) and the layer the item is
      placed at; the slot is always within StoragePositions. */
  method Store() returns (slot: int, layer: int)
    requires Valid()
    modifies this
    ensures Valid() && StoredOne()
    ensures slot == SharedShelf.SlotUsed(old(Cursor()), slotCount) && 0 <= slot < slotCount
    ensures layer == SharedShelf.Normalised(old(Cursor()), slotCount).layer
  {
    if currentIndex > slotCount {
      currentIndex := 1;
      currentLayer := currentLayer + 1;
    }
    slot, layer := currentIndex - 1, currentLayer;
    var item := new Item();
    storage := storage + [item];
    currentIndex := currentIndex + 1;
  }

  /** Pops the most recently stored item and moves the cursor one step
      back.  Popping an empty Stack throws, so the buffer must not be
      empty. */
  method Get() returns (item: Item)
    requires Valid() && |storage| > 0
    modifies this
    ensures Valid()
    ensures item == old(storage)[|old(storage)| - 1]
    ensures storage == old(storage)[..|old(storage)| - 1]
    ensures Cursor() == SharedShelf.AfterGet(old(Cursor()), slotCount)
    ensures manufacturers == old(manufacturers) && spawnSlot == old(spawnSlot)
  {
    item := storage[|storage| - 1];
    storage := storage[..|storage| - 1];
    currentIndex := currentIndex - 1;
    if currentIndex < 1 {
      currentIndex := slotCount;
      currentLayer := currentLayer - 1;
    }
  }

  /** Grows the stack of manufacturers by requested - StoredItems when the
      request exceeds the stored items; otherwise changes nothing.  The
      existing manufacturers are not counted against the request. */
  method EnsureProduction(requestedAmount: int)
    requires Valid()
    modifies this
    ensures Valid() && ProductionEnsured(requestedAmount)
  {
    if requestedAmount <= |storage| {
      return;
    }
    var i := 0;
    while i < requestedAmount - |storage|
      invariant Valid()
      invariant 0 <= i <= requestedAmount - |storage|
      invariant storage == old(storage) && Cursor() == old(Cursor())
      invariant |manufacturers| == |old(manufacturers)| + i
      invariant manufacturers[..|old(manufacturers)|] == old(manufacturers)
      invariant forall k :: |old(manufacturers)| <= k < |manufacturers| ==> NewUnit(manufacturers[k])
    {
      SpawnManufacturer();
      i := i + 1;
    }
  }

  /** Pops, turns off and removes manufacturers, most recent first, until at
      most minimum are left, moving the spawn position back one step per
      removal.  A negative minimum would pop an empty Stack, which throws. */
  method CleanManufacturers(minimum: int)
    requires Valid() && minimum >= 0
    modifies this, manufacturers
    ensures Valid()
    ensures manufacturers == old(manufacturers)[..Arith.Min(|old(manufacturers)|, minimum)]
    ensures forall k :: |manufacturers| <= k < |old(manufacturers)| ==> !old(manufacturers)[k].active
    ensures forall k :: 0 <= k < |manufacturers| ==> manufacturers[k].active == old(manufacturers[k].active)
    ensures forall k :: 0 <= k < |old(manufacturers)| ==> old(manufacturers)[k].timer == old(manufacturers[k].timer)
    ensures storage == old(storage) && Cursor() == old(Cursor())
  {
    while |manufacturers| > minimum
      invariant Valid()
      invariant |manufacturers| >= Arith.Min(|old(manufacturers)|, minimum)
      invariant manufacturers == old(manufacturers)[..|manufacturers|]
      invariant forall k :: |manufacturers| <= k < |old(manufacturers)| ==> !old(manufacturers)[k].active
      invariant forall k :: 0 <= k < |manufacturers| ==> manufacturers[k].active == old(manufacturers[k].active)
      invariant forall k :: 0 <= k < |old(manufacturers)| ==> old(manufacturers)[k].timer == old(manufacturers[k].timer)
      invariant storage == old(storage) && Cursor() == old(Cursor())
    {
      var manufacturer := manufacturers[|manufacturers| - 1];
      manufacturers := manufacturers[..|manufacturers| - 1];
      manufacturer.TurnOff();
      spawnSlot := spawnSlot - 1;
    }
  }
}
