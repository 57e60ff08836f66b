/**
 * The shop (Shops/Shop.cs): a FIFO queue of customers, the customer being
 * served, and the counters of satisfied customers and delivered items.
 * Each Update serves the current customer one item at a time from the
 * warehouse; with nobody to serve it keeps the warehouse warm.
 */
class Shop {
  /** The warehouse the shop takes items from. */
  const warehouse: Warehouse
  /** SatisfiedCustomers and DeliveredItems. */
  var satisfiedCustomers: int
  var deliveredItems: int
  /** m_customers: the waiting customers, front first. */
  var customers: seq<Customer>
  /** m_currentCustomer: the customer being served, if any. */
  var current: Customer?
  /** m_storagingIndex: the height at which the next handed item is shown. */
  var storagingIndex: int

  /** The warehouse and its manager are valid.  Every counted customer has
      received between MinRequest and MaxRequestExclusive - 1 items, so the
      counters bound each other.  Waiting customers are distinct, valid and
      have received nothing; the current customer is not among them, has
      received at most its order, and storagingIndex counts what it has
      received. */
  ghost predicate Valid()
    reads this, warehouse, warehouse.manager, customers, current
  {
    && warehouse.Valid() && warehouse.manager.Valid()
    && 0 <= satisfiedCustomers
    && satisfiedCustomers * Customer.MinRequest <= deliveredItems
    && deliveredItems <= satisfiedCustomers * (Customer.MaxRequestExclusive - 1)
    && Stacks.Distinct(customers)
    && (forall k :: 0 <= k < |customers| ==> customers[k].Valid() && customers[k].inventory == [])
    && (current == null ==> storagingIndex == 0)
    && (current != null ==>
          && current.Valid() && current !in customers
          && storagingIndex == |current.inventory| <= current.requestedItems)
  }

  /** A shop with no customers and both counters at 0. */
  constructor (warehouse: Warehouse)
    requires warehouse.Valid() && warehouse.manager.Valid()
    ensures Valid() && this.warehouse == warehouse
    ensures satisfiedCustomers == 0 && deliveredItems == 0
    ensures customers == [] && current == null
  {
    this.warehouse := warehouse;
    satisfiedCustomers, deliveredItems := 0, 0;
    customers, current := [], null;
    storagingIndex := 0;
  }

  /** Enqueues a new customer and requests its order from the warehouse;
      roll is the order size Random.Range(1, 6) drew. */
  method SpawnCustomer(roll: int)
    requires Valid() && Customer.MinRequest <= roll < Customer.MaxRequestExclusive
    modifies this, warehouse, warehouse.manager
    ensures Valid()
    ensures |customers| == |old(customers)| + 1 && customers[..|old(customers)|] == old(customers)
    ensures var c := customers[|customers| - 1];
      fresh(c) && c.requestedItems == roll && c.inventory == []
    ensures warehouse.requestedItems == old(warehouse.requestedItems) + roll
    ensures warehouse.manager.ProductionEnsured(warehouse.requestedItems)
    ensures warehouse.storage == old(warehouse.storage) && warehouse.forklifts == old(warehouse.forklifts)
    ensures warehouse.Cursor() == old(warehouse.Cursor()) && warehouse.maxCapacity == old(warehouse.maxCapacity)
    ensures current == old(current) && storagingIndex == old(storagingIndex)
    ensures satisfiedCustomers == old(satisfiedCustomers) && deliveredItems == old(deliveredItems)
  {
    var customer := new Customer(roll);
    customers := customers + [customer];
    warehouse.RequestItems(customer.requestedItems);
  }

  /** What the idle branch of Update leaves: one item is requested exactly
      when the warehouse is below capacity with no demand outstanding and no
      forklift out; then the manufacturers are cut down to 1 if the
      warehouse is below capacity and to 0 if it is not, keeping the oldest
      (the request first grows them by what the new demand exceeds the
      manager's buffer by);
      stock, forklifts and the shop's own state are as before. */
  twostate predicate KeptWarm()
    reads this, warehouse, warehouse.manager
  {
    var stored := |old(warehouse.storage)|;
    var belowCapacity := stored < old(warehouse.maxCapacity);
    var asked := belowCapacity && old(warehouse.requestedItems) <= 0 && |old(warehouse.forklifts)| == 0;
    var minimum := if belowCapacity then 1 else 0;
    var was := old(warehouse.manager.manufacturers);
    var buffered := |old(warehouse.manager.storage)|;
    var grown := |was| + if asked then ManufacturerManager.Shortfall(old(warehouse.requestedItems) + 1, buffered) else 0;
    var now := warehouse.manager.manufacturers;
    && warehouse.requestedItems == old(warehouse.requestedItems) + (if asked then 1 else 0)
    && |now| == Arith.Min(grown, minimum)
    && (forall k :: 0 <= k < |now| && k < |was| ==> now[k] == was[k])
    && (forall k :: |was| <= k < |now| ==> fresh(now[k]))
    && warehouse.storage == old(warehouse.storage) && warehouse.Cursor() == old(warehouse.Cursor())
    && warehouse.forklifts == old(warehouse.forklifts) && warehouse.maxCapacity == old(warehouse.maxCapacity)
    && warehouse.manager.storage == old(warehouse.manager.storage)
    && customers == old(customers) && current == old(current) && storagingIndex == old(storagingIndex)
    && satisfiedCustomers == old(satisfiedCustomers) && deliveredItems == old(deliveredItems)
  }

  /** Of the manufacturers listed before the idle branch, those still
      listed keep their active flag, and every one keeps its timer. */
  twostate predicate KeptUnitsUntouched(was: seq<ItemManufacturer>)
    reads warehouse.manager, was
  {
    var now := warehouse.manager.manufacturers;
    && (forall k :: 0 <= k < |now| && k < |was| ==> was[k].active == old(was[k].active))
    && (forall k :: 0 <= k < |was| ==> was[k].timer == old(was[k].timer))
  }

  /** The idle branch of Update. */
  method KeepWarm()
    requires Valid() && current == null && customers == []
    modifies this, warehouse, warehouse.manager, warehouse.manager.manufacturers
    ensures Valid() && KeptWarm()
    ensures warehouse.manager.Cursor() == old(warehouse.manager.Cursor())
    ensures KeptUnitsUntouched(old(warehouse.manager.manufacturers))
    ensures forall k :: |warehouse.manager.manufacturers| <= k < |old(warehouse.manager.manufacturers)| ==>
      !old(warehouse.manager.manufacturers)[k].active
    ensures forall k :: |old(warehouse.manager.manufacturers)| <= k < |warehouse.manager.manufacturers| ==>
      warehouse.manager.NewUnit(warehouse.manager.manufacturers[k])
  {
    if warehouse.StoredAmount() < warehouse.maxCapacity {
      if !warehouse.HasRequestedItems() && !warehouse.HasActiveForklifts() {
        warehouse.RequestItems(1);
      }
    }
    warehouse.manager.CleanManufacturers(if warehouse.StoredAmount() < warehouse.maxCapacity then 1 else 0);
  }

  /** One frame.  With nobody being served and nobody waiting: the idle
      branch.  Otherwise the customer at the front of the queue becomes the
      current one if there was none; a satisfied current customer is counted
      and dismissed; an unsatisfied one receives the warehouse's top item if
      the warehouse holds any, which the warehouse loses. */
  method Update()
    requires Valid()
    modifies this, warehouse, warehouse.manager, warehouse.manager.manufacturers, customers, current
    ensures Valid()
    ensures satisfiedCustomers >= old(satisfiedCustomers) && deliveredItems >= old(deliveredItems)
    ensures old(current) == null && old(customers) == [] ==>
      && KeptWarm() && KeptUnitsUntouched(old(warehouse.manager.manufacturers))
      && warehouse.manager.Cursor() == old(warehouse.manager.Cursor())
      && (forall k :: |warehouse.manager.manufacturers| <= k < |old(warehouse.manager.manufacturers)| ==>
            !old(warehouse.manager.manufacturers)[k].active)
      && (forall k :: |old(warehouse.manager.manufacturers)| <= k < |warehouse.manager.manufacturers| ==>
            warehouse.manager.NewUnit(warehouse.manager.manufacturers[k]))
    ensures old(current) != null || old(customers) != [] ==>
      var served := if old(current) == null then old(customers)[0] else old(current);
      && customers == (if old(current) == null then old(customers)[1..] else old(customers))
      && warehouse.requestedItems == old(warehouse.requestedItems)
      && warehouse.forklifts == old(warehouse.forklifts) && warehouse.maxCapacity == old(warehouse.maxCapacity)
      && unchanged(warehouse.manager) && unchanged(old(warehouse.manager.manufacturers))
      && unchanged(customers)
      && (old(served.IsSatisfied()) ==>
            && satisfiedCustomers == old(satisfiedCustomers) + 1
            && deliveredItems == old(deliveredItems) + served.requestedItems
            && current == null && storagingIndex == 0
            && unchanged(warehouse) && unchanged(served))
      && (!old(served.IsSatisfied()) ==>
            && satisfiedCustomers == old(satisfiedCustomers) && deliveredItems == old(deliveredItems)
            && current == served)
      && (!old(served.IsSatisfied()) && old(warehouse.storage) != [] ==>
            && served.inventory == old(served.inventory) + [old(warehouse.storage)[|old(warehouse.storage)| - 1]]
            && warehouse.storage == old(warehouse.storage)[..|old(warehouse.storage)| - 1]
            && warehouse.Cursor() == WarehouseGrid.AfterGet(old(warehouse.Cursor()), warehouse.perLineAmount)
            && storagingIndex == old(storagingIndex) + 1)
      && (!old(served.IsSatisfied()) && old(warehouse.storage) == [] ==>
            unchanged(warehouse) && unchanged(served) && storagingIndex == old(storagingIndex))
  {
    if current == null {
      if |customers| == 0 {
        KeepWarm();
        return;
      }
      current := customers[0];
      customers := customers[1..];
    }
    if current.IsSatisfied() {
      satisfiedCustomers := satisfiedCustomers + 1;
      deliveredItems := deliveredItems + current.requestedItems;
      current := null;
      storagingIndex := 0;
      return;
    }
    if warehouse.StoredAmount() > 0 {
      var item := warehouse.Get();
      current.AddItem(item);
      storagingIndex := storagingIndex + 1;
    }
  }
}
