/**
 * A customer in the shop (Customers/Customer.cs): an order of 1 to 5 items
 * and the items handed over so far.
 */
class Customer {
  /** Random.Range(1, 6) draws from [1, 6): the inclusive and the exclusive
      bound of an order's size. */
  static const MinRequest := 1
  static const MaxRequestExclusive := 6

  /** The order size, drawn once when the customer is created. */
  const requestedItems: int
  /** m_inventory: the items received, in the order they were added. */
  var inventory: seq<Item>

  /** The order size lies in the range the random draw yields. */
  ghost predicate Valid()
  {
    MinRequest <= requestedItems < MaxRequestExclusive
  }

  /** Satisfied once at least the requested number of items is held, that
      is, once nothing more is owed; a valid customer is never satisfied
      while holding nothing. */
  predicate IsSatisfied()
    reads this
    ensures IsSatisfied() <==> requestedItems - |inventory| <= 0
    ensures Valid() && IsSatisfied() ==> inventory != []
  {
    |inventory| >= requestedItems
  }

  /** A new customer; roll is the value Random.Range(1, 6) returned. */
  constructor (roll: int)
    requires MinRequest <= roll < MaxRequestExclusive
    ensures Valid()
    ensures requestedItems == roll && inventory == []
    ensures !IsSatisfied()
  {
    requestedItems := roll;
    inventory := [];
  }

  /** Appends exactly one item; a satisfied customer stays satisfied. */
  method AddItem(item: Item)
    modifies this
    ensures inventory == old(inventory) + [item]
    ensures |inventory| == |old(inventory)| + 1
    ensures old(IsSatisfied()) ==> IsSatisfied()
  {
    inventory := inventory + [item];
  }
}
