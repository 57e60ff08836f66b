/**
 * Call sequences over the classes: what several calls in a row promise
 * together.
 */

/** N Stores followed by N Gets hand the items back in reverse order and
    leave the warehouse's stock as it was. */
method StoreAllThenGetAll(w: Warehouse, items: seq<Item>) returns (got: seq<Item>)
  requires w.Valid()
  modifies w
  ensures w.Valid()
  ensures got == Stacks.Reversed(items)
  ensures w.storage == old(w.storage)
{
  var i := 0;
  while i < |items|
    invariant 0 <= i <= |items|
    invariant w.Valid()
    invariant w.storage == old(w.storage) + items[..i]
  {
    w.Store(items[i]);
    assert items[..i + 1] == items[..i] + [items[i]];
    i := i + 1;
  }
  assert items[..|items|] == items;
  got := [];
  while |got| < |items|
    invariant |got| <= |items|
    invariant w.Valid()
    invariant w.storage == old(w.storage) + items[..|items| - |got|]
    invariant got == Stacks.Reversed(items[|items| - |got|..])
  {
    var k := |items| - |got| - 1;
    Stacks.ReversedSuffixStep(items, k);
    var item := w.Get();
    got := got + [item];
  }
  assert items[0..] == items;
}

/** Handing a fresh customer exactly as many items as it ordered, one
    AddItem each, satisfies it. */
method FillOrder(c: Customer, items: seq<Item>)
  requires c.Valid() && c.inventory == [] && |items| == c.requestedItems
  modifies c
  ensures c.inventory == items && c.IsSatisfied()
{
  var i := 0;
  while i < |items|
    invariant 0 <= i <= |items|
    invariant c.inventory == items[..i]
    invariant i < |items| ==> !c.IsSatisfied()
  {
    c.AddItem(items[i]);
    assert items[..i + 1] == items[..i] + [items[i]];
    i := i + 1;
  }
  assert items[..|items|] == items;
}

/** A forklift with an empty hold that loads from the shared buffer and
    then unloads hands the warehouse the items taken off the top of the
    buffer in their original order: popping twice undoes the reversal. */
method LoadThenUnload(m: ManufacturerManager, f: Forklift)
  requires m.Valid() && f.Valid() && f.warehouse.Valid() && f.storage == []
  modifies m, f, f.warehouse
  ensures |m.storage| <= |old(m.storage)| && m.storage == old(m.storage)[..|m.storage|]
  ensures f.warehouse == old(f.warehouse)
  ensures f.warehouse.storage == old(f.warehouse.storage) + old(m.storage)[|m.storage|..]
  ensures f.storage == [] && !f.active
{
  m.Load(f, f.requestedItems);
  ghost var taken := old(m.storage)[|m.storage|..];
  assert f.storage == Stacks.Reversed(taken);
  f.Unload();
  Stacks.ReversedTwice(taken);
}
