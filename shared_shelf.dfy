/**
 * The placement cursor of the manufacturers' shared buffer
 * (ManufacturerManager.cs, m_currentStoragingIndex and
 * m_currentStoragingLayer) over p = StoragePositions.Count slots per layer.
 * Unlike the warehouse's, this cursor always agrees with the stored count:
 * count == layer * p + index - 1.
 */
module SharedShelf {

  /** index is 1-based (starts at 1); layer starts at 0. */
  datatype Cursor = Cursor(index: int, layer: int)

  const Start := Cursor(1, 0)

  /** The index range the cursor keeps: [1, p + 1]. */
  predicate InBounds(c: Cursor, p: int)
  {
    1 <= c.index <= p + 1
  }

  /** The number of stored items the cursor stands for. */
  function Count(c: Cursor, p: int): int
  {
    c.layer * p + c.index - 1
  }

  /** Store's first step: once index has passed the last slot, start the
      next layer at slot 1. */
  function Normalised(c: Cursor, p: int): (r: Cursor)
    ensures p >= 1 && InBounds(c, p) ==> 1 <= r.index <= p && Count(r, p) == Count(c, p)
  {
    if c.index > p then Cursor(1, c.layer + 1) else c
  }

  /** The 0-based StoragePositions entry Store reads: always within the
      list, so the access never fails. */
  function SlotUsed(c: Cursor, p: int): (slot: int)
    ensures p >= 1 && InBounds(c, p) ==> 0 <= slot < p
  {
    Normalised(c, p).index - 1
  }

  /** Store's cursor step: normalise, then advance index. */
  function AfterStore(c: Cursor, p: int): (r: Cursor)
    ensures p >= 1 && InBounds(c, p) ==> InBounds(r, p) && Count(r, p) == Count(c, p) + 1
  {
    var n := Normalised(c, p);
    Cursor(n.index + 1, n.layer)
  }

  /** Get's cursor step: go back one slot; below slot 1, continue at slot p
      of the layer beneath. */
  function AfterGet(c: Cursor, p: int): (r: Cursor)
    ensures p >= 1 && InBounds(c, p) ==> InBounds(r, p) && Count(r, p) == Count(c, p) - 1
  {
    if c.index - 1 < 1 then
      assert Count(Cursor(p, c.layer - 1), p) == c.layer * p - 1 by {
        assert (c.layer - 1) * p == c.layer * p - p;
      }
      Cursor(p, c.layer - 1)
    else Cursor(c.index - 1, c.layer)
  }

  /** The cursor after n Gets in a row: Get's step applied n times. */
  function AfterGets(c: Cursor, p: int, n: nat): (r: Cursor)
    ensures p >= 1 && InBounds(c, p) ==> InBounds(r, p) && Count(r, p) == Count(c, p) - n
  {
    if n == 0 then c else AfterGet(AfterGets(c, p, n - 1), p)
  }
}
