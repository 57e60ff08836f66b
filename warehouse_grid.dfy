/**
 * The warehouse's placement cursor (Warehouse.cs, fields
 * m_currentStoragingIndexX, m_currentStoragingIndexZ, m_currentStoragingY),
 * as a value with the two steps that Store and Get apply to it.  The cursor
 * is updated by increments and decrements, not derived from the number of
 * stored items; Get wraps to PerLineAmount (not PerLineAmount - 1), so the
 * two can drift apart (CursorNotDerivedFromCount).
 */
module WarehouseGrid {

  /** x and z index a cell in a PerLineAmount-wide square; y is the layer. */
  datatype Cursor = Cursor(x: int, z: int, y: int)

  /** All three fields start at 0. */
  const Origin := Cursor(0, 0, 0)

  /** The range the two horizontal indices keep: [0, p] each. */
  predicate InRange(c: Cursor, p: int)
  {
    0 <= c.x <= p && 0 <= c.z <= p
  }

  /** Store's cursor step: advance x; on reaching p, restart x and advance z;
      on z reaching p, restart z and go one layer up. */
  function AfterStore(c: Cursor, p: int): (r: Cursor)
    ensures p >= 0 && InRange(c, p) ==> InRange(r, p) && (p >= 1 ==> r.x < p)
    ensures r.y == c.y || r.y == c.y + 1
  {
    if c.x + 1 >= p then
      if c.z + 1 >= p then Cursor(0, 0, c.y + 1) else Cursor(0, c.z + 1, c.y)
    else
      Cursor(c.x + 1, c.z, c.y)
  }

  /** Get's cursor step: go back in x; on passing below 0, set x to p and go
      back in z; on z passing below 0, set z to p and go one layer down. */
  function AfterGet(c: Cursor, p: int): (r: Cursor)
    ensures p >= 0 && InRange(c, p) ==> InRange(r, p)
    ensures c.x < 1 ==> r.x == p
    ensures c.x >= 1 ==> r == Cursor(c.x - 1, c.z, c.y)
  {
    if c.x - 1 < 0 then
      if c.z - 1 < 0 then Cursor(p, p, c.y - 1) else Cursor(p, c.z - 1, c.y)
    else
      Cursor(c.x - 1, c.z, c.y)
  }

  /** A Store whose x step does not wrap is undone exactly by the next Get. */
  lemma StoreThenGetRestores(c: Cursor, p: int)
    requires c.x + 1 < p
    requires c.x >= 0
    ensures AfterGet(AfterStore(c, p), p) == c
  {
  }

  /** The cursor after n Stores in a row (a forklift unloading its hold). */
  function AfterStores(c: Cursor, p: int, n: nat): (r: Cursor)
    ensures p >= 0 && InRange(c, p) ==> InRange(r, p)
    ensures c.y <= r.y <= c.y + n
  {
    if n == 0 then c else AfterStore(AfterStores(c, p, n - 1), p)
  }

  /** The two operations that move the cursor. */
  datatype Op = StoreOp | GetOp

  /** The cursor after a sequence of Store and Get calls, first one first. */
  function Run(c: Cursor, p: int, ops: seq<Op>): Cursor
    decreases |ops|
  {
    if ops == [] then c
    else
      var next := if ops[0] == StoreOp then AfterStore(c, p) else AfterGet(c, p);
      Run(next, p, ops[1..])
  }

  /** With p >= 0, no sequence of Store and Get calls moves x or z out of
      [0, p]. */
  lemma {:induction false} RunStaysInRange(c: Cursor, p: int, ops: seq<Op>)
    requires p >= 0 && InRange(c, p)
    ensures InRange(Run(c, p, ops), p)
    decreases |ops|
  {
    if ops != [] {
      var next := if ops[0] == StoreOp then AfterStore(c, p) else AfterGet(c, p);
      RunStaysInRange(next, p, ops[1..]);
    }
  }

  /** The cursor is not a function of the stored count: with p = 2, two
      Stores and a Get leave one item stored, as one Store does, but the
      cursors differ ((2, 0, 0) against (1, 0, 0)). */
  lemma CursorNotDerivedFromCount()
    ensures Run(Origin, 2, [StoreOp, StoreOp, GetOp]) != Run(Origin, 2, [StoreOp])
  {
  }
}
