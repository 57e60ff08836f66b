/**
 * Where a forklift places each item it loads (Forklift.cs, m_positionIndex
 * and m_positionLayer): two items side by side per layer.
 */
module ForkliftSlots {

  datatype Slot = Slot(index: int, layer: int)

  /** Load's step: next index; past index 1, start a new layer at index 0. */
  function Next(s: Slot): (r: Slot)
    ensures 0 <= s.index <= 1 ==> 0 <= r.index <= 1
    ensures r.layer == s.layer || r.layer == s.layer + 1
  {
    if s.index + 1 > 1 then Slot(0, s.layer + 1) else Slot(s.index + 1, s.layer)
  }

  /** The slot after n loads into a freshly spawned forklift. */
  function AfterLoads(n: nat): Slot
  {
    if n == 0 then Slot(0, 0) else Next(AfterLoads(n - 1))
  }

  /** After n loads from fresh, index == n % 2 and layer == n / 2. */
  lemma {:induction false} AfterLoadsClosedForm(n: nat)
    ensures AfterLoads(n) == Slot(n % 2, n / 2)
  {
    if n > 0 {
      AfterLoadsClosedForm(n - 1);
    }
  }
}
