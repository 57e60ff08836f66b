/**
 * Batch dispatch (Warehouse.cs, SendForklifts): outstanding demand is served
 * in forklift trips of the literal size 5.
 */
module Dispatch {

  /** The amount every dispatched forklift is asked for (Warehouse.cs:159);
      the ForkliftCapacity field is not consulted. */
  const TripSize := 5

  /** The number of trips SendForklifts starts for a demand: the least n
      with n * TripSize >= demand, and none for a demand that is not
      positive. */
  function Trips(demand: int): (n: nat)
    ensures demand > 0 ==> (n - 1) * TripSize < demand <= n * TripSize
    ensures demand <= 0 ==> n == 0
  {
    if demand > 0 then (demand + TripSize - 1) / TripSize else 0
  }
}
