/**
 * The production timer of one manufacturer (ItemManufacturer.cs, m_timer
 * and m_productionTickTime), with time as real seconds.
 */
module ProductionTimer {

  /** m_productionTickTime: seconds between two items at ppm items per
      minute. */
  function Interval(ppm: int): (t: real)
    requires ppm > 0
    ensures t > 0.0
    ensures t * (ppm as real) == 60.0
  {
    60.0 / (ppm as real)
  }

  /** The timer after an active Update, and whether that Update produced. */
  datatype Tick = Tick(timer: real, produced: bool)

  /** One active Update: add dt; on reaching the interval, produce once and
      restart from 0 (the surplus timer + dt - interval is dropped). */
  function Step(timer: real, dt: real, interval: real): (r: Tick)
    ensures interval > 0.0 ==> r.timer < interval
    ensures r.produced <==> timer + dt >= interval
    ensures r.produced ==> r.timer == 0.0
    ensures !r.produced ==> r.timer == timer + dt
  {
    var t := timer + dt;
    if t >= interval then Tick(0.0, true) else Tick(t, false)
  }

  /** Total time fed to a run of Updates. */
  function Sum(dts: seq<real>): real
  {
    if dts == [] then 0.0 else dts[0] + Sum(dts[1..])
  }

  /** Timer and number of items after a run of active Updates. */
  datatype Outcome = Outcome(timer: real, items: nat)

  function Run(timer: real, dts: seq<real>, interval: real): Outcome
    decreases |dts|
  {
    if dts == [] then Outcome(timer, 0)
    else
      var s := Step(timer, dts[0], interval);
      var rest := Run(s.timer, dts[1..], interval);
      Outcome(rest.timer, rest.items + if s.produced then 1 else 0)
  }

  /** Because the timer restarts from 0, production never runs ahead of the
      clock: items * interval plus what is left on the timer is at most the
      starting timer plus the elapsed time. */
  lemma {:induction false} RunNeverAheadOfClock(timer: real, dts: seq<real>, interval: real)
    ensures Run(timer, dts, interval).items as real * interval + Run(timer, dts, interval).timer
            <= timer + Sum(dts)
    decreases |dts|
  {
    if dts != [] {
      var s := Step(timer, dts[0], interval);
      RunNeverAheadOfClock(s.timer, dts[1..], interval);
      var rest := Run(s.timer, dts[1..], interval);
      if s.produced {
        assert (rest.items + 1) as real * interval == rest.items as real * interval + interval;
      }
    }
  }
}
