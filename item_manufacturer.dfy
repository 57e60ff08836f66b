/**
 * One manufacturer (Manufacturers/ItemManufacturer.cs): while active, it
 * accumulates elapsed time and stores one item in the shared buffer each
 * time a full production interval has elapsed.
 */
class ItemManufacturer {
  /** The manager whose shared buffer receives the items. */
  const manager: ManufacturerManager
  /** ProductionPerMinute. */
  const productionPerMinute: int
  /** m_productionTickTime, fixed when the unit wakes up. */
  const tickTime: real
  /** m_timer: time accumulated since the last item (or since spawning). */
  var timer: real
  /** m_isActive. */
  var active: bool

  /** The interval is 60 / ProductionPerMinute and the timer is below it
      between two Updates. */
  ghost predicate Valid()
    reads this
  {
    productionPerMinute > 0
    && tickTime == ProductionTimer.Interval(productionPerMinute)
    && timer < tickTime
  }

  /** Instantiate + Awake: active, timer at 0, interval from the rate. */
  constructor (manager: ManufacturerManager, productionPerMinute: int)
    requires productionPerMinute > 0
    ensures Valid()
    ensures this.manager == manager && this.productionPerMinute == productionPerMinute
    ensures active && timer == 0.0
  {
    this.manager := manager;
    this.productionPerMinute := productionPerMinute;
    tickTime := ProductionTimer.Interval(productionPerMinute);
    timer := 0.0;
    active := true;
  }

  /** Sets the active flag and nothing else. */
  method TurnOn()
    modifies this`active
    ensures active
  {
    active := true;
  }

  /** Clears the active flag and nothing else. */
  method TurnOff()
    modifies this`active
    ensures !active
  {
    active := false;
  }

  /** One frame of dt seconds.  Inactive: nothing happens.  Active: the
      timer advances by dt; on reaching the interval one item is stored in
      the shared buffer and the timer restarts from 0. */
  method Update(dt: real)
    requires Valid() && manager.Valid()
    modifies this`timer, manager
    ensures Valid() && manager.Valid()
    ensures !old(active) ==> timer == old(timer) && unchanged(manager)
    ensures old(active) ==>
      var step := ProductionTimer.Step(old(timer), dt, tickTime);
      && timer == step.timer
      && (step.produced ==> manager.StoredOne())
      && (!step.produced ==> unchanged(manager))
  {
    if active {
      timer := timer + dt;
      if timer >= tickTime {
        Produce();
        timer := 0.0;
      }
    }
  }

  /** Stores one new item in the manager's shared buffer. */
  method Produce()
    requires manager.Valid()
    modifies manager
    ensures manager.Valid() && manager.StoredOne()
  {
    var slot, layer := manager.Store();
  }
}
