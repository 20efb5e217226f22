/**
 * ObjectPool: a FIFO queue of inactive instances with a cap. Get reuses the oldest queued instance
 * (or instantiates one), Return requeues while the queue is below the cap and destroys otherwise.
 * The instances' OnSpawn and OnDespawn calls are recorded in `calls`.
 */
module ObjectPool {

  /** A pooled component's object: its activeSelf flag and whether it was destroyed. */
  class Pooled {
    var active: bool
    var destroyed: bool

    /** Object.Instantiate of the pool's prefab. */
    constructor Instantiate(prefabActive: bool)
      ensures active == prefabActive && !destroyed
    {
      active := prefabActive;
      destroyed := false;
    }
  }

  datatype PoolCall = OnSpawn(obj: Pooled) | OnDespawn(obj: Pooled)

  class ObjectPool {
    const maxSize: int
    /** Whether the prefab is active: instantiated objects start that way. */
    const prefabActive: bool
    /** The queue of available instances, the oldest first. */
    var available: seq<Pooled>
    var countActive: int
    var calls: seq<PoolCall>

    /** Fills the queue with `initialSize` fresh, deactivated instances. */
    constructor (prefabActive: bool, initialSize: int, maxSize: int)
      ensures this.maxSize == maxSize && this.prefabActive == prefabActive
      ensures |available| == (if initialSize < 0 then 0 else initialSize) && countActive == 0 && calls == []
      ensures forall k :: 0 <= k < |available| ==> fresh(available[k]) && !available[k].active && !available[k].destroyed
    {
      this.maxSize := maxSize;
      this.prefabActive := prefabActive;
      countActive := 0;
      calls := [];
      var queue: seq<Pooled> := [];
      var i := 0;
      while i < initialSize
        invariant 0 <= i && |queue| == i && (initialSize >= 0 ==> i <= initialSize) && (initialSize < 0 ==> i == 0)
        invariant forall k :: 0 <= k < |queue| ==> fresh(queue[k]) && !queue[k].active && !queue[k].destroyed
      {
        var obj := new Pooled.Instantiate(prefabActive);
        obj.active := false;
        queue := queue + [obj];
        i := i + 1;
      }
      available := queue;
    }

    function CountInactive(): nat
      reads this
    {
      |available|
    }

    /** Dequeues the oldest available instance, or instantiates one when none is queued, and spawns it. */
    method Get() returns (obj: Pooled)
      modifies this, if available == [] then {} else {available[0]}
      ensures old(available) != [] ==> obj == old(available)[0] && available == old(available)[1..]
      ensures old(available) == [] ==> fresh(obj) && !obj.destroyed && available == []
      ensures obj.active && countActive == old(countActive) + 1
      ensures calls == old(calls) + [OnSpawn(obj)]
      ensures CountInactive() == if old(CountInactive()) > 0 then old(CountInactive()) - 1 else 0
    {
      if |available| > 0 {
        obj := available[0];
        available := available[1..];
      } else {
        obj := new Pooled.Instantiate(prefabActive);
      }
      obj.active := true;
      calls := calls + [OnSpawn(obj)];
      countActive := countActive + 1;
    }

    /** Despawns and deactivates the instance; it is queued while the queue is below the cap, destroyed otherwise. */
    method Return(obj: Pooled)
      modifies this, obj
      ensures !obj.active && countActive == old(countActive) - 1
      ensures calls == old(calls) + [OnDespawn(obj)]
      ensures old(|available|) < maxSize ==> available == old(available) + [obj] && obj.destroyed == old(obj.destroyed)
      ensures old(|available|) >= maxSize ==> available == old(available) && obj.destroyed
      ensures CountInactive() <= if old(CountInactive()) > maxSize then old(CountInactive()) else maxSize
    {
      calls := calls + [OnDespawn(obj)];
      obj.active := false;
      countActive := countActive - 1;
      if |available| < maxSize {
        available := available + [obj];
      } else {
        obj.destroyed := true;
      }
    }

    /** Does nothing: instances come back only through Return. */
    method ReturnAll()
      ensures countActive == old(countActive) && available == old(available)
    {
    }

    /** Destroys every queued instance that still exists and resets the active count. */
    method Clear()
      modifies this, set o | o in available
      ensures available == [] && countActive == 0 && calls == old(calls)
      ensures forall o :: o in old(available) ==> o.destroyed
    {
      ghost var queued := available;
      while |available| > 0
        invariant |available| <= |queued| && available == queued[|queued| - |available|..]
        invariant forall k :: 0 <= k < |queued| - |available| ==> queued[k].destroyed
        invariant calls == old(calls)
      {
        var obj := available[0];
        available := available[1..];
        if !obj.destroyed {
          obj.destroyed := true;
        }
      }
      countActive := 0;
    }
  }

  /** A pool never grows its queue past the cap through Return once it is at or below it. */
  method ReturnRespectsCap(pool: ObjectPool, obj: Pooled)
    requires pool.CountInactive() <= pool.maxSize
    modifies pool, obj
    ensures pool.CountInactive() <= pool.maxSize
  {
    pool.Return(obj);
  }
}
