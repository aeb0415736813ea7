/** The Redis keys behind the node manager, as one process uses them without interruption. */
module NodeRegistry {
  import opened Options
  import opened SnowflakeGenerator
  import opened SnowflakeCluster

  predicate Free(leases: map<Pair, int>, now: int, occupied: set<Pair>, i: nat) {
    var q := PairAt(i);
    q !in occupied && !(q in leases && now < leases[q])
  }

  class Registry {
    var leases: map<Pair, int>  // key -> expiry

    constructor ()
      ensures leases == map[]
    {
      leases := map[];
    }

    /** SET key NX EX ttl. */
    method Register(q: Pair, now: int) returns (ok: bool)
      modifies this
      ensures ok <==> !(q in old(leases) && now < old(leases)[q])
      ensures leases == if ok then old(leases)[q := now + NODE_TTL_MS] else old(leases)
    {
      ok := !(q in leases && now < leases[q]);
      if ok {
        leases := leases[q := now + NODE_TTL_MS];
      }
    }

    /**
     * The first pair, datacenter before worker, that the scan did not list and Redis still grants.
     * It fails only when there is none among all 1024.
     */
    method AcquireNodeId(occupied: set<Pair>, now: int) returns (r: Option<Pair>)
      modifies this
      ensures r.None? <==> forall i: nat :: i < PAIRS ==> !Free(old(leases), now, occupied, i)
      ensures r.Some? ==> IsNode(r.value.datacenterId, r.value.workerId)
      ensures r.Some? ==> exists i: nat :: i < PAIRS && r.value == PairAt(i) && Free(old(leases), now, occupied, i)
                                           && forall k: nat :: k < i ==> !Free(old(leases), now, occupied, k)
      ensures leases == if r.Some? then old(leases)[r.value := now + NODE_TTL_MS] else old(leases)
    {
      var datacenterId := 0;
      while datacenterId < 32
        invariant 0 <= datacenterId <= 32
        invariant leases == old(leases)
        invariant forall k: nat :: k < datacenterId * 32 ==> !Free(leases, now, occupied, k)
      {
        var workerId := 0;
        while workerId < 32
          invariant 0 <= workerId <= 32
          invariant leases == old(leases)
          invariant forall k: nat :: k < datacenterId * 32 + workerId ==> !Free(leases, now, occupied, k)
        {
          var q := Pair(datacenterId, workerId);
          ghost var at: nat := datacenterId * 32 + workerId;
          assert PairAt(at) == q;
          if q !in occupied {
            var ok := Register(q, now);
            if ok {
              assert Free(old(leases), now, occupied, at);
              return Some(q);
            }
          }
          assert !Free(leases, now, occupied, at);
          workerId := workerId + 1;
        }
        datacenterId := datacenterId + 1;
      }
      return None;
    }
  }
}
