/** Exclusive tunnel device names for concurrent probes (internal/netx/tun.go). */
module TunAllocators {
  import opened Text
  import opened Naming

  /** The once-only closure returned with an allocation. */
  class Release {
    const index: int
    var done: bool

    constructor (index: int)
      ensures this.index == index && !done
    {
      this.index := index;
      done := false;
    }
  }

  datatype Allocation =
    | Allocated(device: string, release: Release)
    | Occupied(count: nat, total: int)  // free in the bookkeeping, but already on the host
    | AllInUse(total: int)

  /** Indices of a range that are free in the bookkeeping and taken on the host. */
  function OccupiedIndices(taken: set<int>, present: set<string>, prefix: string, start: int, bound: int): set<int> {
    set i | start <= i < bound && i !in taken && DeviceName(prefix, i) in present
  }

  lemma OccupiedNext(taken: set<int>, present: set<string>, prefix: string, start: int, i: int)
    requires start <= i
    ensures |OccupiedIndices(taken, present, prefix, start, i + 1)| ==
      |OccupiedIndices(taken, present, prefix, start, i)|
      + (if i !in taken && DeviceName(prefix, i) in present then 1 else 0)
  {
    var before := OccupiedIndices(taken, present, prefix, start, i);
    var after := OccupiedIndices(taken, present, prefix, start, i + 1);
    assert after == if i !in taken && DeviceName(prefix, i) in present then before + {i} else before;
  }

  class TunAllocator {
    const prefix: string
    const start: int
    const end: int
    var taken: set<int>
    ghost var issued: set<Release>

    /** The bookkeeping holds exactly the indices of unused release handles, one handle each. */
    ghost predicate Valid()
      reads this, issued
    {
      && (forall r <- issued :: start <= r.index <= end)
      && (forall i :: i in taken <==> exists r :: r in issued && !r.done && r.index == i)
      && (forall r, s :: r in issued && s in issued && !r.done && !s.done && r.index == s.index ==> r == s)
    }

    constructor (prefix: string, start: int, end: int)
      ensures Valid() && taken == {} && issued == {}
      ensures this.start == start && this.end == end
      ensures this.prefix == if prefix == "" then DEVICE_PREFIX else prefix
    {
      this.prefix := if prefix == "" then DEVICE_PREFIX else prefix;
      this.start, this.end := start, end;
      taken, issued := {}, {};
    }

    /** Marks an index taken and issues its release handle. */
    method Reserve(i: int) returns (release: Release)
      requires Valid() && start <= i <= end && i !in taken
      modifies this
      ensures Valid() && fresh(release) && release.index == i && !release.done
      ensures taken == old(taken) + {i} && issued == old(issued) + {release}
    {
      release := new Release(i);
      taken := taken + {i};
      issued := issued + {release};
      forall j ensures j in taken <==> exists r :: r in issued && !r.done && r.index == j {
        if j in old(taken) {
          var r :| r in old(issued) && !r.done && r.index == j;
          assert r in issued;
        }
      }
    }

    method Allocate(present: set<string>) returns (r: Allocation)
      requires Valid()
      modifies this
      ensures Valid()
      ensures r.Allocated? ==>
        && var i := r.release.index;
        && start <= i <= end && r.device == DeviceName(prefix, i) && i !in old(taken) && r.device !in present
        && (forall j :: start <= j < i ==> j in old(taken) || DeviceName(prefix, j) in present)
        && fresh(r.release) && !r.release.done
        && taken == old(taken) + {i} && issued == old(issued) + {r.release}
      ensures !r.Allocated? ==> forall i :: start <= i <= end ==> i in old(taken) || DeviceName(prefix, i) in present
      ensures !r.Allocated? ==> taken == old(taken) && issued == old(issued) && r.total == end - start + 1
      ensures r.Occupied? ==>
        r.count == |OccupiedIndices(taken, present, prefix, start, end + 1)| > 0
      ensures r.AllInUse? ==> forall i :: start <= i <= end ==> i in taken
    {
      var occupied, i := 0, start;
      while i <= end
        invariant Valid() && taken == old(taken) && issued == old(issued)
        invariant start <= i && (start <= end ==> i <= end + 1) && (start > end ==> occupied == 0)
        invariant forall j :: start <= j < i ==> j in taken || DeviceName(prefix, j) in present
        invariant occupied == |OccupiedIndices(taken, present, prefix, start, i)|
        invariant occupied == 0 ==> forall j :: start <= j < i ==> j in taken
      {
        OccupiedNext(taken, present, prefix, start, i);
        if i !in taken {
          var name := DeviceName(prefix, i);
          if name !in present {
            var release := Reserve(i);
            return Allocated(name, release);
          }
          occupied := occupied + 1;
        }
        i := i + 1;
      }
      if occupied > 0 {
        return Occupied(occupied, end - start + 1);
      }
      return AllInUse(end - start + 1);
    }

    /** Calling a release handle: the first call frees its index, later calls change nothing. */
    method RunRelease(r: Release)
      requires Valid() && r in issued
      modifies this, r
      ensures Valid() && issued == old(issued) && r.done
      ensures taken == if old(r.done) then old(taken) else old(taken) - {r.index}
      ensures forall s <- issued :: s != r ==> s.done == old(s.done)
    {
      if !r.done {
        r.done := true;
        taken := taken - {r.index};
        forall i ensures i in taken <==> exists s :: s in issued && !s.done && s.index == i {
          if i in taken {
            var s :| s in issued && old(!s.done) && s.index == i;
            assert s != r;
          }
        }
      }
    }

    /** Two allocations that are both still held name different devices. */
    lemma LiveDevicesDistinct(r: Release, s: Release)
      requires Valid() && r in issued && s in issued && !r.done && !s.done
      ensures DeviceName(prefix, r.index) == DeviceName(prefix, s.index) <==> r == s
    {
      DeviceNameInjective(prefix, r.index, s.index);
    }

    /** An allocator over a validated configuration never holds the active tunnel's device. */
    lemma ActiveDeviceNeverHeld(c: Config, r: Release)
      requires Valid() && r in issued && Finalized(c).Ok?
      requires prefix == Finalized(c).value.probeDevicePrefix
      requires start == Finalized(c).value.testTunStart && end == Finalized(c).value.testTunEnd
      ensures DeviceName(prefix, r.index) != Finalized(c).value.tunnelInterface
    {
      ProbeRangeAvoidsActiveDevice(c);
    }
  }

  /** NewTunAllocator: null where the program reports an error. */
  method NewTunAllocator(prefix: string, start: int, end: int) returns (a: TunAllocator?)
    ensures a == null <==> ValidateDevicePrefix(if prefix == "" then DEVICE_PREFIX else prefix).Some? || start > end
    ensures a != null ==> fresh(a) && a.Valid() && a.taken == {} && a.start == start && a.end == end
    ensures a != null ==> a.prefix == if prefix == "" then DEVICE_PREFIX else prefix
  {
    var p := if prefix == "" then DEVICE_PREFIX else prefix;
    if ValidateDevicePrefix(p).Some? || start > end { return null; }
    a := new TunAllocator(p, start, end);
    assert p != "";
  }
}
