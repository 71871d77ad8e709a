/**
 * The node's port allocator (communication/port_manager.py; the file
 * core_communication/port_manager.py is identical): a set of available
 * ports and a set of ports in use, which together always make up the
 * configured inclusive range. `set.pop()` returns an arbitrary element, so
 * allocation picks any available port. The lock is left out.
 */
module PortManager {
  import opened Wrappers

  /** The default arguments of `PortManager(start_port=5000, end_port=6000)`. */
  const DefaultStart: int := 5000
  const DefaultEnd: int := 6000
  const NoPortsMessage: string := "No available ports."

  /** `set(range(start, end + 1))`. */
  function Range(start: int, end: int): (r: set<int>)
    ensures forall p :: p in r <==> start <= p <= end
    decreases end - start
  {
    if end < start then {} else Range(start, end - 1) + {end}
  }

  /** The range holds `end - start + 1` ports, or none when `end < start`. */
  lemma {:induction false} RangeSize(start: int, end: int)
    ensures |Range(start, end)| == if end < start then 0 else end - start + 1
    decreases end - start
  {
    if end < start {
      assert Range(start, end) == {};
    } else {
      assert Range(start, end) == Range(start, end - 1) + {end};
      RangeSize(start, end - 1);
    }
  }

  /** With the default arguments the pool offers the 1001 ports from 5000 to 6000. */
  lemma DefaultRangeSize()
    ensures |Range(DefaultStart, DefaultEnd)| == 1001
    ensures 5000 in Range(DefaultStart, DefaultEnd) && 6000 in Range(DefaultStart, DefaultEnd)
  {
    RangeSize(DefaultStart, DefaultEnd);
  }

  class PortManager {
    const start: int
    const end: int
    var available: set<int>
    var inUse: set<int>

    /** The partition invariant. */
    predicate Valid()
      reads this
    {
      available !! inUse && available + inUse == Range(start, end)
    }

    /** `PortManager(start_port=5000, end_port=6000)`. */
    constructor (start: int, end: int)
      ensures Valid()
      ensures this.start == start && this.end == end
      ensures available == Range(start, end) && inUse == {}
    {
      this.start := start;
      this.end := end;
      available := Range(start, end);
      inUse := {};
    }

    /** `allocate_port`: move one available port to in-use, or fail with no change. */
    method AllocatePort() returns (r: Result<int, string>)
      requires Valid()
      modifies this
      ensures Valid()
      ensures old(available) == {} ==> r == Err(NoPortsMessage) && available == old(available) && inUse == old(inUse)
      ensures old(available) != {} ==>
                r.Ok? && r.value in old(available) &&
                available == old(available) - {r.value} && inUse == old(inUse) + {r.value}
    {
      if available == {} {
        return Err(NoPortsMessage);
      }
      var port :| port in available;
      available := available - {port};
      inUse := inUse + {port};
      r := Ok(port);
    }

    /** `release_port`: a port in use goes back; any other port only logs a warning. */
    method ReleasePort(port: int)
      requires Valid()
      modifies this
      ensures Valid()
      ensures port in old(inUse) ==> inUse == old(inUse) - {port} && available == old(available) + {port}
      ensures port !in old(inUse) ==> inUse == old(inUse) && available == old(available)
    {
      if port in inUse {
        inUse := inUse - {port};
        available := available + {port};
      }
    }
  }

  /** Allocate until `allocate_port` would fail; returns the ports in allocation order. */
  method AllocateAll(pm: PortManager) returns (ports: seq<int>)
    requires pm.Valid() && pm.inUse == {}
    modifies pm
    ensures pm.Valid() && pm.available == {}
    ensures forall p :: p in ports <==> p in pm.inUse
    ensures forall i, j :: 0 <= i < j < |ports| ==> ports[i] != ports[j]
  {
    ports := [];
    while pm.available != {}
      invariant pm.Valid()
      invariant forall p :: p in ports <==> p in pm.inUse
      invariant forall i, j :: 0 <= i < j < |ports| ==> ports[i] != ports[j]
      decreases |pm.available|
    {
      ghost var used := pm.inUse;
      var r := pm.AllocatePort();
      FreshSnoc(ports, used, r.value);
      ports := ports + [r.value];
    }
  }

  /** Appending a port not yet handed out keeps the list free of repeats and in step with the in-use set. */
  lemma FreshSnoc(ports: seq<int>, used: set<int>, p: int)
    requires forall q :: q in ports <==> q in used
    requires forall i, j :: 0 <= i < j < |ports| ==> ports[i] != ports[j]
    requires p !in used
    ensures forall q :: q in ports + [p] <==> q in used + {p}
    ensures forall i, j :: 0 <= i < j < |ports + [p]| ==> (ports + [p])[i] != (ports + [p])[j]
  {
    var s := ports + [p];
    forall i, j | 0 <= i < j < |s| ensures s[i] != s[j] {
      if j == |ports| {
        assert s[i] == ports[i];
      }
    }
  }

  /** Release each port of `ports` in turn. */
  method ReleaseAll(pm: PortManager, ports: seq<int>)
    requires pm.Valid()
    requires forall p :: p in ports <==> p in pm.inUse
    requires forall i, j :: 0 <= i < j < |ports| ==> ports[i] != ports[j]
    modifies pm
    ensures pm.Valid() && pm.inUse == {} && pm.available == Range(pm.start, pm.end)
  {
    var k := 0;
    while k < |ports|
      invariant 0 <= k <= |ports|
      invariant pm.Valid()
      invariant forall p :: p in pm.inUse <==> p in ports[k..]
    {
      assert ports[k..] == [ports[k]] + ports[k + 1..];
      assert ports[k] !in ports[k + 1..];
      pm.ReleasePort(ports[k]);
      k := k + 1;
    }
    assert ports[|ports|..] == [];
  }

  /**
   * Allocating until the pool is empty hands out every port of the range
   * exactly once, the next allocation fails, and releasing them all
   * restores the full pool.
   */
  method ExhaustAndRestore(start: int, end: int) returns (handedOut: seq<int>, failure: Result<int, string>, restored: set<int>)
    ensures forall i, j :: 0 <= i < j < |handedOut| ==> handedOut[i] != handedOut[j]
    ensures forall p :: p in handedOut <==> start <= p <= end
    ensures failure == Err(NoPortsMessage)
    ensures restored == Range(start, end)
  {
    var pm := new PortManager(start, end);
    handedOut := AllocateAll(pm);
    failure := pm.AllocatePort();
    ReleaseAll(pm, handedOut);
    restored := pm.available;
  }
}
