/**
 * The scanner of port_scanner/scanner.py (and of the prototype
 * test_select.py, which follows the same bookkeeping): chunks of ports are
 * probed together, each chunk twice (forward, then reversed), and every
 * probed port ends up in `resultsMap`.
 *
 * The network is a fixed oracle: for each port it gives the code that
 * connect_ex returns, the socket's SO_ERROR once it is writable, and the
 * outcome of getpeername. `select` returns an arbitrary subset of the
 * pending descriptors, and the poll's time budget is a natural number that
 * every `select` strictly decreases.
 */
module Scanner {
  import opened Wrappers
  import opened Values
  import opened Sampling
  import Chunker
  import PrototypeChunker
  import Probe

  /** What the network answers for each port, and the value of `os.name`. */
  datatype Network = Network(
    connectCode: int -> Errno,
    soError: int -> Errno,
    peer: int -> PeerName,
    os: OsName)

  /** What a probe of the port reports when its socket becomes writable. */
  function Verdict(rules: Rules, net: Network, port: int): Result<ScanResult, ProbeError> {
    Probe.ClassifyFor(rules, net.soError(port), net.peer(port))
  }

  /** Creating a probe for the port raises: `socket.error`, or OverflowError for a port out of range. */
  predicate LaunchFails(rules: Rules, net: Network, port: int) {
    Probe.ConnectTo(rules, port, net.connectCode(port), net.os).Fail?
  }

  /** The port's probe raises `e`, either while connecting or in `analyze`. */
  predicate ScanFailure(rules: Rules, net: Network, port: int, e: ProbeError) {
    || (LaunchFails(rules, net, port) && e == Probe.ConnectTo(rules, port, net.connectCode(port), net.os).error)
    || Verdict(rules, net, port) == Failure(e)
  }

  /** A probe of the port may raise. */
  predicate MayFail(rules: Rules, net: Network, port: int) {
    LaunchFails(rules, net, port) || Verdict(rules, net, port).Failure?
  }

  /**
   * A recorded result belongs to a port whose probe was created, and is
   * either Filtered (the poll ran out of time) or the probe's verdict.
   */
  predicate Recorded(rules: Rules, net: Network, port: int, result: ScanResult) {
    !LaunchFails(rules, net, port) && (result == Filtered || Verdict(rules, net, port) == Success(result))
  }

  /** Every result recorded is Filtered or the port's verdict. */
  predicate AllRecorded(rules: Rules, net: Network, results: map<int, ScanResult>) {
    forall p :: p in results ==> Recorded(rules, net, p, results[p])
  }

  /** `launch_probes` probes a port absent from the results, or Filtered there. */
  predicate NeedsProbe(results: map<int, ScanResult>, port: int) {
    port !in results || results[port] == Filtered
  }

  /** The ports of a chunk that get a fresh probe. */
  function ProbedPorts(results: map<int, ScanResult>, chunk: seq<int>): set<int> {
    set p | p in chunk && NeedsProbe(results, p)
  }

  /** The ports the scan covers: validated by the package, taken as given by the prototype. */
  function ScannedPorts(rules: Rules, portList: seq<int>): set<int> {
    match rules
    case Package => Chunker.ValidPorts(portList)
    case Prototype => Elems(portList)
  }

  /** `port_chunk[::-1]`. */
  function ReversePortChunk(chunk: seq<int>): (r: seq<int>)
    ensures |r| == |chunk|
    ensures forall i :: 0 <= i < |r| ==> r[i] == chunk[|chunk| - 1 - i]
  {
    if chunk == [] then [] else ReversePortChunk(chunk[1..]) + [chunk[0]]
  }

  lemma ReverseTwice(chunk: seq<int>)
    ensures ReversePortChunk(ReversePortChunk(chunk)) == chunk
  {
  }

  /** Reversing keeps every port and its number of occurrences. */
  lemma {:induction false} ReverseSameMultiset(chunk: seq<int>)
    ensures multiset(ReversePortChunk(chunk)) == multiset(chunk)
  {
    if chunk != [] {
      ReverseSameMultiset(chunk[1..]);
      assert chunk == [chunk[0]] + chunk[1..];
    }
  }

  /** The reversed chunk covers the same ports and still repeats none. */
  lemma ReverseSamePorts(chunk: seq<int>)
    ensures Elems(ReversePortChunk(chunk)) == Elems(chunk)
    ensures Distinct(chunk) ==> Distinct(ReversePortChunk(chunk))
  {
    ReverseSameMultiset(chunk);
    var r := ReversePortChunk(chunk);
    forall x ensures x in r <==> x in chunk {
      assert x in r <==> x in multiset(r);
      assert x in chunk <==> x in multiset(chunk);
    }
    if Distinct(chunk) {
      DistinctPermutation(chunk, r);
    }
  }

  /** A number above every member of a finite set of integers. */
  ghost function Above(s: set<int>): (b: int)
    ensures b >= 0 && forall x :: x in s ==> x < b
    decreases |s|
  {
    if s == {} then 0
    else
      NonEmptyHasMember(s);
      var x :| x in s;
      var rest := Above(s - {x});
      assert forall y :: y in s ==> y == x || y in s - {x};
      if x + 1 > rest then x + 1 else rest
  }

  /** Some descriptor is always free, so a new socket can get one. */
  lemma UnusedDescriptorExists(used: set<int>)
    ensures exists fd :: fd >= 0 && fd !in used
  {
    var fd := Above(used);
    assert fd !in used;
  }

  /** Distinct descriptors belong to distinct probes. */
  ghost predicate Injective(fdMap: map<int, Probe.PortProbe>) {
    forall a, b :: a in fdMap && b in fdMap && a != b ==> fdMap[a] != fdMap[b]
  }

  /** Every probe sits under its own descriptor and follows the given rules. */
  ghost predicate WellKeyed(fdMap: map<int, Probe.PortProbe>, rules: Rules) {
    forall fd :: fd in fdMap ==> fdMap[fd].fileNo == fd && fdMap[fd].rules == rules
  }

  /** The probe is still waiting: no result, socket open, never closed. */
  ghost predicate Waiting(probe: Probe.PortProbe)
    reads probe
  {
    probe.result == Unknown && !probe.closed && probe.closeCalls == 0
  }

  /** The probe was closed, once. */
  ghost predicate Done(probe: Probe.PortProbe)
    reads probe
  {
    probe.closed && probe.closeCalls == 1
  }

  /** The ports of the probes under the given descriptors. */
  ghost function PortsAt(fdMap: map<int, Probe.PortProbe>, fds: set<int>): set<int> {
    set fd | fd in fds && fd in fdMap :: fdMap[fd].port
  }

  /** The ports of all the probes of a descriptor map. */
  ghost function Ports(fdMap: map<int, Probe.PortProbe>): set<int> {
    PortsAt(fdMap, fdMap.Keys)
  }

  lemma PortsOfNewProbe(fdMap: map<int, Probe.PortProbe>, fd: int, probe: Probe.PortProbe)
    requires fd !in fdMap
    ensures Ports(fdMap[fd := probe]) == Ports(fdMap) + {probe.port}
  {
    var m := fdMap[fd := probe];
    forall p ensures p in Ports(m) <==> p in Ports(fdMap) + {probe.port} {
      if p in Ports(m) {
        var f :| f in m && m[f].port == p;
        if f != fd {
          assert f in fdMap && fdMap[f].port == p;
        }
      }
      if p in Ports(fdMap) {
        var f :| f in fdMap && fdMap[f].port == p;
        assert f in m && m[f].port == p;
      }
      if p == probe.port {
        assert m[fd].port == p;
      }
    }
  }

  lemma PortsAtExtend(fdMap: map<int, Probe.PortProbe>, fds: set<int>, fd: int)
    requires fd in fdMap
    ensures PortsAt(fdMap, fds + {fd}) == PortsAt(fdMap, fds) + {fdMap[fd].port}
  {
  }

  lemma ProbedPortsExtend(results: map<int, ScanResult>, chunk: seq<int>, i: int)
    requires 0 <= i < |chunk|
    ensures ProbedPorts(results, chunk[..i + 1])
            == ProbedPorts(results, chunk[..i]) + (if NeedsProbe(results, chunk[i]) then {chunk[i]} else {})
  {
    assert chunk[..i + 1] == chunk[..i] + [chunk[i]];
  }

  lemma ShrinkingSet(s: set<int>, e: set<int>)
    requires e <= s && e != {}
    ensures |s - e| < |s|
  {
    assert s == (s - e) + e;
    assert |s| == |s - e| + |e|;
  }

  class PortScanner {
    /** The resolved address of the host. */
    const address: string
    const portList: seq<int>
    /** The package's rules or the prototype's. */
    const rules: Rules
    var resultsMap: map<int, ScanResult>
    /** Every chunk handed to `poll` so far, in order. */
    ghost var polled: seq<seq<int>>

    constructor (address: string, portList: seq<int>, rules: Rules)
      ensures this.address == address && this.portList == portList && this.rules == rules
      ensures resultsMap == map[] && polled == []
    {
      this.address := address;
      this.portList := portList;
      this.rules := rules;
      resultsMap := map[];
      polled := [];
    }

    method Clear()
      modifies this`resultsMap
      ensures resultsMap == map[]
    {
      resultsMap := map[];
    }

    /**
     * Opens a probe, on a free descriptor, for every port of the chunk that
     * needs one, in chunk order; the first probe whose connect raises
     * stops the launch with that error.
     */
    method LaunchProbes(chunk: seq<int>, net: Network)
      returns (r: Result<map<int, Probe.PortProbe>, ProbeError>)
      ensures r.Failure? <==> exists p :: p in chunk && NeedsProbe(resultsMap, p) && LaunchFails(rules, net, p)
      ensures r.Failure? ==>
        exists i :: 0 <= i < |chunk| && NeedsProbe(resultsMap, chunk[i]) && LaunchFails(rules, net, chunk[i])
          && r.error == Probe.ConnectTo(rules, chunk[i], net.connectCode(chunk[i]), net.os).error
          && forall j :: 0 <= j < i ==> !(NeedsProbe(resultsMap, chunk[j]) && LaunchFails(rules, net, chunk[j]))
      ensures r.Success? ==>
        && (forall fd :: fd in r.value ==> fresh(r.value[fd]) && Waiting(r.value[fd]))
        && Injective(r.value) && WellKeyed(r.value, rules)
        && Ports(r.value) == ProbedPorts(resultsMap, chunk)
    {
      var fdMap: map<int, Probe.PortProbe> := map[];
      for i := 0 to |chunk|
        invariant forall j :: 0 <= j < i ==> !(NeedsProbe(resultsMap, chunk[j]) && LaunchFails(rules, net, chunk[j]))
        invariant forall fd :: fd in fdMap ==> fresh(fdMap[fd]) && Waiting(fdMap[fd])
        invariant Injective(fdMap) && WellKeyed(fdMap, rules)
        invariant Ports(fdMap) == ProbedPorts(resultsMap, chunk[..i])
      {
        ProbedPortsExtend(resultsMap, chunk, i);
        var port := chunk[i];
        if NeedsProbe(resultsMap, port) {
          UnusedDescriptorExists(fdMap.Keys);
          var fd :| fd >= 0 && fd !in fdMap;
          var probe := Probe.Launch(rules, port, fd, net.connectCode(port), net.os);
          if probe.Failure? {
            return Failure(probe.error);
          }
          PortsOfNewProbe(fdMap, fd, probe.value);
          fdMap := fdMap[fd := probe.value];
        }
      }
      assert chunk[..|chunk|] == chunk;
      r := Success(fdMap);
    }

    /**
     * Records the verdict of a probe that select reported writable, then
     * closes it; a raised error leaves both the results and the probe as
     * they were.
     */
    method Reap(probe: Probe.PortProbe, net: Network) returns (r: Outcome<ProbeError>)
      requires probe.rules == rules && Waiting(probe)
      modifies this`resultsMap, probe
      ensures r.Fail? <==> Verdict(rules, net, probe.port).Failure?
      ensures r.Fail? ==>
        r.error == Verdict(rules, net, probe.port).error
        && resultsMap == old(resultsMap) && Waiting(probe)
      ensures r.Pass? ==>
        resultsMap == old(resultsMap)[probe.port := Verdict(rules, net, probe.port).value]
        && Done(probe)
    {
      var result := probe.Analyze(net.soError(probe.port), net.peer(probe.port));
      if result.Failure? {
        return Fail(result.error);
      }
      resultsMap := resultsMap[probe.port := result.value];
      probe.Close();
      r := Pass;
    }

    /**
     * `poll`: launches the chunk's probes, reaps those that select reports
     * writable while the budget lasts, then records every probe still
     * pending as Filtered and closes it. `reaped` and `timedOut` are the
     * ports recorded by each of the two steps; `launched` maps each
     * descriptor to its probe.
     */
    method Poll(chunk: seq<int>, budget: nat, net: Network)
      returns (r: Outcome<ProbeError>, ghost launched: map<int, Probe.PortProbe>,
               ghost reaped: set<int>, ghost timedOut: set<int>)
      modifies this
      ensures polled == old(polled) + [chunk]
      ensures reaped + timedOut <= ProbedPorts(old(resultsMap), chunk)
      ensures forall p :: p in reaped + timedOut ==> !LaunchFails(rules, net, p)
      ensures resultsMap.Keys == old(resultsMap).Keys + reaped + timedOut
      ensures forall p :: p in timedOut ==> resultsMap[p] == Filtered
      ensures forall p :: p in reaped && p !in timedOut ==> Verdict(rules, net, p) == Success(resultsMap[p])
      ensures forall p :: p in resultsMap && p !in reaped + timedOut ==> resultsMap[p] == old(resultsMap)[p]
      ensures AllRecorded(rules, net, old(resultsMap)) ==> AllRecorded(rules, net, resultsMap)
      ensures budget == 0 ==> reaped == {}
      ensures r.Pass? ==> reaped + timedOut == ProbedPorts(old(resultsMap), chunk)
      ensures r.Pass? ==> Elems(chunk) <= resultsMap.Keys
      ensures r.Pass? ==>
        && WellKeyed(launched, rules)
        && (forall fd :: fd in launched ==> Done(launched[fd]))
        && Ports(launched) == ProbedPorts(old(resultsMap), chunk)
      ensures r.Fail? ==> exists p :: p in ProbedPorts(old(resultsMap), chunk) && ScanFailure(rules, net, p, r.error)
    {
      polled := polled + [chunk];
      launched, reaped, timedOut := map[], {}, {};
      ghost var probed := ProbedPorts(resultsMap, chunk);
      var launch := LaunchProbes(chunk, net);
      if launch.Failure? {
        r := Fail(launch.error);
        var i :| 0 <= i < |chunk| && NeedsProbe(resultsMap, chunk[i]) && LaunchFails(rules, net, chunk[i])
          && r.error == Probe.ConnectTo(rules, chunk[i], net.connectCode(chunk[i]), net.os).error;
        assert chunk[i] in probed && ScanFailure(rules, net, chunk[i], r.error);
        PollKeepsRecords(old(resultsMap), resultsMap, reaped, timedOut, rules, net);
        return;
      }
      var fdMap := launch.value;
      launched := fdMap;
      r, reaped, timedOut := PollProbes(fdMap, budget, net);
      forall p | p in reaped + timedOut ensures !LaunchFails(rules, net, p) {
        assert p in chunk && NeedsProbe(old(resultsMap), p);
      }
      PollKeepsRecords(old(resultsMap), resultsMap, reaped, timedOut, rules, net);
      if r.Fail? {
        ghost var p :| p in Ports(fdMap) && Verdict(rules, net, p) == Failure(r.error);
        assert ScanFailure(rules, net, p, r.error);
        return;
      }
      forall p | p in chunk ensures p in resultsMap.Keys {
        if NeedsProbe(old(resultsMap), p) {
          assert p in probed;
        }
      }
    }

    /**
     * `poll` once its probes are launched: the select loop, then the sweep.
     * Every probe ends up reaped or timed out unless one raises.
     */
    method PollProbes(fdMap: map<int, Probe.PortProbe>, budget: nat, net: Network)
      returns (r: Outcome<ProbeError>, ghost reaped: set<int>, ghost timedOut: set<int>)
      requires Injective(fdMap) && WellKeyed(fdMap, rules)
      requires forall fd :: fd in fdMap ==> Waiting(fdMap[fd])
      modifies this`resultsMap, set fd | fd in fdMap :: fdMap[fd]
      ensures reaped + timedOut <= Ports(fdMap)
      ensures resultsMap.Keys == old(resultsMap).Keys + reaped + timedOut
      ensures forall p :: p in timedOut ==> resultsMap[p] == Filtered
      ensures forall p :: p in reaped && p !in timedOut ==> Verdict(rules, net, p) == Success(resultsMap[p])
      ensures forall p :: p in resultsMap && p !in reaped + timedOut ==> resultsMap[p] == old(resultsMap)[p]
      ensures budget == 0 ==> reaped == {}
      ensures r.Pass? ==> reaped + timedOut == Ports(fdMap) && forall fd :: fd in fdMap ==> Done(fdMap[fd])
      ensures r.Fail? ==> exists p :: p in Ports(fdMap) && Verdict(rules, net, p) == Failure(r.error)
    {
      timedOut := {};
      var w;
      r, w, reaped := AwaitProbes(fdMap, budget, net);
      if r.Fail? {
        return;
      }
      ghost var reapedMap := resultsMap;
      timedOut := Sweep(fdMap, w);
      SweepAfterReaping(old(resultsMap), reapedMap, resultsMap, reaped, timedOut, rules, net);
      forall p | p in Ports(fdMap) ensures p in reaped + timedOut {
        var fd :| fd in fdMap && fdMap[fd].port == p;
        if fd in w {
          assert p in PortsAt(fdMap, w);
        }
      }
    }

    /**
     * The bookkeeping of `poll` while probes are pending: `w` holds the
     * descriptors still waiting; every other probe was reaped and closed,
     * its port is in `reaped`, and the results hold the verdict of each
     * reaped port and the `base` entry of every other port.
     */
    ghost predicate Tracking(fdMap: map<int, Probe.PortProbe>, w: set<int>, reaped: set<int>,
                             base: map<int, ScanResult>, net: Network)
      reads this, set fd | fd in fdMap :: fdMap[fd]
    {
      && w <= fdMap.Keys && reaped <= Ports(fdMap)
      && (forall fd :: fd in w ==> Waiting(fdMap[fd]))
      && (forall fd :: fd in fdMap && fd !in w ==> Done(fdMap[fd]) && fdMap[fd].port in reaped)
      && resultsMap.Keys == base.Keys + reaped
      && (forall p :: p in reaped ==> Verdict(rules, net, p) == Success(resultsMap[p]))
      && (forall p :: p in resultsMap && p !in reaped ==> resultsMap[p] == base[p])
    }

    /**
     * The select loop of `poll`: while the budget lasts and probes are
     * pending, select some writable descriptors and reap their probes;
     * returns the descriptors still pending.
     */
    method AwaitProbes(fdMap: map<int, Probe.PortProbe>, budget: nat, net: Network)
      returns (r: Outcome<ProbeError>, w: set<int>, ghost reaped: set<int>)
      requires Injective(fdMap) && WellKeyed(fdMap, rules)
      requires forall fd :: fd in fdMap ==> Waiting(fdMap[fd])
      modifies this`resultsMap, set fd | fd in fdMap :: fdMap[fd]
      ensures budget == 0 ==> reaped == {} && w == fdMap.Keys
      ensures r.Pass? ==> Tracking(fdMap, w, reaped, old(resultsMap), net)
      ensures r.Fail? ==>
        && reaped <= Ports(fdMap)
        && resultsMap.Keys == old(resultsMap).Keys + reaped
        && (forall p :: p in reaped ==> Verdict(rules, net, p) == Success(resultsMap[p]))
        && (forall p :: p in resultsMap && p !in reaped ==> resultsMap[p] == old(resultsMap)[p])
        && exists p :: p in Ports(fdMap) && Verdict(rules, net, p) == Failure(r.error)
    {
      r := Pass;
      reaped := {};
      w := fdMap.Keys;
      var timeout := budget;
      while timeout > 0 && |w| > 0
        invariant r.Pass? && Tracking(fdMap, w, reaped, old(resultsMap), net)
        invariant budget == 0 ==> reaped == {} && w == fdMap.Keys
        decreases timeout
      {
        var ready :| ready <= w;
        var remaining :| 0 <= remaining < timeout;
        timeout := remaining;
        var readyList := ListOfSet(ready);
        r, w, reaped := ReapReady(fdMap, readyList, w, reaped, old(resultsMap), net);
        if r.Fail? {
          return;
        }
      }
    }

    /** The inner loop of `poll`: reap, one by one, the probes select reported writable. */
    method ReapReady(fdMap: map<int, Probe.PortProbe>, ready: seq<int>, w0: set<int>, ghost reaped0: set<int>,
                     ghost base: map<int, ScanResult>, net: Network)
      returns (r: Outcome<ProbeError>, w: set<int>, ghost reaped: set<int>)
      requires Injective(fdMap) && WellKeyed(fdMap, rules)
      requires Distinct(ready) && Elems(ready) <= w0
      requires Tracking(fdMap, w0, reaped0, base, net)
      modifies this`resultsMap, set fd | fd in fdMap :: fdMap[fd]
      ensures r.Pass? ==> Tracking(fdMap, w, reaped, base, net)
      ensures r.Fail? ==>
        && reaped <= Ports(fdMap)
        && resultsMap.Keys == base.Keys + reaped
        && (forall p :: p in reaped ==> Verdict(rules, net, p) == Success(resultsMap[p]))
        && (forall p :: p in resultsMap && p !in reaped ==> resultsMap[p] == base[p])
        && exists p :: p in Ports(fdMap) && Verdict(rules, net, p) == Failure(r.error)
    {
      r, w, reaped := Pass, w0, reaped0;
      for i := 0 to |ready|
        invariant r.Pass? && Tracking(fdMap, w, reaped, base, net)
        invariant forall j :: i <= j < |ready| ==> ready[j] in w
      {
        var fd := ready[i];
        var probe := fdMap[fd];
        assert probe.port in Ports(fdMap);
        r := Reap(probe, net);
        if r.Fail? {
          assert Verdict(rules, net, probe.port) == Failure(r.error);
          return;
        }
        reaped := reaped + {probe.port};
        w := w - {fd};
      }
    }

    /** The final sweep of `poll`: every probe still pending is Filtered, and closed. */
    method Sweep(fdMap: map<int, Probe.PortProbe>, w: set<int>) returns (ghost timedOut: set<int>)
      requires w <= fdMap.Keys && Injective(fdMap)
      requires forall fd :: fd in w ==> Waiting(fdMap[fd])
      modifies this`resultsMap, set fd | fd in w :: fdMap[fd]
      ensures timedOut == PortsAt(fdMap, w)
      ensures forall fd :: fd in w ==> Done(fdMap[fd])
      ensures FilteredOver(old(resultsMap), resultsMap, timedOut)
    {
      var unreaped := ListOfSet(w);
      timedOut := TimeOutAll(fdMap, unreaped);
      forall fd | fd in w ensures Done(fdMap[fd]) {
        var j :| 0 <= j < |unreaped| && unreaped[j] == fd;
      }
    }

    /** The loop of the sweep, over the pending descriptors in the order the set yields them. */
    method TimeOutAll(fdMap: map<int, Probe.PortProbe>, unreaped: seq<int>) returns (ghost timedOut: set<int>)
      requires Distinct(unreaped) && Elems(unreaped) <= fdMap.Keys && Injective(fdMap)
      requires SweptUpTo(fdMap, unreaped, 0)
      modifies this`resultsMap, set fd | fd in Elems(unreaped) :: fdMap[fd]
      ensures timedOut == PortsAt(fdMap, Elems(unreaped))
      ensures SweptUpTo(fdMap, unreaped, |unreaped|)
      ensures FilteredOver(old(resultsMap), resultsMap, timedOut)
    {
      timedOut := {};
      for i := 0 to |unreaped|
        invariant SweptUpTo(fdMap, unreaped, i)
        invariant timedOut == PortsAt(fdMap, Elems(unreaped[..i]))
        invariant FilteredOver(old(resultsMap), resultsMap, timedOut)
      {
        assert unreaped[i] in Elems(unreaped);
        timedOut := TimeOutNext(fdMap, unreaped, i, old(resultsMap), timedOut);
      }
      assert unreaped[..|unreaped|] == unreaped;
    }

    /** One step of the sweep: the probe at index i is recorded Filtered and closed. */
    method TimeOutNext(fdMap: map<int, Probe.PortProbe>, unreaped: seq<int>, i: int,
                       ghost base: map<int, ScanResult>, ghost timedOut: set<int>)
      returns (ghost timedOut': set<int>)
      requires Distinct(unreaped) && Elems(unreaped) <= fdMap.Keys && Injective(fdMap)
      requires i < |unreaped| && SweptUpTo(fdMap, unreaped, i)
      requires timedOut == PortsAt(fdMap, Elems(unreaped[..i]))
      requires FilteredOver(base, resultsMap, timedOut)
      modifies this`resultsMap, fdMap[unreaped[i]]
      ensures SweptUpTo(fdMap, unreaped, i + 1)
      ensures timedOut' == PortsAt(fdMap, Elems(unreaped[..i + 1]))
      ensures FilteredOver(base, resultsMap, timedOut')
    {
      var fd := unreaped[i];
      var probe := fdMap[fd];
      assert unreaped[..i + 1] == unreaped[..i] + [fd];
      PortsAtExtend(fdMap, Elems(unreaped[..i]), fd);
      assert forall j :: 0 <= j < |unreaped| && j != i ==> fdMap[unreaped[j]] != probe by {
        forall j | 0 <= j < |unreaped| && j != i ensures fdMap[unreaped[j]] != probe {
          assert unreaped[j] != fd;
        }
      }
      FilteredOverExtend(base, resultsMap, timedOut, probe.port);
      TimeOut(probe);
      timedOut' := timedOut + {probe.port};
    }

    /** A probe still pending when time runs out: Filtered, and closed. */
    method TimeOut(probe: Probe.PortProbe)
      requires Waiting(probe)
      modifies this`resultsMap, probe
      ensures resultsMap == old(resultsMap)[probe.port := Filtered]
      ensures Done(probe)
    {
      resultsMap := resultsMap[probe.port := Filtered];
      probe.Close();
    }

    /**
     * `run`: clears the results and polls every chunk the chunker hands
     * out, forward and then reversed, until it has none left. The package
     * and the prototype differ only in their chunker.
     */
    method Run(budget: nat, net: Network) returns (r: Outcome<ProbeError>, ghost chunks: seq<seq<int>>)
      modifies this
      ensures resultsMap.Keys <= ScannedPorts(rules, portList)
      ensures r.Pass? ==> resultsMap.Keys == ScannedPorts(rules, portList)
      ensures AllRecorded(rules, net, resultsMap)
      ensures r.Fail? ==> exists p :: p in ScannedPorts(rules, portList) && ScanFailure(rules, net, p, r.error)
      ensures (forall p :: p in ScannedPorts(rules, portList) ==> !MayFail(rules, net, p)) ==> r.Pass?
      ensures (exists p :: p in ScannedPorts(rules, portList) && LaunchFails(rules, net, p)) ==> r.Fail?
      ensures (exists p :: p in ScannedPorts(rules, portList) && !IsTcpPort(p)) ==> r.Fail?
      ensures FreshChunks(chunks, ScannedPorts(rules, portList))
      ensures r.Pass? ==> Covered(chunks) == ScannedPorts(rules, portList) && polled == old(polled) + Doubled(chunks)
      ensures r.Fail? ==> chunks != [] && PolledUpToLast(polled, old(polled), chunks)
    {
      Clear();
      if rules == Package {
        r, chunks := ScanChunks(budget, net);
      } else {
        r, chunks := ScanPrototypeChunks(budget, net);
      }
      if exists p :: p in ScannedPorts(rules, portList) && !IsTcpPort(p) {
        var p :| p in ScannedPorts(rules, portList) && !IsTcpPort(p);
        assert LaunchFails(rules, net, p);
      }
    }

    /**
     * The scan so far: fresh chunks covering exactly the ports with results,
     * each polled forward and then reversed after the log's first `start`.
     */
    ghost predicate LogState(chunks: seq<seq<int>>, start: seq<seq<int>>, all: set<int>)
      reads this
    {
      FreshChunks(chunks, all) && Covered(chunks) == resultsMap.Keys && polled == start + Doubled(chunks)
    }

    /**
     * Both passes over one chunk whose ports have no results yet: `poll` on
     * the chunk, then, unless that raised, on the chunk reversed.
     */
    method PollTwice(chunk: seq<int>, budget: nat, net: Network) returns (r: Outcome<ProbeError>)
      requires Elems(chunk) !! resultsMap.Keys
      requires AllRecorded(rules, net, resultsMap)
      modifies this
      ensures r.Pass? ==> polled == old(polled) + [chunk, ReversePortChunk(chunk)]
      ensures r.Fail? ==> polled == old(polled) + [chunk] || polled == old(polled) + [chunk, ReversePortChunk(chunk)]
      ensures old(resultsMap).Keys <= resultsMap.Keys <= old(resultsMap).Keys + Elems(chunk)
      ensures r.Pass? ==> resultsMap.Keys == old(resultsMap).Keys + Elems(chunk)
      ensures AllRecorded(rules, net, resultsMap)
      ensures r.Fail? ==> exists p :: p in chunk && ScanFailure(rules, net, p, r.error)
    {
      ghost var launched, reaped, timedOut;
      r, launched, reaped, timedOut := Poll(chunk, budget, net);
      assert ProbedPorts(old(resultsMap), chunk) == Elems(chunk);
      if r.Fail? {
        return;
      }
      var reversed := ReversePortChunk(chunk);
      ReverseSamePorts(chunk);
      ghost var before := resultsMap;
      r, launched, reaped, timedOut := Poll(reversed, budget, net);
      assert ProbedPorts(before, reversed) <= Elems(chunk);
      assert polled == old(polled) + [chunk] + [reversed];
      assert old(polled) + [chunk] + [reversed] == old(polled) + [chunk, reversed];
    }

    /** The package's scan loop over the chunks of a validating chunker with bounds 10 and 20. */
    method ScanChunks(budget: nat, net: Network) returns (r: Outcome<ProbeError>, ghost chunks: seq<seq<int>>)
      requires rules == Package && resultsMap == map[]
      modifies this
      ensures resultsMap.Keys <= ScannedPorts(rules, portList)
      ensures r.Pass? ==> resultsMap.Keys == ScannedPorts(rules, portList)
      ensures AllRecorded(rules, net, resultsMap)
      ensures r.Fail? ==> exists p :: p in ScannedPorts(rules, portList) && ScanFailure(rules, net, p, r.error)
      ensures FreshChunks(chunks, ScannedPorts(rules, portList))
      ensures r.Pass? ==> Covered(chunks) == ScannedPorts(rules, portList) && polled == old(polled) + Doubled(chunks)
      ensures r.Fail? ==> chunks != [] && PolledUpToLast(polled, old(polled), chunks)
    {
      var chunker, chunk := StartChunker(portList);
      r, chunks := ScanFrom(chunker, chunk, budget, net);
      if r.Fail? {
        ghost var p :| p in chunker.validated && ScanFailure(rules, net, p, r.error);
        assert p in ScannedPorts(rules, portList);
      }
    }

    /** The package's scan loop, from the chunk in hand until the chunker has none left. */
    method ScanFrom(chunker: Chunker.PortChunker, chunk0: Option<seq<int>>, budget: nat, net: Network)
      returns (r: Outcome<ProbeError>, ghost chunks: seq<seq<int>>)
      requires chunker.Valid() && ChunkLoop(chunker.drawn, chunker.validated, chunk0, resultsMap.Keys)
      requires AllRecorded(rules, net, resultsMap) && (chunk0.Some? ==> chunk0.value != [])
      requires LogState([], polled, chunker.validated)
      modifies this, chunker
      ensures resultsMap.Keys <= chunker.validated && AllRecorded(rules, net, resultsMap)
      ensures r.Fail? ==> exists p :: p in chunker.validated && ScanFailure(rules, net, p, r.error)
      ensures r.Pass? ==> resultsMap.Keys == chunker.validated && LogState(chunks, old(polled), chunker.validated)
      ensures r.Fail? ==> chunks != [] && FreshChunks(chunks, chunker.validated) && PolledUpToLast(polled, old(polled), chunks)
    {
      var chunk := chunk0;
      ghost var all := chunker.validated;
      r, chunks := Pass, [];
      while chunk.Some?
        invariant r.Pass? && chunker.Valid() && chunker.validated == all
        invariant ChunkLoop(chunker.drawn, all, chunk, resultsMap.Keys)
        invariant AllRecorded(rules, net, resultsMap)
        invariant chunk.Some? ==> chunk.value != []
        invariant LogState(chunks, old(polled), all)
        decreases |chunker.Remaining()| + (if chunk.Some? then 1 else 0)
      {
        var current := chunk.value;
        r, chunk := ScanStep(chunker, current, chunks, old(polled), budget, net);
        chunks := chunks + [current];
        if r.Fail? {
          return;
        }
      }
    }

    /** PollTwice on a freshly drawn chunk, keeping the log of the scan. */
    method PollDrawn(chunk: seq<int>, ghost chunks: seq<seq<int>>, ghost start: seq<seq<int>>, ghost all: set<int>,
                     budget: nat, net: Network) returns (r: Outcome<ProbeError>)
      requires chunk != [] && Elems(chunk) <= all && Elems(chunk) !! resultsMap.Keys
      requires AllRecorded(rules, net, resultsMap) && LogState(chunks, start, all)
      modifies this
      ensures AllRecorded(rules, net, resultsMap)
      ensures old(resultsMap).Keys <= resultsMap.Keys <= old(resultsMap).Keys + Elems(chunk)
      ensures r.Pass? ==> resultsMap.Keys == old(resultsMap).Keys + Elems(chunk)
      ensures r.Fail? ==> exists p :: p in chunk && ScanFailure(rules, net, p, r.error)
      ensures r.Fail? ==> FreshChunks(chunks + [chunk], all) && PolledUpToLast(polled, start, chunks + [chunk])
      ensures r.Pass? ==> LogState(chunks + [chunk], start, all)
    {
      ChunksExtend(chunks, chunk, all);
      r := PollTwice(chunk, budget, net);
      if r.Fail? {
        PolledOnFailure(polled, old(polled), start, chunks + [chunk]);
        return;
      }
      PolledBoth(polled, old(polled), start, chunks + [chunk]);
    }

    /** One pass of the package's loop: poll the chunk twice, then draw the next one. */
    method ScanStep(chunker: Chunker.PortChunker, chunk: seq<int>, ghost chunks: seq<seq<int>>,
                    ghost start: seq<seq<int>>, budget: nat, net: Network)
      returns (r: Outcome<ProbeError>, next: Option<seq<int>>)
      requires chunker.Valid() && ChunkLoop(chunker.drawn, chunker.validated, Some(chunk), resultsMap.Keys)
      requires AllRecorded(rules, net, resultsMap)
      requires chunk != [] && LogState(chunks, start, chunker.validated)
      modifies this, chunker
      ensures chunker.Valid()
      ensures AllRecorded(rules, net, resultsMap)
      ensures resultsMap.Keys <= chunker.validated
      ensures r.Fail? ==> exists p :: p in chunker.validated && ScanFailure(rules, net, p, r.error)
      ensures r.Fail? ==> FreshChunks(chunks + [chunk], chunker.validated) && PolledUpToLast(polled, start, chunks + [chunk])
      ensures r.Pass? ==> ChunkLoop(chunker.drawn, chunker.validated, next, resultsMap.Keys)
      ensures r.Pass? ==> |chunker.Remaining()| + (if next.Some? then 1 else 0) < |old(chunker.Remaining())| + 1
      ensures r.Pass? ==> LogState(chunks + [chunk], start, chunker.validated) && (next.Some? ==> next.value != [])
    {
      r := PollDrawn(chunk, chunks, start, chunker.validated, budget, net);
      if r.Fail? {
        ghost var p :| p in chunk && ScanFailure(rules, net, p, r.error);
        assert p in Elems(chunk);
        assert p in chunker.validated;
        return r, None;
      }
      ghost var drawn := chunker.drawn;
      assert resultsMap.Keys == drawn;
      next := NextChunk(chunker);
      ChunkLoopAdvances(drawn, chunker.validated, chunk, resultsMap.Keys, next, chunker.drawn);
    }

    /** The prototype's scan loop: the same, over its non-validating chunker. */
    method ScanPrototypeChunks(budget: nat, net: Network) returns (r: Outcome<ProbeError>, ghost chunks: seq<seq<int>>)
      requires rules == Prototype && resultsMap == map[]
      modifies this
      ensures resultsMap.Keys <= ScannedPorts(rules, portList)
      ensures r.Pass? ==> resultsMap.Keys == ScannedPorts(rules, portList)
      ensures AllRecorded(rules, net, resultsMap)
      ensures r.Fail? ==> exists p :: p in ScannedPorts(rules, portList) && ScanFailure(rules, net, p, r.error)
      ensures (exists p :: p in portList && !IsTcpPort(p)) ==> r.Fail?
      ensures FreshChunks(chunks, ScannedPorts(rules, portList))
      ensures r.Pass? ==> Covered(chunks) == ScannedPorts(rules, portList) && polled == old(polled) + Doubled(chunks)
      ensures r.Fail? ==> chunks != [] && PolledUpToLast(polled, old(polled), chunks)
    {
      var chunker, chunk := StartPrototypeChunker(portList);
      r, chunks := ScanPrototypeFrom(chunker, chunk, budget, net);
      if r.Fail? {
        ghost var p :| p in chunker.ports && ScanFailure(rules, net, p, r.error);
        assert p in ScannedPorts(rules, portList);
      }
      if exists p :: p in portList && !IsTcpPort(p) {
        var p :| p in portList && !IsTcpPort(p);
        assert p in ScannedPorts(rules, portList) && LaunchFails(rules, net, p);
      }
    }

    /** The prototype's scan loop, from the chunk in hand until the chunker has none left. */
    method ScanPrototypeFrom(chunker: PrototypeChunker.PortChunker, chunk0: Option<seq<int>>, budget: nat, net: Network)
      returns (r: Outcome<ProbeError>, ghost chunks: seq<seq<int>>)
      requires chunker.Valid() && ChunkLoop(chunker.drawn, chunker.ports, chunk0, resultsMap.Keys)
      requires AllRecorded(rules, net, resultsMap) && (chunk0.Some? ==> chunk0.value != [])
      requires LogState([], polled, chunker.ports)
      modifies this, chunker
      ensures resultsMap.Keys <= chunker.ports && AllRecorded(rules, net, resultsMap)
      ensures r.Fail? ==> exists p :: p in chunker.ports && ScanFailure(rules, net, p, r.error)
      ensures r.Pass? ==> resultsMap.Keys == chunker.ports && LogState(chunks, old(polled), chunker.ports)
      ensures r.Fail? ==> chunks != [] && FreshChunks(chunks, chunker.ports) && PolledUpToLast(polled, old(polled), chunks)
    {
      var chunk := chunk0;
      ghost var all := chunker.ports;
      r, chunks := Pass, [];
      while chunk.Some?
        invariant r.Pass? && chunker.Valid() && chunker.ports == all
        invariant ChunkLoop(chunker.drawn, all, chunk, resultsMap.Keys)
        invariant AllRecorded(rules, net, resultsMap)
        invariant chunk.Some? ==> chunk.value != []
        invariant LogState(chunks, old(polled), all)
        decreases |chunker.Remaining()| + (if chunk.Some? then 1 else 0)
      {
        var current := chunk.value;
        r, chunk := ScanPrototypeStep(chunker, current, chunks, old(polled), budget, net);
        chunks := chunks + [current];
        if r.Fail? {
          return;
        }
      }
    }

    /** One pass of the prototype's loop. */
    method ScanPrototypeStep(chunker: PrototypeChunker.PortChunker, chunk: seq<int>, ghost chunks: seq<seq<int>>,
                             ghost start: seq<seq<int>>, budget: nat, net: Network)
      returns (r: Outcome<ProbeError>, next: Option<seq<int>>)
      requires chunker.Valid() && ChunkLoop(chunker.drawn, chunker.ports, Some(chunk), resultsMap.Keys)
      requires AllRecorded(rules, net, resultsMap)
      requires chunk != [] && LogState(chunks, start, chunker.ports)
      modifies this, chunker
      ensures chunker.Valid()
      ensures AllRecorded(rules, net, resultsMap)
      ensures resultsMap.Keys <= chunker.ports
      ensures r.Fail? ==> exists p :: p in chunker.ports && ScanFailure(rules, net, p, r.error)
      ensures r.Fail? ==> FreshChunks(chunks + [chunk], chunker.ports) && PolledUpToLast(polled, start, chunks + [chunk])
      ensures r.Pass? ==> ChunkLoop(chunker.drawn, chunker.ports, next, resultsMap.Keys)
      ensures r.Pass? ==> |chunker.Remaining()| + (if next.Some? then 1 else 0) < |old(chunker.Remaining())| + 1
      ensures r.Pass? ==> LogState(chunks + [chunk], start, chunker.ports) && (next.Some? ==> next.value != [])
    {
      r := PollDrawn(chunk, chunks, start, chunker.ports, budget, net);
      if r.Fail? {
        ghost var p :| p in chunk && ScanFailure(rules, net, p, r.error);
        assert p in Elems(chunk);
        assert p in chunker.ports;
        return r, None;
      }
      ghost var drawn := chunker.drawn;
      assert resultsMap.Keys == drawn;
      next := NextPrototypeChunk(chunker);
      ChunkLoopAdvances(drawn, chunker.ports, chunk, resultsMap.Keys, next, chunker.drawn);
    }
  }

  /**
   * The probes before index i of the sweep's order are closed, once; those
   * from i on are still waiting.
   */
  ghost predicate SweptUpTo(fdMap: map<int, Probe.PortProbe>, unreaped: seq<int>, i: int)
    reads fdMap.Values
  {
    && 0 <= i <= |unreaped|
    && (forall j :: i <= j < |unreaped| ==> unreaped[j] in fdMap && Waiting(fdMap[unreaped[j]]))
    && (forall j :: 0 <= j < i ==> unreaped[j] in fdMap && Done(fdMap[unreaped[j]]))
  }

  /**
   * What the scan loop keeps: the ports drawn so far are scanned ports, a chunk in
   * hand has been drawn, every port drawn before it has a result, and none
   * in hand means every port has been drawn.
   */
  ghost predicate ChunkLoop(drawn: set<int>, all: set<int>, chunk: Option<seq<int>>, keys: set<int>) {
    && drawn <= all
    && (chunk.None? ==> drawn == all && keys == all)
    && (chunk.Some? ==> Elems(chunk.value) <= drawn && keys == drawn - Elems(chunk.value))
  }

  /** Polling the chunk in hand and drawing the next one keeps the loop's bookkeeping. */
  lemma ChunkLoopAdvances(drawn: set<int>, all: set<int>, chunk: seq<int>, keys: set<int>,
                          next: Option<seq<int>>, drawn': set<int>)
    requires Elems(chunk) <= drawn && keys == drawn && drawn' <= all
    requires next.None? ==> drawn' == all && drawn' == drawn
    requires next.Some? ==> Elems(next.value) !! drawn && drawn' == drawn + Elems(next.value)
    ensures ChunkLoop(drawn', all, next, keys)
  {
  }

  /**
   * The results are the earlier ones with every port of timedOut set to
   * Filtered, and nothing else changed.
   */
  ghost predicate FilteredOver(before: map<int, ScanResult>, after: map<int, ScanResult>, timedOut: set<int>) {
    && after.Keys == before.Keys + timedOut
    && (forall p :: p in timedOut ==> after[p] == Filtered)
    && (forall p :: p in after && p !in timedOut ==> after[p] == before[p])
  }

  lemma FilteredOverExtend(before: map<int, ScanResult>, after: map<int, ScanResult>, timedOut: set<int>, port: int)
    requires FilteredOver(before, after, timedOut)
    ensures FilteredOver(before, after[port := Filtered], timedOut + {port})
  {
  }

  /**
   * The results after the select loop (verdicts of the reaped ports over
   * the earlier results) followed by the sweep (Filtered over those).
   */
  lemma SweepAfterReaping(before: map<int, ScanResult>, reapedMap: map<int, ScanResult>,
                          after: map<int, ScanResult>, reaped: set<int>, timedOut: set<int>,
                          rules: Rules, net: Network)
    requires reapedMap.Keys == before.Keys + reaped
    requires forall p :: p in reaped ==> Verdict(rules, net, p) == Success(reapedMap[p])
    requires forall p :: p in reapedMap && p !in reaped ==> reapedMap[p] == before[p]
    requires FilteredOver(reapedMap, after, timedOut)
    ensures after.Keys == before.Keys + reaped + timedOut
    ensures forall p :: p in timedOut ==> after[p] == Filtered
    ensures forall p :: p in reaped && p !in timedOut ==> Verdict(rules, net, p) == Success(after[p])
    ensures forall p :: p in after && p !in reaped + timedOut ==> after[p] == before[p]
  {
  }

  /** Results recorded by a poll over earlier recorded results are recorded too. */
  lemma PollKeepsRecords(before: map<int, ScanResult>, after: map<int, ScanResult>,
                         reaped: set<int>, timedOut: set<int>, rules: Rules, net: Network)
    requires after.Keys == before.Keys + reaped + timedOut
    requires forall p :: p in reaped + timedOut ==> !LaunchFails(rules, net, p)
    requires forall p :: p in timedOut ==> after[p] == Filtered
    requires forall p :: p in reaped && p !in timedOut ==> Verdict(rules, net, p) == Success(after[p])
    requires forall p :: p in after && p !in reaped + timedOut ==> after[p] == before[p]
    ensures AllRecorded(rules, net, before) ==> AllRecorded(rules, net, after)
  {
  }

  /** `poll` on each chunk, then on its reversal. */
  ghost function Doubled(chunks: seq<seq<int>>): seq<seq<int>> {
    if chunks == [] then []
    else
      var last := chunks[|chunks| - 1];
      Doubled(chunks[..|chunks| - 1]) + [last, ReversePortChunk(last)]
  }

  /** The ports of all the chunks. */
  ghost function Covered(chunks: seq<seq<int>>): set<int> {
    if chunks == [] then {} else Covered(chunks[..|chunks| - 1]) + Elems(chunks[|chunks| - 1])
  }

  /**
   * Each chunk is non-empty, holds ports of `all` only, and shares none with
   * the chunks before it.
   */
  ghost predicate FreshChunks(chunks: seq<seq<int>>, all: set<int>) {
    forall i :: 0 <= i < |chunks| ==>
      chunks[i] != [] && Elems(chunks[i]) <= all && Elems(chunks[i]) !! Covered(chunks[..i])
  }

  /**
   * A scan that raised polled every chunk but the last twice, and the last
   * once or twice.
   */
  ghost predicate PolledUpToLast(log: seq<seq<int>>, start: seq<seq<int>>, chunks: seq<seq<int>>)
    requires chunks != []
  {
    var last := chunks[|chunks| - 1];
    || log == start + Doubled(chunks)
    || log == start + Doubled(chunks[..|chunks| - 1]) + [last]
  }

  lemma PolledOnFailure(log: seq<seq<int>>, before: seq<seq<int>>, start: seq<seq<int>>, chunks: seq<seq<int>>)
    requires chunks != []
    requires before == start + Doubled(chunks[..|chunks| - 1])
    requires var last := chunks[|chunks| - 1];
      log == before + [last] || log == before + [last, ReversePortChunk(last)]
    ensures PolledUpToLast(log, start, chunks)
  {
  }

  lemma PolledBoth(log: seq<seq<int>>, before: seq<seq<int>>, start: seq<seq<int>>, chunks: seq<seq<int>>)
    requires chunks != []
    requires before == start + Doubled(chunks[..|chunks| - 1])
    requires var last := chunks[|chunks| - 1]; log == before + [last, ReversePortChunk(last)]
    ensures log == start + Doubled(chunks)
  {
    var last := chunks[|chunks| - 1];
    AppendAssoc(start, Doubled(chunks[..|chunks| - 1]), [last, ReversePortChunk(last)]);
  }

  lemma AppendAssoc(a: seq<seq<int>>, b: seq<seq<int>>, c: seq<seq<int>>)
    ensures a + (b + c) == (a + b) + c
  {
  }

  /** Drawing one more fresh chunk. */
  lemma ChunksExtend(chunks: seq<seq<int>>, c: seq<int>, all: set<int>)
    requires FreshChunks(chunks, all)
    requires c != [] && Elems(c) <= all && Elems(c) !! Covered(chunks)
    ensures FreshChunks(chunks + [c], all)
    ensures Covered(chunks + [c]) == Covered(chunks) + Elems(c)
    ensures Doubled(chunks + [c]) == Doubled(chunks) + [c, ReversePortChunk(c)]
  {
    var cs := chunks + [c];
    assert cs[..|cs| - 1] == chunks;
    forall i | 0 <= i < |cs| ensures cs[i] != [] && Elems(cs[i]) <= all && Elems(cs[i]) !! Covered(cs[..i]) {
      if i < |chunks| {
        assert cs[..i] == chunks[..i];
      }
    }
  }

  /** A new package chunker over the port list, and its first chunk. */
  method StartChunker(portList: seq<int>) returns (chunker: Chunker.PortChunker, chunk: Option<seq<int>>)
    ensures fresh(chunker) && chunker.Valid()
    ensures chunker.validated == ScannedPorts(Package, portList)
    ensures chunker.drawn <= chunker.validated
    ensures chunk.None? ==> chunker.drawn == chunker.validated == {}
    ensures chunk.Some? ==> chunker.drawn == Elems(chunk.value) && chunk.value != []
  {
    chunker := new Chunker.PortChunker(portList);
    chunk := NextChunk(chunker);
  }

  /**
   * `get_chunk()` with the default bounds 10 and 20, as `run` calls it: the
   * bounds are valid and the lower one is not 0, so the call never raises
   * and never returns an empty chunk, and the loop `while port_chunk` runs
   * exactly while a chunk comes back.
   */
  method NextChunk(chunker: Chunker.PortChunker) returns (chunk: Option<seq<int>>)
    requires chunker.Valid()
    modifies chunker
    ensures chunker.Valid() && chunker.drawn <= chunker.validated
    ensures chunk.None? ==> chunker.drawn == chunker.validated && chunker.drawn == old(chunker.drawn)
    ensures chunk.None? ==> chunker.Remaining() == {}
    ensures chunk.Some? ==>
      && chunk.value != []
      && Elems(chunk.value) !! old(chunker.drawn)
      && chunker.drawn == old(chunker.drawn) + Elems(chunk.value)
      && |chunker.Remaining()| < |old(chunker.Remaining())|
  {
    var r := chunker.GetChunk(Chunker.ChunkSizeLowerLimit, Chunker.ChunkSizeUpperLimit);
    chunk := r.value;
    if chunk.Some? {
      assert chunk.value[0] in Elems(chunk.value);
      ShrinkingSet(old(chunker.Remaining()), Elems(chunk.value));
    }
  }

  /** A new prototype chunker over the port list, and its first chunk. */
  method StartPrototypeChunker(portList: seq<int>)
    returns (chunker: PrototypeChunker.PortChunker, chunk: Option<seq<int>>)
    ensures fresh(chunker) && chunker.Valid()
    ensures chunker.ports == ScannedPorts(Prototype, portList)
    ensures chunker.drawn <= chunker.ports
    ensures chunk.None? ==> chunker.drawn == chunker.ports == {}
    ensures chunk.Some? ==> chunker.drawn == Elems(chunk.value) && chunk.value != []
  {
    chunker := new PrototypeChunker.PortChunker(portList);
    chunk := NextPrototypeChunk(chunker);
  }

  /** The prototype's `get_chunk()` with the same default bounds. */
  method NextPrototypeChunk(chunker: PrototypeChunker.PortChunker) returns (chunk: Option<seq<int>>)
    requires chunker.Valid()
    modifies chunker
    ensures chunker.Valid() && chunker.drawn <= chunker.ports
    ensures chunk.None? ==> chunker.drawn == chunker.ports && chunker.drawn == old(chunker.drawn)
    ensures chunk.None? ==> chunker.Remaining() == {}
    ensures chunk.Some? ==>
      && chunk.value != []
      && Elems(chunk.value) !! old(chunker.drawn)
      && chunker.drawn == old(chunker.drawn) + Elems(chunk.value)
      && |chunker.Remaining()| < |old(chunker.Remaining())|
  {
    var r := chunker.GetChunk(Chunker.ChunkSizeLowerLimit, Chunker.ChunkSizeUpperLimit);
    chunk := r.value;
    if chunk.Some? {
      assert chunk.value[0] in Elems(chunk.value);
      ShrinkingSet(old(chunker.Remaining()), Elems(chunk.value));
    }
  }
}
