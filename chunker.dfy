/**
 * The port chunker of port_scanner/chunker.py: it validates a list of ports,
 * splits it into first-class, second-class and main pools, and hands out
 * chunks in strict priority order, each drawn port leaving its pool for good.
 */
module Chunker {
  import opened Wrappers
  import opened Sampling
  import Values

  const ChunkSizeLowerLimit := 10
  const ChunkSizeUpperLimit := 20

  const LowestPortNumber := 1
  /** The source's upper bound; the largest TCP port would be 65535. */
  const HighestPortNumber := 65335

  const FirstClassPorts: set<int> := {80, 443}
  const SecondClassPorts: set<int> :=
    {139, 53, 23, 111, 995, 22, 993, 143, 135, 110, 445, 587, 25, 199, 113, 21, 256, 554}

  datatype ChunkBoundsError = ChunkBoundsError(lower: int, upper: int)

  datatype RemovalError = RemovalError(port: int)

  predicate Between(lower: int, size: int, upper: int) {
    lower <= size <= upper
  }

  /**
   * Chunk-size bounds are usable when some size lies between them and none
   * of those sizes is negative.
   */
  function BoundsAreValid(lower: int, upper: int): (r: bool)
    ensures r <==> lower >= 0 && exists size :: Between(lower, size, upper)
  {
    assert lower <= upper ==> Between(lower, lower, upper);
    lower >= 0 && lower <= upper
  }

  /** The ports two pools share. */
  function PortSetIntersection(portSet1: set<int>, portSet2: set<int>): (r: set<int>)
    ensures forall p :: p in r <==> p in portSet1 && p in portSet2
    ensures r <= portSet1 && r <= portSet2
  {
    portSet1 * portSet2
  }

  /**
   * Valid ports are TCP ports other than 0, so connect never overflows on
   * them; the ports 65336 to 65535 are TCP ports that are nonetheless refused.
   */
  function PortIsValid(port: int): (r: bool)
    ensures r ==> Values.IsTcpPort(port) && port != 0
    ensures HighestPortNumber < port <= 65535 ==> !r
  {
    port >= LowestPortNumber && port <= HighestPortNumber
  }

  /** A pool is empty exactly when it holds no port. */
  function PortPoolIsEmpty(portPool: set<int>): (r: bool)
    ensures r <==> portPool == {}
    ensures !r ==> exists p :: p in portPool
  {
    if |portPool| == 0 then true else NonEmptyHasMember(portPool); false
  }

  function Min(a: int, b: int): int {
    if a <= b then a else b
  }

  /** The ports of a list that lie in the valid range, duplicates collapsed. */
  function ValidPorts(portList: seq<int>): set<int> {
    set p | p in portList && PortIsValid(p)
  }

  /** How many second-class ports a mixed chunk asks for (floor division). */
  function SecondClassDrawSize(lowerBound: int): int {
    lowerBound / 2 + 1
  }

  /**
   * What a mixed chunk holds: `ask` second-class ports as far as the pool
   * lasts, topped up from the main pool while that stays below lowerBound.
   */
  ghost predicate MixedChunkOf(c: seq<int>, second: set<int>, main: set<int>, ask: int, lowerBound: int) {
    var fromSecond := Min(ask, |second|);
    var fromMain := if lowerBound - fromSecond > 0 then Min(lowerBound - fromSecond, |main|) else 0;
    && |Elems(c) * second| == fromSecond
    && |Elems(c) * main| == fromMain
    && |c| == fromSecond + fromMain
  }

  /**
   * The source's comment says the second-class ports make up at most half of
   * a mixed chunk; whenever the second-class pool can meet the draw size, they
   * make up more than half of it.
   */
  lemma SecondClassPortsExceedHalf(c: seq<int>, second: set<int>, main: set<int>, lowerBound: int)
    requires lowerBound >= 0 && |second| >= SecondClassDrawSize(lowerBound)
    requires MixedChunkOf(c, second, main, SecondClassDrawSize(lowerBound), lowerBound)
    ensures 2 * |Elems(c) * second| > |c|
  {
  }

  /** A mixed chunk always takes at least one second-class port. */
  lemma MixedChunkTakesSecondClassPort(c: seq<int>, second: set<int>, main: set<int>, lowerBound: int)
    requires lowerBound >= 0 && second != {}
    requires MixedChunkOf(c, second, main, SecondClassDrawSize(lowerBound), lowerBound)
    ensures exists p :: p in c && p in second
  {
    assert |Elems(c) * second| >= 1;
    NonEmptyHasMember(Elems(c) * second);
    var p :| p in Elems(c) * second;
    assert p in c && p in second;
  }

  /** A chunk size between the bounds, or ChunkBoundsError. */
  method RandomChunkSize(lowerBound: int, upperBound: int) returns (r: Result<int, ChunkBoundsError>)
    ensures r.Failure? <==> !BoundsAreValid(lowerBound, upperBound)
    ensures r.Failure? ==> r.error == ChunkBoundsError(lowerBound, upperBound)
    ensures r.Success? ==> 0 <= lowerBound <= r.value <= upperBound
  {
    if !BoundsAreValid(lowerBound, upperBound) {
      return Failure(ChunkBoundsError(lowerBound, upperBound));
    }
    var k := RandInt(lowerBound, upperBound);
    r := Success(k.value);
  }

  /** Keeps the ports in range, dropping the others silently. */
  method ValidatePortList(portList: seq<int>) returns (portPool: set<int>)
    ensures portPool == ValidPorts(portList)
  {
    portPool := {};
    for i := 0 to |portList|
      invariant forall p :: p in portPool <==> p in portList[..i] && PortIsValid(p)
    {
      assert portList[..i + 1] == portList[..i] + [portList[i]];
      if PortIsValid(portList[i]) {
        portPool := portPool + {portList[i]};
      }
    }
    assert portList[..|portList|] == portList;
    assert portPool == ValidPorts(portList) by {
      forall p ensures p in portPool <==> p in ValidPorts(portList) {
      }
    }
  }

  /**
   * Removes the ports one after the other. At the first port that is no
   * longer in the pool (absent from the start, or a repeat) it stops with
   * RemovalError; the removals made before it stay applied.
   */
  method RemovePortsFromPool(portsToRemove: seq<int>, portPool: set<int>)
    returns (newPool: set<int>, err: Option<RemovalError>)
    ensures err.None? <==> Distinct(portsToRemove) && Elems(portsToRemove) <= portPool
    ensures err.None? ==> newPool == portPool - Elems(portsToRemove)
    ensures err.Some? ==>
      exists i :: 0 <= i < |portsToRemove| && portsToRemove[i] == err.value.port
        && Distinct(portsToRemove[..i]) && Elems(portsToRemove[..i]) <= portPool
        && newPool == portPool - Elems(portsToRemove[..i])
        && portsToRemove[i] !in newPool
  {
    newPool := portPool;
    var i := 0;
    while i < |portsToRemove|
      invariant 0 <= i <= |portsToRemove|
      invariant Distinct(portsToRemove[..i]) && Elems(portsToRemove[..i]) <= portPool
      invariant newPool == portPool - Elems(portsToRemove[..i])
    {
      var port := portsToRemove[i];
      if port !in newPool {
        err := Some(RemovalError(port));
        assert !(Distinct(portsToRemove) && Elems(portsToRemove) <= portPool) by {
          if port in portPool {
            var j :| 0 <= j < i && portsToRemove[..i][j] == port;
            assert portsToRemove[j] == portsToRemove[i];
          } else {
            assert port in Elems(portsToRemove);
          }
        }
        return;
      }
      assert portsToRemove[..i + 1] == portsToRemove[..i] + [port];
      assert Elems(portsToRemove[..i + 1]) == Elems(portsToRemove[..i]) + {port};
      newPool := newPool - {port};
      i := i + 1;
    }
    assert portsToRemove[..i] == portsToRemove;
    err := None;
  }

  /**
   * Takes min(size, |pool|) distinct ports out of the pool (a negative size
   * counts as 0) and returns them with what is left of the pool.
   */
  method DrawFromPool(portPool: set<int>, size: int) returns (drawing: seq<int>, newPool: set<int>)
    ensures |drawing| == if size < 0 then 0 else Min(size, |portPool|)
    ensures Distinct(drawing) && Elems(drawing) <= portPool
    ensures newPool == portPool - Elems(drawing)
  {
    var n := size;
    if n < 0 {
      n := 0;
    }
    n := Min(n, |portPool|);
    var sample := Sample(portPool, n);
    drawing := sample.value;
    var err;
    newPool, err := RemovePortsFromPool(drawing, portPool);
    DistinctCardinality(drawing);
    assert |newPool| == |portPool| - |drawing| by {
      assert portPool == newPool + Elems(drawing);
    }
  }

  /**
   * A drawing of |pool| distinct ports from the pool (what DrawFromPool
   * returns when the size asked for is at least |pool|) is the whole pool.
   */
  lemma {:induction false} FullDrawingDrainsPool(portPool: set<int>, drawing: seq<int>)
    requires Distinct(drawing) && Elems(drawing) <= portPool && |drawing| == |portPool|
    ensures Elems(drawing) == portPool && portPool - Elems(drawing) == {}
  {
    DistinctCardinality(drawing);
    var rest := portPool - Elems(drawing);
    assert |portPool| == |Elems(drawing)| + |rest| by {
      assert portPool == Elems(drawing) + rest;
    }
    assert |rest| == 0;
  }

  /**
   * The three pools and the ports already handed out partition the validated
   * ports: first- and second-class pools hold only their tier's ports, and
   * the main pool holds neither tier's.
   */
  ghost predicate Partitioned(first: set<int>, second: set<int>, main: set<int>,
                              drawn: set<int>, all: set<int>)
  {
    && first <= FirstClassPorts
    && second <= SecondClassPorts
    && main !! FirstClassPorts && main !! SecondClassPorts
    && first !! second
    && first + second + main + drawn == all
    && drawn !! first + second + main
  }

  /** Taking ports out of the pools and recording them as drawn keeps the partition. */
  lemma DrawKeepsPartition(first: set<int>, second: set<int>, main: set<int>,
                           drawn: set<int>, all: set<int>, chunk: set<int>,
                           first': set<int>, second': set<int>, main': set<int>)
    requires Partitioned(first, second, main, drawn, all)
    requires chunk <= first + second + main
    requires first' == first - chunk && second' == second - chunk && main' == main - chunk
    ensures Partitioned(first', second', main', drawn + chunk, all)
  {
  }

  class PortChunker {
    var firstClassPool: set<int>
    var secondClassPool: set<int>
    var mainPool: set<int>
    /** The validated input, fixed at construction. */
    ghost const validated: set<int>
    /** Every port handed out so far by this chunker. */
    ghost var drawn: set<int>

    ghost predicate Valid()
      reads this
    {
      Partitioned(firstClassPool, secondClassPool, mainPool, drawn, validated)
    }

    ghost function Remaining(): set<int>
      reads this
    {
      firstClassPool + secondClassPool + mainPool
    }

    constructor (portList: seq<int>)
      ensures Valid() && drawn == {}
      ensures validated == ValidPorts(portList)
      ensures firstClassPool == validated * FirstClassPorts
      ensures secondClassPool == (validated - FirstClassPorts) * SecondClassPorts
      ensures mainPool == validated - FirstClassPorts - SecondClassPorts
    {
      var portPool := ValidatePortList(portList);
      assert FirstClassPorts !! SecondClassPorts;
      validated := portPool;
      var first := PortSetIntersection(portPool, FirstClassPorts);
      portPool := portPool - first;
      var second := PortSetIntersection(portPool, SecondClassPorts);
      portPool := portPool - second;
      firstClassPool, secondClassPool, mainPool := first, second, portPool;
      drawn := {};
    }

    /**
     * The next chunk: first-class ports alone while any are left; then a mix
     * of second-class ports topped up from the main pool; then a chunk of a
     * random size between the bounds from the main pool; None once every pool
     * is empty.
     */
    method GetChunk(lowerBound: int, upperBound: int)
      returns (r: Result<Option<seq<int>>, ChunkBoundsError>)
      requires Valid()
      modifies this
      ensures Valid()
      ensures r.Failure? <==> !BoundsAreValid(lowerBound, upperBound)
      ensures r.Failure? ==> r.error == ChunkBoundsError(lowerBound, upperBound)
      ensures r.Failure? || r.value.None? ==> Remaining() == old(Remaining()) && drawn == old(drawn)
      ensures r == Success(None) <==> BoundsAreValid(lowerBound, upperBound) && old(Remaining()) == {}
      ensures r == Success(None) ==> drawn == validated
      ensures r.Success? && r.value.Some? ==>
        var c := r.value.value;
        && Distinct(c) && Elems(c) <= old(Remaining()) && Elems(c) !! old(drawn)
        && drawn == old(drawn) + Elems(c)
        && firstClassPool == old(firstClassPool) - Elems(c)
        && secondClassPool == old(secondClassPool) - Elems(c)
        && mainPool == old(mainPool) - Elems(c)
        && (c == [] ==> lowerBound == 0)
      ensures BoundsAreValid(lowerBound, upperBound) && old(firstClassPool) != {} ==>
        r.Success? && r.value.Some? &&
        var c := r.value.value;
        && Elems(c) <= old(firstClassPool)
        && |c| == Min(lowerBound, |old(firstClassPool)|)
      ensures BoundsAreValid(lowerBound, upperBound) && old(firstClassPool) == {}
              && old(secondClassPool) != {} ==>
        r.Success? && r.value.Some? &&
        MixedChunkOf(r.value.value, old(secondClassPool), old(mainPool), SecondClassDrawSize(lowerBound), lowerBound)
      ensures BoundsAreValid(lowerBound, upperBound) && old(firstClassPool) == {}
              && old(secondClassPool) == {} && old(mainPool) != {} ==>
        r.Success? && r.value.Some? &&
        var c := r.value.value;
        && Elems(c) <= old(mainPool)
        && exists k :: lowerBound <= k <= upperBound && |c| == Min(k, |old(mainPool)|)
    {
      if !BoundsAreValid(lowerBound, upperBound) {
        return Failure(ChunkBoundsError(lowerBound, upperBound));
      }
      var drawing;
      drawing, firstClassPool, secondClassPool, mainPool :=
        DrawChunk(firstClassPool, secondClassPool, mainPool, lowerBound, upperBound);
      if drawing.Some? {
        DrawKeepsPartition(old(firstClassPool), old(secondClassPool), old(mainPool), drawn, validated,
                           Elems(drawing.value), firstClassPool, secondClassPool, mainPool);
        drawn := drawn + Elems(drawing.value);
      }
      r := Success(drawing);
    }
  }

  /**
   * The tiered drawing behind GetChunk, on the three pools as values: the
   * first-class pool alone while it lasts, then the mixed second-class chunk,
   * then a chunk of random size from the main pool, and None once all three
   * are empty.
   */
  method DrawChunk(first: set<int>, second: set<int>, main: set<int>, lowerBound: int, upperBound: int)
    returns (drawing: Option<seq<int>>, first': set<int>, second': set<int>, main': set<int>)
    requires BoundsAreValid(lowerBound, upperBound)
    requires first !! second && first !! main && second !! main
    ensures drawing.None? <==> first == {} && second == {} && main == {}
    ensures drawing.None? ==> first' == first && second' == second && main' == main
    ensures drawing.Some? ==>
      var c := drawing.value;
      && Distinct(c) && Elems(c) <= first + second + main
      && first' == first - Elems(c) && second' == second - Elems(c) && main' == main - Elems(c)
      && (c == [] ==> lowerBound == 0)
    ensures first != {} ==>
      drawing.Some? && Elems(drawing.value) <= first && |drawing.value| == Min(lowerBound, |first|)
    ensures first == {} && second != {} ==>
      drawing.Some? && MixedChunkOf(drawing.value, second, main, SecondClassDrawSize(lowerBound), lowerBound)
    ensures first == {} && second == {} && main != {} ==>
      drawing.Some? &&
      var c := drawing.value;
      && Elems(c) <= main
      && exists k :: lowerBound <= k <= upperBound && |c| == Min(k, |main|)
  {
    first', second', main' := first, second, main;
    if !PortPoolIsEmpty(first) {
      // first-class ports get chunks all to themselves
      var c;
      c, first' := DrawFromPool(first, lowerBound);
      SideDrawLeavesPool(c, first, second);
      SideDrawLeavesPool(c, first, main);
      drawing := Some(c);
    } else if !PortPoolIsEmpty(second) {
      // second-class ports come next, mixed with ports from the main pool
      var c;
      c, second', main' := DrawMixedChunk(second, main, lowerBound);
      SideDrawLeavesPool(c, second + main, first);
      drawing := Some(c);
    } else if !PortPoolIsEmpty(main) {
      // only reached once the first- and second-class pools are exhausted
      var desiredChunkSize := RandomChunkSize(lowerBound, upperBound);
      var c;
      c, main' := DrawFromPool(main, desiredChunkSize.value);
      assert |c| == Min(desiredChunkSize.value, |main|);
      drawing := Some(c);
    } else {
      drawing := None;
    }
  }

  /** Drawing from one pool leaves a pool disjoint from it as it was. */
  lemma SideDrawLeavesPool(c: seq<int>, from: set<int>, other: set<int>)
    requires Elems(c) <= from && from !! other
    ensures other - Elems(c) == other
  {
  }

  /**
   * The mixed chunk: min(lowerBound / 2 + 1, |second|) second-class ports and,
   * when that leaves room below lowerBound, as many main-pool ports as fit,
   * shuffled together.
   */
  method DrawMixedChunk(second: set<int>, main: set<int>, lowerBound: int)
    returns (drawing: seq<int>, newSecond: set<int>, newMain: set<int>)
    requires lowerBound >= 0 && second !! main
    ensures Distinct(drawing) && Elems(drawing) <= second + main
    ensures newSecond == second - Elems(drawing) && newMain == main - Elems(drawing)
    ensures MixedChunkOf(drawing, second, main, SecondClassDrawSize(lowerBound), lowerBound)
  {
    drawing, newSecond := DrawFromPool(second, SecondClassDrawSize(lowerBound));
    newMain := main;
    ghost var fromSecond := drawing;
    ghost var fromMain: seq<int> := [];
    var remainingSize := lowerBound - |drawing|;
    if remainingSize > 0 {
      var extra;
      extra, newMain := DrawFromPool(main, remainingSize);
      fromMain := extra;
      drawing := Shuffle(drawing + extra);
    } else {
      assert drawing == fromSecond + fromMain;
    }
    assert |fromSecond| == Min(SecondClassDrawSize(lowerBound), |second|);
    assert |fromMain| == if remainingSize > 0 then Min(remainingSize, |main|) else 0;
    MixedDrawing(fromSecond, fromMain, drawing, second, main, newSecond, newMain);
  }

  /**
   * A second-class drawing and a main-pool drawing, put in any order, repeat
   * nothing, and each is exactly what the result holds of its pool.
   */
  lemma MixedDrawing(fromSecond: seq<int>, fromMain: seq<int>, drawing: seq<int>,
                     second: set<int>, main: set<int>, newSecond: set<int>, newMain: set<int>)
    requires Distinct(fromSecond) && Elems(fromSecond) <= second
    requires Distinct(fromMain) && Elems(fromMain) <= main
    requires second !! main
    requires multiset(drawing) == multiset(fromSecond + fromMain)
    requires newSecond == second - Elems(fromSecond) && newMain == main - Elems(fromMain)
    ensures newSecond == second - Elems(drawing) && newMain == main - Elems(drawing)
    ensures Distinct(drawing)
    ensures Elems(drawing) == Elems(fromSecond) + Elems(fromMain)
    ensures |Elems(drawing) * second| == |fromSecond|
    ensures |Elems(drawing) * main| == |fromMain|
    ensures |drawing| == |fromSecond| + |fromMain|
  {
    var s := fromSecond + fromMain;
    forall i, j | 0 <= i < j < |s| ensures s[i] != s[j] {
      if j < |fromSecond| {
        assert s[i] == fromSecond[i] && s[j] == fromSecond[j];
      } else if i >= |fromSecond| {
        assert s[i] == fromMain[i - |fromSecond|] && s[j] == fromMain[j - |fromSecond|];
      } else {
        assert s[i] in Elems(fromSecond) && s[j] == fromMain[j - |fromSecond|];
        assert s[j] in Elems(fromMain);
      }
    }
    DistinctPermutation(s, drawing);
    assert Elems(drawing) == Elems(fromSecond) + Elems(fromMain) by {
      forall x ensures x in drawing <==> x in s {
        assert x in drawing <==> x in multiset(drawing);
        assert x in s <==> x in multiset(s);
      }
    }
    assert Elems(drawing) * second == Elems(fromSecond);
    assert Elems(drawing) * main == Elems(fromMain);
    assert second - Elems(drawing) == second - Elems(fromSecond);
    assert main - Elems(drawing) == main - Elems(fromMain);
    DistinctCardinality(fromSecond);
    DistinctCardinality(fromMain);
    assert |drawing| == |s| by {
      assert |multiset(drawing)| == |multiset(s)|;
    }
  }
}
