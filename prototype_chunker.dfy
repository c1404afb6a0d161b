/**
 * The chunker of the prototype test_select.py. It splits the ports the same
 * way as the package's chunker but does not validate them, asks for only
 * lowerBound / 2 second-class ports per mixed chunk, and never checks its
 * bounds: a negative size reaches random.sample and an empty range reaches
 * random.randint, and both raise ValueError.
 */
module PrototypeChunker {
  import opened Wrappers
  import opened Sampling
  import Chunker

  /** random.randint: ValueError when the range is empty. */
  method RandomChunkSize(lowerBound: int, upperBound: int) returns (r: Result<int, RandomError>)
    ensures r.Failure? <==> lowerBound > upperBound
    ensures r.Success? ==> lowerBound <= r.value <= upperBound
  {
    r := RandInt(lowerBound, upperBound);
  }

  /**
   * Samples min(size, |pool|) ports and removes them from the pool. A
   * negative size makes random.sample raise ValueError before anything is
   * removed.
   */
  method DrawFromPool(portPool: set<int>, size: int)
    returns (r: Result<seq<int>, RandomError>, newPool: set<int>)
    ensures r.Failure? <==> size < 0
    ensures r.Failure? ==> newPool == portPool
    ensures r.Success? ==>
      && |r.value| == Chunker.Min(size, |portPool|)
      && Distinct(r.value) && Elems(r.value) <= portPool
      && newPool == portPool - Elems(r.value)
  {
    var n := Chunker.Min(size, |portPool|);
    var sample := Sample(portPool, n);
    if sample.Failure? {
      return Failure(sample.error), portPool;
    }
    var err;
    newPool, err := Chunker.RemovePortsFromPool(sample.value, portPool);
    assert err.None?;
    r := Success(sample.value);
  }

  /**
   * The prototype's mixed chunk: min(lowerBound / 2, |second|) second-class
   * ports, topped up from the main pool while that leaves room below
   * lowerBound, shuffled together.
   */
  method DrawMixedChunk(second: set<int>, main: set<int>, lowerBound: int)
    returns (r: Result<seq<int>, RandomError>, newSecond: set<int>, newMain: set<int>)
    requires second !! main
    ensures r.Failure? <==> lowerBound < 0
    ensures r.Failure? ==> newSecond == second && newMain == main
    ensures r.Success? ==>
      var c := r.value;
      && Distinct(c) && Elems(c) <= second + main
      && newSecond == second - Elems(c) && newMain == main - Elems(c)
      && Chunker.MixedChunkOf(c, second, main, lowerBound / 2, lowerBound)
  {
    var fromSecond;
    fromSecond, newSecond := DrawFromPool(second, lowerBound / 2);
    newMain := main;
    if fromSecond.Failure? {
      return Failure(fromSecond.error), second, main;
    }
    var drawing := fromSecond.value;
    ghost var fromMain: seq<int> := [];
    var remainingSize := lowerBound - |drawing|;
    if remainingSize > 0 {
      var extra;
      extra, newMain := DrawFromPool(main, remainingSize);
      fromMain := extra.value;
      drawing := Shuffle(drawing + extra.value);
    } else {
      assert drawing == fromSecond.value + fromMain;
    }
    Chunker.MixedDrawing(fromSecond.value, fromMain, drawing, second, main, newSecond, newMain);
    r := Success(drawing);
  }

  /**
   * The prototype's tiered drawing on the three pools as values. Whatever
   * raises leaves every pool as it was.
   */
  method DrawChunk(first: set<int>, second: set<int>, main: set<int>, lowerBound: int, upperBound: int)
    returns (r: Result<Option<seq<int>>, RandomError>, first': set<int>, second': set<int>, main': set<int>)
    requires first !! second && first !! main && second !! main
    ensures r.Failure? ==> first' == first && second' == second && main' == main
    ensures r == Success(None) <==> first == {} && second == {} && main == {}
    ensures r == Success(None) ==> first' == first && second' == second && main' == main
    ensures r.Success? && r.value.Some? ==>
      var c := r.value.value;
      && Distinct(c) && Elems(c) <= first + second + main
      && first' == first - Elems(c) && second' == second - Elems(c) && main' == main - Elems(c)
      && (c == [] ==> lowerBound <= 1)
    ensures first != {} ==>
      (r.Failure? <==> lowerBound < 0)
      && (r.Success? ==> r.value.Some? && Elems(r.value.value) <= first
                         && |r.value.value| == Chunker.Min(lowerBound, |first|))
    ensures first == {} && second != {} ==>
      (r.Failure? <==> lowerBound < 0)
      && (r.Success? ==>
            r.value.Some? && Chunker.MixedChunkOf(r.value.value, second, main, lowerBound / 2, lowerBound))
    ensures first == {} && second == {} && main != {} ==>
      (lowerBound > upperBound ==> r.Failure?)
      && (0 <= lowerBound <= upperBound ==> r.Success?)
      && (r.Success? ==>
            r.value.Some? &&
            var c := r.value.value;
            && Elems(c) <= main
            && exists k :: lowerBound <= k <= upperBound && |c| == Chunker.Min(k, |main|))
  {
    first', second', main' := first, second, main;
    if !Chunker.PortPoolIsEmpty(first) {
      var drawing;
      drawing, first' := DrawFromPool(first, lowerBound);
      if drawing.Failure? {
        return Failure(drawing.error), first, second, main;
      }
      Chunker.SideDrawLeavesPool(drawing.value, first, second);
      Chunker.SideDrawLeavesPool(drawing.value, first, main);
      r := Success(Some(drawing.value));
    } else if !Chunker.PortPoolIsEmpty(second) {
      var drawing;
      drawing, second', main' := DrawMixedChunk(second, main, lowerBound);
      if drawing.Failure? {
        return Failure(drawing.error), first, second, main;
      }
      Chunker.SideDrawLeavesPool(drawing.value, second + main, first);
      if drawing.value == [] {
        EmptyMixedChunkBound(drawing.value, second, main, lowerBound);
      }
      r := Success(Some(drawing.value));
    } else if !Chunker.PortPoolIsEmpty(main) {
      var desiredChunkSize := RandomChunkSize(lowerBound, upperBound);
      if desiredChunkSize.Failure? {
        return Failure(desiredChunkSize.error), first, second, main;
      }
      var drawing;
      drawing, main' := DrawFromPool(main, desiredChunkSize.value);
      if drawing.Failure? {
        return Failure(drawing.error), first, second, main;
      }
      assert |drawing.value| == Chunker.Min(desiredChunkSize.value, |main|);
      r := Success(Some(drawing.value));
    } else {
      r := Success(None);
    }
  }

  /** An empty mixed chunk means the lower bound was 0 or 1. */
  lemma EmptyMixedChunkBound(c: seq<int>, second: set<int>, main: set<int>, lowerBound: int)
    requires second != {} && lowerBound >= 0 && c == []
    requires Chunker.MixedChunkOf(c, second, main, lowerBound / 2, lowerBound)
    ensures lowerBound <= 1
  {
    assert Chunker.Min(lowerBound / 2, |second|) == 0;
  }

  class PortChunker {
    var firstClassPool: set<int>
    var secondClassPool: set<int>
    var mainPool: set<int>
    /** The ports given at construction, without any range check. */
    ghost const ports: set<int>
    /** Every port handed out so far by this chunker. */
    ghost var drawn: set<int>

    ghost predicate Valid()
      reads this
    {
      Chunker.Partitioned(firstClassPool, secondClassPool, mainPool, drawn, ports)
    }

    ghost function Remaining(): set<int>
      reads this
    {
      firstClassPool + secondClassPool + mainPool
    }

    constructor (portList: seq<int>)
      ensures Valid() && drawn == {}
      ensures ports == Elems(portList)
      ensures firstClassPool == ports * Chunker.FirstClassPorts
      ensures secondClassPool == (ports - Chunker.FirstClassPorts) * Chunker.SecondClassPorts
      ensures mainPool == ports - Chunker.FirstClassPorts - Chunker.SecondClassPorts
    {
      var portPool := Elems(portList);
      assert Chunker.FirstClassPorts !! Chunker.SecondClassPorts;
      ports := portPool;
      var first := Chunker.PortSetIntersection(portPool, Chunker.FirstClassPorts);
      portPool := portPool - first;
      var second := Chunker.PortSetIntersection(portPool, Chunker.SecondClassPorts);
      portPool := portPool - second;
      firstClassPool, secondClassPool, mainPool := first, second, portPool;
      drawn := {};
    }

    /**
     * The next chunk, or None (the prototype falls off the end of the method)
     * once every pool is empty; ValueError when the bounds reach random.sample
     * or random.randint out of their range, with nothing drawn.
     */
    method GetChunk(lowerBound: int, upperBound: int)
      returns (r: Result<Option<seq<int>>, RandomError>)
      requires Valid()
      modifies this
      ensures Valid()
      ensures r.Failure? || r.value.None? ==> Remaining() == old(Remaining()) && drawn == old(drawn)
      ensures r == Success(None) <==> old(Remaining()) == {}
      ensures r == Success(None) ==> drawn == ports
      ensures r.Success? && r.value.Some? ==>
        var c := r.value.value;
        && Distinct(c) && Elems(c) <= old(Remaining()) && Elems(c) !! old(drawn)
        && drawn == old(drawn) + Elems(c)
        && firstClassPool == old(firstClassPool) - Elems(c)
        && secondClassPool == old(secondClassPool) - Elems(c)
        && mainPool == old(mainPool) - Elems(c)
        && (c == [] ==> lowerBound <= 1)
      ensures old(Remaining()) != {} && 0 <= lowerBound <= upperBound ==> r.Success?
      ensures old(Remaining()) != {} && lowerBound < 0 && old(firstClassPool + secondClassPool) != {} ==> r.Failure?
    {
      var drawing;
      drawing, firstClassPool, secondClassPool, mainPool :=
        DrawChunk(firstClassPool, secondClassPool, mainPool, lowerBound, upperBound);
      if drawing.Success? && drawing.value.Some? {
        Chunker.DrawKeepsPartition(old(firstClassPool), old(secondClassPool), old(mainPool), drawn, ports,
                                   Elems(drawing.value.value), firstClassPool, secondClassPool, mainPool);
        drawn := drawn + Elems(drawing.value.value);
      }
      r := drawing;
    }
  }

  /**
   * With lowerBound 1 and an empty main pool the prototype asks for
   * 1 / 2 == 0 second-class ports, so its mixed chunk is empty however many
   * second-class ports are left. The prototype's own run always asks with
   * the defaults 10 and 20, so only a caller passing lower bound 1 would see
   * its chunking stop with those ports undrawn.
   */
  lemma MixedChunkMayBeEmpty(c: seq<int>, second: set<int>)
    requires Chunker.MixedChunkOf(c, second, {}, 1 / 2, 1)
    ensures c == []
  {
  }
}
