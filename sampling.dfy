/**
 * The parts of Python's `random` module that the chunker uses, and the
 * `list(set(...))` idiom, as nondeterministic choices: every contract below
 * holds for every choice, so nothing depends on a particular random source.
 */
module Sampling {
  import opened Wrappers

  /** The ValueError raised by `random.sample` and `random.randint`. */
  datatype RandomError = ValueError

  predicate Distinct(s: seq<int>) {
    forall i, j :: 0 <= i < j < |s| ==> s[i] != s[j]
  }

  /** The set of the elements of a sequence (Python's `set(s)`). */
  function Elems(s: seq<int>): set<int> {
    set x | x in s
  }

  /** A sequence without repetitions has as many elements as its set. */
  lemma {:induction false} DistinctCardinality(s: seq<int>)
    requires Distinct(s)
    ensures |Elems(s)| == |s|
  {
    if s != [] {
      var last := |s| - 1;
      DistinctCardinality(s[..last]);
      assert s == s[..last] + [s[last]];
      assert Elems(s) == Elems(s[..last]) + {s[last]};
      assert s[last] !in Elems(s[..last]) by {
        forall i | 0 <= i < last ensures s[..last][i] != s[last] {
          assert s[i] != s[last];
        }
      }
    }
  }

  /** A sequence that repeats nothing contributes at most one of each value. */
  lemma {:induction false} DistinctMultiplicity(s: seq<int>, x: int)
    requires Distinct(s)
    ensures multiset(s)[x] <= 1
  {
    if s != [] {
      var last := |s| - 1;
      assert s == s[..last] + [s[last]];
      DistinctMultiplicity(s[..last], x);
      if x == s[last] {
        assert x !in s[..last] by {
          forall i | 0 <= i < last ensures s[..last][i] != x {
            assert s[i] != s[last];
          }
        }
      }
    }
  }

  /** Reordering a sequence that repeats nothing yields one that repeats nothing. */
  lemma DistinctPermutation(s: seq<int>, t: seq<int>)
    requires Distinct(s) && multiset(t) == multiset(s)
    ensures Distinct(t)
  {
    forall i, j | 0 <= i < j < |t| ensures t[i] != t[j] {
      if t[i] == t[j] {
        var x := t[i];
        assert t == t[..i] + [t[i]] + t[i + 1..j] + [t[j]] + t[j + 1..];
        assert multiset(t)[x] >= 2;
        DistinctMultiplicity(s, x);
      }
    }
  }

  /** A non-empty set has a member (a witness for choosing one with `:|`). */
  lemma NonEmptyHasMember(s: set<int>)
    requires s != {}
    ensures exists x :: x in s
  {
    if forall x :: x !in s {
      assert false;
    }
  }

  /**
   * `list(population)` for a set: every element exactly once, in an order the
   * caller cannot rely on.
   */
  method ListOfSet(population: set<int>) returns (r: seq<int>)
    ensures Distinct(r) && Elems(r) == population && |r| == |population|
  {
    r := [];
    var rest := population;
    while rest != {}
      invariant Distinct(r)
      invariant Elems(r) !! rest && Elems(r) + rest == population
      invariant |r| + |rest| == |population|
      decreases rest
    {
      NonEmptyHasMember(rest);
      var p :| p in rest;
      assert Elems(r + [p]) == Elems(r) + {p};
      r := r + [p];
      rest := rest - {p};
    }
  }

  /**
   * `random.sample(population, k)`: k distinct members of the population, or
   * ValueError when k is negative or larger than the population.
   */
  method Sample(population: set<int>, k: int) returns (r: Result<seq<int>, RandomError>)
    ensures r.Failure? <==> k < 0 || k > |population|
    ensures r.Success? ==> |r.value| == k && Distinct(r.value) && Elems(r.value) <= population
  {
    if k < 0 || k > |population| {
      return Failure(ValueError);
    }
    var all := ListOfSet(population);
    r := Success(all[..k]);
  }

  /** `random.shuffle(s)`: some reordering of s. */
  method Shuffle(s: seq<int>) returns (t: seq<int>)
    ensures multiset(t) == multiset(s)
  {
    t := [];
    var rest := s;
    while rest != []
      invariant multiset(t) + multiset(rest) == multiset(s)
      decreases |rest|
    {
      var i :| 0 <= i < |rest|;
      assert rest == rest[..i] + [rest[i]] + rest[i + 1..];
      t := t + [rest[i]];
      rest := rest[..i] + rest[i + 1..];
    }
  }

  /** `random.randint(a, b)`: some k with a <= k <= b, or ValueError when a > b. */
  method RandInt(a: int, b: int) returns (r: Result<int, RandomError>)
    ensures r.Failure? <==> a > b
    ensures r.Success? ==> a <= r.value <= b
  {
    if a > b {
      return Failure(ValueError);
    }
    var k :| a <= k <= b;
    r := Success(k);
  }
}
