/**
 The evolution strategy's individuals (`ESSolution`) and the population
 operations that do not draw random numbers: step-size bookkeeping, the
 fitness order of `CompareTo`, sorting a population by it, and survivor
 selection.
 */
module Population {
  import opened Values
  import opened Scalar
  import opened Fitness

  /** An individual: a model, one step size (standard deviation) per variable,
      and the fitness last recorded for it. */
  datatype Candidate = Candidate(model: Model, stdDevs: seq<real>, fitness: Score)

  /** `SetStdDev`: step sizes are stored as magnitudes. */
  function SetStdDev(c: Candidate, i: nat, v: real): (r: Candidate)
    requires i < |c.stdDevs|
    ensures r.model == c.model && r.fitness == c.fitness && |r.stdDevs| == |c.stdDevs|
    ensures r.stdDevs[i] >= 0.0 && (r.stdDevs[i] == v || r.stdDevs[i] == -v)
    ensures forall j :: 0 <= j < |c.stdDevs| && j != i ==> r.stdDevs[j] == c.stdDevs[j]
  {
    c.(stdDevs := c.stdDevs[i := Abs(v)])
  }

  /** A new individual around `m` after `Initialize`: every step size is one,
      and the fitness is the sentinel until the individual is evaluated. */
  function Initialized(m: Model, n: nat): (r: Candidate)
    ensures r.model == m && |r.stdDevs| == n && r.fitness == Infeasible
    ensures forall i :: 0 <= i < n ==> r.stdDevs[i] == 1.0
  {
    Candidate(m, seq(n, _ => 1.0), Infeasible)
  }

  /** Well-formed for `n` variables of the given layouts: a conforming model
      and a non-negative step size per variable. */
  predicate Shaped(layouts: seq<Layout>, c: Candidate)
  {
    Conforms(layouts, c.model)
    && |c.stdDevs| == |layouts|
    && forall i :: 0 <= i < |c.stdDevs| ==> c.stdDevs[i] >= 0.0
  }

  // ---------------------------------------------------------------------------
  // The fitness order.

  /** `CompareTo`: 1 when `a` is less fit (a larger fitness), -1 when it is
      fitter, 0 on equal fitness. */
  function CompareTo(a: Candidate, b: Candidate): (r: int)
    ensures r == -1 || r == 0 || r == 1
    ensures r < 0 <==> Less(a.fitness, b.fitness)
    ensures r > 0 <==> Less(b.fitness, a.fitness)
  {
    if Less(b.fitness, a.fitness) then 1
    else if Less(a.fitness, b.fitness) then -1
    else 0
  }

  /** `a` may precede `b` in a population sorted by `CompareTo`. */
  predicate NotWorse(a: Candidate, b: Candidate)
  {
    CompareTo(a, b) <= 0
  }

  /** `CompareTo` is a total preorder, so sorting by it is meaningful:
      it is antisymmetric in sign, total, and transitive. */
  lemma CompareToIsTotalPreorder(a: Candidate, b: Candidate, c: Candidate)
    ensures CompareTo(a, b) == -CompareTo(b, a)
    ensures NotWorse(a, b) || NotWorse(b, a)
    ensures NotWorse(a, b) && NotWorse(b, c) ==> NotWorse(a, c)
    ensures CompareTo(a, b) == 0 <==> a.fitness == b.fitness
  {
  }

  predicate SortedByFitness(s: seq<Candidate>)
  {
    forall i, j :: 0 <= i < j < |s| ==> NotWorse(s[i], s[j])
  }

  /** Inserts `c` before the first element it is not worse than. */
  function Insert(c: Candidate, s: seq<Candidate>): (r: seq<Candidate>)
    requires SortedByFitness(s)
    ensures SortedByFitness(r)
    ensures multiset(r) == multiset(s) + multiset{c}
    decreases |s|
  {
    if |s| == 0 then [c]
    else if NotWorse(c, s[0]) then
      CompareToIsTotalPreorder(c, s[0], s[0]);
      [c] + s
    else
      var rest := Insert(c, s[1..]);
      assert s == [s[0]] + s[1..];
      InsertHead(c, s, rest);
      [s[0]] + rest
  }

  /** The head of a sorted sequence that `c` is worse than may precede `c`
      inserted into the tail. */
  lemma InsertHead(c: Candidate, s: seq<Candidate>, rest: seq<Candidate>)
    requires |s| > 0 && SortedByFitness(s) && !NotWorse(c, s[0])
    requires SortedByFitness(rest) && multiset(rest) == multiset(s[1..]) + multiset{c}
    ensures SortedByFitness([s[0]] + rest)
  {
    forall j | 0 <= j < |rest|
      ensures NotWorse(s[0], rest[j])
    {
      assert rest[j] in multiset(rest);
      if rest[j] != c {
        assert rest[j] in multiset(s[1..]);
        var k :| 0 <= k < |s[1..]| && s[1..][k] == rest[j];
        assert s[k + 1] == rest[j];
      }
    }
  }

  /** The population sorted by fitness, fittest first (`List.Sort`). */
  function SortByFitness(s: seq<Candidate>): (r: seq<Candidate>)
    ensures SortedByFitness(r)
    ensures multiset(r) == multiset(s)
    ensures |r| == |s|
    decreases |s|
  {
    if |s| == 0 then []
    else
      assert s == [s[0]] + s[1..];
      Insert(s[0], SortByFitness(s[1..]))
  }

  // ---------------------------------------------------------------------------
  // Survivor selection.

  function Min(a: nat, b: nat): nat
  {
    if a <= b then a else b
  }

  /** The pool survivors are chosen from: the offspring, followed by copies
      of the parents unless only offspring may survive. */
  function Pool(parents: seq<Candidate>, offspring: seq<Candidate>, offspringOnly: bool): seq<Candidate>
  {
    if offspringOnly then offspring else offspring + parents
  }

  /** Survivor selection: the pool is sorted and its first `|parents|`
      members replace the parents; when the pool is smaller, the remaining
      parents stay. */
  function Select(parents: seq<Candidate>, offspring: seq<Candidate>, offspringOnly: bool): (r: seq<Candidate>)
    ensures |r| == |parents|
    ensures var pool := Pool(parents, offspring, offspringOnly);
      var k := Min(|parents|, |pool|);
      && multiset(r[..k]) <= multiset(pool)
      && r[k..] == parents[k..]
      && SortedByFitness(r[..k])
  {
    var pool := Pool(parents, offspring, offspringOnly);
    var sorted := SortByFitness(pool);
    var k := Min(|parents|, |pool|);
    PrefixOfSorted(sorted, k);
    var r := sorted[..k] + parents[k..];
    assert r[..k] == sorted[..k];
    r
  }

  /** A prefix of a sorted sequence is sorted and drawn from it. */
  lemma PrefixOfSorted(s: seq<Candidate>, k: nat)
    requires k <= |s| && SortedByFitness(s)
    ensures SortedByFitness(s[..k])
    ensures multiset(s[..k]) <= multiset(s)
  {
    assert s == s[..k] + s[k..];
    assert multiset(s) == multiset(s[..k]) + multiset(s[k..]);
  }

  /** The survivors are the fittest of the pool: no member of the pool after
      the survivors in its sorted order is fitter than any survivor. */
  lemma SelectKeepsFittest(parents: seq<Candidate>, offspring: seq<Candidate>, offspringOnly: bool,
                           i: nat, j: nat)
    requires i < Min(|parents|, |Pool(parents, offspring, offspringOnly)|) <= j
    requires j < |Pool(parents, offspring, offspringOnly)|
    ensures NotWorse(Select(parents, offspring, offspringOnly)[i],
                     SortByFitness(Pool(parents, offspring, offspringOnly))[j])
  {
    var pool := Pool(parents, offspring, offspringOnly);
    var k := Min(|parents|, |pool|);
    var r := Select(parents, offspring, offspringOnly);
    assert r[..k] == SortByFitness(pool)[..k];
    assert r[i] == SortByFitness(pool)[i];
  }

  /** The pool splits into the survivors and the rest of its sorted order:
      nothing is lost or duplicated by selection. */
  lemma SelectSplitsPool(parents: seq<Candidate>, offspring: seq<Candidate>, offspringOnly: bool)
    ensures var pool := Pool(parents, offspring, offspringOnly);
      var k := Min(|parents|, |pool|);
      multiset(pool) == multiset(Select(parents, offspring, offspringOnly)[..k]) + multiset(SortByFitness(pool)[k..])
  {
    var pool := Pool(parents, offspring, offspringOnly);
    var sorted := SortByFitness(pool);
    var k := Min(|parents|, |pool|);
    assert Select(parents, offspring, offspringOnly)[..k] == sorted[..k];
    assert multiset(sorted) == multiset(pool);
    assert sorted == sorted[..k] + sorted[k..];
    assert multiset(sorted) == multiset(sorted[..k]) + multiset(sorted[k..]);
  }

  /** Every survivor is a parent or a child; when only children may survive,
      the first `|offspring|` survivors are children. */
  lemma SurvivorFromPool(parents: seq<Candidate>, offspring: seq<Candidate>, offspringOnly: bool, k: nat)
    requires k < |parents|
    ensures Select(parents, offspring, offspringOnly)[k] in parents + offspring
    ensures offspringOnly && k < |offspring| ==> Select(parents, offspring, offspringOnly)[k] in offspring
  {
    var pool := Pool(parents, offspring, offspringOnly);
    var r := Select(parents, offspring, offspringOnly);
    var m := Min(|parents|, |pool|);
    if k < m {
      assert r[k] in multiset(r[..m]);
      assert r[k] in multiset(pool);
    } else {
      assert r[k] == r[m..][k - m] == parents[k];
    }
  }

  /** With the parents in the pool (plus selection), the fittest survivor is
      at least as fit as every parent and every offspring: the best fitness
      of the population never gets worse. */
  lemma PlusSelectionIsElitist(parents: seq<Candidate>, offspring: seq<Candidate>)
    requires 0 < |parents|
    ensures var r := Select(parents, offspring, false);
      && (forall p :: p in parents ==> NotWorse(r[0], p))
      && (forall o :: o in offspring ==> NotWorse(r[0], o))
  {
    var pool := Pool(parents, offspring, false);
    var sorted := SortByFitness(pool);
    var r := Select(parents, offspring, false);
    assert r[0] == sorted[0];
    forall x | x in pool
      ensures NotWorse(r[0], x)
    {
      assert x in multiset(sorted);
      var j :| 0 <= j < |sorted| && sorted[j] == x;
      if j == 0 {
        CompareToIsTotalPreorder(x, x, x);
      }
    }
  }
}
