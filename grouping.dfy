/**
 * `slice.linear_group_by(|a, b| key(a) == key(b))`: split a sequence into its
 * maximal runs of ADJACENT elements with equal keys. Equal keys that are not
 * adjacent land in different runs; this is not a partition by key.
 */
module Grouping {

  /**
   * Adds `x` to the runs `rs`: when the element just before it (the last
   * element of the last run) has the same key, `x` extends that run;
   * otherwise it opens a new run.
   */
  function Push<T>(rs: seq<seq<T>>, x: T, key: T -> int): seq<seq<T>>
  {
    if rs != [] && ContinuesRun(rs[|rs| - 1], x, key) then rs[..|rs| - 1] + [rs[|rs| - 1] + [x]]
    else rs + [[x]]
  }

  /** The grouping predicate applied to the adjacent pair (previous element, `x`). */
  predicate ContinuesRun<T>(run: seq<T>, x: T, key: T -> int)
  {
    run != [] && key(run[|run| - 1]) == key(x)
  }

  /** The runs of `xs`, built left to right. */
  function Runs<T>(xs: seq<T>, key: T -> int): seq<seq<T>>
  {
    if xs == [] then [] else Push(Runs(xs[..|xs| - 1], key), xs[|xs| - 1], key)
  }

  /** Concatenation of a sequence of runs. */
  function Flatten<T>(rs: seq<seq<T>>): seq<T>
  {
    if rs == [] then [] else Flatten(rs[..|rs| - 1]) + rs[|rs| - 1]
  }

  /** Every run is non-empty and all of its elements share the key of its first element. */
  ghost predicate UniformRuns<T>(rs: seq<seq<T>>, key: T -> int)
  {
    forall i :: 0 <= i < |rs| ==>
      rs[i] != [] && forall j :: 0 <= j < |rs[i]| ==> key(rs[i][j]) == key(rs[i][0])
  }

  /** Neighbouring runs have different keys: no two runs could be merged. */
  ghost predicate Maximal<T>(rs: seq<seq<T>>, key: T -> int)
    requires UniformRuns(rs, key)
  {
    forall i :: 0 < i < |rs| ==> key(rs[i - 1][0]) != key(rs[i][0])
  }

  /** A decomposition of `xs` into maximal adjacent runs of equal keys. */
  ghost predicate IsRunDecomposition<T>(rs: seq<seq<T>>, xs: seq<T>, key: T -> int)
  {
    Flatten(rs) == xs && UniformRuns(rs, key) && Maximal(rs, key)
  }

  lemma FlattenAppend<T>(rs: seq<seq<T>>, r: seq<T>)
    ensures Flatten(rs + [r]) == Flatten(rs) + r
  {
    assert (rs + [r])[..|rs|] == rs;
  }

  /** Pushing an element appends it to the concatenation. */
  lemma PushFlatten<T>(rs: seq<seq<T>>, x: T, key: T -> int)
    ensures Flatten(Push(rs, x, key)) == Flatten(rs) + [x]
  {
    if rs != [] && ContinuesRun(rs[|rs| - 1], x, key) {
      var front, last := rs[..|rs| - 1], rs[|rs| - 1];
      assert rs == front + [last];
      FlattenAppend(front, last);
      FlattenAppend(front, last + [x]);
    } else {
      FlattenAppend(rs, [x]);
    }
  }

  /** Pushing an element keeps the runs uniform and maximal. */
  lemma PushUniformMaximal<T>(rs: seq<seq<T>>, x: T, key: T -> int)
    requires UniformRuns(rs, key) && Maximal(rs, key)
    ensures UniformRuns(Push(rs, x, key), key) && Maximal(Push(rs, x, key), key)
  {
    var res := Push(rs, x, key);
    if rs != [] && ContinuesRun(rs[|rs| - 1], x, key) {
      forall i | 0 <= i < |res|
        ensures res[i] != [] && forall j :: 0 <= j < |res[i]| ==> key(res[i][j]) == key(res[i][0])
      {
        if i < |rs| - 1 { assert res[i] == rs[i]; }
      }
      forall i | 0 < i < |res| ensures key(res[i - 1][0]) != key(res[i][0]) {
        assert res[i - 1] == rs[i - 1];
        assert res[i][0] == rs[i][0];
      }
    } else {
      forall i | 0 <= i < |res|
        ensures res[i] != [] && forall j :: 0 <= j < |res[i]| ==> key(res[i][j]) == key(res[i][0])
      {
        if i < |rs| { assert res[i] == rs[i]; }
      }
      forall i | 0 < i < |res| ensures key(res[i - 1][0]) != key(res[i][0]) {
        assert res[i - 1] == rs[i - 1];
        if i < |rs| { assert res[i] == rs[i]; }
      }
    }
  }

  /** Pushing `x` onto a run decomposition of `xs` decomposes `xs + [x]`. */
  lemma PushDecomposes<T>(rs: seq<seq<T>>, xs: seq<T>, x: T, key: T -> int)
    requires IsRunDecomposition(rs, xs, key)
    ensures IsRunDecomposition(Push(rs, x, key), xs + [x], key)
  {
    PushFlatten(rs, x, key);
    PushUniformMaximal(rs, x, key);
  }

  /** Runs(xs) concatenates back to xs, its runs are uniform, and neighbours differ. */
  lemma {:induction false} RunsAreRunDecomposition<T>(xs: seq<T>, key: T -> int)
    ensures IsRunDecomposition(Runs(xs, key), xs, key)
  {
    if xs != [] {
      var init, x := xs[..|xs| - 1], xs[|xs| - 1];
      RunsAreRunDecomposition(init, key);
      PushDecomposes(Runs(init, key), init, x, key);
      assert xs == init + [x];
    }
  }

  /** `rs` with its last element removed: the last run shrinks, or disappears when it had one element. */
  function DropLast<T>(rs: seq<seq<T>>): seq<seq<T>>
    requires rs != [] && rs[|rs| - 1] != []
  {
    var last := rs[|rs| - 1];
    if |last| == 1 then rs[..|rs| - 1] else rs[..|rs| - 1] + [last[..|last| - 1]]
  }

  /** A prefix of uniform, maximal runs is uniform and maximal. */
  lemma PrefixUniformMaximal<T>(rs: seq<seq<T>>, n: nat, key: T -> int)
    requires UniformRuns(rs, key) && Maximal(rs, key) && n <= |rs|
    ensures UniformRuns(rs[..n], key) && Maximal(rs[..n], key)
  {
    var p := rs[..n];
    forall i | 0 <= i < |p|
      ensures p[i] != [] && forall j :: 0 <= j < |p[i]| ==> key(p[i][j]) == key(p[i][0])
    {
      assert p[i] == rs[i];
    }
    forall i | 0 < i < |p| ensures key(p[i - 1][0]) != key(p[i][0]) {
      assert p[i - 1] == rs[i - 1] && p[i] == rs[i];
    }
  }

  /** Removing a last run of one element leaves a decomposition of the shorter input. */
  lemma DropSingletonRun<T>(front: seq<seq<T>>, x: T, xs: seq<T>, key: T -> int)
    requires IsRunDecomposition(front + [[x]], xs, key)
    ensures xs != [] && xs[|xs| - 1] == x
    ensures IsRunDecomposition(front, xs[..|xs| - 1], key)
    ensures Push(front, x, key) == front + [[x]]
  {
    var rs := front + [[x]];
    FlattenAppend(front, [x]);
    PrefixUniformMaximal(rs, |rs| - 1, key);
    assert rs[..|rs| - 1] == front;
    if front != [] {
      var prev := front[|front| - 1];
      assert prev == rs[|rs| - 2];
      assert key(prev[|prev| - 1]) == key(prev[0]);
    }
  }

  /** Shortening a last run of two or more elements keeps the runs uniform and maximal. */
  lemma ShrinkUniformMaximal<T>(front: seq<seq<T>>, shorter: seq<T>, x: T, key: T -> int)
    requires shorter != []
    requires UniformRuns(front + [shorter + [x]], key) && Maximal(front + [shorter + [x]], key)
    ensures UniformRuns(front + [shorter], key) && Maximal(front + [shorter], key)
    ensures key(shorter[|shorter| - 1]) == key(x)
  {
    var rs := front + [shorter + [x]];
    var rs' := front + [shorter];
    var run := rs[|front|];
    assert run == shorter + [x];
    forall i | 0 <= i < |rs'|
      ensures rs'[i] != [] && forall j :: 0 <= j < |rs'[i]| ==> key(rs'[i][j]) == key(rs'[i][0])
    {
      if i < |front| {
        assert rs'[i] == rs[i];
      } else {
        forall j | 0 <= j < |shorter| ensures key(shorter[j]) == key(shorter[0]) {
          assert shorter[j] == run[j] && shorter[0] == run[0];
        }
      }
    }
    forall i | 0 < i < |rs'| ensures key(rs'[i - 1][0]) != key(rs'[i][0]) {
      assert rs'[i - 1] == rs[i - 1];
      if i < |front| { assert rs'[i] == rs[i]; } else { assert rs'[i][0] == rs[i][0]; }
    }
    assert key(run[|shorter| - 1]) == key(run[0]);
    assert key(run[|shorter|]) == key(run[0]);
  }

  /** Removing the last element of a longer last run leaves a decomposition of the shorter input. */
  lemma ShrinkLastRun<T>(front: seq<seq<T>>, shorter: seq<T>, x: T, xs: seq<T>, key: T -> int)
    requires shorter != []
    requires IsRunDecomposition(front + [shorter + [x]], xs, key)
    ensures xs != [] && xs[|xs| - 1] == x
    ensures IsRunDecomposition(front + [shorter], xs[..|xs| - 1], key)
    ensures Push(front + [shorter], x, key) == front + [shorter + [x]]
  {
    FlattenAppend(front, shorter + [x]);
    FlattenAppend(front, shorter);
    assert xs == Flatten(front) + shorter + [x];
    ShrinkUniformMaximal(front, shorter, x, key);
    PushExtends(front, shorter, x, key);
  }

  /** Shrinking the last run of a run decomposition by its last element decomposes the shorter input. */
  lemma DropLastDecomposes<T>(rs: seq<seq<T>>, xs: seq<T>, key: T -> int)
    requires IsRunDecomposition(rs, xs, key) && rs != []
    ensures xs != [] && IsRunDecomposition(DropLast(rs), xs[..|xs| - 1], key)
    ensures Push(DropLast(rs), xs[|xs| - 1], key) == rs
  {
    var front, last := rs[..|rs| - 1], rs[|rs| - 1];
    assert rs == front + [last];
    var x := last[|last| - 1];
    if |last| == 1 {
      assert last == [x];
      DropSingletonRun(front, x, xs, key);
    } else {
      var shorter := last[..|last| - 1];
      assert last == shorter + [x];
      ShrinkLastRun(front, shorter, x, xs, key);
    }
  }

  /** Any decomposition of `xs` into maximal uniform runs is Runs(xs): the runs are unique. */
  lemma {:induction false} RunDecompositionUnique<T>(rs: seq<seq<T>>, xs: seq<T>, key: T -> int)
    requires IsRunDecomposition(rs, xs, key)
    ensures rs == Runs(xs, key)
    decreases |xs|
  {
    if rs == [] {
      assert xs == [];
    } else {
      DropLastDecomposes(rs, xs, key);
      RunDecompositionUnique(DropLast(rs), xs[..|xs| - 1], key);
    }
  }

  /** A non-empty input has at least one run and no more runs than elements. */
  lemma {:induction false} RunsCount<T>(xs: seq<T>, key: T -> int)
    ensures |Runs(xs, key)| <= |xs|
    ensures xs != [] ==> Runs(xs, key) != []
  {
    if xs != [] {
      RunsCount(xs[..|xs| - 1], key);
    }
  }

  function Identity(t: int): int { t }

  /** Runs is built by pushing the elements one at a time. */
  lemma RunsSnoc<T>(xs: seq<T>, x: T, key: T -> int)
    ensures Runs(xs + [x], key) == Push(Runs(xs, key), x, key)
  {
    assert (xs + [x])[..|xs|] == xs;
  }

  /** An element with the key of the element before it extends the last run. */
  lemma PushExtends<T>(rs: seq<seq<T>>, run: seq<T>, x: T, key: T -> int)
    requires run != [] && key(run[|run| - 1]) == key(x)
    ensures Push(rs + [run], x, key) == rs + [run + [x]]
  {
    assert (rs + [run])[..|rs|] == rs;
  }

  /** An element with a different key from the element before it opens a new run. */
  lemma PushOpens<T>(rs: seq<seq<T>>, run: seq<T>, x: T, key: T -> int)
    requires run != [] && key(run[|run| - 1]) != key(x)
    ensures Push(rs + [run], x, key) == rs + [run] + [[x]]
  {
  }

  /** The steps of AdjacentNotPartition: [t1] is one run. */
  lemma RunsOfOne(t1: int)
    ensures Runs([t1], Identity) == [[t1]]
  {
    RunsSnoc([], t1, Identity);
    assert [] + [t1] == [t1];
  }

  /** [t1, t1] is one run. */
  lemma RunsOfTwo(t1: int)
    ensures Runs([t1, t1], Identity) == [[t1, t1]]
  {
    RunsOfOne(t1);
    RunsSnoc([t1], t1, Identity);
    PushExtends([], [t1], t1, Identity);
    assert [] + [[t1]] == [[t1]] && [t1] + [t1] == [t1, t1];
  }

  /** [t1, t1, t2] is two runs when t1 != t2. */
  lemma RunsOfThree(t1: int, t2: int)
    requires t1 != t2
    ensures Runs([t1, t1, t2], Identity) == [[t1, t1], [t2]]
  {
    RunsOfTwo(t1);
    RunsSnoc([t1, t1], t2, Identity);
    PushOpens([], [t1, t1], t2, Identity);
    assert [t1, t1] + [t2] == [t1, t1, t2] && [] + [[t1, t1]] == [[t1, t1]];
  }

  /** Times [t1, t1, t2, t1] with t1 != t2 form three runs, not two groups keyed by value. */
  lemma AdjacentNotPartition(t1: int, t2: int)
    requires t1 != t2
    ensures Runs([t1, t1, t2, t1], Identity) == [[t1, t1], [t2], [t1]]
  {
    RunsOfThree(t1, t2);
    RunsSnoc([t1, t1, t2], t1, Identity);
    PushOpens([[t1, t1]], [t2], t1, Identity);
    assert [t1, t1, t2] + [t1] == [t1, t1, t2, t1] && [[t1, t1]] + [[t2]] == [[t1, t1], [t2]];
  }
}
