/** Maximal runs of a sequence under a "joins the previous element" relation.
    Every merge loop of the pipeline (extend the last block, or start a new one)
    groups its input into such runs; `Split` is the reference grouping and
    `IsMaximalSplit` says declaratively what a correct grouping is. */
module Runs {
  import opened Seqs

  /** The runs laid end to end. */
  function Flatten<T>(rs: seq<seq<T>>): seq<T>
  {
    if rs == [] then [] else Flatten(rs[..|rs| - 1]) + Last(rs)
  }

  /** Every element of `r` after the first joins the one before it. */
  ghost predicate Chained<T>(r: seq<T>, link: (T, T) -> bool)
  {
    forall i :: 0 <= i < |r| - 1 ==> link(r[i], r[i + 1])
  }

  /** `rs` cuts `xs` into non-empty chained runs, and no run could absorb the
      first element of the next one. */
  ghost predicate IsMaximalSplit<T>(xs: seq<T>, rs: seq<seq<T>>, link: (T, T) -> bool)
  {
    && Flatten(rs) == xs
    && (forall k :: 0 <= k < |rs| ==> rs[k] != [] && Chained(rs[k], link))
    && (forall k :: 0 <= k < |rs| - 1 ==> rs[k] != [] && rs[k + 1] != [] ==> !link(Last(rs[k]), rs[k + 1][0]))
  }

  /** The runs of `xs`, built left to right: an element joins the current run
      when it is linked to its predecessor, and starts a run otherwise. */
  function Split<T>(xs: seq<T>, link: (T, T) -> bool): (rs: seq<seq<T>>)
    ensures |rs| <= |xs|
    ensures rs == [] <==> xs == []
    ensures forall k :: 0 <= k < |rs| ==> rs[k] != []
  {
    if xs == [] then []
    else
      var front := Split(xs[..|xs| - 1], link);
      var x := Last(xs);
      if front != [] && link(xs[|xs| - 2], x) then front[..|front| - 1] + [Last(front) + [x]]
      else front + [[x]]
  }

  /** The block each run stands for, in order. */
  function Summaries<T, U>(rs: seq<seq<T>>, summary: seq<T> --> U): (bs: seq<U>)
    requires forall k :: 0 <= k < |rs| ==> summary.requires(rs[k])
    ensures |bs| == |rs|
  {
    seq(|rs|, k requires 0 <= k < |rs| => summary(rs[k]))
  }

  /** Block `k` stands for run `k`. */
  lemma SummariesAt<T, U>(rs: seq<seq<T>>, summary: seq<T> --> U)
    requires forall k :: 0 <= k < |rs| ==> summary.requires(rs[k])
    ensures forall k :: 0 <= k < |rs| ==> Summaries(rs, summary)[k] == summary(rs[k])
  {
  }

  /** A new run adds its block at the end. */
  lemma SummariesSnoc<T, U>(rs: seq<seq<T>>, r: seq<T>, summary: seq<T> --> U)
    requires summary.requires(r) && forall k :: 0 <= k < |rs| ==> summary.requires(rs[k])
    ensures Summaries(rs + [r], summary) == Summaries(rs, summary) + [summary(r)]
  {
  }

  /** Replacing the last run replaces only the last block. */
  lemma SummariesReplaceLast<T, U>(rs: seq<seq<T>>, r: seq<T>, summary: seq<T> --> U)
    requires rs != [] && summary.requires(r) && forall k :: 0 <= k < |rs| ==> summary.requires(rs[k])
    ensures Summaries(rs[..|rs| - 1] + [r], summary) == Summaries(rs, summary)[..|rs| - 1] + [summary(r)]
    ensures Summaries(rs[..|rs| - 1] + [r], summary) == Summaries(rs, summary)[|rs| - 1 := summary(r)]
  {
  }

  /** The last run ends with the last element. */
  lemma LastOfSplit<T>(xs: seq<T>, link: (T, T) -> bool)
    requires xs != []
    ensures Last(Last(Split(xs, link))) == Last(xs)
  {
  }

  /** The first run starts with the first element. */
  lemma {:induction false} FirstOfSplit<T>(xs: seq<T>, link: (T, T) -> bool)
    requires xs != []
    ensures Split(xs, link)[0][0] == xs[0]
  {
    if |xs| > 1 {
      var prefix := xs[..|xs| - 1];
      FirstOfSplit(prefix, link);
      var front := Split(prefix, link);
      if link(xs[|xs| - 2], Last(xs)) {
        if |front| == 1 {
          assert Split(xs, link)[0] == front[0] + [Last(xs)];
        } else {
          assert Split(xs, link)[0] == front[0];
        }
      } else {
        assert Split(xs, link)[0] == front[0];
      }
    }
  }

  lemma FlattenSnoc<T>(rs: seq<seq<T>>, r: seq<T>)
    ensures Flatten(rs + [r]) == Flatten(rs) + r
  {
    assert (rs + [r])[..|rs|] == rs;
  }

  /** The last element of a grouping is the last element of its last run. */
  lemma LastOfFlatten<T>(rs: seq<seq<T>>)
    requires rs != [] && Last(rs) != []
    ensures Flatten(rs) != [] && Last(Flatten(rs)) == Last(Last(rs))
  {
  }

  /** `Split` meets the declarative description of a maximal grouping. */
  lemma {:induction false} SplitIsMaximal<T>(xs: seq<T>, link: (T, T) -> bool)
    ensures IsMaximalSplit(xs, Split(xs, link), link)
  {
    if xs != [] {
      var xs' := xs[..|xs| - 1];
      SplitIsMaximal(xs', link);
      if xs' != [] && link(Last(xs'), Last(xs)) {
        ExtendKeepsMaximal(xs', Split(xs', link), Last(xs), link);
      } else {
        OpenKeepsMaximal(xs', Split(xs', link), Last(xs), link);
      }
      assert xs' + [Last(xs)] == xs;
    }
  }
  /** There is only one maximal grouping: any grouping that meets the
      description is the one `Split` builds. */
  lemma {:induction false} MaximalSplitUnique<T>(xs: seq<T>, rs: seq<seq<T>>, link: (T, T) -> bool)
    requires IsMaximalSplit(xs, rs, link)
    ensures rs == Split(xs, link)
    decreases |xs|
  {
    if rs == [] {
      assert xs == [];
    } else if |Last(rs)| == 1 {
      DropSingletonRun(xs, rs, link);
      MaximalSplitUnique(xs[..|xs| - 1], rs[..|rs| - 1], link);
    } else {
      var r := Last(rs);
      DropFromLastRun(xs, rs, link);
      var rs' := rs[..|rs| - 1] + [r[..|r| - 1]];
      MaximalSplitUnique(xs[..|xs| - 1], rs', link);
      assert rs'[..|rs'| - 1] == rs[..|rs| - 1];
      assert Last(rs') + [Last(xs)] == r;
    }
  }

  /** A last run of one element is an element no earlier run could absorb. */
  lemma DropSingletonRun<T>(xs: seq<T>, rs: seq<seq<T>>, link: (T, T) -> bool)
    requires IsMaximalSplit(xs, rs, link) && rs != [] && |Last(rs)| == 1
    ensures xs != [] && Last(rs) == [Last(xs)]
    ensures IsMaximalSplit(xs[..|xs| - 1], rs[..|rs| - 1], link)
    ensures |xs| >= 2 ==> rs[..|rs| - 1] != [] && !link(xs[|xs| - 2], Last(xs))
  {
    var init := rs[..|rs| - 1];
    var r := Last(rs);
    assert rs == init + [r];
    FlattenSnoc(init, r);
    var xs' := xs[..|xs| - 1];
    assert xs' == Flatten(init);
    assert forall k :: 0 <= k < |init| ==> init[k] == rs[k];
    if |xs| >= 2 {
      LastOfFlatten(init);
      assert !link(Last(rs[|rs| - 2]), rs[|rs| - 1][0]);
    }
  }

  /** A last run of two or more elements loses its last element, which is
      linked to the one before it. */
  lemma DropFromLastRun<T>(xs: seq<T>, rs: seq<seq<T>>, link: (T, T) -> bool)
    requires IsMaximalSplit(xs, rs, link) && rs != [] && |Last(rs)| >= 2
    ensures |xs| >= 2 && Last(rs) == Last(rs)[..|Last(rs)| - 1] + [Last(xs)]
    ensures IsMaximalSplit(xs[..|xs| - 1], rs[..|rs| - 1] + [Last(rs)[..|Last(rs)| - 1]], link)
    ensures link(xs[|xs| - 2], Last(xs))
  {
    var init := rs[..|rs| - 1];
    var r := Last(rs);
    var r' := r[..|r| - 1];
    var rs' := init + [r'];
    assert rs == init + [r];
    assert r == r' + [Last(r)];
    FlattenSnoc(init, r);
    FlattenSnoc(init, r');
    assert xs == (Flatten(init) + r') + [Last(r)];
    assert xs[..|xs| - 1] == Flatten(rs');
    assert forall k :: 0 <= k < |rs'| ==> rs'[k] != [] && Chained(rs'[k], link) by {
      forall k | 0 <= k < |rs'|
        ensures rs'[k] != [] && Chained(rs'[k], link)
      {
        if k < |init| {
          assert rs'[k] == rs[k];
        } else {
          assert forall i :: 0 <= i < |r'| ==> r'[i] == r[i];
        }
      }
    }
    forall k | 0 <= k < |rs'| - 1
      ensures rs'[k] != [] && rs'[k + 1] != [] ==> !link(Last(rs'[k]), rs'[k + 1][0])
    {
      assert rs'[k] == rs[k] && rs'[k + 1][0] == rs[k + 1][0];
    }
    assert link(r[|r| - 2], r[|r| - 1]);
  }

  /** Appending a linked element to the last run keeps a grouping maximal. */
  lemma ExtendKeepsMaximal<T>(xs: seq<T>, rs: seq<seq<T>>, x: T, link: (T, T) -> bool)
    requires IsMaximalSplit(xs, rs, link)
    requires xs != [] && link(Last(xs), x)
    ensures rs != [] && IsMaximalSplit(xs + [x], rs[..|rs| - 1] + [Last(rs) + [x]], link)
  {
    var init := rs[..|rs| - 1];
    var r := Last(rs);
    assert rs == init + [r];
    FlattenSnoc(init, r);
    FlattenSnoc(init, r + [x]);
    LastOfFlatten(rs);
    var rs' := init + [r + [x]];
    assert Chained(r + [x], link) by {
      forall i | 0 <= i < |r + [x]| - 1
        ensures link((r + [x])[i], (r + [x])[i + 1])
      {
        if i < |r| - 1 {
          assert (r + [x])[i] == r[i] && (r + [x])[i + 1] == r[i + 1];
        }
      }
    }
    assert Flatten(rs') == xs + [x];
    assert forall k :: 0 <= k < |rs'| ==> rs'[k] != [] && Chained(rs'[k], link) by {
      forall k | 0 <= k < |rs'|
        ensures rs'[k] != [] && Chained(rs'[k], link)
      {
        if k < |init| {
          assert rs'[k] == rs[k];
        }
      }
    }
    forall k | 0 <= k < |rs'| - 1
      ensures rs'[k] != [] && rs'[k + 1] != [] ==> !link(Last(rs'[k]), rs'[k + 1][0])
    {
      assert rs'[k] == rs[k] && rs'[k + 1][0] == rs[k + 1][0];
    }
  }

  /** Opening a new run with an unlinked element keeps a grouping maximal. */
  lemma OpenKeepsMaximal<T>(xs: seq<T>, rs: seq<seq<T>>, x: T, link: (T, T) -> bool)
    requires IsMaximalSplit(xs, rs, link)
    requires xs != [] ==> !link(Last(xs), x)
    ensures IsMaximalSplit(xs + [x], rs + [[x]], link)
  {
    var rs' := rs + [[x]];
    FlattenSnoc(rs, [x]);
    assert forall k :: 0 <= k < |rs'| ==> rs'[k] != [] && Chained(rs'[k], link) by {
      forall k | 0 <= k < |rs'|
        ensures rs'[k] != [] && Chained(rs'[k], link)
      {
        if k < |rs| {
          assert rs'[k] == rs[k];
        }
      }
    }
    assert forall k :: 0 <= k < |rs'| - 1 ==> rs'[k] != [] && rs'[k + 1] != [] ==> !link(Last(rs'[k]), rs'[k + 1][0]) by {
      forall k | 0 <= k < |rs'| - 1
        ensures rs'[k] != [] && rs'[k + 1] != [] ==> !link(Last(rs'[k]), rs'[k + 1][0])
      {
        assert rs'[k] == rs[k];
        if k + 1 < |rs| {
          assert rs'[k + 1] == rs[k + 1];
        } else {
          LastOfFlatten(rs);
        }
      }
    }
  }
}
