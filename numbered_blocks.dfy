/** The block merge of main.py and main.js: hours whose forecast numbers are
    consecutive form one block, which is the run's first hour with its end
    time moved to the end of the run's last hour. */
module NumberedBlocks {
  import opened Seqs
  import opened Runs
  import opened Forecast

  /** `cur` follows `prev` directly in the forecast numbering. */
  predicate Consecutive(prev: Period, cur: Period)
  {
    cur.number == prev.number + 1
  }

  /** The block a run stands for: its first hour, ending when the run ends. */
  function Summary(run: seq<Period>): Period
    requires run != []
  {
    run[0].(endTime := Last(run).endTime)
  }

  /** The reference result of the merge loop: one block per maximal run of
      consecutively numbered hours. */
  function Blocks(ps: seq<Period>): seq<Period>
  {
    Summaries(Split(ps, Consecutive), Summary)
  }

  /** What one iteration of the loop does to `blocks`, given the number of the
      hour before `cur`: extend the last block's end time, or append `cur`. */
  function Step(blocks: seq<Period>, num: int, cur: Period): seq<Period>
  {
    if cur.number == num + 1 && |blocks| > 0 then blocks[..|blocks| - 1] + [Last(blocks).(endTime := cur.endTime)]
    else blocks + [cur]
  }

  /** An iteration adds at most one block and leaves every block but the last
      alone; the last block either keeps everything but takes the hour's end
      time, or is the hour itself. */
  lemma StepShape(blocks: seq<Period>, num: int, cur: Period)
    ensures var r := Step(blocks, num, cur);
      && |blocks| <= |r| <= |blocks| + 1
      && r != []
      && r[..|r| - 1] == blocks[..|r| - 1]
      && Last(r).endTime == cur.endTime
      && (|r| == |blocks| ==> Last(r) == Last(blocks).(endTime := cur.endTime))
      && (|r| == |blocks| + 1 ==> Last(r) == cur)
  {
  }

  lemma BlocksExtend(ps: seq<Period>)
    requires |ps| >= 2 && Consecutive(ps[|ps| - 2], Last(ps))
    ensures var bs := Blocks(ps[..|ps| - 1]);
      bs != [] && Blocks(ps) == bs[..|bs| - 1] + [Last(bs).(endTime := Last(ps).endTime)]
  {
    var front := Split(ps[..|ps| - 1], Consecutive);
    SummariesReplaceLast(front, Last(front) + [Last(ps)], Summary);
  }

  lemma BlocksOpen(ps: seq<Period>)
    requires ps != []
    requires |ps| >= 2 ==> !Consecutive(ps[|ps| - 2], Last(ps))
    ensures Blocks(ps) == Blocks(ps[..|ps| - 1]) + [Last(ps)]
  {
    SummariesSnoc(Split(ps[..|ps| - 1], Consecutive), [Last(ps)], Summary);
    assert Summary([Last(ps)]) == Last(ps);
  }

  /** One more hour changes the blocks exactly as one loop iteration does,
      whatever number the loop carries into the first iteration. */
  lemma BlocksPrefix(ps: seq<Period>, i: nat, num: int)
    requires i < |ps|
    requires i > 0 ==> num == ps[i - 1].number
    ensures Blocks(ps[..i + 1]) == Step(Blocks(ps[..i]), num, ps[i])
  {
    var xs := ps[..i + 1];
    assert xs[..|xs| - 1] == ps[..i];
    if i > 0 && Consecutive(ps[i - 1], ps[i]) {
      BlocksExtend(xs);
    } else {
      BlocksOpen(xs);
    }
  }

  /** The `blocks` loop, identical in main.py and main.js: pop the last block,
      move its end time and push it back when the hour's number follows the
      previous hour's, otherwise push the hour itself; `num` always becomes the
      hour's number. Its result does not depend on the starting `num`. */
  method Merge(temperate: seq<Period>, num0: int) returns (blocks: seq<Period>)
    ensures blocks == Blocks(temperate)
  {
    blocks := [];
    var num := num0;
    for i := 0 to |temperate|
      invariant blocks == Blocks(temperate[..i])
      invariant i > 0 ==> num == temperate[i - 1].number
    {
      var period := temperate[i];
      BlocksPrefix(temperate, i, num);
      if period.number == num + 1 && |blocks| > 0 {
        var last := Last(blocks);
        blocks := blocks[..|blocks| - 1];
        last := last.(endTime := period.endTime);
        blocks := blocks + [last];
      } else {
        blocks := blocks + [period];
      }
      num := period.number;
    }
    assert temperate[..|temperate|] == temperate;
  }

  /** No more blocks than hours, none at all only for no hours, and the first
      hour always opens the first block. */
  lemma BlocksBounds(ps: seq<Period>)
    ensures |Blocks(ps)| <= |ps|
    ensures Blocks(ps) == [] <==> ps == []
    ensures ps != [] ==> Blocks(ps)[0] == ps[0].(endTime := Blocks(ps)[0].endTime)
    ensures ps != [] ==> Last(Blocks(ps)).endTime == Last(ps).endTime
  {
    SummariesAt(Split(ps, Consecutive), Summary);
    if ps != [] {
      FirstOfSplit(ps, Consecutive);
      LastOfSplit(ps, Consecutive);
    }
  }

  /** The blocks follow the input order: laid end to end, their runs are the
      hours; inside a run the numbers go up by one; a block ends where the
      numbering breaks; and each block is its run's first hour with the run's
      last end time, nothing else changed. */
  lemma BlocksAreRuns(ps: seq<Period>)
    ensures var rs := Split(ps, Consecutive);
      && Flatten(rs) == ps
      && |Blocks(ps)| == |rs|
      && (forall k :: 0 <= k < |rs| ==> rs[k] != [] && Chained(rs[k], Consecutive))
      && (forall k :: 0 <= k < |rs| - 1 ==> rs[k] != [] && rs[k + 1] != [] ==> rs[k + 1][0].number != Last(rs[k]).number + 1)
      && forall k :: 0 <= k < |rs| ==> Blocks(ps)[k] == rs[k][0].(endTime := Last(rs[k]).endTime)
  {
    var rs: seq<seq<Period>> := Split(ps, Consecutive);
    SplitIsMaximal(ps, Consecutive);
    forall k | 0 <= k < |rs| - 1
      ensures rs[k] != [] && rs[k + 1] != [] ==> rs[k + 1][0].number != Last(rs[k]).number + 1
    {
      assert !Consecutive(Last(rs[k]), rs[k + 1][0]);
    }
    SummariesAt(rs, Summary);
    forall k | 0 <= k < |rs|
      ensures Blocks(ps)[k] == rs[k][0].(endTime := Last(rs[k]).endTime)
    {
      assert Blocks(ps)[k] == Summary(rs[k]);
    }
  }

}
