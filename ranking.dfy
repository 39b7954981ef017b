/**
 * `write_outputs`: one output directory per (seed, sample), a ranking row
 * per sample, and the best-ranked sample and the ranking table written
 * once at the end when there was any sample at all.
 */
module Ranking {
  import opened Common
  import opened Strings
  import opened Records

  /** A sample together with the seed and index that name it. */
  datatype Sample = Sample(seed: int, index: nat, result: InferenceResult)

  function Score(s: Sample): real {
    s.result.rankingScore
  }

  /** The samples of one seed, indexed 0, 1, ... as `enumerate` does. */
  function SeedSamples(r: ResultsForSeed): seq<Sample> {
    seq(|r.inferenceResults|, j requires 0 <= j < |r.inferenceResults| => Sample(r.seed, j, r.inferenceResults[j]))
  }

  /** All samples in the order the nested loop visits them: seed by seed, then by index. */
  function Samples(all: seq<ResultsForSeed>): seq<Sample> {
    if all == [] then [] else Samples(all[..|all| - 1]) + SeedSamples(all[|all| - 1])
  }

  /** The total number of samples over all seeds. */
  function SampleCount(all: seq<ResultsForSeed>): nat {
    if all == [] then 0 else |all[0].inferenceResults| + SampleCount(all[1..])
  }

  function Row(s: Sample): RankingRow {
    RankingRow(s.seed, s.index, Score(s))
  }

  /** The ranking rows of the samples, in the same order. */
  function Rows(ss: seq<Sample>): seq<RankingRow> {
    if ss == [] then [] else Rows(ss[..|ss| - 1]) + [Row(ss[|ss| - 1])]
  }

  /** The index of a highest score, as a running maximum updated only on a strictly higher score finds it. */
  function BestIndex(ss: seq<Sample>): (k: nat)
    requires |ss| > 0
    ensures k < |ss|
  {
    if |ss| == 1 then 0
    else
      var k := BestIndex(ss[..|ss| - 1]);
      if Score(ss[|ss| - 1]) > Score(ss[k]) then |ss| - 1 else k
  }

  /** `seed-{seed}_sample-{sample_idx}`. */
  function SampleDirName(seed: int, index: nat): string {
    "seed-" + IntToString(seed) + "_sample-" + IntToString(index)
  }

  function SampleDir(outputDir: Path, s: Sample): Path {
    Join(outputDir, SampleDirName(s.seed, s.index))
  }

  /** The directory creation and the output write of each sample, in order. */
  function SampleEvents(ss: seq<Sample>, outputDir: Path): seq<Event> {
    if ss == [] then []
    else
      var s := ss[|ss| - 1];
      SampleEvents(ss[..|ss| - 1], outputDir) + [CreateDir(SampleDir(outputDir, s)), WriteSampleOutput(SampleDir(outputDir, s), s.result)]
  }

  /** The writes after the loop: the best sample and the ranking table, or nothing when there is no sample. */
  function Summary(ss: seq<Sample>, outputDir: Path, jobName: string): seq<Event> {
    if ss == [] then []
    else [WriteBestOutput(outputDir, ss[BestIndex(ss)].result, jobName),
          WriteRankingCsv(Join(outputDir, "ranking_scores.csv"), Rows(ss))]
  }

  /** The running maximum of the loop: nothing before the first sample, then the first highest-scoring one. */
  ghost predicate RunningMax(done: seq<Sample>, maxScore: Option<real>, maxResult: Option<InferenceResult>) {
    && (done == [] <==> maxResult.None?)
    && (done == [] ==> maxScore.None?)
    && (done != [] ==>
          maxScore == Some(Score(done[BestIndex(done)]))
          && maxResult == Some(done[BestIndex(done)].result))
  }

  lemma RunningMaxStep(done: seq<Sample>, maxScore: Option<real>, maxResult: Option<InferenceResult>, s: Sample)
    requires RunningMax(done, maxScore, maxResult)
    ensures var better := maxScore.None? || Score(s) > maxScore.value;
            RunningMax(done + [s],
                       if better then Some(Score(s)) else maxScore,
                       if better then Some(s.result) else maxResult)
  {
    assert (done + [s])[..|done|] == done;
  }

  lemma AppendSample(done: seq<Sample>, s: Sample, outputDir: Path)
    ensures Rows(done + [s]) == Rows(done) + [Row(s)]
    ensures SampleEvents(done + [s], outputDir)
         == SampleEvents(done, outputDir) + [CreateDir(SampleDir(outputDir, s)), WriteSampleOutput(SampleDir(outputDir, s), s.result)]
  {
    assert (done + [s])[..|done|] == done;
  }

  lemma SamplesPrefixStep(all: seq<ResultsForSeed>, i: nat)
    requires i < |all|
    ensures Samples(all[..i + 1]) == Samples(all[..i]) + SeedSamples(all[i])
  {
    assert all[..i + 1][..i] == all[..i];
  }

  lemma SeedSamplesStep(r: ResultsForSeed, j: nat)
    requires j < |r.inferenceResults|
    ensures SeedSamples(r)[..j + 1] == SeedSamples(r)[..j] + [Sample(r.seed, j, r.inferenceResults[j])]
  {
  }

  /** The local state of `write_outputs`' loop: the writes so far, the ranking rows, and the running maximum. */
  datatype Progress = Progress(events: seq<Event>, rankingScores: seq<RankingRow>,
                               maxRankingScore: Option<real>, maxRankingResult: Option<InferenceResult>)

  /** The state after visiting `done`, in order. */
  ghost predicate Accounts(p: Progress, done: seq<Sample>, outputDir: Path) {
    && p.events == [CreateDir(outputDir)] + SampleEvents(done, outputDir)
    && p.rankingScores == Rows(done)
    && RunningMax(done, p.maxRankingScore, p.maxRankingResult)
  }

  /** One iteration of the inner loop keeps the state in step with the samples visited. */
  lemma AccountsStep(q: Progress, visited: seq<Sample>, s: Sample, outputDir: Path)
    requires Accounts(q, visited, outputDir)
    ensures var better := q.maxRankingScore.None? || Score(s) > q.maxRankingScore.value;
            Accounts(Progress(q.events + [CreateDir(SampleDir(outputDir, s)), WriteSampleOutput(SampleDir(outputDir, s), s.result)],
                              q.rankingScores + [Row(s)],
                              if better then Some(Score(s)) else q.maxRankingScore,
                              if better then Some(s.result) else q.maxRankingResult),
                     visited + [s], outputDir)
  {
    RunningMaxStep(visited, q.maxRankingScore, q.maxRankingResult, s);
    AppendSample(visited, s, outputDir);
  }

  /** The inner loop of `write_outputs`: every sample of one seed, in index order. */
  method VisitSeed(p: Progress, resultsForSeed: ResultsForSeed, outputDir: Path, ghost done: seq<Sample>) returns (q: Progress)
    requires Accounts(p, done, outputDir)
    ensures Accounts(q, done + SeedSamples(resultsForSeed), outputDir)
  {
    q := p;
    var seed := resultsForSeed.seed;
    var sampleIdx := 0;
    ghost var visited := done;
    while sampleIdx < |resultsForSeed.inferenceResults|
      invariant 0 <= sampleIdx <= |resultsForSeed.inferenceResults|
      invariant visited == done + SeedSamples(resultsForSeed)[..sampleIdx]
      invariant Accounts(q, visited, outputDir)
    {
      var result := resultsForSeed.inferenceResults[sampleIdx];
      var sampleDir := Join(outputDir, SampleDirName(seed, sampleIdx));
      var rankingScore := result.rankingScore;
      AccountsStep(q, visited, Sample(seed, sampleIdx, result), outputDir);
      var maxRankingScore, maxRankingResult := q.maxRankingScore, q.maxRankingResult;
      if maxRankingScore.None? || rankingScore > maxRankingScore.value {
        maxRankingScore := Some(rankingScore);
        maxRankingResult := Some(result);
      }
      q := Progress(q.events + [CreateDir(sampleDir), WriteSampleOutput(sampleDir, result)],
                    q.rankingScores + [RankingRow(seed, sampleIdx, rankingScore)],
                    maxRankingScore, maxRankingResult);
      SeedSamplesStep(resultsForSeed, sampleIdx);
      visited := visited + [Sample(seed, sampleIdx, result)];
      sampleIdx := sampleIdx + 1;
    }
    assert SeedSamples(resultsForSeed)[..sampleIdx] == SeedSamples(resultsForSeed);
  }

  /** The trace `write_outputs` leaves: the output directory, every sample, then the summary. */
  method WriteOutputs(all: seq<ResultsForSeed>, outputDir: Path, jobName: string) returns (events: seq<Event>)
    ensures events == [CreateDir(outputDir)] + SampleEvents(Samples(all), outputDir) + Summary(Samples(all), outputDir, jobName)
  {
    var p := Progress([CreateDir(outputDir)], [], None, None);
    var i := 0;
    while i < |all|
      invariant 0 <= i <= |all|
      invariant Accounts(p, Samples(all[..i]), outputDir)
    {
      SamplesPrefixStep(all, i);
      p := VisitSeed(p, all[i], outputDir, Samples(all[..i]));
      i := i + 1;
    }
    assert all[..i] == all;
    events := p.events;
    if p.maxRankingResult.Some? {
      events := events + [WriteBestOutput(outputDir, p.maxRankingResult.value, jobName),
                          WriteRankingCsv(Join(outputDir, "ranking_scores.csv"), p.rankingScores)];
    }
  }
}

/** What `write_outputs` promises about its rows, its best sample and its sample directories. */
module RankingProperties {
  import opened Common
  import opened Strings
  import opened Records
  import opened Ranking

  lemma {:induction false} RowsAt(ss: seq<Sample>)
    ensures |Rows(ss)| == |ss|
    ensures forall k :: 0 <= k < |ss| ==> Rows(ss)[k] == Row(ss[k])
  {
    if ss != [] {
      RowsAt(ss[..|ss| - 1]);
    }
  }

  lemma {:induction false} SamplesAppend(a: seq<ResultsForSeed>, b: seq<ResultsForSeed>)
    ensures Samples(a + b) == Samples(a) + Samples(b)
    decreases |b|
  {
    if b != [] {
      var b' := b[..|b| - 1];
      assert (a + b)[..|a + b| - 1] == a + b';
      SamplesAppend(a, b');
    } else {
      assert a + b == a;
    }
  }

  lemma {:induction false} SampleCountIsLength(all: seq<ResultsForSeed>)
    ensures |Samples(all)| == SampleCount(all)
  {
    if all != [] {
      SamplesAppend([all[0]], all[1..]);
      assert [all[0]] + all[1..] == all;
      assert [all[0]][..0] == [];
      SampleCountIsLength(all[1..]);
    }
  }

  /**
   * Sample `j` of seed `i` is row number (samples of the seeds before `i`)
   * + `j`: rows run in seed order, then in sample index order.
   */
  lemma SampleOrder(all: seq<ResultsForSeed>, i: nat, j: nat)
    requires i < |all| && j < |all[i].inferenceResults|
    ensures SampleCount(all[..i]) + j < |Samples(all)| == SampleCount(all)
    ensures Samples(all)[SampleCount(all[..i]) + j] == Sample(all[i].seed, j, all[i].inferenceResults[j])
    ensures |Rows(Samples(all))| == |Samples(all)|
    ensures Rows(Samples(all))[SampleCount(all[..i]) + j] == RankingRow(all[i].seed, j, all[i].inferenceResults[j].rankingScore)
  {
    assert all == all[..i] + [all[i]] + all[i + 1..];
    SamplesAppend(all[..i] + [all[i]], all[i + 1..]);
    SamplesAppend(all[..i], [all[i]]);
    assert [all[i]][..0] == [];
    SampleCountIsLength(all[..i]);
    SampleCountIsLength(all);
    RowsAt(Samples(all));
  }

  /** Conversely, every row is some seed's sample. */
  lemma {:induction false} SampleAt(all: seq<ResultsForSeed>, k: nat)
    requires k < |Samples(all)|
    ensures exists i, j :: 0 <= i < |all| && 0 <= j < |all[i].inferenceResults|
                        && k == SampleCount(all[..i]) + j
                        && Samples(all)[k] == Sample(all[i].seed, j, all[i].inferenceResults[j])
    decreases |all|
  {
    var n := |all| - 1;
    var front := all[..n];
    assert all[..n] == front;
    if k < |Samples(front)| {
      SampleAt(front, k);
      var i, j :| 0 <= i < |front| && 0 <= j < |front[i].inferenceResults|
               && k == SampleCount(front[..i]) + j
               && Samples(front)[k] == Sample(front[i].seed, j, front[i].inferenceResults[j]);
      assert front[..i] == all[..i];
    } else {
      var j := k - |Samples(front)|;
      SampleCountIsLength(front);
      assert Samples(all)[k] == SeedSamples(all[n])[j];
    }
  }

  /**
   * The running maximum with strict `>` selects a sample whose score is at
   * least every score, and is strictly above every earlier one: the first
   * maximal sample wins.
   */
  lemma {:induction false} BestIsFirstMaximum(ss: seq<Sample>)
    requires |ss| > 0
    ensures forall j :: 0 <= j < |ss| ==> Score(ss[j]) <= Score(ss[BestIndex(ss)])
    ensures forall j :: 0 <= j < BestIndex(ss) ==> Score(ss[j]) < Score(ss[BestIndex(ss)])
  {
    if |ss| > 1 {
      var front := ss[..|ss| - 1];
      BestIsFirstMaximum(front);
      assert forall j :: 0 <= j < |front| ==> front[j] == ss[j];
    }
  }

  /** The sample written as the best one carries the top score among the rows of the ranking table, and no earlier row reaches it. */
  lemma BestOutputTopsTheTable(all: seq<ResultsForSeed>, outputDir: Path, jobName: string)
    requires Summary(Samples(all), outputDir, jobName) != []
    ensures var summary := Summary(Samples(all), outputDir, jobName);
            var best := summary[0].result;
            var rows := summary[1].rows;
            && summary[0].WriteBestOutput? && summary[1].WriteRankingCsv?
            && (exists k :: 0 <= k < |rows| && rows[k].score == best.rankingScore
                           && forall m :: 0 <= m < k ==> rows[m].score < best.rankingScore)
            && forall m :: 0 <= m < |rows| ==> rows[m].score <= best.rankingScore
  {
    SummaryTopsItsTable(Samples(all), outputDir, jobName);
  }

  /** The same, for any non-empty sequence of samples. */
  lemma SummaryTopsItsTable(ss: seq<Sample>, outputDir: Path, jobName: string)
    requires ss != []
    ensures var summary := Summary(ss, outputDir, jobName);
            var best := summary[0].result;
            var rows := summary[1].rows;
            && summary[0].WriteBestOutput? && summary[1].WriteRankingCsv?
            && (exists k :: 0 <= k < |rows| && rows[k].score == best.rankingScore
                           && forall m :: 0 <= m < k ==> rows[m].score < best.rankingScore)
            && forall m :: 0 <= m < |rows| ==> rows[m].score <= best.rankingScore
  {
    BestIsFirstMaximum(ss);
    RowsAt(ss);
    var k := BestIndex(ss);
    assert Rows(ss)[k].score == ss[k].result.rankingScore;
  }

  /** The best sample and the ranking table are written if and only if some seed produced a sample. */
  lemma {:induction false} SummaryIffAnySample(all: seq<ResultsForSeed>, outputDir: Path, jobName: string)
    ensures Summary(Samples(all), outputDir, jobName) != [] <==> exists i :: 0 <= i < |all| && |all[i].inferenceResults| > 0
    ensures Summary(Samples(all), outputDir, jobName) != [] ==> |Summary(Samples(all), outputDir, jobName)| == 2
  {
    SampleCountIsLength(all);
    SampleCountPositive(all);
  }

  lemma {:induction false} SampleCountPositive(all: seq<ResultsForSeed>)
    ensures SampleCount(all) > 0 <==> exists i :: 0 <= i < |all| && |all[i].inferenceResults| > 0
  {
    if all != [] {
      SampleCountPositive(all[1..]);
      if SampleCount(all[1..]) > 0 {
        var i :| 0 <= i < |all[1..]| && |all[1..][i].inferenceResults| > 0;
        assert |all[i + 1].inferenceResults| > 0;
      }
      if exists i :: 0 <= i < |all| && |all[i].inferenceResults| > 0 {
        var i :| 0 <= i < |all| && |all[i].inferenceResults| > 0;
        if i > 0 { assert all[1..][i - 1] == all[i]; }
      }
    }
  }

  /** `seed-{seed}_sample-{idx}` names differ for different (seed, index) pairs. */
  lemma SampleDirNameInjective(s1: int, i1: nat, s2: int, i2: nat)
    ensures SampleDirName(s1, i1) == SampleDirName(s2, i2) <==> s1 == s2 && i1 == i2
  {
    if SampleDirName(s1, i1) == SampleDirName(s2, i2) {
      SameSampleDirName(s1, i1, s2, i2);
    }
  }

  lemma SameSampleDirName(s1: int, i1: nat, s2: int, i2: nat)
    requires SampleDirName(s1, i1) == SampleDirName(s2, i2)
    ensures s1 == s2 && i1 == i2
  {
    var a, b := IntToString(s1), IntToString(s2);
    var c, d := IntToString(i1), IntToString(i2);
    var x := "seed-" + a + "_sample-" + c;
    var y := "seed-" + b + "_sample-" + d;
    IntToStringHasNoUnderscore(s1);
    IntToStringHasNoUnderscore(s2);
    assert x[5 + |a|] == '_' && y[5 + |b|] == '_';
    assert forall i :: 0 <= i < |a| ==> x[5 + i] == a[i];
    assert forall i :: 0 <= i < |b| ==> y[5 + i] == b[i];
    assert |a| == |b|;
    assert a == x[5..5 + |a|] && b == y[5..5 + |b|];
    assert c == x[5 + |a| + 8..] && d == y[5 + |b| + 8..];
    IntToStringInjective(s1, s2);
    IntToStringInjective(i1, i2);
  }

  /**
   * When the seeds are pairwise distinct, no two samples share an output
   * directory, so no sample's files overwrite another's.
   */
  lemma SampleDirsDistinct(all: seq<ResultsForSeed>, outputDir: Path, k1: nat, k2: nat)
    requires forall i, i' :: 0 <= i < i' < |all| ==> all[i].seed != all[i'].seed
    requires k1 < |Samples(all)| && k2 < |Samples(all)| && k1 != k2
    ensures SampleDir(outputDir, Samples(all)[k1]) != SampleDir(outputDir, Samples(all)[k2])
  {
    var ss := Samples(all);
    SampleAt(all, k1);
    SampleAt(all, k2);
    var i1, j1 :| 0 <= i1 < |all| && 0 <= j1 < |all[i1].inferenceResults| && k1 == SampleCount(all[..i1]) + j1
                 && ss[k1] == Sample(all[i1].seed, j1, all[i1].inferenceResults[j1]);
    var i2, j2 :| 0 <= i2 < |all| && 0 <= j2 < |all[i2].inferenceResults| && k2 == SampleCount(all[..i2]) + j2
                 && ss[k2] == Sample(all[i2].seed, j2, all[i2].inferenceResults[j2]);
    assert ss[k1].seed != ss[k2].seed || ss[k1].index != ss[k2].index;
    SampleDirNameInjective(ss[k1].seed, ss[k1].index, ss[k2].seed, ss[k2].index);
    JoinInjective(outputDir, SampleDirName(ss[k1].seed, ss[k1].index), SampleDirName(ss[k2].seed, ss[k2].index));
  }
}
