/**
 * `calculate_retention`: compare a reference capture with a measured capture
 * line by line and token by token, count the aligned token pairs (`total`)
 * and the equal ones (`retained`), and keep the first few mismatching pairs
 * as samples.
 *
 * The specification is the function `Compare` over already-normalised token
 * rows: it enumerates the aligned pairs in line-major, byte-minor order and
 * summarises them. The method `CalculateRetention` is the source's nested
 * loop over raw lines and is proved equal to it; the lemmas below state what
 * the specification guarantees.
 */
module Retention {
  import opened Text

  function Min(a: nat, b: nat): nat {
    if a <= b then a else b
  }

  /**
   * One aligned token pair: the 1-based line number, the 1-based byte
   * position within the line, the reference token and the measured token.
   * A mismatch sample is an aligned pair whose tokens differ.
   */
  datatype Sample = Sample(line: nat, byte: nat, refTok: string, measTok: string)

  predicate IsMismatch(p: Sample) {
    p.refTok != p.measTok
  }

  /** How many mismatch samples are kept. */
  const MaxSamples: nat := 5

  /** The counters and the sample list the comparison ends with. */
  datatype Tally = Tally(retained: nat, total: nat, samples: seq<Sample>)

  /** `p` is a pair the comparison visits: its line and byte lie inside both captures. */
  predicate IsAlignedAt(ref: seq<seq<string>>, meas: seq<seq<string>>, p: Sample) {
    && 1 <= p.line && p.line <= |ref| && p.line <= |meas|
    && 1 <= p.byte && p.byte <= |ref[p.line - 1]| && p.byte <= |meas[p.line - 1]|
    && p.refTok == ref[p.line - 1][p.byte - 1]
    && p.measTok == meas[p.line - 1][p.byte - 1]
  }

  /** Line-major, byte-minor order of positions. */
  predicate Before(a: Sample, b: Sample) {
    a.line < b.line || (a.line == b.line && a.byte < b.byte)
  }

  predicate Ordered(ps: seq<Sample>) {
    forall i, j :: 0 <= i < j < |ps| ==> Before(ps[i], ps[j])
  }

  // ---------------------------------------------------------------------------
  // Specification
  // ---------------------------------------------------------------------------

  /** The pairs of one line, up to the shorter token count. */
  function LinePairs(line: nat, r: seq<string>, m: seq<string>): seq<Sample> {
    seq(Min(|r|, |m|), j requires 0 <= j < Min(|r|, |m|) => Sample(line, j + 1, r[j], m[j]))
  }

  /** The pairs of the first `k` lines, in the order the loops visit them. */
  function AlignedUpTo(ref: seq<seq<string>>, meas: seq<seq<string>>, k: nat): seq<Sample>
    requires k <= |ref| && k <= |meas|
  {
    if k == 0 then []
    else AlignedUpTo(ref, meas, k - 1) + LinePairs(k, ref[k - 1], meas[k - 1])
  }

  /** All aligned pairs: lines are paired as `zip` pairs them, up to the shorter capture. */
  function Aligned(ref: seq<seq<string>>, meas: seq<seq<string>>): seq<Sample> {
    AlignedUpTo(ref, meas, Min(|ref|, |meas|))
  }

  /** Number of pairs whose tokens are equal. */
  function CountRetained(ps: seq<Sample>): nat {
    if ps == [] then 0
    else CountRetained(ps[..|ps| - 1]) + (if IsMismatch(ps[|ps| - 1]) then 0 else 1)
  }

  /** The mismatching pairs, in their original order. */
  function Mismatches(ps: seq<Sample>): seq<Sample> {
    if ps == [] then []
    else Mismatches(ps[..|ps| - 1]) + (if IsMismatch(ps[|ps| - 1]) then [ps[|ps| - 1]] else [])
  }

  /** The counters and samples obtained from a sequence of visited pairs. */
  function Summary(ps: seq<Sample>): Tally {
    Tally(CountRetained(ps), |ps|, FirstSamples(Mismatches(ps)))
  }

  /** The samples kept of a sequence of mismatches: the first `MaxSamples` of them. */
  function FirstSamples(mis: seq<Sample>): seq<Sample> {
    mis[..Min(MaxSamples, |mis|)]
  }

  /** The result of comparing two token captures. */
  function Compare(ref: seq<seq<string>>, meas: seq<seq<string>>): (t: Tally)
    ensures t.retained <= t.total
    ensures |t.samples| == Min(MaxSamples, t.total - t.retained)
  {
    RetainedPlusMismatches(Aligned(ref, meas));
    Summary(Aligned(ref, meas))
  }

  /** Every captured line normalised with `strip().upper().split()`, in order. */
  function NormalizeAll(lines: seq<string>): (rows: seq<seq<string>>)
    ensures |rows| == |lines|
    decreases |lines|, 1
  {
    if lines == [] then [] else NormalizeLast(lines)
  }

  /** The rows of a nonempty capture: those of all lines but the last, then the last line normalised. */
  function NormalizeLast(lines: seq<string>): (rows: seq<seq<string>>)
    requires lines != []
    ensures |rows| == |lines|
    decreases |lines|, 0
  {
    NormalizeAll(lines[..|lines| - 1]) + [Normalize(lines[|lines| - 1])]
  }

  /** Row `i` is line `i` normalised. */
  lemma {:induction false} NormalizeAllAt(lines: seq<string>, i: nat)
    requires i < |lines|
    ensures NormalizeAll(lines)[i] == Normalize(lines[i])
  {
    if i < |lines| - 1 {
      NormalizeAllAt(lines[..|lines| - 1], i);
    }
  }

  /** Lines that normalise alike, one by one, give the same rows. */
  lemma {:induction false} NormalizeAllAlike(a: seq<string>, b: seq<string>)
    requires |a| == |b|
    requires forall i :: 0 <= i < |a| ==> Normalize(a[i]) == Normalize(b[i])
    ensures NormalizeAll(a) == NormalizeAll(b)
  {
    if a != [] {
      NormalizeAllAlike(a[..|a| - 1], b[..|b| - 1]);
    }
  }

  /** The result of comparing two raw captures, line by line. */
  function CompareLines(refLines: seq<string>, measLines: seq<string>): (t: Tally)
    ensures t.retained <= t.total
    ensures |t.samples| == Min(MaxSamples, t.total - t.retained)
  {
    Compare(NormalizeAll(refLines), NormalizeAll(measLines))
  }

  /** `retained / total if total else 0`, on the reals. */
  function RetentionRate(retained: nat, total: nat): (rate: real)
    ensures total == 0 ==> rate == 0.0
    ensures total > 0 ==> rate * total as real == retained as real
    ensures retained <= total ==> 0.0 <= rate <= 1.0
    ensures retained <= total ==> (rate == 1.0 <==> 0 < total && retained == total)
  {
    if total == 0 then 0.0 else retained as real / total as real
  }

  // ---------------------------------------------------------------------------
  // The comparison loop
  // ---------------------------------------------------------------------------

  /**
   * `calculate_retention` on two captures given as their lines. Besides the
   * rate and the samples it returns the two counters the rate is made of.
   */
  method CalculateRetention(refLines: seq<string>, measLines: seq<string>)
    returns (rate: real, samples: seq<Sample>, retained: nat, total: nat)
    ensures Tally(retained, total, samples) == CompareLines(refLines, measLines)
    ensures rate == RetentionRate(retained, total)
    ensures retained <= total
    ensures |samples| == Min(MaxSamples, total - retained)
  {
    ghost var ref, meas := NormalizeAll(refLines), NormalizeAll(measLines);
    retained, total, samples := 0, 0, [];
    for lineNum := 0 to Min(|refLines|, |measLines|)
      invariant Tally(retained, total, samples) == RunningTally(ref, meas, lineNum)
    {
      retained, total, samples := CountLine(refLines, measLines, lineNum, retained, total, samples);
    }
    AllLinesCounted(refLines, measLines, retained, total, samples);
    rate := RetentionRate(retained, total);
  }

  /**
   * One pass of the outer loop of `calculate_retention`: line `k + 1` of both
   * captures is normalised and its aligned tokens are compared, the counters
   * and samples kept for the first `k` lines becoming those for `k + 1` lines.
   */
  method CountLine(refLines: seq<string>, measLines: seq<string>, k: nat,
                   retained0: nat, total0: nat, samples0: seq<Sample>)
    returns (retained: nat, total: nat, samples: seq<Sample>)
    requires k < |refLines| && k < |measLines|
    requires Tally(retained0, total0, samples0) == RunningTally(NormalizeAll(refLines), NormalizeAll(measLines), k)
    ensures Tally(retained, total, samples) == RunningTally(NormalizeAll(refLines), NormalizeAll(measLines), k + 1)
  {
    var refBytes := Normalize(refLines[k]);
    var measBytes := Normalize(measLines[k]);
    NormalizeAllAt(refLines, k);
    NormalizeAllAt(measLines, k);
    retained, total, samples := CountTokens(k + 1, refBytes, measBytes, retained0, total0, samples0);
  }

  /**
   * The inner loop of `calculate_retention` over the tokens of line number
   * `lineNum`: it visits the aligned positions in order and counts each pair.
   */
  method CountTokens(lineNum: nat, refBytes: seq<string>, measBytes: seq<string>,
                     retained0: nat, total0: nat, samples0: seq<Sample>)
    returns (retained: nat, total: nat, samples: seq<Sample>)
    ensures Tally(retained, total, samples)
         == CountPairs(Tally(retained0, total0, samples0), LinePairs(lineNum, refBytes, measBytes))
  {
    var minLen := Min(|refBytes|, |measBytes|);
    ghost var start := Tally(retained0, total0, samples0);
    ghost var row := LinePairs(lineNum, refBytes, measBytes);
    retained, total, samples := retained0, total0, samples0;
    assert row[..0] == [];
    for idx := 0 to minLen
      invariant Tally(retained, total, samples) == CountPairs(start, row[..idx])
    {
      CountPairsOneMore(start, row, idx);
      total := total + 1;
      if refBytes[idx] == measBytes[idx] {
        retained := retained + 1;
      } else if |samples| < MaxSamples {
        samples := samples + [Sample(lineNum, idx + 1, refBytes[idx], measBytes[idx])];
      }
    }
    assert row[..minLen] == row;
  }

  /**
   * The counters after one more visited pair: `total` grows by 1, `retained`
   * by 1 when the tokens are equal, and a mismatch is appended to the
   * samples while fewer than `MaxSamples` are kept.
   */
  function CountPair(t: Tally, p: Sample): Tally {
    Tally(t.retained + (if IsMismatch(p) then 0 else 1),
          t.total + 1,
          if IsMismatch(p) && |t.samples| < MaxSamples then t.samples + [p] else t.samples)
  }

  /** The counters after visiting the pairs `ps`, one after the other, starting from `t`. */
  function CountPairs(t: Tally, ps: seq<Sample>): Tally {
    if ps == [] then t else CountPair(CountPairs(t, ps[..|ps| - 1]), ps[|ps| - 1])
  }

  /** The counters the loops of `calculate_retention` hold after the first `k` lines. */
  function RunningTally(ref: seq<seq<string>>, meas: seq<seq<string>>, k: nat): Tally
    requires k <= |ref| && k <= |meas|
    decreases k, 1
  {
    if k == 0 then Tally(0, 0, []) else TallyAfterLine(ref, meas, k)
  }

  /** The counters after line `k`: those after the lines before it, then its pairs counted. */
  function TallyAfterLine(ref: seq<seq<string>>, meas: seq<seq<string>>, k: nat): Tally
    requires 0 < k <= |ref| && k <= |meas|
    decreases k, 0
  {
    CountPairs(RunningTally(ref, meas, k - 1), LinePairs(k, ref[k - 1], meas[k - 1]))
  }

  /** Counting one more pair of a row extends the count of the pairs before it. */
  lemma CountPairsOneMore(t: Tally, row: seq<Sample>, i: nat)
    requires i < |row|
    ensures CountPairs(t, row[..i + 1]) == CountPair(CountPairs(t, row[..i]), row[i])
  {
    assert row[..i + 1][..i] == row[..i];
  }

  /** Counting one more pair is summarising one more visited pair. */
  lemma SummaryCountPair(ps: seq<Sample>, p: Sample)
    ensures Summary(ps + [p]) == CountPair(Summary(ps), p)
  {
    SummaryAppend(ps, p);
  }

  /** Counting the pairs `qs` after the pairs `ps` is summarising `ps + qs`. */
  lemma {:induction false} SummaryCountPairs(ps: seq<Sample>, qs: seq<Sample>)
    ensures CountPairs(Summary(ps), qs) == Summary(ps + qs)
  {
    if qs == [] {
      assert ps + qs == ps;
    } else {
      var q := qs[|qs| - 1];
      SummaryCountPairs(ps, qs[..|qs| - 1]);
      assert ps + qs == (ps + qs[..|qs| - 1]) + [q];
      SummaryCountPair(ps + qs[..|qs| - 1], q);
    }
  }

  /** The running counters after `k` lines are the summary of the pairs of those lines. */
  lemma {:induction false} RunningTallyIsSummary(ref: seq<seq<string>>, meas: seq<seq<string>>, k: nat)
    requires k <= |ref| && k <= |meas|
    ensures RunningTally(ref, meas, k) == Summary(AlignedUpTo(ref, meas, k))
  {
    if k > 0 {
      RunningTallyIsSummary(ref, meas, k - 1);
      NextLineSummary(ref, meas, k);
    } else {
      NothingCounted(ref, meas);
    }
  }

  /** Before the first line, nothing is counted. */
  lemma NothingCounted(ref: seq<seq<string>>, meas: seq<seq<string>>)
    ensures RunningTally(ref, meas, 0) == Summary(AlignedUpTo(ref, meas, 0))
  {
    assert FirstSamples(Mismatches([])) == [];
  }

  /** Counting the pairs of line `k` turns the summary of the lines before it into that of the first `k` lines. */
  lemma NextLineSummary(ref: seq<seq<string>>, meas: seq<seq<string>>, k: nat)
    requires 0 < k <= |ref| && k <= |meas|
    requires RunningTally(ref, meas, k - 1) == Summary(AlignedUpTo(ref, meas, k - 1))
    ensures RunningTally(ref, meas, k) == Summary(AlignedUpTo(ref, meas, k))
  {
    SummaryCountPairs(AlignedUpTo(ref, meas, k - 1), LinePairs(k, ref[k - 1], meas[k - 1]));
  }

  /** Once every common line is done, the counters are those of the whole comparison. */
  lemma AllLinesCounted(refLines: seq<string>, measLines: seq<string>, retained: nat, total: nat, samples: seq<Sample>)
    requires Tally(retained, total, samples) == RunningTally(NormalizeAll(refLines), NormalizeAll(measLines), Min(|refLines|, |measLines|))
    ensures Tally(retained, total, samples) == CompareLines(refLines, measLines)
    ensures retained <= total
    ensures |samples| == Min(MaxSamples, total - retained)
  {
    RunningTallyIsSummary(NormalizeAll(refLines), NormalizeAll(measLines), Min(|refLines|, |measLines|));
  }

  // ---------------------------------------------------------------------------
  // Counting
  // ---------------------------------------------------------------------------

  /**
   * One more visited pair adds 1 to `total`, 1 to `retained` when its tokens
   * are equal, and is appended to the samples when they differ and fewer
   * than `MaxSamples` are kept.
   */
  lemma SummaryAppend(ps: seq<Sample>, p: Sample)
    ensures CountRetained(ps + [p]) == CountRetained(ps) + (if IsMismatch(p) then 0 else 1)
    ensures var samples := FirstSamples(Mismatches(ps));
      FirstSamples(Mismatches(ps + [p])) ==
        if IsMismatch(p) && |samples| < MaxSamples then samples + [p] else samples
  {
    assert (ps + [p])[..|ps|] == ps;
    var mis := Mismatches(ps);
    if IsMismatch(p) && |mis| < MaxSamples {
      assert (mis + [p])[..Min(MaxSamples, |mis| + 1)] == mis[..Min(MaxSamples, |mis|)] + [p];
    } else if IsMismatch(p) {
      assert (mis + [p])[..MaxSamples] == mis[..MaxSamples];
    }
  }

  /** Every visited pair is either retained or a mismatch. */
  lemma {:induction false} RetainedPlusMismatches(ps: seq<Sample>)
    ensures CountRetained(ps) + |Mismatches(ps)| == |ps|
  {
    if ps != [] {
      RetainedPlusMismatches(ps[..|ps| - 1]);
    }
  }

  /**
   * The counters are bounded, `total - retained` is the number of mismatches,
   * and the samples are as many as `MaxSamples` allows of them, so there are
   * none exactly when every pair was retained.
   */
  lemma CountsAndSamples(ref: seq<seq<string>>, meas: seq<seq<string>>)
    ensures var t := Compare(ref, meas);
      && t.retained <= t.total
      && t.total - t.retained == |Mismatches(Aligned(ref, meas))|
      && |t.samples| == Min(MaxSamples, t.total - t.retained)
      && |t.samples| <= MaxSamples
      && (t.samples == [] <==> t.retained == t.total)
  {
    RetainedPlusMismatches(Aligned(ref, meas));
  }

  /** Sum over the first `k` lines of the shorter token count of each line. */
  function SumOfMinima(ref: seq<seq<string>>, meas: seq<seq<string>>, k: nat): nat
    requires k <= |ref| && k <= |meas|
  {
    if k == 0 then 0 else SumOfMinima(ref, meas, k - 1) + Min(|ref[k - 1]|, |meas[k - 1]|)
  }

  lemma {:induction false} AlignedUpToLength(ref: seq<seq<string>>, meas: seq<seq<string>>, k: nat)
    requires k <= |ref| && k <= |meas|
    ensures |AlignedUpTo(ref, meas, k)| == SumOfMinima(ref, meas, k)
  {
    if k > 0 {
      AlignedUpToLength(ref, meas, k - 1);
    }
  }

  /**
   * `total` is the sum, over the common lines, of the shorter token count:
   * surplus lines and surplus tokens of the longer capture are never counted.
   */
  lemma TotalIsSumOfMinima(ref: seq<seq<string>>, meas: seq<seq<string>>)
    ensures Compare(ref, meas).total == SumOfMinima(ref, meas, Min(|ref|, |meas|))
  {
    AlignedUpToLength(ref, meas, Min(|ref|, |meas|));
  }

  lemma {:induction false} SumOfMinimaZero(ref: seq<seq<string>>, meas: seq<seq<string>>, k: nat)
    requires k <= |ref| && k <= |meas|
    ensures SumOfMinima(ref, meas, k) == 0 <==> forall i :: 0 <= i < k ==> ref[i] == [] || meas[i] == []
  {
    if k > 0 {
      SumOfMinimaZero(ref, meas, k - 1);
    }
  }

  /**
   * Nothing is counted, and the rate is the guarded 0, exactly when no common
   * line has a token in both captures (for instance when either is empty).
   */
  lemma ZeroTotalGuard(ref: seq<seq<string>>, meas: seq<seq<string>>)
    ensures var t := Compare(ref, meas);
      && (t.total == 0 <==> forall i :: 0 <= i < Min(|ref|, |meas|) ==> ref[i] == [] || meas[i] == [])
      && (t.total == 0 ==> RetentionRate(t.retained, t.total) == 0.0 && t.samples == [])
  {
    TotalIsSumOfMinima(ref, meas);
    SumOfMinimaZero(ref, meas, Min(|ref|, |meas|));
    CountsAndSamples(ref, meas);
  }

  // ---------------------------------------------------------------------------
  // Which pairs are visited, and in what order
  // ---------------------------------------------------------------------------

  /** The first `k` lines contribute exactly the aligned positions on those lines. */
  lemma {:induction false} AlignedUpToMembers(ref: seq<seq<string>>, meas: seq<seq<string>>, k: nat, p: Sample)
    requires k <= |ref| && k <= |meas|
    ensures p in AlignedUpTo(ref, meas, k) <==> IsAlignedAt(ref, meas, p) && p.line <= k
  {
    if k > 0 {
      AlignedUpToMembers(ref, meas, k - 1, p);
      var row := LinePairs(k, ref[k - 1], meas[k - 1]);
      if IsAlignedAt(ref, meas, p) && p.line == k {
        assert row[p.byte - 1] == p;
      }
    }
  }

  /** Exactly the positions inside both captures are visited. */
  lemma AlignedMembers(ref: seq<seq<string>>, meas: seq<seq<string>>, p: Sample)
    ensures p in Aligned(ref, meas) <==> IsAlignedAt(ref, meas, p)
  {
    AlignedUpToMembers(ref, meas, Min(|ref|, |meas|), p);
  }

  lemma OrderedConcat(a: seq<Sample>, b: seq<Sample>)
    requires Ordered(a) && Ordered(b)
    requires forall x, y :: x in a && y in b ==> Before(x, y)
    ensures Ordered(a + b)
  {
    forall i, j | 0 <= i < j < |a + b| ensures Before((a + b)[i], (a + b)[j]) {
      if j < |a| {
      } else if i < |a| {
        assert (a + b)[i] in a && (a + b)[j] in b;
      }
    }
  }

  /** The loops visit positions in strictly increasing line-major, byte-minor order. */
  lemma {:induction false} AlignedUpToOrdered(ref: seq<seq<string>>, meas: seq<seq<string>>, k: nat)
    requires k <= |ref| && k <= |meas|
    ensures Ordered(AlignedUpTo(ref, meas, k))
  {
    if k > 0 {
      AlignedUpToOrdered(ref, meas, k - 1);
      var done := AlignedUpTo(ref, meas, k - 1);
      var row := LinePairs(k, ref[k - 1], meas[k - 1]);
      forall x, y | x in done && y in row ensures Before(x, y) {
        AlignedUpToMembers(ref, meas, k - 1, x);
      }
      OrderedConcat(done, row);
    }
  }

  lemma {:induction false} MismatchesMembers(ps: seq<Sample>, p: Sample)
    ensures p in Mismatches(ps) <==> p in ps && IsMismatch(p)
  {
    if ps != [] {
      MismatchesMembers(ps[..|ps| - 1], p);
      assert ps == ps[..|ps| - 1] + [ps[|ps| - 1]];
    }
  }

  /** Filtering keeps the order. */
  lemma {:induction false} MismatchesOrdered(ps: seq<Sample>)
    requires Ordered(ps)
    ensures Ordered(Mismatches(ps))
  {
    if ps != [] {
      var init := ps[..|ps| - 1];
      var last := ps[|ps| - 1];
      assert Ordered(init);
      MismatchesOrdered(init);
      forall x, y | x in Mismatches(init) && y in [last] ensures Before(x, y) {
        MismatchesMembers(init, x);
        var i :| 0 <= i < |init| && init[i] == x;
      }
      OrderedConcat(Mismatches(init), if IsMismatch(last) then [last] else []);
    }
  }

  /**
   * The samples are exactly the first mismatches: each is a visited position
   * whose tokens differ, they are in line-major, byte-minor order, and a
   * mismatch that is not among them only occurs once `MaxSamples` are kept,
   * after all of them.
   */
  lemma SamplesAreFirstMismatches(ref: seq<seq<string>>, meas: seq<seq<string>>)
    ensures var t := Compare(ref, meas);
      && (forall s :: s in t.samples ==> IsAlignedAt(ref, meas, s) && IsMismatch(s))
      && Ordered(t.samples)
      && (forall q :: IsAlignedAt(ref, meas, q) && IsMismatch(q) && q !in t.samples ==>
            |t.samples| == MaxSamples && forall s :: s in t.samples ==> Before(s, q))
  {
    var ps := Aligned(ref, meas);
    var mis := Mismatches(ps);
    var m := Min(MaxSamples, |mis|);
    var samples := FirstSamples(mis);
    assert Compare(ref, meas).samples == samples;
    AlignedUpToOrdered(ref, meas, Min(|ref|, |meas|));
    MismatchesOrdered(ps);
    forall s | s in samples ensures IsAlignedAt(ref, meas, s) && IsMismatch(s) {
      MismatchesMembers(ps, s);
      AlignedMembers(ref, meas, s);
    }
    forall q | IsAlignedAt(ref, meas, q) && IsMismatch(q) && q !in samples
      ensures |samples| == MaxSamples && forall s :: s in samples ==> Before(s, q)
    {
      AlignedMembers(ref, meas, q);
      MismatchesMembers(ps, q);
      var j :| 0 <= j < |mis| && mis[j] == q;
      assert forall i :: 0 <= i < m ==> mis[i] in samples;
      forall s | s in samples ensures Before(s, q) {
        var i :| 0 <= i < m && samples[i] == s;
      }
    }
  }

  // ---------------------------------------------------------------------------
  // Prefix-only alignment
  // ---------------------------------------------------------------------------

  /** The pairs of the first `k` lines depend only on the pairs each of those lines yields. */
  lemma {:induction false} AlignedUpToCongruent(
    ref: seq<seq<string>>, meas: seq<seq<string>>,
    ref': seq<seq<string>>, meas': seq<seq<string>>, k: nat)
    requires k <= |ref| && k <= |meas| && k <= |ref'| && k <= |meas'|
    requires forall i :: 0 <= i < k ==>
      LinePairs(i + 1, ref[i], meas[i]) == LinePairs(i + 1, ref'[i], meas'[i])
    ensures AlignedUpTo(ref, meas, k) == AlignedUpTo(ref', meas', k)
  {
    if k > 0 {
      AlignedUpToCongruent(ref, meas, ref', meas', k - 1);
    }
  }

  /** Only the common prefix of lines is compared. */
  lemma CommonLinesOnly(ref: seq<seq<string>>, meas: seq<seq<string>>)
    ensures var n := Min(|ref|, |meas|);
      Compare(ref, meas) == Compare(ref[..n], meas[..n])
  {
    var n := Min(|ref|, |meas|);
    AlignedUpToCongruent(ref, meas, ref[..n], meas[..n], n);
  }

  /** Lines the measured capture has beyond the reference have no effect. */
  lemma ExtraMeasuredLinesIgnored(ref: seq<seq<string>>, meas: seq<seq<string>>, extra: seq<seq<string>>)
    requires |ref| <= |meas|
    ensures Compare(ref, meas + extra) == Compare(ref, meas)
  {
    AlignedUpToCongruent(ref, meas + extra, ref, meas, |ref|);
  }

  /** Lines the reference has beyond the measured capture have no effect. */
  lemma ExtraReferenceLinesIgnored(ref: seq<seq<string>>, meas: seq<seq<string>>, extra: seq<seq<string>>)
    requires |meas| <= |ref|
    ensures Compare(ref + extra, meas) == Compare(ref, meas)
  {
    AlignedUpToCongruent(ref + extra, meas, ref, meas, |meas|);
  }

  /** Tokens a measured line has beyond the reference line have no effect. */
  lemma ExtraTokensIgnored(ref: seq<seq<string>>, meas: seq<seq<string>>, line: nat, extra: seq<string>)
    requires line < |ref| && line < |meas|
    requires |ref[line]| <= |meas[line]|
    ensures Compare(ref, meas[line := meas[line] + extra]) == Compare(ref, meas)
  {
    var meas' := meas[line := meas[line] + extra];
    var n := Min(|ref|, |meas|);
    forall i | 0 <= i < n
      ensures LinePairs(i + 1, ref[i], meas'[i]) == LinePairs(i + 1, ref[i], meas[i])
    {
      if i == line {
        assert forall j :: 0 <= j < |ref[i]| ==> meas'[i][j] == meas[i][j];
      }
    }
    AlignedUpToCongruent(ref, meas', ref, meas, n);
  }

  /** Tokens a reference line has beyond the measured line have no effect. */
  lemma ExtraReferenceTokensIgnored(ref: seq<seq<string>>, meas: seq<seq<string>>, line: nat, extra: seq<string>)
    requires line < |ref| && line < |meas|
    requires |meas[line]| <= |ref[line]|
    ensures Compare(ref[line := ref[line] + extra], meas) == Compare(ref, meas)
  {
    var ref' := ref[line := ref[line] + extra];
    var n := Min(|ref|, |meas|);
    forall i | 0 <= i < n
      ensures LinePairs(i + 1, ref'[i], meas[i]) == LinePairs(i + 1, ref[i], meas[i])
    {
      if i == line {
        assert forall j :: 0 <= j < |meas[i]| ==> ref'[i][j] == ref[i][j];
      }
    }
    AlignedUpToCongruent(ref', meas, ref, meas, n);
  }

  // ---------------------------------------------------------------------------
  // Identity and case
  // ---------------------------------------------------------------------------

  lemma SelfMismatchesEmpty(rows: seq<seq<string>>, k: nat)
    requires k <= |rows|
    ensures Mismatches(AlignedUpTo(rows, rows, k)) == []
  {
    var ps := AlignedUpTo(rows, rows, k);
    if Mismatches(ps) != [] {
      var p := Mismatches(ps)[0];
      MismatchesMembers(ps, p);
      AlignedUpToMembers(rows, rows, k, p);
    }
  }

  /** A capture compared with itself retains every pair and logs no sample. */
  lemma SelfComparison(rows: seq<seq<string>>)
    ensures var t := Compare(rows, rows);
      t.retained == t.total && t.samples == []
  {
    SelfMismatchesEmpty(rows, |rows|);
    RetainedPlusMismatches(Aligned(rows, rows));
  }

  /** Every line upper-cased. */
  function UpperAll(lines: seq<string>): seq<string> {
    seq(|lines|, i requires 0 <= i < |lines| => Upper(lines[i]))
  }

  /** Upper-casing either capture first does not change the result. */
  lemma CaseIgnored(refLines: seq<string>, measLines: seq<string>)
    ensures CompareLines(UpperAll(refLines), measLines) == CompareLines(refLines, measLines)
    ensures CompareLines(refLines, UpperAll(measLines)) == CompareLines(refLines, measLines)
  {
    forall i | 0 <= i < |refLines| ensures Normalize(UpperAll(refLines)[i]) == Normalize(refLines[i]) {
      NormalizeIgnoresCase(refLines[i]);
    }
    forall i | 0 <= i < |measLines| ensures Normalize(UpperAll(measLines)[i]) == Normalize(measLines[i]) {
      NormalizeIgnoresCase(measLines[i]);
    }
    NormalizeAllAlike(UpperAll(refLines), refLines);
    NormalizeAllAlike(UpperAll(measLines), measLines);
  }

  /** Captures that differ only in the case of letters retain every pair. */
  lemma CaseOnlyDifferencesRetained(refLines: seq<string>, measLines: seq<string>)
    requires UpperAll(refLines) == UpperAll(measLines)
    ensures var t := CompareLines(refLines, measLines);
      t.retained == t.total && t.samples == []
  {
    CaseIgnored(refLines, measLines);
    CaseIgnored(measLines, measLines);
    assert CompareLines(refLines, measLines) == CompareLines(UpperAll(refLines), measLines);
    assert CompareLines(measLines, measLines) == CompareLines(UpperAll(measLines), measLines);
    SelfComparison(NormalizeAll(measLines));
  }

  /** Comparing raw lines with themselves gives the rate 1, or 0 when nothing is aligned. */
  lemma SelfComparisonRate(lines: seq<string>)
    ensures var t := CompareLines(lines, lines);
      RetentionRate(t.retained, t.total) == (if t.total == 0 then 0.0 else 1.0)
  {
    SelfComparison(NormalizeAll(lines));
  }
}
