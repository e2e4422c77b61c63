/**
 * The batch loop of the analyzer's `main`: compare the reference capture with
 * each measured capture in turn, and record one entry per measured file. A
 * comparison that raises contributes a zero rate and the exception's message
 * instead of mismatch samples, and the loop goes on with the next file.
 *
 * Opening and reading a file is outside the model: each capture is given as
 * what reading it yields, its lines or the message of the exception raised.
 */
module Batch {
  import opened Retention

  /** What opening and reading a capture file yields. */
  datatype Capture = Read(lines: seq<string>) | Unreadable(message: string)

  /** One line of an entry's list: a mismatch sample, or the message of a failed comparison. */
  datatype Note = MismatchNote(sample: Sample) | ErrorNote(message: string)

  /** One element of `results`: the measured file, its retention rate and its notes. */
  datatype Entry = Entry(file: string, rate: real, notes: seq<Note>)

  function MismatchNotes(samples: seq<Sample>): (notes: seq<Note>)
    ensures |notes| == |samples|
    ensures forall i :: 0 <= i < |notes| ==> notes[i] == MismatchNote(samples[i])
  {
    seq(|samples|, i requires 0 <= i < |samples| => MismatchNote(samples[i]))
  }

  /**
   * The entry for one measured file. The reference is opened first, so when
   * both files are unreadable the message is the reference's.
   */
  function EntryFor(file: string, reference: Capture, measured: Capture): (e: Entry)
    ensures e.file == file
    ensures reference.Unreadable? ==> e == Entry(file, 0.0, [ErrorNote(reference.message)])
    ensures reference.Read? && measured.Unreadable? ==> e == Entry(file, 0.0, [ErrorNote(measured.message)])
    ensures reference.Read? && measured.Read? ==>
      && 0.0 <= e.rate <= 1.0
      && |e.notes| <= MaxSamples
      && (forall i :: 0 <= i < |e.notes| ==> e.notes[i].MismatchNote?)
  {
    match reference
    case Unreadable(msg) => Entry(file, 0.0, [ErrorNote(msg)])
    case Read(refLines) =>
      match measured
      case Unreadable(msg) => Entry(file, 0.0, [ErrorNote(msg)])
      case Read(measLines) =>
        var t := CompareLines(refLines, measLines);
        CountsAndSamples(NormalizeAll(refLines), NormalizeAll(measLines));
        Entry(file, RetentionRate(t.retained, t.total), MismatchNotes(t.samples))
  }

  /** The results list after processing the measured files: one entry per file, in order. */
  function Results(reference: Capture, measured: seq<(string, Capture)>): (results: seq<Entry>)
    ensures |results| == |measured|
    ensures forall i :: 0 <= i < |results| ==>
      && results[i].file == measured[i].0
      && 0.0 <= results[i].rate <= 1.0
      && |results[i].notes| <= MaxSamples
  {
    seq(|measured|, i requires 0 <= i < |measured| => EntryFor(measured[i].0, reference, measured[i].1))
  }

  /** The `for meas_file in MEASURED_FILES` loop with its `try`/`except`. */
  method AnalyzeAll(reference: Capture, measured: seq<(string, Capture)>) returns (results: seq<Entry>)
    ensures results == Results(reference, measured)
    ensures |results| == |measured|
    ensures forall i :: 0 <= i < |results| ==> results[i].file == measured[i].0
  {
    results := [];
    for i := 0 to |measured|
      invariant |results| == i
      invariant forall j :: 0 <= j < i ==> results[j] == EntryFor(measured[j].0, reference, measured[j].1)
    {
      var (file, capture) := measured[i];
      var entry: Entry;
      if reference.Unreadable? {
        entry := Entry(file, 0.0, [ErrorNote(reference.message)]);
      } else if capture.Unreadable? {
        entry := Entry(file, 0.0, [ErrorNote(capture.message)]);
      } else {
        var rate, samples, _, _ := CalculateRetention(reference.lines, capture.lines);
        entry := Entry(file, rate, MismatchNotes(samples));
      }
      results := results + [entry];
    }
  }

  /** Processing two lists of files one after the other is processing their concatenation. */
  lemma ResultsConcat(reference: Capture, first: seq<(string, Capture)>, second: seq<(string, Capture)>)
    ensures Results(reference, first + second) == Results(reference, first) + Results(reference, second)
  {
    var r, r1, r2 := Results(reference, first + second), Results(reference, first), Results(reference, second);
    forall i | 0 <= i < |r|
      ensures r[i] == (r1 + r2)[i]
    {
      if i < |first| {
        assert (first + second)[i] == first[i];
      } else {
        assert (first + second)[i] == second[i - |first|];
      }
    }
    assert r == r1 + r2;
  }

  /**
   * A measured file that cannot be read contributes `(file, 0.0, [message])`
   * and does not affect the entries of the files before or after it.
   */
  lemma FailureDoesNotStopBatch(reference: Capture, before: seq<(string, Capture)>,
                                file: string, message: string, after: seq<(string, Capture)>)
    requires reference.Read?
    ensures Results(reference, before + [(file, Unreadable(message))] + after)
         == Results(reference, before) + [Entry(file, 0.0, [ErrorNote(message)])] + Results(reference, after)
  {
    ResultsConcat(reference, before + [(file, Unreadable(message))], after);
    ResultsConcat(reference, before, [(file, Unreadable(message))]);
    assert Results(reference, [(file, Unreadable(message))]) == [Entry(file, 0.0, [ErrorNote(message)])] by {
      assert [(file, Unreadable(message))][..0] == [];
    }
  }

  /** An unreadable reference makes every entry an error entry with its message. */
  lemma UnreadableReference(message: string, measured: seq<(string, Capture)>)
    ensures var results := Results(Unreadable(message), measured);
      && |results| == |measured|
      && forall i :: 0 <= i < |measured| ==> results[i] == Entry(measured[i].0, 0.0, [ErrorNote(message)])
  {
  }
}
