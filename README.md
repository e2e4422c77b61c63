# DRAM retention analyzer, modelled in Dafny

The retention analyzer compares a reference hex dump of DRAM contents with
one or more measured dumps. Each dump is a text file: one line per record,
each line a whitespace-separated list of hexadecimal byte tokens. For each
measured file the analyzer:

- pairs lines by position, up to the shorter file;
- normalises each line with `strip().upper().split()`;
- pairs tokens by position, up to the shorter line;
- counts every aligned pair (`total`) and every equal pair (`retained`);
- logs the first five mismatching pairs, each with its 1-based line number
  and 1-based byte position;
- reports `retained / total` as the retention rate, or 0 when nothing was
  compared.

The batch loop of `main` runs this comparison for every measured file. A
comparison that raises an exception gives the entry `(file, 0.0, [message])`,
and the loop goes on with the next file.

The project has three modules:

- `text.dfy`, module `Text`: the line normalisation. Python's `str.strip()`,
  `str.upper()` and `str.split()` on `seq<char>`, using Python's whitespace
  set (`str.isspace`). Upper-casing is modelled on ASCII letters only.
- `retention.dfy`, module `Retention`: `calculate_retention`.
  - `Compare` is the specification. It is a function over token rows
    (`seq<seq<string>>`). It lists the aligned pairs in
    line-major, byte-minor order and summarises them as
    `Tally(retained, total, samples)`.
  - `CalculateRetention` is the source's nested loop over raw lines, split
    into `CountLine` (the outer loop's body) and `CountTokens` (the inner
    loop). The loops are proved against `RunningTally`, the counters after
    the first k lines, and `RunningTally` is proved equal to the summary of
    those lines' pairs. So the result is `CompareLines`, which is `Compare`
    applied after normalisation.
  - The lemmas state the counting, ordering, capping, prefix, identity and
    case properties of the specification.
- `batch.dfy`, module `Batch`: the per-file loop of `main`.
  - Reading a file is given as a `Capture`: either `Read(lines)` or
    `Unreadable(message)`.
  - `AnalyzeAll` is the loop. It is proved equal to `Results`, which holds
    one `EntryFor` per measured file.

The sample cap is the constant 5 written in the code (`MaxSamples`); the
comparison has no cap parameter.

Mismatch samples are the record `Sample(line, byte, refTok, measTok)`. The
source formats them as `"Line l, Byte b: Ref=x vs Meas=y"`; the model keeps
the record instead. The rate is a `real`, computed from the two natural
counters.

The other two scripts of the repository are not part of this model:
`BER Analysis/dram_ber_calculator.py` and
`Hexadecimal to Binary/hex_to_bin.py`.

## Model

| member | source | states |
|---|---|---|
| `Text.UpperChar` | Retention/dram_retention_analyzer.py:24-25 | a lower-case ASCII letter becomes exactly its capital; every other character is kept; no lower-case letter is left, and whitespace stays whitespace |
| `Text.Upper` | Retention/dram_retention_analyzer.py:24-25 | `upper()` keeps the length, replaces each lower-case ASCII letter by its capital at the same position, keeps every other character, and leaves no lower-case letter |
| `Text.UpperCharAlike` | Retention/dram_retention_analyzer.py:24-25 | two characters upper-case alike exactly when they are equal up to ASCII case |
| `Text.StripLeft` | Retention/dram_retention_analyzer.py:24-25 | `lstrip()` removes only whitespace, and what is left is empty or starts with a non-space |
| `Text.StripRight` | Retention/dram_retention_analyzer.py:24-25 | `rstrip()` removes only whitespace, and what is left is empty or ends with a non-space |
| `Text.StripLeftIsSuffix` | Retention/dram_retention_analyzer.py:24-25 | `lstrip()` returns a suffix of the line |
| `Text.StripRightIsPrefix` | Retention/dram_retention_analyzer.py:24-25 | `rstrip()` returns a prefix of the line |
| `Text.Strip` | Retention/dram_retention_analyzer.py:24-25 | `strip()` leaves a line that is empty or starts and ends with a non-space, and it is empty exactly when the line is all whitespace |
| `Text.WordLength` | Retention/dram_retention_analyzer.py:24-25 | the leading word is space-free and is followed by whitespace or the end of the line |
| `Text.Split` | Retention/dram_retention_analyzer.py:24-25 | `split()` yields only nonempty tokens without whitespace |
| `Text.SplitSkipsSpace` | Retention/dram_retention_analyzer.py:24-25 | any whitespace character before the first token (space, tab, newline, carriage return and the rest of Python's set) is dropped by `split()` |
| `Text.SplitBlank` | Retention/dram_retention_analyzer.py:24-25 | `split()` yields no token exactly when the line is all whitespace |
| `Text.Normalize` | Retention/dram_retention_analyzer.py:24-25 | a normalised line is a list of nonempty tokens with no whitespace of any kind and no lower-case letter |
| `Text.SplitNoLower` | Retention/dram_retention_analyzer.py:24-25 | splitting an upper-cased line yields upper-cased tokens |
| `Text.SplitJoinWords` | Retention/dram_retention_analyzer.py:24-25 | round trip: splitting tokens joined by single spaces gives the tokens back |
| `Text.SplitFirstWord` | Retention/dram_retention_analyzer.py:24-25 | a space-free word followed by the end of the line or by whitespace is split off as the first token |
| `Text.UpperStripLeft` | Retention/dram_retention_analyzer.py:24-25 | upper-casing commutes with `lstrip()` |
| `Text.UpperStripRight` | Retention/dram_retention_analyzer.py:24-25 | upper-casing commutes with `rstrip()` |
| `Text.NormalizeIgnoresCase` | Retention/dram_retention_analyzer.py:24-25 | a line and its upper-cased copy normalise to the same tokens |
| `Text.NormalizeCaseInsensitive` | Retention/dram_retention_analyzer.py:24-25 | two lines equal up to ASCII case normalise to the same tokens |
| `Text.NormalizeJoinWords` | Retention/dram_retention_analyzer.py:24-25 | a well-formed line of upper-case tokens separated by single spaces normalises to exactly those tokens |
| `Retention.RetentionRate` | Retention/dram_retention_analyzer.py:44 | the rate is 0 when `total` is 0; otherwise `rate * total == retained`; it lies in [0, 1], and it is 1 exactly when something was compared and all of it was retained |
| `Retention.CalculateRetention` | Retention/dram_retention_analyzer.py:15-45 | the nested loop ends with the counters and samples of `CompareLines`, the guarded rate, `retained <= total`, and `min(5, total - retained)` samples |
| `Retention.CountLine` | Retention/dram_retention_analyzer.py:22-42 | one pass of the outer loop normalises line k+1 of both captures and takes the running counters and samples from those after k lines to those after k+1 lines |
| `Retention.CountTokens` | Retention/dram_retention_analyzer.py:28-42 | the inner loop over one line ends with the counters and samples reached by counting that line's aligned pairs in order, starting from the counters it was given |
| `Retention.CountPairsOneMore` | Retention/dram_retention_analyzer.py:33-42 | visiting one more pair of a line counts it on top of the pairs before it |
| `Retention.SummaryCountPair` | Retention/dram_retention_analyzer.py:33-42 | counting one more pair with the loop body's rule gives the summary of the pairs visited so far plus that pair |
| `Retention.SummaryCountPairs` | Retention/dram_retention_analyzer.py:28-42 | counting a line's pairs after some visited pairs gives the summary of all of them together |
| `Retention.RunningTallyIsSummary` | Retention/dram_retention_analyzer.py:22-42 | the counters the loops hold after k lines are the summary of the aligned pairs of those k lines |
| `Retention.NothingCounted` | Retention/dram_retention_analyzer.py:17-19 | the counters start at 0 with no samples, the summary of no pairs |
| `Retention.NextLineSummary` | Retention/dram_retention_analyzer.py:22-42 | finishing line k turns the summary of the lines before it into the summary of the first k lines |
| `Retention.AllLinesCounted` | Retention/dram_retention_analyzer.py:22-45 | once every common line is done, the counters and samples are those of `CompareLines`, with `retained <= total` and `min(5, total - retained)` samples |
| `Retention.SummaryAppend` | Retention/dram_retention_analyzer.py:33-42 | each aligned pair adds 1 to `total` and 1 to `retained` only when its tokens are equal; a mismatch is appended to the samples only while fewer than 5 are kept |
| `Retention.RetainedPlusMismatches` | Retention/dram_retention_analyzer.py:33-37 | every visited pair is either retained or a mismatch |
| `Retention.Compare` | Retention/dram_retention_analyzer.py:15-45 | comparing two token rows gives `retained <= total` and `min(5, total - retained)` samples |
| `Retention.CompareLines` | Retention/dram_retention_analyzer.py:15-45 | comparing two raw captures after normalisation gives `retained <= total` and `min(5, total - retained)` samples |
| `Retention.NormalizeAllAt` | Retention/dram_retention_analyzer.py:24-25 | row i of the normalised capture is line i normalised |
| `Retention.NormalizeAllAlike` | Retention/dram_retention_analyzer.py:24-25 | captures whose lines normalise alike, one by one, give the same rows |
| `Retention.CountsAndSamples` | Retention/dram_retention_analyzer.py:17-19 | `retained <= total`; `total - retained` is the number of mismatches; there are `min(5, total - retained)` samples, so never more than 5, and none exactly when all pairs were retained |
| `Retention.AlignedUpToLength` | Retention/dram_retention_analyzer.py:28-34 | the first k lines contribute the sum of their shorter token counts |
| `Retention.TotalIsSumOfMinima` | Retention/dram_retention_analyzer.py:22-34 | `total` is the sum, over the common lines, of the shorter token count; extra lines and extra tokens are never counted |
| `Retention.SumOfMinimaZero` | Retention/dram_retention_analyzer.py:28-34 | that sum is 0 exactly when each common line is empty in one of the two captures |
| `Retention.ZeroTotalGuard` | Retention/dram_retention_analyzer.py:44 | `total` is 0 exactly when no common line has tokens in both captures; the rate is then 0 and there are no samples |
| `Retention.AlignedUpToMembers` | Retention/dram_retention_analyzer.py:22-33 | the first k lines yield exactly the aligned positions on those lines, with their tokens |
| `Retention.AlignedMembers` | Retention/dram_retention_analyzer.py:22-33 | the visited pairs are exactly the positions inside both captures, with the tokens found there |
| `Retention.AlignedUpToOrdered` | Retention/dram_retention_analyzer.py:22-33 | the loops visit positions in strictly increasing line-major, byte-minor order |
| `Retention.MismatchesMembers` | Retention/dram_retention_analyzer.py:35-38 | the mismatches are exactly the visited pairs whose tokens differ |
| `Retention.MismatchesOrdered` | Retention/dram_retention_analyzer.py:35-38 | filtering out the retained pairs preserves the visiting order |
| `Retention.SamplesAreFirstMismatches` | Retention/dram_retention_analyzer.py:33-42 | each sample is a visited mismatching position with its 1-based line and byte (`idx+1`) and both tokens; the samples are in line-major, byte-minor order; a mismatch left out is only left out once 5 are kept, and it comes after all of them |
| `Retention.AlignedUpToCongruent` | Retention/dram_retention_analyzer.py:22-33 | the pairs of the first k lines depend only on what each of those lines yields |
| `Retention.CommonLinesOnly` | Retention/dram_retention_analyzer.py:22 | comparing two captures equals comparing their common prefixes of lines |
| `Retention.ExtraMeasuredLinesIgnored` | Retention/dram_retention_analyzer.py:22 | lines of the measured capture beyond the reference's length have no effect |
| `Retention.ExtraReferenceLinesIgnored` | Retention/dram_retention_analyzer.py:22 | lines of the reference beyond the measured capture's length have no effect |
| `Retention.ExtraTokensIgnored` | Retention/dram_retention_analyzer.py:28-33 | tokens a measured line has beyond the length of the reference line have no effect |
| `Retention.ExtraReferenceTokensIgnored` | Retention/dram_retention_analyzer.py:28-33 | tokens a reference line has beyond the length of the measured line have no effect |
| `Retention.SelfMismatchesEmpty` | Retention/dram_retention_analyzer.py:35-38 | a capture compared with itself has no mismatching pair |
| `Retention.SelfComparison` | Retention/dram_retention_analyzer.py:35-38 | a capture compared with itself has `retained == total` and an empty sample list |
| `Retention.CaseIgnored` | Retention/dram_retention_analyzer.py:24-25 | upper-casing either capture before the comparison does not change the result |
| `Retention.CaseOnlyDifferencesRetained` | Retention/dram_retention_analyzer.py:24-36 | captures that differ only in letter case retain every pair and log no sample |
| `Retention.SelfComparisonRate` | Retention/dram_retention_analyzer.py:44 | a file compared with itself has rate 1, or the guarded 0 when nothing is aligned |
| `Batch.EntryFor` | Retention/dram_retention_analyzer.py:85-91 | an unreadable reference, or else an unreadable measured file, gives `(file, 0.0, [message])`; a completed comparison gives a rate in [0, 1] and at most 5 mismatch notes |
| `Batch.Results` | Retention/dram_retention_analyzer.py:81-91 | one entry per measured file, in order, each naming its file, with a rate in [0, 1] and at most 5 notes |
| `Batch.AnalyzeAll` | Retention/dram_retention_analyzer.py:81-91 | the results have exactly one entry per measured file, in `MEASURED_FILES` order, each the entry for that file |
| `Batch.ResultsConcat` | Retention/dram_retention_analyzer.py:83-91 | processing two lists of files one after the other gives the concatenation of their results |
| `Batch.FailureDoesNotStopBatch` | Retention/dram_retention_analyzer.py:85-91 | an unreadable measured file contributes `(file, 0.0, [message])` and leaves the entries before and after it unchanged |
| `Batch.UnreadableReference` | Retention/dram_retention_analyzer.py:21 | when the reference cannot be read, every entry is an error entry carrying that message |

## Left out

- Opening and reading the files (`with open(...)`, iterating a file by
  lines). A file is given as its list of lines, or as the message of the
  exception reading it raised. The source opens the reference again for
  every measured file; the model assumes every read of it has the same
  outcome.
- Exceptions other than a failed read (a decoding error half-way through a
  file, say). They are folded into `Unreadable`, since `main` treats every
  exception the same way.
- The console output: the length-mismatch message at line 30 and the
  progress and error messages in `main`.
- `generate_report` (report file writing with `%` formatting) and
  `plot_retention` (matplotlib rendering). Both are output rendering; the
  model stops at the `results` list they consume.
- The hard-coded paths `DATA_DIR`, `REFERENCE_FILE`, `MEASURED_FILES`,
  `OUTPUT_FILE` and `PLOT_FILE`. The reference capture and the list of
  measured files are parameters of `Batch.AnalyzeAll`.
- Floating point: the rate is a Dafny `real`. When `total` is 0 the source
  returns the integer `0`; the model returns `0.0`.
- The formatted mismatch strings; the model keeps `Sample` records.
- `Text.UpperChar`: upper-cases only the ASCII letters `a`-`z`. Python's
  `str.upper()` also maps other letters, some of them to more than one
  character (`ß` becomes `SS`). This does not matter for hexadecimal dumps,
  which are ASCII.
