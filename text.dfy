/**
 * The line normalisation the retention analyzer applies to every captured
 * line before comparing it: `line.strip().upper().split()`.
 *
 * The three string operations are Python built-ins; they are modelled here
 * on `seq<char>` with Python's own whitespace set (`str.isspace`, which
 * both `strip()` and `split()` use) and with upper-casing restricted to the
 * ASCII letters.
 */
module Text {

  /** Python's `str.isspace()`: the characters `strip()` removes and `split()` splits on. */
  predicate IsSpace(c: char) {
    || ('\t' <= c <= '\r')              // tab, line feed, vertical tab, form feed, carriage return
    || ('\U{1C}' <= c <= '\U{1F}')      // file, group, record and unit separators
    || c == ' '
    || c == '\U{85}'                    // next line
    || c == '\U{A0}'                    // no-break space
    || c == '\U{1680}'
    || ('\U{2000}' <= c <= '\U{200A}')
    || c == '\U{2028}' || c == '\U{2029}'
    || c == '\U{202F}' || c == '\U{205F}' || c == '\U{3000}'
  }

  predicate IsLowerAscii(c: char) { 'a' <= c <= 'z' }

  /** `str.upper()` on one character, restricted to ASCII. */
  function UpperChar(c: char): (u: char)
    ensures !IsLowerAscii(u)
    ensures IsSpace(u) <==> IsSpace(c)
    ensures !IsLowerAscii(c) ==> u == c
    ensures IsLowerAscii(c) ==> 'A' <= u <= 'Z' && u as int - 'A' as int == c as int - 'a' as int
  {
    if IsLowerAscii(c) then (c as int - 'a' as int + 'A' as int) as char else c
  }

  /** `str.upper()`: every lower-case ASCII letter replaced by its capital. */
  function Upper(s: string): (u: string)
    ensures |u| == |s|
    ensures NoLower(u)
    ensures forall i :: 0 <= i < |s| && !IsLowerAscii(s[i]) ==> u[i] == s[i]
    ensures forall i :: 0 <= i < |s| && IsLowerAscii(s[i]) ==>
      'A' <= u[i] <= 'Z' && u[i] as int - 'A' as int == s[i] as int - 'a' as int
  {
    seq(|s|, i requires 0 <= i < |s| => UpperChar(s[i]))
  }

  /** `c` and `d` are the same character up to the case of an ASCII letter. */
  predicate SameUpToCase(c: char, d: char) {
    || c == d
    || (IsLowerAscii(c) && d as int == c as int - 'a' as int + 'A' as int)
    || (IsLowerAscii(d) && c as int == d as int - 'a' as int + 'A' as int)
  }

  predicate NoSpace(s: string) {
    forall i :: 0 <= i < |s| ==> !IsSpace(s[i])
  }

  predicate NoLower(s: string) {
    forall i :: 0 <= i < |s| ==> !IsLowerAscii(s[i])
  }

  /** Nonempty words without whitespace: what `split()` produces. */
  predicate WellFormedWords(words: seq<string>) {
    forall i :: 0 <= i < |words| ==> words[i] != [] && NoSpace(words[i])
  }

  /** `str.lstrip()` with no argument. */
  function StripLeft(s: string): (t: string)
    ensures |t| <= |s|
    ensures t == [] || !IsSpace(t[0])
    ensures forall i :: 0 <= i < |s| - |t| ==> IsSpace(s[i])
  {
    if |s| > 0 && IsSpace(s[0]) then StripLeft(s[1..]) else s
  }

  /** `str.rstrip()` with no argument. */
  function StripRight(s: string): (t: string)
    ensures |t| <= |s|
    ensures t == [] || !IsSpace(t[|t| - 1])
    ensures forall i :: |t| <= i < |s| ==> IsSpace(s[i])
  {
    if |s| > 0 && IsSpace(s[|s| - 1]) then StripRight(s[..|s| - 1]) else s
  }

  /** `str.strip()` with no argument. */
  function Strip(s: string): (t: string)
    ensures |t| <= |s|
    ensures t == [] || (!IsSpace(t[0]) && !IsSpace(t[|t| - 1]))
    ensures t == [] <==> forall i :: 0 <= i < |s| ==> IsSpace(s[i])
  {
    var l := StripLeft(s);
    StripRightIsPrefix(l);
    StripLeftIsSuffix(s);
    assert |StripRight(l)| > 0 ==> StripRight(l)[0] == l[0];
    StripRight(l)
  }

  /** Length of the leading run of non-whitespace characters of `s`. */
  function WordLength(s: string): (k: nat)
    ensures k <= |s|
    ensures NoSpace(s[..k])
    ensures k == |s| || IsSpace(s[k])
  {
    if |s| == 0 || IsSpace(s[0]) then 0 else 1 + WordLength(s[1..])
  }

  /** `str.split()` with no argument: the maximal runs of non-whitespace characters, in order. */
  function Split(s: string): (words: seq<string>)
    ensures WellFormedWords(words)
    decreases |s|, 1
  {
    var t := StripLeft(s);
    if t == [] then [] else SplitWords(t)
  }

  /** `split()` on a string that starts with a non-space: its leading word, then the rest split. */
  function SplitWords(t: string): (words: seq<string>)
    requires t != [] && !IsSpace(t[0])
    ensures WellFormedWords(words)
    decreases |t|, 0
  {
    var k := WordLength(t);
    var rest := Split(t[k..]);
    assert forall i :: 0 < i <= |rest| ==> ([t[..k]] + rest)[i] == rest[i - 1];
    [t[..k]] + rest
  }

  /** `line.strip().upper().split()`: the tokens the analyzer compares. */
  function Normalize(line: string): (tokens: seq<string>)
    ensures WellFormedWords(tokens)
    ensures forall i :: 0 <= i < |tokens| ==> NoLower(tokens[i])
  {
    var u := Upper(Strip(line));
    SplitNoLower(u);
    Split(u)
  }

  /** The tokens joined by single spaces: the shape of a well-formed captured line. */
  function JoinWords(words: seq<string>): string {
    if words == [] then []
    else if |words| == 1 then words[0]
    else words[0] + " " + JoinWords(words[1..])
  }

  // ---------------------------------------------------------------------------
  // Lemmas
  // ---------------------------------------------------------------------------

  /** Splitting a string without lower-case letters yields words without them. */
  lemma {:induction false} SplitNoLower(s: string)
    requires NoLower(s)
    ensures forall i :: 0 <= i < |Split(s)| ==> NoLower(Split(s)[i])
    decreases |s|
  {
    var t := StripLeft(s);
    if t != [] {
      var k := WordLength(t);
      var rest := Split(t[k..]);
      StripLeftIsSuffix(s);
      FactorNoLower(s, |s| - |t|, |s|);
      assert s[|s| - |t|..|s|] == t;
      FactorNoLower(t, 0, k);
      FactorNoLower(t, k, |t|);
      assert t[k..|t|] == t[k..];
      SplitNoLower(t[k..]);
      var words := [t[..k]] + rest;
      assert Split(s) == words;
      forall i | 0 <= i < |words| ensures NoLower(words[i]) {
        if i > 0 { assert words[i] == rest[i - 1]; }
      }
    }
  }

  /** `lstrip()` returns a suffix of its input. */
  lemma {:induction false} StripLeftIsSuffix(s: string)
    ensures StripLeft(s) == s[|s| - |StripLeft(s)|..]
  {
    if |s| > 0 && IsSpace(s[0]) {
      StripLeftIsSuffix(s[1..]);
    }
  }

  /** `rstrip()` returns a prefix of its input. */
  lemma {:induction false} StripRightIsPrefix(s: string)
    ensures StripRight(s) == s[..|StripRight(s)|]
  {
    if |s| > 0 && IsSpace(s[|s| - 1]) {
      StripRightIsPrefix(s[..|s| - 1]);
    }
  }

  /** Any factor of a string without lower-case letters has none either. */
  lemma FactorNoLower(s: string, i: nat, j: nat)
    requires NoLower(s) && i <= j <= |s|
    ensures NoLower(s[i..j])
  {
  }

  /** Round trip: splitting words joined by single spaces gives the words back. */
  lemma {:induction false} SplitJoinWords(words: seq<string>)
    requires WellFormedWords(words)
    ensures Split(JoinWords(words)) == words
  {
    if words == [] {
    } else if |words| == 1 {
      assert words[0] + [] == JoinWords(words);
      SplitFirstWord(words[0], []);
      assert Split([]) == [];
    } else {
      var rest := JoinWords(words[1..]);
      assert words[0] + (" " + rest) == JoinWords(words);
      SplitFirstWord(words[0], " " + rest);
      SplitSkipsSpace(' ', rest);
      SplitJoinWords(words[1..]);
      assert words == [words[0]] + words[1..];
    }
  }

  /** A space-free word followed by nothing or by whitespace is split off as the first word. */
  lemma SplitFirstWord(w: string, t: string)
    requires w != [] && NoSpace(w)
    requires t == [] || IsSpace(t[0])
    ensures Split(w + t) == [w] + Split(t)
  {
    var s := w + t;
    assert s[0] == w[0];
    assert StripLeft(s) == s;
    WordLengthOfWord(w, t);
    assert s[..|w|] == w;
    assert s[|w|..] == t;
  }

  /** The leading word of `w + t` is `w` when `w` has no space and `t` starts with one. */
  lemma {:induction false} WordLengthOfWord(w: string, t: string)
    requires NoSpace(w)
    requires t == [] || IsSpace(t[0])
    ensures WordLength(w + t) == |w|
    decreases |w|
  {
    if |w| > 0 {
      assert (w + t)[1..] == w[1..] + t;
      WordLengthOfWord(w[1..], t);
    }
  }

  /** A leading whitespace character does not change the words. */
  lemma SplitSkipsSpace(c: char, t: string)
    requires IsSpace(c)
    ensures Split([c] + t) == Split(t)
  {
    assert ([c] + t)[1..] == t;
  }

  /** `split()` yields no word exactly when the string is all whitespace. */
  lemma SplitBlank(s: string)
    ensures Split(s) == [] <==> forall i :: 0 <= i < |s| ==> IsSpace(s[i])
  {
    StripLeftIsSuffix(s);
    var t := StripLeft(s);
    if t != [] {
      assert s[|s| - |t|] == t[0];
    }
  }

  /** Upper-casing commutes with `lstrip()`. */
  lemma {:induction false} UpperStripLeft(s: string)
    ensures StripLeft(Upper(s)) == Upper(StripLeft(s))
  {
    if |s| > 0 && IsSpace(s[0]) {
      assert Upper(s)[1..] == Upper(s[1..]);
      UpperStripLeft(s[1..]);
    }
  }

  lemma UpperPrefix(s: string, n: nat)
    requires n <= |s|
    ensures Upper(s)[..n] == Upper(s[..n])
  {
  }

  /** Upper-casing commutes with `rstrip()`. */
  lemma {:induction false} UpperStripRight(s: string)
    ensures StripRight(Upper(s)) == Upper(StripRight(s))
  {
    if |s| > 0 && IsSpace(s[|s| - 1]) {
      UpperPrefix(s, |s| - 1);
      UpperStripRight(s[..|s| - 1]);
    }
  }

  /** Two characters upper-case alike exactly when they are equal up to ASCII case. */
  lemma UpperCharAlike(c: char, d: char)
    ensures UpperChar(c) == UpperChar(d) <==> SameUpToCase(c, d)
  {
  }

  /** Upper-casing twice is upper-casing once. */
  lemma UpperIdempotent(s: string)
    ensures Upper(Upper(s)) == Upper(s)
  {
  }

  /**
   * Normalisation forgets letter case: a line and its upper-cased copy give
   * the same tokens, so two lines that differ only in the case of ASCII
   * letters give the same tokens.
   */
  lemma NormalizeIgnoresCase(line: string)
    ensures Normalize(Upper(line)) == Normalize(line)
  {
    UpperStripLeft(line);
    UpperStripRight(StripLeft(line));
    assert Strip(Upper(line)) == Upper(Strip(line));
    UpperIdempotent(Strip(line));
  }

  /** Two lines equal up to ASCII case normalise to the same tokens. */
  lemma NormalizeCaseInsensitive(a: string, b: string)
    requires Upper(a) == Upper(b)
    ensures Normalize(a) == Normalize(b)
  {
    NormalizeIgnoresCase(a);
    NormalizeIgnoresCase(b);
  }

  /** A well-formed captured line of upper-case tokens normalises to exactly those tokens. */
  lemma NormalizeJoinWords(words: seq<string>)
    requires WellFormedWords(words) && forall i :: 0 <= i < |words| ==> NoLower(words[i])
    ensures Normalize(JoinWords(words)) == words
  {
    var s := JoinWords(words);
    SplitJoinWords(words);
    JoinWordsEnds(words);
    assert Strip(s) == s;
    JoinWordsNoLower(words);
    UpperOfNoLower(s);
  }

  /** A line of space-free words joined by spaces starts and ends with a word character. */
  lemma JoinWordsEnds(words: seq<string>)
    requires WellFormedWords(words)
    ensures StripLeft(JoinWords(words)) == JoinWords(words)
    ensures StripRight(JoinWords(words)) == JoinWords(words)
  {
    var s := JoinWords(words);
    if words != [] {
      JoinWordsShape(words);
    }
  }

  /** First and last character of a nonempty join are those of the first and last word. */
  lemma {:induction false} JoinWordsShape(words: seq<string>)
    requires words != [] && WellFormedWords(words)
    ensures |JoinWords(words)| > 0
    ensures JoinWords(words)[0] == words[0][0]
    ensures JoinWords(words)[|JoinWords(words)| - 1] == words[|words| - 1][|words[|words| - 1]| - 1]
  {
    if |words| > 1 {
      assert words[1..][|words[1..]| - 1] == words[|words| - 1];
      JoinWordsShape(words[1..]);
    }
  }

  /** Joining words without lower-case letters yields a line without them. */
  lemma {:induction false} JoinWordsNoLower(words: seq<string>)
    requires forall i :: 0 <= i < |words| ==> NoLower(words[i])
    ensures NoLower(JoinWords(words))
  {
    if |words| > 1 {
      JoinWordsNoLower(words[1..]);
    }
  }

  /** Upper-casing leaves a string without lower-case letters unchanged. */
  lemma UpperOfNoLower(s: string)
    requires NoLower(s)
    ensures Upper(s) == s
  {
  }
}
