/**
 * Character classes and the string operations of Python, PHP and JavaScript that the model needs.
 * Character classes are ASCII: Unicode whitespace, Unicode letters and Unicode case folding are
 * not part of this model.
 */
module Text {
  import opened Wrappers

  /** Python truthiness of an optional string: present (not `None`) and not empty. */
  predicate Truthy(s: Option<string>) {
    s.Some? && s.value != ""
  }

  /** `s or ""` for an optional string. */
  function OrEmpty(s: Option<string>): (r: string)
    ensures Truthy(s) ==> r == s.value
    ensures !Truthy(s) ==> r == ""
  {
    if s.Some? then s.value else ""
  }

  /** Whitespace as matched by the regex class `\s` and removed by `str.strip()`. */
  predicate IsSpace(c: char) {
    c == ' ' || c == '\t' || c == '\n' || c == '\r' || c == '\U{B}' || c == '\U{C}'
    || c == '\U{1C}' || c == '\U{1D}' || c == '\U{1E}' || c == '\U{1F}'
  }

  predicate IsUpper(c: char) { 'A' <= c <= 'Z' }

  predicate IsLower(c: char) { 'a' <= c <= 'z' }

  predicate IsLetter(c: char) { IsUpper(c) || IsLower(c) }

  predicate IsDigit(c: char) { '0' <= c <= '9' }

  /** The characters at which Python's `str.splitlines()` ends a line. */
  predicate IsLineBreak(c: char) {
    c == '\n' || c == '\r' || c == '\U{B}' || c == '\U{C}' || c == '\U{1C}' || c == '\U{1D}'
    || c == '\U{1E}' || c == '\U{85}' || c == '\U{2028}' || c == '\U{2029}'
  }

  /** ASCII lower-casing of one character. */
  function LowerChar(c: char): (r: char)
    ensures IsUpper(c) ==> IsLower(r) && r as int == c as int + 32
    ensures !IsUpper(c) ==> r == c
  {
    if IsUpper(c) then (c as int + 32) as char else c
  }

  /** `s.lower()` on ASCII text. */
  function Lower(s: string): (r: string)
    ensures |r| == |s|
    ensures forall i :: 0 <= i < |s| ==> r[i] == LowerChar(s[i])
  {
    seq(|s|, i requires 0 <= i < |s| => LowerChar(s[i]))
  }

  predicate StartsWith(s: string, prefix: string) {
    |prefix| <= |s| && s[..|prefix|] == prefix
  }

  predicate EndsWith(s: string, suffix: string) {
    |suffix| <= |s| && s[|s| - |suffix|..] == suffix
  }

  /** The end of the run of characters satisfying `p` that starts at `i`. */
  function RunEnd(s: string, i: nat, p: char -> bool): (r: nat)
    requires i <= |s|
    ensures i <= r <= |s|
    ensures forall m :: i <= m < r ==> p(s[m])
    ensures r < |s| ==> !p(s[r])
    decreases |s| - i
  {
    if i < |s| && p(s[i]) then RunEnd(s, i + 1, p) else i
  }

  /** The start of the run of characters satisfying `p` that ends at `hi`, not going below `lo`. */
  function RunStartBack(s: string, lo: nat, hi: nat, p: char -> bool): (r: nat)
    requires lo <= hi <= |s|
    ensures lo <= r <= hi
    ensures forall m :: r <= m < hi ==> p(s[m])
    ensures r > lo ==> !p(s[r - 1])
    decreases hi - lo
  {
    if lo < hi && p(s[hi - 1]) then RunStartBack(s, lo, hi - 1, p) else hi
  }

  /** Where `str.strip()` starts its result: the first non-whitespace character. */
  function StripStart(s: string): nat
    ensures StripStart(s) <= |s|
  {
    RunEnd(s, 0, IsSpace)
  }

  /** Where `str.strip()` ends its result: just after the last non-whitespace character. */
  function StripEnd(s: string): nat
    ensures StripStart(s) <= StripEnd(s) <= |s|
  {
    RunStartBack(s, StripStart(s), |s|, IsSpace)
  }

  /** Python's `str.strip()` with no argument. */
  function Strip(s: string): (r: string)
    ensures |r| <= |s|
    ensures r == [] || (!IsSpace(r[0]) && !IsSpace(r[|r| - 1]))
    ensures forall m :: 0 <= m < StripStart(s) ==> IsSpace(s[m])
    ensures forall m :: StripEnd(s) <= m < |s| ==> IsSpace(s[m])
  {
    s[StripStart(s)..StripEnd(s)]
  }

  /**
   * `s.strip()` is a slice of `s` with only whitespace around it; with its ends not whitespace,
   * this makes it the longest such slice.
   */
  lemma StripRemovesBlankEnds(s: string)
    ensures exists i, j :: 0 <= i <= j <= |s| && Strip(s) == s[i..j]
                           && (forall m :: 0 <= m < i ==> IsSpace(s[m])) && (forall m :: j <= m < |s| ==> IsSpace(s[m]))
  {
    var i, j := StripStart(s), StripEnd(s);
    assert Strip(s) == s[i..j];
  }

  /** `sep.join(parts)`. */
  function Join(sep: string, parts: seq<string>): string
  {
    if parts == [] then ""
    else if |parts| == 1 then parts[0]
    else parts[0] + sep + Join(sep, parts[1..])
  }

  lemma {:induction false} JoinSnoc(sep: string, parts: seq<string>, last: string)
    requires parts != []
    ensures Join(sep, parts + [last]) == Join(sep, parts) + sep + last
  {
    if |parts| == 1 {
      assert parts + [last] == [parts[0], last];
    } else {
      assert (parts + [last])[1..] == parts[1..] + [last];
      JoinSnoc(sep, parts[1..], last);
    }
  }

  /** The text `pat` starts at position `i` of `s`. */
  predicate OccursAt(s: string, pat: string, i: int) {
    0 <= i && i + |pat| <= |s| && s[i..i + |pat|] == pat
  }

  /** The leftmost occurrence of `pat` in `s` at or after `i`. */
  function FindFrom(s: string, pat: string, i: nat): (r: Option<nat>)
    requires i <= |s|
    requires |pat| > 0
    ensures r.Some? ==> i <= r.value && OccursAt(s, pat, r.value)
    ensures r.Some? ==> forall m :: i <= m < r.value ==> !OccursAt(s, pat, m)
    ensures r.None? ==> forall m :: i <= m ==> !OccursAt(s, pat, m)
    decreases |s| - i
  {
    if OccursAt(s, pat, i) then Some(i)
    else if i + |pat| >= |s| then None
    else FindFrom(s, pat, i + 1)
  }

  /** Python's `s.split(sep)` for a non-empty separator. */
  function SplitOn(s: string, sep: string): (pieces: seq<string>)
    requires |sep| > 0
    ensures |pieces| >= 1
    decreases |s|
  {
    match FindFrom(s, sep, 0)
    case None => [s]
    case Some(k) => [s[..k]] + SplitOn(s[k + |sep|..], sep)
  }

  /** Splitting and joining with the same separator gives the text back. */
  lemma {:induction false} SplitOnJoin(s: string, sep: string)
    requires |sep| > 0
    ensures Join(sep, SplitOn(s, sep)) == s
    decreases |s|
  {
    match FindFrom(s, sep, 0)
    case None =>
    case Some(k) =>
      var rest := s[k + |sep|..];
      var tail := SplitOn(rest, sep);
      SplitOnJoin(rest, sep);
      var pieces := [s[..k]] + tail;
      assert SplitOn(s, sep) == pieces;
      assert |pieces| > 1 && pieces[0] == s[..k] && pieces[1..] == tail;
      assert Join(sep, pieces) == s[..k] + sep + rest;
      assert s[k..k + |sep|] == sep;
      assert s == s[..k] + s[k..k + |sep|] + rest;
  }

  /** No piece of a split contains the separator. */
  lemma {:induction false} SplitOnPiecesFree(s: string, sep: string)
    requires |sep| > 0
    ensures forall p, m :: p in SplitOn(s, sep) ==> !OccursAt(p, sep, m)
    decreases |s|
  {
    match FindFrom(s, sep, 0)
    case None =>
    case Some(k) =>
      var rest := s[k + |sep|..];
      SplitOnPiecesFree(rest, sep);
      forall m | OccursAt(s[..k], sep, m) ensures false {
        assert s[..k][m..m + |sep|] == s[m..m + |sep|];
        assert OccursAt(s, sep, m);
      }
  }

  /** The first line-break character at or after `i`. */
  function FindBreak(s: string, i: nat): (r: Option<nat>)
    requires i <= |s|
    ensures r.Some? ==> i <= r.value < |s| && IsLineBreak(s[r.value])
    ensures r.Some? ==> forall m :: i <= m < r.value ==> !IsLineBreak(s[m])
    ensures r.None? ==> forall m :: i <= m < |s| ==> !IsLineBreak(s[m])
    decreases |s| - i
  {
    if i == |s| then None
    else if IsLineBreak(s[i]) then Some(i)
    else FindBreak(s, i + 1)
  }

  /** How many characters the line break at `k` takes: two for `\r\n`, one otherwise. */
  function BreakWidth(s: string, k: nat): nat
    requires k < |s|
  {
    if s[k] == '\r' && k + 1 < |s| && s[k + 1] == '\n' then 2 else 1
  }

  /**
   * Python's `str.splitlines()`: no trailing empty line for a final line break, and a
   * carriage return followed by a newline ends a single line.
   */
  function SplitLines(s: string): (lines: seq<string>)
    ensures forall i, m :: 0 <= i < |lines| && 0 <= m < |lines[i]| ==> !IsLineBreak(lines[i][m])
    decreases |s|
  {
    if s == "" then []
    else
      match FindBreak(s, 0)
      case None => [s]
      case Some(k) =>
        var width := BreakWidth(s, k);
        [s[..k]] + SplitLines(s[k + width..])
  }

  /** Only the empty text has no lines. */
  lemma SplitLinesEmpty(s: string)
    ensures SplitLines(s) == [] <==> s == ""
  {
    if s != "" {
      match FindBreak(s, 0)
      case None =>
      case Some(k) =>
        var width := BreakWidth(s, k);
        assert |SplitLines(s)| == 1 + |SplitLines(s[k + width..])|;
    }
  }

  /** A line ending `splitlines()` recognises: one line-break character, or `\r\n`. */
  predicate IsLineEnding(b: string) {
    b == "\r\n" || (|b| == 1 && IsLineBreak(b[0]))
  }

  /** The lines put back together, each followed by its line ending. */
  function Glue(lines: seq<string>, endings: seq<string>): string
    requires |lines| == |endings|
  {
    if lines == [] then "" else lines[0] + endings[0] + Glue(lines[1..], endings[1..])
  }

  /**
   * Each line but the last is followed by a line ending, the last by one or by nothing, and a
   * `\r` ends a line on its own only when no `\n` follows it.
   */
  predicate EndingsWellFormed(lines: seq<string>, endings: seq<string>)
    requires |lines| == |endings|
  {
    (forall i :: 0 <= i < |endings| ==> IsLineEnding(endings[i]) || (i == |endings| - 1 && endings[i] == ""))
    && (forall i :: 0 <= i < |endings| && endings[i] == "\r" ==>
          !StartsWith(Glue(lines[i + 1..], endings[i + 1..]), "\n"))
  }

  /** The line ending `splitlines()` drops after each line of `s`, `""` after an unterminated last line. */
  function LineEndings(s: string): (endings: seq<string>)
    ensures |endings| == |SplitLines(s)|
    decreases |s|
  {
    if s == "" then []
    else
      match FindBreak(s, 0)
      case None => [""]
      case Some(k) =>
        var width := BreakWidth(s, k);
        [s[k..k + width]] + LineEndings(s[k + width..])
  }

  /** The lines of `s`, each followed by its line ending, give back `s`. */
  lemma {:induction false} SplitLinesRebuild(s: string)
    ensures Glue(SplitLines(s), LineEndings(s)) == s
    decreases |s|
  {
    if s != "" {
      match FindBreak(s, 0)
      case None =>
        assert SplitLines(s) == [s] && LineEndings(s) == [""];
        GlueFront(s, "", [], []);
        assert s + "" + "" == s;
      case Some(k) =>
        var width := BreakWidth(s, k);
        SplitLinesRebuild(s[k + width..]);
        RebuildFirstLine(s, k, width);
    }
  }

  /** The step of the rebuild: the first line and its ending, then the rest rebuilt. */
  lemma RebuildFirstLine(s: string, k: nat, width: nat)
    requires s != "" && FindBreak(s, 0) == Some(k)
    requires width == BreakWidth(s, k) && k + width <= |s|
    requires Glue(SplitLines(s[k + width..]), LineEndings(s[k + width..])) == s[k + width..]
    ensures Glue(SplitLines(s), LineEndings(s)) == s
  {
    var rest := s[k + width..];
    SplitLinesStep(s, k, width);
    LineEndingsStep(s, k, width);
    SliceThree(s, k, k + width);
    GlueFront(s[..k], s[k..k + width], SplitLines(rest), LineEndings(rest));
  }

  /** A text is its three consecutive slices put back together. */
  lemma SliceThree(s: string, i: nat, j: nat)
    requires i <= j <= |s|
    ensures s[..i] + s[i..j] + s[j..] == s
  {
  }

  /**
   * Every line ending is one `splitlines()` recognises, only the last may be missing, and a
   * lone `\r` ending is never followed by `\n`: the lines are exactly the text between breaks.
   */
  lemma {:induction false} LineEndingsWellFormed(s: string)
    ensures EndingsWellFormed(SplitLines(s), LineEndings(s))
    ensures |LineEndings(s)| > 0 && LineEndings(s)[|LineEndings(s)| - 1] == "" ==>
              SplitLines(s)[|SplitLines(s)| - 1] != ""
    decreases |s|
  {
    if s != "" {
      match FindBreak(s, 0)
      case None =>
        assert LineEndings(s) == [""];
      case Some(k) =>
        var width := BreakWidth(s, k);
        SplitLinesStep(s, k, width);
        var rest := s[k + width..];
        LineEndingsWellFormed(rest);
        SplitLinesRebuild(rest);
        assert LineEndings(s) == [s[k..k + width]] + LineEndings(rest);
        GlueCons(s[..k], s[k..k + width], SplitLines(rest), LineEndings(rest));
    }
  }

  /** `splitlines()` takes the text before the first break and goes on after its ending. */
  lemma SplitLinesStep(s: string, k: nat, width: nat)
    requires s != "" && FindBreak(s, 0) == Some(k)
    requires width == BreakWidth(s, k)
    ensures k + width <= |s| && SplitLines(s) == [s[..k]] + SplitLines(s[k + width..])
    ensures IsLineEnding(s[k..k + width])
    ensures s[k..k + width] == "\r" ==> !StartsWith(s[k + width..], "\n")
  {
    FirstLineEnding(s, k, width);
  }

  /** The endings follow the lines: the first break's ending, then those of the rest. */
  lemma LineEndingsStep(s: string, k: nat, width: nat)
    requires s != "" && FindBreak(s, 0) == Some(k)
    requires width == BreakWidth(s, k)
    ensures k + width <= |s| && LineEndings(s) == [s[k..k + width]] + LineEndings(s[k + width..])
  {
  }

  /** Gluing one more line in front puts it and its ending before the rest. */
  lemma GlueFront(line: string, ending: string, lines: seq<string>, endings: seq<string>)
    requires |lines| == |endings|
    ensures Glue([line] + lines, [ending] + endings) == line + ending + Glue(lines, endings)
  {
    assert ([line] + lines)[1..] == lines && ([ending] + endings)[1..] == endings;
  }

  /** The line ending `splitlines()` consumes after the first line, which stops at `k`. */
  lemma FirstLineEnding(s: string, k: nat, width: nat)
    requires k < |s| && IsLineBreak(s[k])
    requires width == BreakWidth(s, k)
    ensures k + width <= |s| && IsLineEnding(s[k..k + width])
    ensures s[k..k + width] == "\r" ==> !StartsWith(s[k + width..], "\n")
  {
    if width == 2 {
      assert s[k..k + width] == [s[k], s[k + 1]];
    } else {
      assert s[k..k + width] == [s[k]];
    }
  }

  /** Gluing one more line in front keeps the endings well formed. */
  lemma GlueCons(line: string, ending: string, lines: seq<string>, endings: seq<string>)
    requires |lines| == |endings|
    requires IsLineEnding(ending)
    requires ending == "\r" ==> !StartsWith(Glue(lines, endings), "\n")
    requires EndingsWellFormed(lines, endings)
    ensures Glue([line] + lines, [ending] + endings) == line + ending + Glue(lines, endings)
    ensures EndingsWellFormed([line] + lines, [ending] + endings)
  {
    var ls, es := [line] + lines, [ending] + endings;
    assert ls[1..] == lines && es[1..] == endings;
    forall i | 0 < i < |es|
      ensures es[i] == endings[i - 1] && ls[i + 1..] == lines[i..] && es[i + 1..] == endings[i..]
    {
    }
  }

  function DigitChar(d: nat): (c: char)
    requires d < 10
    ensures IsDigit(c)
  {
    ('0' as int + d) as char
  }

  /** The number a text of decimal digits denotes, read left to right. */
  function DecimalValue(digits: string): nat
    requires forall i :: 0 <= i < |digits| ==> IsDigit(digits[i])
  {
    if digits == [] then 0
    else DecimalValue(digits[..|digits| - 1]) * 10 + DigitValue(digits[|digits| - 1])
  }

  function DigitValue(c: char): nat
    requires IsDigit(c)
  {
    c as int - '0' as int
  }

  /** Decimal notation of a natural number: digits without a leading zero that denote `n`. */
  function NatToDecimal(n: nat): (r: string)
    ensures |r| >= 1
    ensures forall i :: 0 <= i < |r| ==> IsDigit(r[i])
    ensures DecimalValue(r) == n
    ensures |r| > 1 ==> r[0] != '0'
  {
    if n < 10 then [DigitChar(n)]
    else
      var prefix := NatToDecimal(n / 10);
      var r := prefix + [DigitChar(n % 10)];
      assert r[..|r| - 1] == prefix;
      r
  }

  /** Decimal notation of an integer, as `str(n)` in Python and `(string)$n` in PHP write it. */
  function IntToDecimal(n: int): (r: string)
    ensures |r| >= 1
    ensures n >= 0 ==> (forall i :: 0 <= i < |r| ==> IsDigit(r[i])) && DecimalValue(r) == n && (|r| > 1 ==> r[0] != '0')
    ensures n < 0 ==> |r| >= 2 && r[0] == '-' && (forall i :: 1 <= i < |r| ==> IsDigit(r[i]))
                      && DecimalValue(r[1..]) == -n && (|r| > 2 ==> r[1] != '0')
  {
    if n < 0 then
      var digits := NatToDecimal(-n);
      assert ("-" + digits)[1..] == digits;
      "-" + digits
    else NatToDecimal(n)
  }

  /** Lexicographic order by code point; for UTF-8 text this is SQLite's BINARY collation. */
  predicate LexLe(a: string, b: string)
    decreases |a|
  {
    if a == [] then true
    else if b == [] then false
    else if a[0] != b[0] then a[0] < b[0]
    else LexLe(a[1..], b[1..])
  }

  lemma {:induction false} LexLeTotal(a: string, b: string)
    ensures LexLe(a, b) || LexLe(b, a)
    decreases |a|
  {
    if a != [] && b != [] && a[0] == b[0] {
      LexLeTotal(a[1..], b[1..]);
    }
  }

  lemma {:induction false} LexLeTransitive(a: string, b: string, c: string)
    requires LexLe(a, b) && LexLe(b, c)
    ensures LexLe(a, c)
    decreases |a|
  {
    if a != [] && b != [] && c != [] && a[0] == b[0] && b[0] == c[0] {
      LexLeTransitive(a[1..], b[1..], c[1..]);
    }
  }

  lemma {:induction false} LexLeAntisymmetric(a: string, b: string)
    requires LexLe(a, b) && LexLe(b, a)
    ensures a == b
    decreases |a|
  {
    if a != [] && b != [] {
      LexLeAntisymmetric(a[1..], b[1..]);
      assert a == [a[0]] + a[1..] && b == [b[0]] + b[1..];
    }
  }
}
