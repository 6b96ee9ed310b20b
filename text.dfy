/**
  The Python string operations the game modules use, over `seq<char>`:
  `strip`, `split` (unbounded and with one split), `in`, `lower`,
  `capitalize`, and `int()` / `str()` on decimal integers.

  Whitespace, case and digits are the ASCII ones: `strip` removes what
  Python's `str.isspace()` accepts below 128 (space, \t, \n, \v, \f, \r and
  the separators \x1c-\x1f). Python's Unicode tables (\x85, \xa0 and the
  other Unicode spaces) are not modelled.
 */
module Text {
  import opened Results

  /** `c.isspace()` for an ASCII character. */
  predicate IsSpace(c: char) {
    c == ' ' || c == '\t' || c == '\n' || c == '\r' || c == '\U{000B}' || c == '\U{000C}'
    || ('\U{001C}' <= c <= '\U{001F}')
  }

  predicate AllSpace(s: string) {
    forall i :: 0 <= i < |s| ==> IsSpace(s[i])
  }

  /** No whitespace at either end: what `strip` leaves. */
  predicate IsStripped(s: string) {
    s == [] || (!IsSpace(s[0]) && !IsSpace(s[|s| - 1]))
  }

  function TrimStart(s: string): (r: string)
    ensures |r| <= |s| && r == s[|s| - |r|..]
    ensures r == [] || !IsSpace(r[0])
    ensures AllSpace(s[..|s| - |r|])
  {
    if s != [] && IsSpace(s[0]) then
      var r := TrimStart(s[1..]);
      assert s[..|s| - |r|] == [s[0]] + s[1..][..|s| - 1 - |r|];
      r
    else s
  }

  function TrimEnd(s: string): (r: string)
    ensures |r| <= |s| && r == s[..|r|]
    ensures r == [] || !IsSpace(r[|r| - 1])
    ensures AllSpace(s[|r|..])
  {
    if s != [] && IsSpace(s[|s| - 1]) then
      var r := TrimEnd(s[..|s| - 1]);
      assert s[|r|..] == s[..|s| - 1][|r|..] + [s[|s| - 1]];
      r
    else s
  }

  /** Python's `s.strip()`: the text between the leading and trailing whitespace. */
  function Strip(s: string): (r: string)
    ensures IsStripped(r)
  {
    TrimEnd(TrimStart(s))
  }

  /** `strip` leaves nothing exactly when the text is all whitespace. */
  lemma StripEmpty(s: string)
    ensures Strip(s) == [] <==> AllSpace(s)
  {
    var t := TrimStart(s);
    var r := TrimEnd(t);
    var k := |s| - |t|;
    assert AllSpace(s[..k]);
    assert t == s[k..];
    if r == [] {
      assert t[|r|..] == t;
      assert t == [];
      assert s[..k] == s;
    } else {
      assert r[0] == t[0] == s[k];
    }
  }

  lemma StripOfStripped(s: string)
    requires IsStripped(s)
    ensures Strip(s) == s
  {
  }

  /** `strip` is idempotent. */
  lemma StripIdempotent(s: string)
    ensures Strip(Strip(s)) == Strip(s)
  {
    StripOfStripped(Strip(s));
  }

  // ---------------------------------------------------------------- searching

  predicate OccursAt(s: string, pat: string, i: nat) {
    i + |pat| <= |s| && s[i..i + |pat|] == pat
  }

  /** `pat` occurs at `i` and nowhere before it. */
  ghost predicate FirstOccurrence(s: string, pat: string, i: nat) {
    OccursAt(s, pat, i) && forall j: nat :: j < i ==> !OccursAt(s, pat, j)
  }

  ghost predicate Absent(s: string, pat: string) {
    forall j: nat :: !OccursAt(s, pat, j)
  }

  /** Python's `s.find(pat)`, with `None` for -1. */
  function FindFirst(s: string, pat: string): (r: Option<nat>)
    requires pat != []
    ensures r.Some? ==> r.value + |pat| <= |s|
    decreases |s|
  {
    if |s| < |pat| then None
    else if s[..|pat|] == pat then Some(0)
    else match FindFirst(s[1..], pat)
      case None => None
      case Some(i) => Some(i + 1)
  }

  /** `find` returns the first occurrence, and `None` only when there is none. */
  lemma {:induction false} FindFirstSpec(s: string, pat: string)
    requires pat != []
    ensures FindFirst(s, pat).Some? ==> FirstOccurrence(s, pat, FindFirst(s, pat).value)
    ensures FindFirst(s, pat).None? ==> Absent(s, pat)
    decreases |s|
  {
    if |s| < |pat| {
      forall j: nat ensures !OccursAt(s, pat, j) { }
    } else if s[..|pat|] != pat {
      FindFirstSpec(s[1..], pat);
      assert !OccursAt(s, pat, 0);
      assert forall j: nat :: OccursAt(s, pat, j + 1) <==> OccursAt(s[1..], pat, j) by {
        forall j: nat ensures OccursAt(s, pat, j + 1) <==> OccursAt(s[1..], pat, j) {
          if j + 1 + |pat| <= |s| {
            assert s[1..][j..j + |pat|] == s[j + 1..j + 1 + |pat|];
          }
        }
      }
      match FindFirst(s[1..], pat)
      case None =>
        forall j: nat ensures !OccursAt(s, pat, j) {
          if j > 0 { assert !OccursAt(s[1..], pat, j - 1); }
        }
      case Some(i) =>
        forall j: nat | j < i + 1 ensures !OccursAt(s, pat, j) {
          if j > 0 { assert !OccursAt(s[1..], pat, j - 1); }
        }
    }
  }

  /** Python's `s.split(sep)`: the pieces between non-overlapping occurrences, left to right. */
  function Split(s: string, sep: string): (parts: seq<string>)
    requires sep != []
    ensures |parts| >= 1
    decreases |s|
  {
    match FindFirst(s, sep)
    case None => [s]
    case Some(i) => [s[..i]] + Split(s[i + |sep|..], sep)
  }

  /** Python's `sep.join(parts)`. */
  function Join(parts: seq<string>, sep: string): string {
    if parts == [] then ""
    else if |parts| == 1 then parts[0]
    else parts[0] + sep + Join(parts[1..], sep)
  }

  /** Splitting loses nothing: joining the pieces gives the text back. */
  lemma {:induction false} JoinSplit(s: string, sep: string)
    requires sep != []
    ensures Join(Split(s, sep), sep) == s
    decreases |s|
  {
    match FindFirst(s, sep)
    case None =>
    case Some(i) =>
      var rest := s[i + |sep|..];
      assert s == s[..i] + sep + rest by {
        FindFirstSpec(s, sep);
        assert OccursAt(s, sep, i);
        assert s == s[..i] + s[i..i + |sep|] + rest;
      }
      var tail := Split(rest, sep);
      JoinSplit(rest, sep);
      assert Split(s, sep) == [s[..i]] + tail;
      assert ([s[..i]] + tail)[1..] == tail;
  }

  /** A text without the separator splits into itself alone. */
  lemma SplitWithoutSep(s: string, c: char)
    requires c !in s
    ensures Split(s, [c]) == [s]
  {
    forall j: nat ensures !OccursAt(s, [c], j) {
      if j + 1 <= |s| {
        assert s[j..j + 1] == [s[j]];
      }
    }
    FindFirstSpec(s, [c]);
  }

  /** A text holding the separator splits into at least two pieces. */
  lemma SplitWithSep(s: string, c: char)
    requires c in s
    ensures |Split(s, [c])| >= 2
  {
    FindFirstSpec(s, [c]);
    if FindFirst(s, [c]).None? {
      var j :| 0 <= j < |s| && s[j] == c;
      assert s[j..j + 1] == [c];
      assert OccursAt(s, [c], j);
    }
  }

  /** Splitting at a separator the first piece does not hold gives that piece first. */
  lemma SplitAfterPiece(piece: string, c: char, rest: string)
    requires c !in piece
    ensures Split(piece + [c] + rest, [c]) == [piece] + Split(rest, [c])
  {
    var s := piece + [c] + rest;
    FindFirstSpec(s, [c]);
    assert OccursAt(s, [c], |piece|);
    forall j: nat | j < |piece| ensures !OccursAt(s, [c], j) {
      assert s[j] == piece[j];
      assert s[j..j + 1] == [s[j]];
    }
    var i := FindFirst(s, [c]).value;
    assert i == |piece|;
    assert s[..i] == piece;
    assert s[i + 1..] == rest;
  }

  /** A text with no occurrence of the separator splits into itself alone. */
  lemma SplitAbsent(s: string, sep: string)
    requires sep != [] && Absent(s, sep)
    ensures Split(s, sep) == [s]
  {
    FindFirstSpec(s, sep);
  }

  /** A non-empty text on one line. */
  predicate IsLine(s: string) {
    s != [] && '\n' !in s
  }

  /** Joining non-empty, stripped texts starts with the first and ends with the last. */
  lemma {:induction false} JoinEnds(parts: seq<string>, sep: string)
    requires parts != [] && forall i :: 0 <= i < |parts| ==> parts[i] != [] && IsStripped(parts[i])
    ensures Join(parts, sep) != [] && IsStripped(Join(parts, sep))
    ensures Join(parts, sep)[0] == parts[0][0]
    ensures Join(parts, sep)[|Join(parts, sep)| - 1] == parts[|parts| - 1][|parts[|parts| - 1]| - 1]
  {
    if |parts| > 1 {
      JoinEnds(parts[1..], sep);
    }
  }

  /** `"\n".join(lines).split("\n")` gives the lines back when none holds a line break. */
  lemma {:induction false} SplitJoinLines(lines: seq<string>)
    requires lines != [] && forall i :: 0 <= i < |lines| ==> '\n' !in lines[i]
    ensures Split(Join(lines, "\n"), "\n") == lines
  {
    if |lines| == 1 {
      SplitWithoutSep(lines[0], '\n');
    } else {
      SplitJoinLines(lines[1..]);
      SplitAfterPiece(lines[0], '\n', Join(lines[1..], "\n"));
    }
  }

  /** A single line holds no blank line. */
  lemma LineNoBlank(line: string)
    requires '\n' !in line
    ensures Absent(line, "\n\n")
  {
    forall j: nat | j + 2 <= |line| ensures !OccursAt(line, "\n\n", j) {
      assert line[j..j + 2][0] == line[j] != '\n';
    }
  }

  /** A line, a line break and a text starting on a fresh line hold no blank line when that text holds none. */
  lemma LineThenNoBlank(first: string, rest: string)
    requires '\n' !in first && rest != [] && rest[0] != '\n' && Absent(rest, "\n\n")
    ensures Absent(first + "\n" + rest, "\n\n")
  {
    var s := first + "\n" + rest;
    forall j: nat | j + 2 <= |s| ensures !OccursAt(s, "\n\n", j) {
      if j < |first| {
        assert s[j..j + 2][0] == first[j] != '\n';
      } else if j == |first| {
        assert s[j..j + 2][1] == rest[0] != '\n';
      } else {
        var k: nat := j - |first| - 1;
        assert s[j..j + 2] == rest[k..k + 2];
        assert !OccursAt(rest, "\n\n", k);
      }
    }
  }

  /** Lines joined by single line breaks hold no blank line. */
  lemma {:induction false} JoinLinesNoBlank(lines: seq<string>)
    requires lines != [] && forall i :: 0 <= i < |lines| ==> IsLine(lines[i]) && IsStripped(lines[i])
    ensures Absent(Join(lines, "\n"), "\n\n")
  {
    if |lines| == 1 {
      LineNoBlank(lines[0]);
    } else {
      JoinLinesNoBlank(lines[1..]);
      JoinEnds(lines[1..], "\n");
      LineThenNoBlank(lines[0], Join(lines[1..], "\n"));
    }
  }

  /** Splitting at a blank line the first piece neither holds nor ends on gives that piece first. */
  lemma SplitAfterBlock(piece: string, rest: string)
    requires piece != [] && Absent(piece, "\n\n") && piece[|piece| - 1] != '\n'
    ensures Split(piece + "\n\n" + rest, "\n\n") == [piece] + Split(rest, "\n\n")
  {
    var s := piece + "\n\n" + rest;
    FindFirstSpec(s, "\n\n");
    assert OccursAt(s, "\n\n", |piece|);
    forall j: nat | j < |piece| ensures !OccursAt(s, "\n\n", j) {
      if j + 1 < |piece| {
        assert s[j..j + 2] == piece[j..j + 2];
        assert !OccursAt(piece, "\n\n", j);
      } else {
        assert s[j] == piece[j];
      }
    }
    var i := FindFirst(s, "\n\n").value;
    assert i == |piece|;
    assert s[..i] == piece;
    assert s[i + 2..] == rest;
  }

  /** `"\n\n".join(blocks).split("\n\n")` gives the blocks back when none holds a blank line or ends on a line break. */
  lemma {:induction false} SplitJoinBlocks(blocks: seq<string>)
    requires blocks != []
    requires forall i :: 0 <= i < |blocks| ==> blocks[i] != [] && Absent(blocks[i], "\n\n") && IsStripped(blocks[i])
    ensures Split(Join(blocks, "\n\n"), "\n\n") == blocks
  {
    if |blocks| == 1 {
      SplitAbsent(blocks[0], "\n\n");
    } else {
      SplitJoinBlocks(blocks[1..]);
      SplitAfterBlock(blocks[0], Join(blocks[1..], "\n\n"));
    }
  }

  /** Python's `key, value = s.split(sep, 1)`; `None` where the unpacking fails. */
  function SplitOnce(s: string, sep: string): Option<(string, string)>
    requires sep != []
  {
    match FindFirst(s, sep)
    case None => None
    case Some(i) => Some((s[..i], s[i + |sep|..]))
  }

  /** The split fails exactly when `sep` does not occur, and otherwise cuts at its first occurrence. */
  lemma SplitOnceSpec(s: string, sep: string)
    requires sep != []
    ensures SplitOnce(s, sep).None? <==> Absent(s, sep)
    ensures SplitOnce(s, sep).Some? ==>
      var (key, value) := SplitOnce(s, sep).value;
      s == key + sep + value && FirstOccurrence(s, sep, |key|)
  {
    FindFirstSpec(s, sep);
    match FindFirst(s, sep)
    case None =>
    case Some(i) =>
      assert s[i..i + |sep|] == sep;
      assert s == s[..i] + sep + s[i + |sep|..];
      assert !Absent(s, sep) by { assert OccursAt(s, sep, i); }
  }

  /** A `KEY: value` line whose key has no colon splits back into that key and value. */
  lemma SplitOnceKeyValue(key: string, value: string)
    requires ':' !in key
    ensures SplitOnce(key + ": " + value, ": ") == Some((key, value))
  {
    var line := key + ": " + value;
    FindFirstSpec(line, ": ");
    assert OccursAt(line, ": ", |key|);
    forall j: nat | j < |key| ensures !OccursAt(line, ": ", j) {
      assert line[j] == key[j];
    }
    var i := FindFirst(line, ": ").value;
    assert i == |key|;
    assert line[..i] == key;
    assert line[i + 2..] == value;
  }

  // ------------------------------------------------------------------- case

  function LowerChar(c: char): char {
    if 'A' <= c <= 'Z' then (c as int + 32) as char else c
  }

  function UpperChar(c: char): char {
    if 'a' <= c <= 'z' then (c as int - 32) as char else c
  }

  /** Python's `s.lower()` on ASCII letters. */
  function Lower(s: string): (r: string)
    ensures |r| == |s|
    ensures forall i :: 0 <= i < |s| ==> r[i] == LowerChar(s[i])
  {
    seq(|s|, i requires 0 <= i < |s| => LowerChar(s[i]))
  }

  /** Python's `s.capitalize()` on ASCII letters: first letter upper case, the rest lower case. */
  function Capitalize(s: string): (r: string)
    ensures |r| == |s|
    ensures s != [] ==> r[0] == UpperChar(s[0]) && r[1..] == Lower(s[1..])
  {
    if s == [] then [] else [UpperChar(s[0])] + Lower(s[1..])
  }

  // --------------------------------------------------------------- integers

  predicate IsDigit(c: char) { '0' <= c <= '9' }

  predicate AllDigits(s: string) {
    forall i :: 0 <= i < |s| ==> IsDigit(s[i])
  }

  function DigitValue(c: char): nat
    requires IsDigit(c)
  {
    c as int - '0' as int
  }

  function DigitChar(d: nat): (c: char)
    requires d < 10
    ensures IsDigit(c) && DigitValue(c) == d
  {
    ('0' as int + d) as char
  }

  /** The value of a string of decimal digits, most significant first. */
  function DigitsValue(s: string): nat
    requires AllDigits(s)
  {
    if s == [] then 0 else DigitsValue(s[..|s| - 1]) * 10 + DigitValue(s[|s| - 1])
  }

  /** An optional sign followed by at least one decimal digit. */
  predicate IsDecimal(s: string) {
    if s != [] && (s[0] == '+' || s[0] == '-') then s[1..] != [] && AllDigits(s[1..])
    else s != [] && AllDigits(s)
  }

  /**
    Python's `int(s)` on a string already stripped of surrounding whitespace:
    `None` where Python raises `ValueError`.
   */
  function ParseInt(s: string): Option<int> {
    if s != [] && (s[0] == '+' || s[0] == '-') then
      if s[1..] != [] && AllDigits(s[1..]) then
        var v: int := DigitsValue(s[1..]);
        Some(if s[0] == '-' then -v else v)
      else None
    else if s != [] && AllDigits(s) then Some(DigitsValue(s))
    else None
  }

  /** `int()` accepts exactly the decimal strings. */
  lemma ParseIntAccepts(s: string)
    ensures ParseInt(s).Some? <==> IsDecimal(s)
  {
  }

  /** Decimal digits without a superfluous leading zero. */
  predicate IsCanonicalDigits(d: string) {
    d != [] && AllDigits(d) && (d[0] == '0' ==> |d| == 1)
  }

  /** An integer as `str()` writes it: no `+`, no leading zero, no `-0`. */
  predicate IsCanonicalDecimal(s: string) {
    if s != [] && s[0] == '-' then IsCanonicalDigits(s[1..]) && s[1] != '0'
    else IsCanonicalDigits(s)
  }

  /** Python's `str(n)` for a natural number. */
  function NatToString(n: nat): (s: string)
    ensures s != [] && AllDigits(s)
  {
    if n < 10 then [DigitChar(n)] else NatToString(n / 10) + [DigitChar(n % 10)]
  }

  /** Python's `str(n)`. */
  function IntToString(n: int): (s: string)
    ensures s != [] && IsStripped(s) && ':' !in s && '\n' !in s
  {
    if n < 0 then "-" + NatToString(-n) else NatToString(n)
  }

  lemma {:induction false} DigitsOfNat(n: nat)
    ensures DigitsValue(NatToString(n)) == n
  {
    if n >= 10 {
      DigitsOfNat(n / 10);
      var s := NatToString(n);
      assert s[..|s| - 1] == NatToString(n / 10);
    }
  }

  lemma {:induction false} DigitsValueOfLeading(d: string)
    requires d != [] && AllDigits(d)
    ensures DigitsValue(d) >= DigitValue(d[0])
    decreases |d|
  {
    if |d| > 1 {
      DigitsValueOfLeading(d[..|d| - 1]);
    }
  }

  /** Digits without a superfluous leading zero are `str()` of their value. */
  lemma {:induction false} NatToStringOfDigits(d: string)
    requires IsCanonicalDigits(d)
    ensures NatToString(DigitsValue(d)) == d
    decreases |d|
  {
    var v := DigitsValue(d);
    if |d| == 1 {
      assert d == [d[0]];
    } else {
      var p := d[..|d| - 1];
      assert p[0] == d[0] != '0';
      NatToStringOfDigits(p);
      DigitsValueOfLeading(p);
      assert v / 10 == DigitsValue(p) && v % 10 == DigitValue(d[|d| - 1]);
      assert d == p + [d[|d| - 1]];
    }
  }

  lemma {:induction false} NatToStringCanonical(n: nat)
    ensures IsCanonicalDigits(NatToString(n))
    ensures n > 0 ==> NatToString(n)[0] != '0'
  {
    if n >= 10 {
      NatToStringCanonical(n / 10);
    }
  }

  /**
    `int()` and `str()` are inverse on canonical numerals: a string reads as
    `n` and is written the way `str()` writes integers exactly when it is
    `str(n)`.
   */
  lemma ParseIntCanonical(s: string, n: int)
    ensures ParseInt(s) == Some(n) && IsCanonicalDecimal(s) <==> s == IntToString(n)
  {
    if s == IntToString(n) {
      ParseIntOfString(n);
      if n < 0 {
        NatToStringCanonical(-n);
        assert s[1..] == NatToString(-n);
      } else {
        NatToStringCanonical(n);
      }
    }
    if ParseInt(s) == Some(n) && IsCanonicalDecimal(s) {
      if s[0] == '-' {
        var d := s[1..];
        NatToStringOfDigits(d);
        DigitsValueOfLeading(d);
        assert s == "-" + d;
      } else {
        NatToStringOfDigits(s);
      }
    }
  }

  /** `int(str(n)) == n`. */
  lemma ParseIntOfString(n: int)
    ensures ParseInt(IntToString(n)) == Some(n)
  {
    var s := IntToString(n);
    if n < 0 {
      DigitsOfNat(-n);
      assert s[1..] == NatToString(-n);
    } else {
      DigitsOfNat(n);
    }
  }
}
