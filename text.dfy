/**
 * The pieces of Python's `str` behaviour that the scripts lean on: the whitespace set of
 * `str.isspace` (used by `strip`, `split`, `int()` and the regex class `\s`), `strip()`,
 * `split()` with no argument, `' '.join`, substring `in`, `lower()`, `str(int)`,
 * `int(str)` and the `{:,}` format.
 */
module Text {
  import opened Wrappers

  /** Python's whitespace: exactly the characters for which `str.isspace()` is true. */
  predicate IsSpace(c: char) {
    c == ' ' || ('\t' <= c <= '\r') || ('\U{1C}' <= c <= '\U{1F}') || c == '\U{85}'
    || c == '\U{A0}' || c == '\U{1680}' || ('\U{2000}' <= c <= '\U{200A}')
    || c == '\U{2028}' || c == '\U{2029}' || c == '\U{202F}' || c == '\U{205F}'
    || c == '\U{3000}'
  }

  /** A decimal digit, as matched by `\d` and `str.isdigit` on ASCII text. */
  predicate IsDigit(c: char) {
    '0' <= c <= '9'
  }

  predicate HasDigit(s: string) {
    exists i :: 0 <= i < |s| && IsDigit(s[i])
  }

  predicate NoSpaceIn(s: string) {
    forall i :: 0 <= i < |s| ==> !IsSpace(s[i])
  }

  // ---------------------------------------------------------------- strip

  /** Number of whitespace characters at the start of `s`. */
  function LeadSpaces(s: string): (n: nat)
    ensures n <= |s|
    ensures forall i :: 0 <= i < n ==> IsSpace(s[i])
    ensures n == |s| || !IsSpace(s[n])
  {
    if s != [] && IsSpace(s[0]) then 1 + LeadSpaces(s[1..]) else 0
  }

  /** Length of `s` once its trailing whitespace is cut off. */
  function TrimmedLength(s: string): (n: nat)
    ensures n <= |s|
    ensures forall i :: n <= i < |s| ==> IsSpace(s[i])
    ensures n == 0 || !IsSpace(s[n - 1])
  {
    if s != [] && IsSpace(s[|s| - 1]) then TrimmedLength(s[..|s| - 1]) else |s|
  }

  /** `s.lstrip()`: drops the leading whitespace and nothing else. */
  function StripStart(s: string): (r: string)
    ensures |r| <= |s| && r == s[|s| - |r|..]
    ensures r == [] || !IsSpace(r[0])
    ensures forall i :: 0 <= i < |s| - |r| ==> IsSpace(s[i])
  {
    s[LeadSpaces(s)..]
  }

  /** `s.strip()`: the slice of `s` left after cutting whitespace at both ends. */
  function Strip(s: string): (r: string)
    ensures r == [] || (!IsSpace(r[0]) && !IsSpace(r[|r| - 1]))
    ensures LeadSpaces(s) + |r| <= |s| && r == s[LeadSpaces(s)..LeadSpaces(s) + |r|]
    ensures forall i :: 0 <= i < LeadSpaces(s) ==> IsSpace(s[i])
    ensures forall i :: LeadSpaces(s) + |r| <= i < |s| ==> IsSpace(s[i])
  {
    var a := LeadSpaces(s);
    if a == |s| then [] else s[a..TrimmedLength(s)]
  }

  lemma StripStartKeeps(s: string)
    requires s == [] || !IsSpace(s[0])
    ensures StripStart(s) == s
  {
  }

  /** Text with no whitespace at either end is its own strip. */
  lemma StripKeeps(s: string)
    requires s == [] || (!IsSpace(s[0]) && !IsSpace(s[|s| - 1]))
    ensures Strip(s) == s
  {
    if s != [] {
      assert TrimmedLength(s) == |s|;
    }
  }

  /** Stripping is idempotent. */
  lemma StripIdempotent(s: string)
    ensures Strip(Strip(s)) == Strip(s)
  {
    StripKeeps(Strip(s));
  }

  /** `int()` ignores surrounding whitespace, so stripping first changes nothing. */
  lemma ParseIntStrip(s: string)
    ensures ParseInt(Strip(s)) == ParseInt(s)
  {
    StripIdempotent(s);
    assert Strip(Strip(s)) == Strip(s);
  }

  /** A string with no whitespace at all is its own strip. */
  lemma StripNoSpace(s: string)
    requires NoSpaceIn(s)
    ensures Strip(s) == s
  {
    StripKeeps(s);
  }

  // ---------------------------------------------------------------- split / join

  /** Length of the run of non-whitespace characters at the start of `s`. */
  function WordLen(s: string): (n: nat)
    ensures n <= |s|
    ensures forall i :: 0 <= i < n ==> !IsSpace(s[i])
    ensures n == |s| || IsSpace(s[n])
  {
    if s == [] || IsSpace(s[0]) then 0 else 1 + WordLen(s[1..])
  }

  /** `s.split()`: the maximal runs of non-whitespace characters, in order. */
  function Words(s: string): (ws: seq<string>)
    decreases |s|
  {
    var t := StripStart(s);
    if t == [] then []
    else
      var n := WordLen(t);
      [t[..n]] + Words(t[n..])
  }

  /** Every word `split()` returns is non-empty and free of whitespace. */
  lemma {:induction false} WordsWellFormed(s: string)
    ensures WellFormedWords(Words(s))
    decreases |s|
  {
    var t := StripStart(s);
    if t != [] {
      var n := WordLen(t);
      WordsWellFormed(t[n..]);
      var w := t[..n];
      assert w != [] && NoSpaceIn(w);
      assert Words(s) == [w] + Words(t[n..]);
      WellFormedCons(w, Words(t[n..]));
    }
  }

  lemma WellFormedCons(w: string, rest: seq<string>)
    requires w != [] && NoSpaceIn(w) && WellFormedWords(rest)
    ensures WellFormedWords([w] + rest)
  {
    forall k | 0 <= k < |[w] + rest| ensures ([w] + rest)[k] != [] && NoSpaceIn(([w] + rest)[k]) {
      if k > 0 {
        assert ([w] + rest)[k] == rest[k - 1];
      }
    }
  }

  /** `' '.join(ws)`. */
  function JoinSpaces(ws: seq<string>): string {
    if ws == [] then ""
    else if |ws| == 1 then ws[0]
    else ws[0] + (" " + JoinSpaces(ws[1..]))
  }

  predicate WellFormedWords(ws: seq<string>) {
    forall k :: 0 <= k < |ws| ==> ws[k] != [] && NoSpaceIn(ws[k])
  }

  /** One step of `split()` on text that starts with a word. */
  lemma WordsStep(s: string)
    requires s != [] && !IsSpace(s[0])
    ensures Words(s) == [s[..WordLen(s)]] + Words(s[WordLen(s)..])
  {
    StripStartKeeps(s);
  }

  /** Splitting text made by joining non-empty, space-free words gives back those words. */
  lemma {:induction false} WordsOfJoin(ws: seq<string>)
    requires WellFormedWords(ws)
    ensures Words(JoinSpaces(ws)) == ws
  {
    if |ws| == 1 {
      WordsOfSingle(ws[0]);
    } else if |ws| > 1 {
      WordsOfJoin(ws[1..]);
      WordsOfJoinCons(ws);
    }
  }

  lemma WordsOfSingle(w: string)
    requires w != [] && NoSpaceIn(w)
    ensures Words(JoinSpaces([w])) == [w]
  {
    WordsOfOneWord(w, "");
    assert w + "" == w;
  }

  lemma WordsOfJoinCons(ws: seq<string>)
    requires |ws| > 1 && ws[0] != [] && NoSpaceIn(ws[0])
    requires Words(JoinSpaces(ws[1..])) == ws[1..]
    ensures Words(JoinSpaces(ws)) == ws
  {
    var w := ws[0];
    var rest := JoinSpaces(ws[1..]);
    var tail := " " + rest;
    assert JoinSpaces(ws) == w + tail;
    WordsOfOneWord(w, tail);
    WordsSkipsSpace(rest);
    assert Words(tail) == ws[1..];
    HeadTail(ws);
  }

  lemma HeadTail(ws: seq<string>)
    requires ws != []
    ensures [ws[0]] + ws[1..] == ws
  {
  }

  lemma WordsOfOneWord(w: string, tail: string)
    requires w != [] && NoSpaceIn(w)
    requires tail == [] || IsSpace(tail[0])
    ensures Words(w + tail) == [w] + Words(tail)
  {
    var s := w + tail;
    WordLenOfWord(w, tail);
    WordsStep(s);
    assert s[..|w|] == w;
    assert s[|w|..] == tail;
  }

  lemma {:induction false} WordLenOfWord(w: string, tail: string)
    requires w != [] && NoSpaceIn(w)
    requires tail == [] || IsSpace(tail[0])
    ensures WordLen(w + tail) == |w|
    decreases |w|
  {
    if |w| > 1 {
      assert (w + tail)[1..] == w[1..] + tail;
      WordLenOfWord(w[1..], tail);
    } else {
      assert (w + tail)[1..] == tail;
    }
  }

  lemma WordsSkipsSpace(rest: string)
    ensures Words(" " + rest) == Words(rest)
  {
    assert StripStart(" " + rest) == StripStart(rest) by {
      assert (" " + rest)[1..] == rest;
    }
  }

  // ---------------------------------------------------------------- substring

  /** Python's `t in s` for strings. */
  predicate Contains(s: string, t: string)
    decreases |s|
  {
    |t| <= |s| && (s[..|t|] == t || Contains(s[1..], t))
  }

  predicate OccursAt(s: string, t: string, i: nat) {
    i + |t| <= |s| && s[i..i + |t|] == t
  }

  /** `t in s` holds exactly when `t` occurs at some position of `s`. */
  lemma {:induction false} ContainsAt(s: string, t: string)
    ensures Contains(s, t) <==> exists i: nat :: OccursAt(s, t, i)
    decreases |s|
  {
    if |t| <= |s| && s[..|t|] != t {
      ContainsAt(s[1..], t);
      if Contains(s[1..], t) {
        var i: nat :| OccursAt(s[1..], t, i);
        TailSlice(s, i, i + |t|);
        assert OccursAt(s, t, i + 1);
      }
      if exists i: nat :: OccursAt(s, t, i) {
        var i: nat :| OccursAt(s, t, i);
        assert i != 0;
        TailSlice(s, i - 1, i - 1 + |t|);
        assert OccursAt(s[1..], t, i - 1);
      }
    } else if |t| <= |s| {
      assert OccursAt(s, t, 0);
    }
  }

  lemma TailSlice(s: string, a: nat, b: nat)
    requires a <= b < |s|
    ensures s[1..][a..b] == s[a + 1..b + 1]
  {
  }

  /** A one-character `in` test holds exactly when the character appears somewhere. */
  lemma ContainsChar(s: string, c: char)
    ensures Contains(s, [c]) <==> exists i :: 0 <= i < |s| && s[i] == c
  {
    ContainsAt(s, [c]);
    if exists i :: 0 <= i < |s| && s[i] == c {
      var i :| 0 <= i < |s| && s[i] == c;
      assert OccursAt(s, [c], i);
    }
    if Contains(s, [c]) {
      var i: nat :| OccursAt(s, [c], i);
      assert s[i..i + 1][0] == s[i];
    }
  }

  // ---------------------------------------------------------------- lower

  function LowerChar(c: char): char {
    if 'A' <= c <= 'Z' then (c as int + 32) as char else c
  }

  predicate IsUpper(c: char) { 'A' <= c <= 'Z' }

  /**
   * `s.lower()` on ASCII letters: no capital is left, each capital becomes the letter 32
   * code points later, and every other character is kept in place.
   */
  function Lower(s: string): (r: string)
    ensures |r| == |s|
    ensures forall i :: 0 <= i < |r| ==> !IsUpper(r[i])
    ensures forall i :: 0 <= i < |s| && !IsUpper(s[i]) ==> r[i] == s[i]
    ensures forall i :: 0 <= i < |s| && IsUpper(s[i]) ==> r[i] as int == s[i] as int + 32 && 'a' <= r[i] <= 'z'
  {
    seq(|s|, i requires 0 <= i < |s| => LowerChar(s[i]))
  }

  lemma LowerIdempotent(s: string)
    ensures Lower(Lower(s)) == Lower(s)
  {
  }

  // ---------------------------------------------------------------- numbers

  function DigitChar(d: nat): char
    requires d < 10
  {
    ('0' as int + d) as char
  }

  function DigitValue(c: char): nat
    requires IsDigit(c)
  {
    c as int - '0' as int
  }

  /** `str(n)` for n >= 0: the shortest decimal numeral. */
  function NatDigits(n: nat): (r: string)
    ensures r != [] && forall i :: 0 <= i < |r| ==> IsDigit(r[i])
    ensures |r| > 1 ==> r[0] != '0'
  {
    if n < 10 then [DigitChar(n)] else NatDigits(n / 10) + [DigitChar(n % 10)]
  }

  /** `str(n)`. */
  function Decimal(n: int): string {
    if n < 0 then "-" + NatDigits(-n) else NatDigits(n)
  }

  /** Value of a numeral made of decimal digits only. */
  function DigitsValue(d: string): nat
    requires forall i :: 0 <= i < |d| ==> IsDigit(d[i])
  {
    if d == [] then 0 else 10 * DigitsValue(d[..|d| - 1]) + DigitValue(d[|d| - 1])
  }

  /** Digits with single underscores between digits, as `int()` accepts them. */
  predicate DigitGroups(t: string) {
    t != [] && IsDigit(t[0]) && IsDigit(t[|t| - 1])
    && (forall i :: 0 <= i < |t| ==> IsDigit(t[i]) || t[i] == '_')
    && (forall i :: 0 < i < |t| ==> t[i - 1] != '_' || t[i] != '_')
  }

  function DropUnderscores(t: string): (r: string)
    requires forall i :: 0 <= i < |t| ==> IsDigit(t[i]) || t[i] == '_'
    ensures forall i :: 0 <= i < |r| ==> IsDigit(r[i])
  {
    if t == [] then [] else (if t[0] == '_' then [] else [t[0]]) + DropUnderscores(t[1..])
  }

  /** The value of the unsigned part of an `int()` literal, if it is well formed. */
  function ParseUnsigned(t: string): Option<nat> {
    if DigitGroups(t) then Some(DigitsValue(DropUnderscores(t))) else None
  }

  /**
   * `int(s)` for base 10: surrounding whitespace is ignored, then an optional sign and
   * digits (single underscores allowed between digits). None where `int()` raises ValueError.
   */
  function ParseInt(s: string): Option<int> {
    var t := Strip(s);
    if t != [] && (t[0] == '+' || t[0] == '-') then
      match ParseUnsigned(t[1..])
      case Some(v) =>
        var k: int := v;
        Some(if t[0] == '-' then -k else k)
      case None => None
    else
      match ParseUnsigned(t)
      case Some(v) => Some(v)
      case None => None
  }

  lemma {:induction false} NatDigitsValue(n: nat)
    ensures DigitsValue(NatDigits(n)) == n
  {
    if n >= 10 {
      NatDigitsValue(n / 10);
      var d := NatDigits(n);
      assert d[..|d| - 1] == NatDigits(n / 10);
    }
  }

  lemma {:induction false} DropUnderscoresDigits(d: string)
    requires forall i :: 0 <= i < |d| ==> IsDigit(d[i])
    ensures DropUnderscores(d) == d
  {
    if d != [] {
      DropUnderscoresDigits(d[1..]);
    }
  }

  lemma ParseNatDigits(m: nat)
    ensures ParseUnsigned(NatDigits(m)) == Some(m)
  {
    var d := NatDigits(m);
    NatDigitsValue(m);
    DropUnderscoresDigits(d);
    assert DigitGroups(d);
  }

  lemma DigitsNoSpace(d: string)
    requires forall i :: 0 <= i < |d| ==> IsDigit(d[i])
    ensures NoSpaceIn(d)
  {
  }

  /** `int(str(n)) == n`: rendering a number and parsing it back is the identity. */
  lemma DecimalRoundTrip(n: int)
    ensures ParseInt(Decimal(n)) == Some(n)
  {
    if n < 0 {
      NegativeRoundTrip(n);
    } else {
      var d := NatDigits(n);
      ParseNatDigits(n);
      DigitsNoSpace(d);
      StripNoSpace(d);
      assert IsDigit(d[0]);
    }
  }

  lemma NegativeRoundTrip(n: int)
    requires n < 0
    ensures ParseInt(Decimal(n)) == Some(n)
  {
    var m: nat := -n;
    var d := NatDigits(m);
    var s := "-" + d;
    assert Decimal(n) == s;
    SignedNoSpace(d);
    StripNoSpace(s);
    assert s[1..] == d;
    ParseNatDigits(m);
  }

  lemma SignedNoSpace(d: string)
    requires forall i :: 0 <= i < |d| ==> IsDigit(d[i])
    ensures NoSpaceIn("-" + d)
  {
    var s := "-" + d;
    forall i | 0 <= i < |s| ensures !IsSpace(s[i]) {
      if i > 0 {
        assert s[i] == d[i - 1];
      }
    }
  }


  /** Three decimal digits with leading zeros, for one group of `{:,}`. */
  function Pad3(k: nat): (r: string)
    requires k < 1000
    ensures |r| == 3
  {
    [DigitChar(k / 100), DigitChar(k / 10 % 10), DigitChar(k % 10)]
  }

  function GroupedNat(n: nat): string {
    if n < 1000 then NatDigits(n) else GroupedNat(n / 1000) + "," + Pad3(n % 1000)
  }

  /** `f'{n:,}'`: the decimal numeral with a comma between groups of three digits. */
  function Thousands(n: int): string {
    if n < 0 then "-" + GroupedNat(-n) else GroupedNat(n)
  }

  function DropCommas(s: string): string {
    if s == [] then [] else (if s[0] == ',' then [] else [s[0]]) + DropCommas(s[1..])
  }

  lemma {:induction false} DropCommasAppend(a: string, b: string)
    ensures DropCommas(a + b) == DropCommas(a) + DropCommas(b)
    decreases |a|
  {
    if a != [] {
      assert (a + b)[1..] == a[1..] + b;
      DropCommasAppend(a[1..], b);
    } else {
      assert a + b == b;
    }
  }

  lemma {:induction false} DropCommasDigits(d: string)
    requires forall i :: 0 <= i < |d| ==> IsDigit(d[i])
    ensures DropCommas(d) == d
  {
    if d != [] {
      DropCommasDigits(d[1..]);
    }
  }

  lemma DivModThousand(n: nat)
    requires n >= 1000
    ensures n / 10 / 10 / 10 == n / 1000
    ensures n % 10 == n % 1000 % 10
    ensures n / 10 % 10 == n % 1000 / 10 % 10
    ensures n / 10 / 10 % 10 == n % 1000 / 100
  {
    var q, k := n / 1000, n % 1000;
    assert n == 1000 * q + k;
    assert n / 10 == 100 * q + k / 10;
    assert n / 10 / 10 == 10 * q + k / 100;
  }

  lemma NatDigitsSplit(n: nat)
    requires n >= 1000
    ensures NatDigits(n) == NatDigits(n / 1000) + Pad3(n % 1000)
  {
    DivModThousand(n);
    var k := n % 1000;
    assert NatDigits(n) == NatDigits(n / 10) + [DigitChar(n % 10)];
    assert NatDigits(n / 10) == NatDigits(n / 10 / 10) + [DigitChar(n / 10 % 10)];
    assert NatDigits(n / 10 / 10) == NatDigits(n / 1000) + [DigitChar(n / 10 / 10 % 10)];
  }

  lemma {:induction false} GroupedNatDigits(n: nat)
    ensures DropCommas(GroupedNat(n)) == NatDigits(n)
  {
    if n < 1000 {
      DropCommasDigits(NatDigits(n));
    } else {
      GroupedNatDigits(n / 1000);
      var p := Pad3(n % 1000);
      DropCommasAppend(GroupedNat(n / 1000) + ",", p);
      DropCommasAppend(GroupedNat(n / 1000), ",");
      DropCommasDigits(p);
      NatDigitsSplit(n);
    }
  }

  /** Removing the separators from `f'{n:,}'` gives back `str(n)`. */
  lemma ThousandsDigits(n: int)
    ensures DropCommas(Thousands(n)) == Decimal(n)
  {
    if n < 0 {
      GroupedNatDigits(-n);
      DropCommasAppend("-", GroupedNat(-n));
    } else {
      GroupedNatDigits(n);
    }
  }
}
