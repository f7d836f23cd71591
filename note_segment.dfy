/**
 * keep_last_segment_infrom_note.py: trims the note text in column A of a worksheet to the
 * part that starts at the second-to-last `<number>>` marker, deletes dates from it, and
 * sizes the columns by an East Asian display width.
 */
module NoteSegment {
  import opened Wrappers
  import opened Text

  /** A cell value as openpyxl hands it over: empty, a string, or any other value. */
  datatype CellValue = Blank | Str(s: string) | Other(shown: string)

  /** `str(value)` for a non-empty cell. */
  function Shown(v: CellValue): string
    requires !v.Blank?
  {
    if v.Str? then v.s else v.shown
  }

  // ================================================================ PATTERN = \d+>

  /** End of the run of digits that starts at `i`. */
  function DigitRunEnd(s: string, i: nat): (e: nat)
    requires i <= |s|
    ensures i <= e <= |s|
    ensures forall k :: i <= k < e ==> IsDigit(s[k])
    ensures e == |s| || !IsDigit(s[e])
    decreases |s| - i
  {
    if i < |s| && IsDigit(s[i]) then DigitRunEnd(s, i + 1) else i
  }

  /** `PATTERN.match(s, i)` succeeds: digits from `i`, then '>' (backtracking can only shorten
      the digit run, and a shorter run is followed by a digit, never by '>'). */
  predicate MatchesAt(s: string, i: nat) {
    i < |s| && IsDigit(s[i]) && DigitRunEnd(s, i) < |s| && s[DigitRunEnd(s, i)] == '>'
  }

  /** The start of every `\d+>` match that `finditer` reports when scanning from `i`. */
  function FindMarkers(s: string, i: nat): (ms: seq<nat>)
    requires i <= |s|
    ensures forall k :: 0 <= k < |ms| ==> i <= ms[k] < |s|
    decreases |s| - i
  {
    if i == |s| then []
    else if MatchesAt(s, i) then [i] + FindMarkers(s, DigitRunEnd(s, i) + 1)
    else FindMarkers(s, i + 1)
  }

  /** `list(PATTERN.finditer(s))`, as the start index of each match. */
  function Markers(s: string): seq<nat> {
    FindMarkers(s, 0)
  }

  /** The first digit of a maximal digit run that a '>' follows. */
  predicate MarkerStart(s: string, m: nat) {
    MatchesAt(s, m) && (m == 0 || !IsDigit(s[m - 1]))
  }

  /** A scan may resume at `i`: the character before it does not begin a missed match. */
  predicate Resumable(s: string, i: nat) {
    i == 0 || (i <= |s| && (!IsDigit(s[i - 1]) || !MatchesAt(s, i - 1)))
  }

  lemma DigitRunShared(s: string, i: nat)
    requires 0 < i <= |s| && IsDigit(s[i - 1])
    ensures DigitRunEnd(s, i - 1) == DigitRunEnd(s, i)
  {
  }

  /** Every reported match is a marker start, and each begins after the '>' of the one before. */
  lemma {:induction false} FindMarkersSound(s: string, i: nat)
    requires i <= |s| && Resumable(s, i)
    ensures forall k :: 0 <= k < |FindMarkers(s, i)| ==> MarkerStart(s, FindMarkers(s, i)[k])
    ensures forall k :: 0 <= k < |FindMarkers(s, i)| - 1 ==>
              DigitRunEnd(s, FindMarkers(s, i)[k]) < FindMarkers(s, i)[k + 1]
    decreases |s| - i
  {
    if i < |s| {
      if i > 0 && IsDigit(s[i - 1]) {
        DigitRunShared(s, i);
      }
      if MatchesAt(s, i) {
        var e := DigitRunEnd(s, i);
        FindMarkersSound(s, e + 1);
      } else {
        FindMarkersSound(s, i + 1);
      }
    }
  }

  /** Every marker start at or after a resumable position is reported. */
  lemma {:induction false} FindMarkersComplete(s: string, i: nat, m: nat)
    requires i <= m && MarkerStart(s, m)
    requires i <= |s|
    ensures m in FindMarkers(s, i)
    decreases |s| - i
  {
    if i < m {
      if MatchesAt(s, i) {
        var e := DigitRunEnd(s, i);
        assert e < m;
        FindMarkersComplete(s, e + 1, m);
      } else {
        FindMarkersComplete(s, i + 1, m);
      }
    }
  }

  /** The matches of `\d+>` are exactly the marker starts, in increasing, non-overlapping order. */
  lemma MarkersExact(s: string)
    ensures forall m: nat :: m in Markers(s) <==> MarkerStart(s, m)
    ensures forall k :: 0 <= k < |Markers(s)| - 1 ==>
              DigitRunEnd(s, Markers(s)[k]) < Markers(s)[k + 1]
  {
    FindMarkersSound(s, 0);
    forall m: nat | MarkerStart(s, m) ensures m in Markers(s) {
      FindMarkersComplete(s, 0, m);
    }
  }

  /** From any reported match, the scan reports the same remaining matches. */
  lemma {:induction false} FindMarkersFrom(s: string, i: nat, k: nat)
    requires i <= |s| && k < |FindMarkers(s, i)|
    ensures FindMarkers(s, FindMarkers(s, i)[k]) == FindMarkers(s, i)[k..]
    decreases |s| - i
  {
    if i < |s| {
      if MatchesAt(s, i) {
        if k > 0 {
          FindMarkersFrom(s, DigitRunEnd(s, i) + 1, k - 1);
        }
      } else {
        FindMarkersFrom(s, i + 1, k);
      }
    }
  }

  /** Positions `ms` seen from offset `p`. */
  function Shift(ms: seq<int>, p: int): (r: seq<int>)
    ensures |r| == |ms| && forall k :: 0 <= k < |ms| ==> r[k] == ms[k] - p
  {
    seq(|ms|, k requires 0 <= k < |ms| => ms[k] - p)
  }

  lemma {:induction false} DigitRunEndSuffix(s: string, p: nat, i: nat)
    requires p <= i <= |s|
    ensures DigitRunEnd(s[p..], i - p) == DigitRunEnd(s, i) - p
    decreases |s| - i
  {
    if i < |s| && IsDigit(s[i]) {
      DigitRunEndSuffix(s, p, i + 1);
    }
  }

  /** The scan of a suffix sees the matches of the whole string that lie in it. */
  lemma ShiftCons(x: int, ms: seq<int>, p: int)
    ensures Shift([x] + ms, p) == [x - p] + Shift(ms, p)
  {
    var l := Shift([x] + ms, p);
    var r := [x - p] + Shift(ms, p);
    assert |l| == |r|;
    forall k | 0 <= k < |l| ensures l[k] == r[k] {
      if k > 0 {
        assert ([x] + ms)[k] == ms[k - 1];
      }
    }
  }

  lemma {:induction false} FindMarkersSuffix(s: string, p: nat, i: nat)
    requires p <= i <= |s|
    ensures FindMarkers(s[p..], i - p) == Shift(FindMarkers(s, i), p)
    decreases |s| - i
  {
    var t := s[p..];
    if i < |s| {
      DigitRunEndSuffix(s, p, i);
      assert t[i - p] == s[i];
      assert MatchesAt(t, i - p) == MatchesAt(s, i) by {
        var e := DigitRunEnd(s, i);
        assert e < |s| ==> t[e - p] == s[e];
      }
      if MatchesAt(s, i) {
        var e := DigitRunEnd(s, i);
        FindMarkersSuffix(s, p, e + 1);
        assert FindMarkers(t, i - p) == [i - p] + FindMarkers(t, e + 1 - p);
        assert FindMarkers(s, i) == [i] + FindMarkers(s, e + 1);
        ShiftCons(i, FindMarkers(s, e + 1), p);
      } else {
        FindMarkersSuffix(s, p, i + 1);
        assert FindMarkers(t, i - p) == FindMarkers(t, i + 1 - p);
      }
    }
  }

  // ================================================================ process_cell_value

  /** Where the kept segment starts: the second-to-last match, or the only one. */
  function KeepStart(s: string): (start: nat)
    requires Markers(s) != []
    ensures start < |s| && MarkerStart(s, start)
  {
    MarkersExact(s);
    var ms := Markers(s);
    if |ms| >= 2 then ms[|ms| - 2] else ms[|ms| - 1]
  }

  /**
   * `process_cell_value`. A blank cell stays blank; text without a marker comes back as it
   * is (only converted to a string); otherwise the text from the second-to-last marker (or
   * the only one) is stripped and cleared of dates.
   */
  function ProcessCellValue(v: CellValue): (r: CellValue)
    ensures v.Blank? <==> r.Blank?
    ensures v.Str? && Markers(v.s) == [] ==> r == v
    ensures v.Other? ==> r.Str?
    ensures !v.Blank? && Markers(Shown(v)) != [] ==>
              r.Str? && (r.s == [] || (!IsSpace(r.s[0]) && !IsSpace(r.s[|r.s| - 1])))
  {
    if v.Blank? then Blank
    else
      var s := Shown(v);
      if Markers(s) == [] then Str(s)
      else Str(RemoveTrailingDateTime(Strip(s[KeepStart(s)..])))
  }

  /**
   * The segment kept (before stripping) starts at a marker and holds exactly the last two
   * markers of the cell text, or its only marker: not only the last one.
   */
  lemma KeptSegmentMarkers(s: string)
    requires Markers(s) != []
    ensures var ms := Markers(s);
            var n := |ms|;
            var kept := s[KeepStart(s)..];
            Markers(kept) == Shift(ms[if n >= 2 then n - 2 else 0..], KeepStart(s))
            && |Markers(kept)| == (if n >= 2 then 2 else 1)
            && Markers(kept)[0] == 0
  {
    var ms := Markers(s);
    var n := |ms|;
    var k := if n >= 2 then n - 2 else 0;
    var start := KeepStart(s);
    assert start == ms[k];
    FindMarkersFrom(s, 0, k);
    FindMarkersSuffix(s, start, start);
  }

  // ================================================================ remove_trailing_date_time

  predicate IsDash(c: char) {
    c == '-' || c == '–' || c == '—'
  }

  predicate IsDateSep(c: char) {
    c == '.' || c == '/' || c == '-'
  }

  /** Number of digits at `i`, taking at most `most` (a greedy `\d{1,most}`). */
  function DigitsAt(s: string, i: nat, most: nat): (n: nat)
    ensures n <= most && (n == 0 || i + n <= |s|)
    ensures forall k :: i <= k < i + n ==> k < |s| && IsDigit(s[k])
    ensures n < most ==> i + n >= |s| || !IsDigit(s[i + n])
    decreases most
  {
    if most == 0 || i >= |s| || !IsDigit(s[i]) then 0 else 1 + DigitsAt(s, i + 1, most - 1)
  }

  /** End of the whitespace run at `i` (a greedy `\s*`). */
  function SpaceRunEnd(s: string, i: nat): (e: nat)
    requires i <= |s|
    ensures i <= e <= |s|
    ensures forall k :: i <= k < e ==> IsSpace(s[k])
    ensures e == |s| || !IsSpace(s[e])
    decreases |s| - i
  {
    if i < |s| && IsSpace(s[i]) then SpaceRunEnd(s, i + 1) else i
  }

  /** End of the run of whitespace and dashes at `i`; the only place a date can start. */
  function PrefixEnd(s: string, i: nat): (j: nat)
    requires i <= |s|
    ensures i <= j <= |s|
    ensures forall k :: i <= k < j ==> IsSpace(s[k]) || IsDash(s[k])
    ensures j == |s| || !(IsSpace(s[j]) || IsDash(s[j]))
    decreases |s| - i
  {
    if i < |s| && (IsSpace(s[i]) || IsDash(s[i])) then PrefixEnd(s, i + 1) else i
  }

  function DashCount(s: string, i: nat, j: nat): nat
    requires i <= j <= |s|
    decreases j - i
  {
    if i == j then 0 else (if IsDash(s[i]) then 1 else 0) + DashCount(s, i + 1, j)
  }

  /** `\d{4}[./-]\d{1,2}[./-]\d{1,2}` at `j`: where it ends. */
  function DateEnd(s: string, j: nat): (r: Option<nat>)
    ensures r.Some? ==> j + 8 <= r.value <= |s|
  {
    if DigitsAt(s, j, 5) == 4 && j + 4 < |s| && IsDateSep(s[j + 4]) then
      var a := j + 5;
      var n1 := DigitsAt(s, a, 2);
      if n1 >= 1 && a + n1 < |s| && IsDateSep(s[a + n1]) then
        var b := a + n1 + 1;
        var n2 := DigitsAt(s, b, 2);
        if n2 >= 1 then Some(b + n2) else None
      else None
    else None
  }

  predicate AmPmAt(s: string, i: nat) {
    i + 1 < |s| && s[i] in "APap" && s[i + 1] in "Mm"
  }

  /** `(?:\s+\d{1,2}:\d{2}(?::\d{2})?(?:\s?[APap][Mm])?)?` at `k`: where it ends. */
  function TimeEnd(s: string, k: nat): (e: nat)
    requires k <= |s|
    ensures k <= e <= |s|
  {
    var w := SpaceRunEnd(s, k);
    var h := DigitsAt(s, w, 2);
    if w > k && h >= 1 && w + h + 2 < |s| && s[w + h] == ':'
       && IsDigit(s[w + h + 1]) && IsDigit(s[w + h + 2]) then
      var p := w + h + 3;
      var p := if p + 2 < |s| && s[p] == ':' && IsDigit(s[p + 1]) && IsDigit(s[p + 2]) then p + 3 else p;
      if p < |s| && IsSpace(s[p]) && AmPmAt(s, p + 1) then p + 3
      else if AmPmAt(s, p) then p + 2
      else p
    else k
  }

  /** Where the date/time pattern matches when the search is at `i`, if it does. */
  function DateMatchAt(s: string, i: nat): (r: Option<nat>)
    requires i <= |s|
    ensures r.Some? ==> i < r.value <= |s|
  {
    var j := PrefixEnd(s, i);
    if DashCount(s, i, j) <= 1 then
      match DateEnd(s, j)
      case Some(d) => Some(TimeEnd(s, d))
      case None => None
    else None
  }

  /** `re.sub(date_time_re, "", s[i..])`: every match, anywhere, is deleted. */
  function SubDates(s: string, i: nat): (r: string)
    requires i <= |s|
    ensures |r| <= |s| - i
    decreases |s| - i
  {
    if i == |s| then []
    else
      match DateMatchAt(s, i)
      case Some(e) => SubDates(s, e)
      case None => [s[i]] + SubDates(s, i + 1)
  }

  /** `remove_trailing_date_time`: the empty string is returned as is; otherwise every date
      (with optional time and separator before it) is deleted and the rest stripped. */
  function RemoveTrailingDateTime(s: string): (r: string)
    ensures s == [] ==> r == []
    ensures |r| <= |s|
    ensures r == [] || (!IsSpace(r[0]) && !IsSpace(r[|r| - 1]))
  {
    if s == [] then s
    else
      var d := SubDates(s, 0);
      var r := Strip(d);
      assert |r| <= |d| <= |s|;
      r
  }

  /** Text in which the pattern matches nowhere is only stripped. */
  lemma {:induction false} SubDatesNoMatch(s: string, i: nat)
    requires i <= |s|
    requires forall k :: i <= k < |s| ==> DateMatchAt(s, k).None?
    ensures SubDates(s, i) == s[i..]
    decreases |s| - i
  {
    if i < |s| {
      SubDatesNoMatch(s, i + 1);
      assert s[i..] == [s[i]] + s[i + 1..];
    }
  }

  lemma SubDatesCuts(s: string, k: nat)
    requires k < |s| && DateMatchAt(s, k).Some?
    ensures SubDates(s, k) == SubDates(s, DateMatchAt(s, k).value)
  {
  }

  lemma SubDatesKeeps(s: string, k: nat)
    requires k < |s| && DateMatchAt(s, k).None?
    ensures SubDates(s, k) == [s[k]] + SubDates(s, k + 1)
  {
  }

  lemma Associative(a: string, b: string, c: string)
    ensures a + (b + c) == (a + b) + c
  {
  }

  lemma SliceCons(s: string, k: nat, i: nat)
    requires k < i <= |s|
    ensures s[k..i] == [s[k]] + s[k + 1..i]
  {
  }

  /** The first date in the text is cut out wherever it stands, not only at the end. */
  lemma {:induction false} FirstDateDeleted(s: string, k: nat, i: nat, e: nat)
    requires k <= i < |s| && DateMatchAt(s, i) == Some(e)
    requires forall x :: k <= x < i ==> DateMatchAt(s, x).None?
    ensures SubDates(s, k) == s[k..i] + SubDates(s, e)
    decreases i - k
  {
    if k < i {
      FirstDateDeleted(s, k + 1, i, e);
      SubDatesKeeps(s, k);
      SliceCons(s, k, i);
      Associative([s[k]], s[k + 1..i], SubDates(s, e));
    } else {
      SubDatesCuts(s, i);
      assert s[k..i] == [];
    }
  }

  predicate FourDigitsAt(s: string, j: nat) {
    j + 4 <= |s| && IsDigit(s[j]) && IsDigit(s[j + 1]) && IsDigit(s[j + 2]) && IsDigit(s[j + 3])
  }

  /** Text without four digits in a row holds no date, so only the strip applies. */
  lemma NoYearOnlyStrips(s: string)
    requires forall j: nat :: !FourDigitsAt(s, j)
    ensures RemoveTrailingDateTime(s) == Strip(s)
  {
    forall k | 0 <= k < |s| ensures DateMatchAt(s, k).None? {
      var j := PrefixEnd(s, k);
      assert !FourDigitsAt(s, j);
    }
    SubDatesNoMatch(s, 0);
    assert s[0..] == s;
  }

  /** The example of the script's docstring keeps its last TWO segments, not only the last. */
  lemma DocstringExample()
    ensures ProcessCellValue(Str("1>a 2>b 3>c")) == Str("2>b 3>c")
  {
    var s := "1>a 2>b 3>c";
    ExampleMarkers();
    var t := "2>b 3>c";
    assert s[4..] == t;
    StripKeeps(t);
    assert Strip(t) == t;
    NoYearOnlyStrips(t);
  }

  lemma ExampleMarkers()
    ensures Markers("1>a 2>b 3>c") == [0, 4, 8]
  {
    var s := "1>a 2>b 3>c";
    assert DigitRunEnd(s, 0) == 1;
    assert DigitRunEnd(s, 4) == 5;
    assert DigitRunEnd(s, 8) == 9;
    assert FindMarkers(s, 8) == [8];
    assert FindMarkers(s, 4) == [4, 8];
  }

  // ================================================================ display_length

  /** East Asian Width F or W (Unicode Standard Annex #11), for the main wide blocks. */
  predicate IsWide(c: char) {
    ('\U{1100}' <= c <= '\U{115F}') || ('\U{2E80}' <= c <= '\U{303E}')
    || ('\U{3041}' <= c <= '\U{33FF}') || ('\U{3400}' <= c <= '\U{4DBF}')
    || ('\U{4E00}' <= c <= '\U{9FFF}') || ('\U{A000}' <= c <= '\U{A4CF}')
    || ('\U{AC00}' <= c <= '\U{D7A3}') || ('\U{F900}' <= c <= '\U{FAFF}')
    || ('\U{FE30}' <= c <= '\U{FE4F}') || ('\U{FF00}' <= c <= '\U{FF60}')
    || ('\U{FFE0}' <= c <= '\U{FFE6}') || ('\U{1F300}' <= c <= '\U{1F64F}')
    || ('\U{1F900}' <= c <= '\U{1F9FF}') || ('\U{20000}' <= c <= '\U{2FFFD}')
    || ('\U{30000}' <= c <= '\U{3FFFD}')
  }

  function CharWidth(c: char): nat {
    if IsWide(c) then 2 else 1
  }

  /** The display width the script estimates: wide characters count two columns. */
  function Width(s: string): nat {
    if s == [] then 0 else Width(s[..|s| - 1]) + CharWidth(s[|s| - 1])
  }

  lemma {:induction false} WidthBounds(s: string)
    ensures |s| <= Width(s) <= 2 * |s|
  {
    if s != [] {
      WidthBounds(s[..|s| - 1]);
    }
  }

  lemma {:induction false} WidthAppend(a: string, b: string)
    ensures Width(a + b) == Width(a) + Width(b)
    decreases |b|
  {
    if b == [] {
      assert a + b == a;
    } else {
      assert (a + b)[..|a + b| - 1] == a + b[..|b| - 1];
      WidthAppend(a, b[..|b| - 1]);
    }
  }

  /** `display_length`: the loop that adds 2 per wide character and 1 per other one. */
  method DisplayLength(s: string) returns (total: nat)
    ensures total == Width(s)
    ensures |s| <= total <= 2 * |s|
    ensures s == [] ==> total == 0
  {
    if s == [] {
      return 0;
    }
    total := 0;
    var i := 0;
    while i < |s|
      invariant 0 <= i <= |s|
      invariant total == Width(s[..i])
    {
      assert s[..i + 1][..i] == s[..i];
      if IsWide(s[i]) {
        total := total + 2;
      } else {
        total := total + 1;
      }
      i := i + 1;
    }
    assert s[..|s|] == s;
    WidthBounds(s);
  }

  // ================================================================ process_workbook

  /** The width a column gets: two characters of padding, never below 8 nor above 120. */
  function ColumnWidth(maxLen: nat): (w: nat)
    ensures 8 <= w <= 120
    ensures 6 <= maxLen <= 118 ==> w == maxLen + 2
    ensures maxLen < 6 ==> w == 8
    ensures maxLen > 118 ==> w == 120
  {
    if maxLen + 2 > 120 then 120 else if maxLen + 2 < 8 then 8 else maxLen + 2
  }

  /** Widest text among the first `n` rows of column `c`, skipping empty cells. */
  function MaxWidth(grid: array2<CellValue>, c: nat, n: nat): nat
    requires c < grid.Length1 && n <= grid.Length0
    reads grid
  {
    if n == 0 then 0
    else
      var m := MaxWidth(grid, c, n - 1);
      var v := grid[n - 1, c];
      if v.Blank? then m else if Width(Shown(v)) > m then Width(Shown(v)) else m
  }

  /** Number of cells of `col` that `process` changes. */
  function ChangedCount(col: seq<CellValue>, process: CellValue -> CellValue): nat {
    if col == [] then 0
    else ChangedCount(col[..|col| - 1], process) + (if process(col[|col| - 1]) != col[|col| - 1] then 1 else 0)
  }

  function Column(grid: array2<CellValue>, c: nat): (col: seq<CellValue>)
    requires c < grid.Length1
    reads grid
    ensures |col| == grid.Length0
    ensures forall r :: 0 <= r < grid.Length0 ==> col[r] == grid[r, c]
  {
    seq(grid.Length0, r requires 0 <= r < grid.Length0 reads grid => grid[r, c])
  }

  /**
   * The first loop of `process_workbook`: every non-empty cell of column A is replaced by
   * its processed value when that differs, and `changed` counts those writes.
   */
  method RewriteColumnA(grid: array2<CellValue>) returns (changed: nat)
    requires grid.Length1 >= 1
    modifies grid
    ensures forall r :: 0 <= r < grid.Length0 ==> grid[r, 0] == ProcessCellValue(old(grid[r, 0]))
    ensures forall r, c :: 0 <= r < grid.Length0 && 1 <= c < grid.Length1 ==> grid[r, c] == old(grid[r, c])
    ensures changed == ChangedCount(old(Column(grid, 0)), ProcessCellValue)
  {
    changed := RewriteColumn(grid, ProcessCellValue);
  }

  /** The rewrite loop for any cell rule that leaves empty cells empty. */
  method RewriteColumn(grid: array2<CellValue>, process: CellValue -> CellValue) returns (changed: nat)
    requires grid.Length1 >= 1 && process(Blank) == Blank
    modifies grid
    ensures forall r :: 0 <= r < grid.Length0 ==> grid[r, 0] == process(old(grid[r, 0]))
    ensures forall r, c :: 0 <= r < grid.Length0 && 1 <= c < grid.Length1 ==> grid[r, c] == old(grid[r, c])
    ensures changed == ChangedCount(old(Column(grid, 0)), process)
  {
    ghost var before := Column(grid, 0);
    changed := 0;
    var row := 0;
    while row < grid.Length0
      invariant 0 <= row <= grid.Length0
      invariant forall r :: 0 <= r < row ==> grid[r, 0] == process(before[r])
      invariant forall r :: row <= r < grid.Length0 ==> grid[r, 0] == before[r]
      invariant forall r, c :: 0 <= r < grid.Length0 && 1 <= c < grid.Length1 ==> grid[r, c] == old(grid[r, c])
      invariant changed == ChangedCount(before[..row], process)
    {
      assert before[..row + 1][..row] == before[..row];
      var original := grid[row, 0];
      if !original.Blank? {
        var updated := process(original);
        if updated != original {
          grid[row, 0] := updated;
          changed := changed + 1;
        }
      }
      row := row + 1;
    }
    assert before[..grid.Length0] == before;
  }

  /** The second loop of `process_workbook`: each column's width from its widest cell. */
  method ColumnWidths(grid: array2<CellValue>) returns (widths: seq<nat>)
    ensures |widths| == grid.Length1
    ensures forall c :: 0 <= c < grid.Length1 ==>
              widths[c] == ColumnWidth(MaxWidth(grid, c, grid.Length0)) && 8 <= widths[c] <= 120
  {
    widths := [];
    var col := 0;
    while col < grid.Length1
      invariant 0 <= col <= grid.Length1
      invariant |widths| == col
      invariant forall c :: 0 <= c < col ==> widths[c] == ColumnWidth(MaxWidth(grid, c, grid.Length0))
    {
      var maxLen := 0;
      var row := 0;
      while row < grid.Length0
        invariant 0 <= row <= grid.Length0
        invariant maxLen == MaxWidth(grid, col, row)
      {
        var val := grid[row, col];
        if !val.Blank? {
          var len := DisplayLength(Shown(val));
          if len > maxLen {
            maxLen := len;
          }
        }
        row := row + 1;
      }
      widths := widths + [ColumnWidth(maxLen)];
      col := col + 1;
    }
  }

  /** `process_workbook` between load and save: rewrite column A, then size every column. */
  method ProcessWorkbook(grid: array2<CellValue>) returns (changed: nat, widths: seq<nat>)
    requires grid.Length1 >= 1
    modifies grid
    ensures forall r :: 0 <= r < grid.Length0 ==> grid[r, 0] == ProcessCellValue(old(grid[r, 0]))
    ensures forall r, c :: 0 <= r < grid.Length0 && 1 <= c < grid.Length1 ==> grid[r, c] == old(grid[r, c])
    ensures changed == ChangedCount(old(Column(grid, 0)), ProcessCellValue)
    ensures |widths| == grid.Length1
    ensures forall c :: 0 <= c < grid.Length1 ==>
              widths[c] == ColumnWidth(MaxWidth(grid, c, grid.Length0)) && 8 <= widths[c] <= 120
  {
    changed := RewriteColumnA(grid);
    widths := ColumnWidths(grid);
  }
}
