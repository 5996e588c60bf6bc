/** The engine schematic: each line is scanned into its numbers (maximal
    runs of decimal digits, with their first and last column) and the
    columns of its symbols. A window of three scanned lines slides down the
    schematic; part numbers are the numbers of the middle line that touch a
    symbol in the window, and gears are stars touching exactly two distinct
    number values. */
module Schematic {
  import opened Common

  /** A number on a line: its value and its first and last column. */
  datatype Num = Num(value: nat, start: nat, end: nat)

  /** A scanned line: its numbers in order, and its selected symbol columns. */
  datatype LineProc = LineProc(nums: seq<Num>, symbols: set<nat>)

  /** Which characters count as symbols: the `select_func` a `Section`
      is built with is one of `is_symbol` and `is_star`. */
  datatype Selector = Symbols | Stars

  /** The window: the selector of symbols, the widest line seen, and three lines. */
  datatype Section = Section(select: Selector, width: nat, preceding: LineProc, current: LineProc, next: LineProc)

  const Empty := LineProc([], {})

  /** Part one counts every character that is neither a digit nor '.'. */
  predicate IsSymbol(c: char) {
    !IsDigit(c) && c != '.'
  }

  /** Part two counts only stars. */
  predicate IsStar(c: char) {
    c == '*'
  }

  predicate Selects(select: Selector, c: char) {
    match select
    case Symbols => IsSymbol(c)
    case Stars => IsStar(c)
  }

  // ---------------------------------------------------------------------
  // Scanning one line (`process_line`)
  // ---------------------------------------------------------------------

  /** The numbers among the first `n` characters of `s`, as the scan of
      day3.rs:64-90 finds them one character at a time: a digit after a
      digit extends the last number, any other digit starts a new one. */
  function RunsUpTo(s: string, n: nat): (rs: seq<Num>)
    requires n <= |s|
    ensures n > 0 && IsDigit(s[n - 1]) ==> rs != [] && rs[|rs| - 1].end == n - 1
  {
    if n == 0 then []
    else
      var rs := RunsUpTo(s, n - 1);
      var c := s[n - 1];
      if !IsDigit(c) then rs
      else if n > 1 && IsDigit(s[n - 2]) then
        var last := rs[|rs| - 1];
        rs[|rs| - 1 := Num(last.value * 10 + DigitValue(c), last.start, n - 1)]
      else rs + [Num(DigitValue(c), n - 1, n - 1)]
  }

  /** The numbers of a whole line. */
  function Runs(s: string): seq<Num> {
    RunsUpTo(s, |s|)
  }

  /** `num` is a maximal run of digits among the first `n` characters of
      `s`, and carries its decimal value. */
  predicate IsRunBefore(s: string, n: nat, num: Num) {
    && num.start <= num.end < n <= |s|
    && AllDigits(s[num.start..num.end + 1])
    && (num.start == 0 || !IsDigit(s[num.start - 1]))
    && (num.end + 1 == n || !IsDigit(s[num.end + 1]))
    && num.value == DecimalValue(s[num.start..num.end + 1])
  }

  /** `num` is a maximal run of digits of `s` and carries its decimal value. */
  predicate IsRun(s: string, num: Num) {
    IsRunBefore(s, |s|, num)
  }

  /** Numbers in left-to-right order, with at least one column between two. */
  predicate OrderedRuns(rs: seq<Num>) {
    && (forall k :: 0 <= k < |rs| ==> rs[k].start <= rs[k].end)
    && (forall i, j :: 0 <= i < j < |rs| ==> rs[i].end + 1 < rs[j].start)
  }

  /** The digit at column `p` is inside one of the numbers. */
  predicate Covered(rs: seq<Num>, p: int) {
    exists k :: 0 <= k < |rs| && rs[k].start <= p <= rs[k].end
  }

  lemma KeepRunBefore(s: string, n: nat, num: Num)
    requires 0 < n <= |s| && IsRunBefore(s, n - 1, num)
    requires num.end + 1 < n - 1 || !IsDigit(s[n - 1])
    ensures IsRunBefore(s, n, num)
  {
  }

  lemma ExtendRunBefore(s: string, n: nat, num: Num)
    requires 1 < n <= |s| && IsDigit(s[n - 1])
    requires IsRunBefore(s, n - 1, num) && num.end == n - 2
    ensures IsRunBefore(s, n, Num(num.value * 10 + DigitValue(s[n - 1]), num.start, n - 1))
  {
    var t := s[num.start..n];
    assert t[..|t| - 1] == s[num.start..n - 1];
    assert forall i :: 0 <= i < |t| ==> t[i] == s[num.start + i];
  }

  lemma StartRunBefore(s: string, n: nat)
    requires 0 < n <= |s| && IsDigit(s[n - 1]) && (n == 1 || !IsDigit(s[n - 2]))
    ensures IsRunBefore(s, n, Num(DigitValue(s[n - 1]), n - 1, n - 1))
  {
    assert s[n - 1..n] == [s[n - 1]];
    assert [s[n - 1]][..0] == [];
  }

  /** The last column of a number holds a digit. */
  lemma RunEndsOnDigit(s: string, n: nat, num: Num)
    requires IsRunBefore(s, n, num)
    ensures IsDigit(s[num.end])
  {
    assert s[num.start..num.end + 1][num.end - num.start] == s[num.end];
  }

  lemma OrderedExtend(rs: seq<Num>, m: Num)
    requires OrderedRuns(rs) && rs != []
    requires m.start == rs[|rs| - 1].start <= m.end
    ensures OrderedRuns(rs[|rs| - 1 := m])
  {
  }

  lemma OrderedStart(rs: seq<Num>, m: Num)
    requires OrderedRuns(rs) && m.start <= m.end
    requires forall k :: 0 <= k < |rs| ==> rs[k].end + 1 < m.start
    ensures OrderedRuns(rs + [m])
  {
  }

  /** What the scan has found after `n` characters: maximal runs of digits
      with their values, in left-to-right order. */
  lemma {:induction false} RunsUpToAreRuns(s: string, n: nat)
    requires n <= |s|
    ensures OrderedRuns(RunsUpTo(s, n))
    ensures forall k :: 0 <= k < |RunsUpTo(s, n)| ==> IsRunBefore(s, n, RunsUpTo(s, n)[k])
  {
    if n > 0 {
      RunsUpToAreRuns(s, n - 1);
      var rs := RunsUpTo(s, n - 1);
      if !IsDigit(s[n - 1]) {
        forall k | 0 <= k < |rs|
          ensures IsRunBefore(s, n, rs[k])
        {
          KeepRunBefore(s, n, rs[k]);
        }
      } else if n > 1 && IsDigit(s[n - 2]) {
        ExtendedRunsAreRuns(s, n, rs);
      } else {
        StartedRunsAreRuns(s, n, rs);
      }
    }
  }

  /** The step of `RunsUpToAreRuns` when a digit extends the last number. */
  lemma ExtendedRunsAreRuns(s: string, n: nat, rs: seq<Num>)
    requires 1 < n <= |s| && IsDigit(s[n - 1]) && IsDigit(s[n - 2])
    requires rs == RunsUpTo(s, n - 1)
    requires OrderedRuns(rs) && forall k :: 0 <= k < |rs| ==> IsRunBefore(s, n - 1, rs[k])
    ensures OrderedRuns(RunsUpTo(s, n))
    ensures forall k :: 0 <= k < |RunsUpTo(s, n)| ==> IsRunBefore(s, n, RunsUpTo(s, n)[k])
  {
    var last := rs[|rs| - 1];
    var m := Num(last.value * 10 + DigitValue(s[n - 1]), last.start, n - 1);
    var r := rs[|rs| - 1 := m];
    assert RunsUpTo(s, n) == r;
    OrderedExtend(rs, m);
    forall k | 0 <= k < |r|
      ensures IsRunBefore(s, n, r[k])
    {
      if k < |rs| - 1 {
        KeepRunBefore(s, n, rs[k]);
      } else {
        ExtendRunBefore(s, n, last);
      }
    }
  }

  /** The step of `RunsUpToAreRuns` when a digit starts a new number. */
  lemma StartedRunsAreRuns(s: string, n: nat, rs: seq<Num>)
    requires 0 < n <= |s| && IsDigit(s[n - 1]) && (n == 1 || !IsDigit(s[n - 2]))
    requires rs == RunsUpTo(s, n - 1)
    requires OrderedRuns(rs) && forall k :: 0 <= k < |rs| ==> IsRunBefore(s, n - 1, rs[k])
    ensures OrderedRuns(RunsUpTo(s, n))
    ensures forall k :: 0 <= k < |RunsUpTo(s, n)| ==> IsRunBefore(s, n, RunsUpTo(s, n)[k])
  {
    var m := Num(DigitValue(s[n - 1]), n - 1, n - 1);
    assert RunsUpTo(s, n) == rs + [m];
    forall k | 0 <= k < |rs|
      ensures rs[k].end + 1 < n - 1 && IsRunBefore(s, n, rs[k])
    {
      RunEndsOnDigit(s, n - 1, rs[k]);
      KeepRunBefore(s, n, rs[k]);
    }
    OrderedStart(rs, m);
    StartRunBefore(s, n);
  }

  /** Every digit among the first `n` characters lies inside a number. */
  lemma {:induction false} RunsUpToCoverDigits(s: string, n: nat)
    requires n <= |s|
    ensures forall q :: 0 <= q < n && IsDigit(s[q]) ==> Covered(RunsUpTo(s, n), q)
  {
    if n > 0 {
      RunsUpToCoverDigits(s, n - 1);
      var rs := RunsUpTo(s, n - 1);
      var r := RunsUpTo(s, n);
      forall q | 0 <= q < n && IsDigit(s[q])
        ensures Covered(r, q)
      {
        if q == n - 1 {
          RunsUpToAreRuns(s, n);
          assert r[|r| - 1].start <= q <= r[|r| - 1].end;
        } else {
          var k :| 0 <= k < |rs| && rs[k].start <= q <= rs[k].end;
          if IsDigit(s[n - 1]) && n > 1 && IsDigit(s[n - 2]) && k == |rs| - 1 {
            assert r[k].start == rs[k].start && r[k].end == n - 1;
          } else {
            assert r[k] == rs[k];
          }
        }
      }
    }
  }

  /** The scan finds exactly the maximal runs of digits of the line: each
      number is such a run with its decimal value, they are in left-to-right
      order (so sorting them by first column, as day3.rs:92 does, changes
      nothing), and every digit lies inside one of them. */
  lemma RunsAreMaximalDigitRuns(s: string)
    ensures forall k :: 0 <= k < |Runs(s)| ==> IsRun(s, Runs(s)[k])
    ensures OrderedRuns(Runs(s))
    ensures forall p :: 0 <= p < |s| && IsDigit(s[p]) ==> Covered(Runs(s), p)
  {
    RunsUpToAreRuns(s, |s|);
    RunsUpToCoverDigits(s, |s|);
  }

  /** The columns of the selected symbols of a line. */
  function SymbolColumns(line: string, select: Selector): (cols: set<nat>)
    ensures forall p :: p in cols <==> 0 <= p < |line| && Selects(select, line[p])
  {
    set p: nat | 0 <= p < |line| && Selects(select, line[p])
  }

  /** The columns of the selected symbols among the first `n` characters,
      in the order the scan meets them. */
  function SymbolsUpTo(line: string, select: Selector, n: nat): seq<nat>
    requires n <= |line|
  {
    if n == 0 then []
    else SymbolsUpTo(line, select, n - 1) + (if Selects(select, line[n - 1]) then [n - 1] else [])
  }

  lemma {:induction false} SymbolsUpToAreColumns(line: string, select: Selector, n: nat)
    requires n <= |line|
    ensures forall p :: p in SymbolsUpTo(line, select, n) <==> 0 <= p < n && Selects(select, line[p])
  {
    if n > 0 {
      SymbolsUpToAreColumns(line, select, n - 1);
    }
  }

  /** Collected into a set, the columns met by the scan are the symbol columns. */
  lemma SymbolsAreColumns(line: string, select: Selector)
    ensures (set p | p in SymbolsUpTo(line, select, |line|)) == SymbolColumns(line, select)
  {
    SymbolsUpToAreColumns(line, select, |line|);
  }

  /** The reference result of scanning a line: its digit runs and its
      selected symbol columns. A line yields numbers exactly when it holds
      a digit. */
  function ScanLine(line: string, select: Selector): (lp: LineProc)
    ensures lp.nums == [] <==> forall p :: 0 <= p < |line| ==> !IsDigit(line[p])
  {
    RunsAreMaximalDigitRuns(line);
    LineProc(Runs(line), SymbolColumns(line, select))
  }

  lemma ScanLineFits(line: string, select: Selector)
    ensures FitsWithin(ScanLine(line, select), |line|)
  {
    RunsAreMaximalDigitRuns(line);
  }

  /** The numbers as the scan holds them while the last one is still open:
      its end column not yet set. */
  function Open(rs: seq<Num>): seq<Num>
    requires rs != []
  {
    rs[|rs| - 1 := rs[|rs| - 1].(end := 0)]
  }

  /** The numbers the loop of `ProcessLine` holds after `n` characters:
      those of `RunsUpTo`, with the last one still open when the `n`-th
      character is a digit. */
  function Scanned(s: string, n: nat): seq<Num>
    requires n <= |s|
  {
    if n > 0 && IsDigit(s[n - 1]) then Open(RunsUpTo(s, n)) else RunsUpTo(s, n)
  }

  /** One character of the loop of `ProcessLine`, one lemma per branch. */
  lemma ScanExtends(s: string, n: nat)
    requires 0 < n < |s| && IsDigit(s[n]) && IsDigit(s[n - 1])
    ensures
      var nums := Scanned(s, n);
      nums != [] && Scanned(s, n + 1) == nums[|nums| - 1 := nums[|nums| - 1].(value := nums[|nums| - 1].value * 10 + DigitValue(s[n]))]
  {
  }

  lemma ScanStarts(s: string, n: nat)
    requires n < |s| && IsDigit(s[n]) && !(n > 0 && IsDigit(s[n - 1]))
    ensures Scanned(s, n + 1) == Scanned(s, n) + [Num(DigitValue(s[n]), n, 0)]
  {
  }

  lemma ScanCloses(s: string, n: nat)
    requires 0 < n < |s| && !IsDigit(s[n]) && IsDigit(s[n - 1])
    ensures
      var nums := Scanned(s, n);
      nums != [] && Scanned(s, n + 1) == nums[|nums| - 1 := nums[|nums| - 1].(end := n - 1)]
  {
  }

  lemma ScanSkips(s: string, n: nat)
    requires n < |s| && !IsDigit(s[n]) && !(n > 0 && IsDigit(s[n - 1]))
    ensures Scanned(s, n + 1) == Scanned(s, n)
  {
  }

  /** At the end of the line, closing the open number gives `Runs`. */
  lemma ScannedEnd(line: string)
    ensures line != [] && IsDigit(line[|line| - 1]) ==>
      var nums := Scanned(line, |line|);
      nums != [] && nums[|nums| - 1 := nums[|nums| - 1].(end := |line| - 1)] == Runs(line)
    ensures !(line != [] && IsDigit(line[|line| - 1])) ==> Scanned(line, |line|) == Runs(line)
  {
  }

  /** The body of the loop of day3.rs:64-81 for one character. */
  method ScanChar(line: string, pos: nat, nums0: seq<Num>, gotNum0: bool) returns (nums: seq<Num>, gotNum: bool)
    requires pos < |line|
    requires gotNum0 <==> pos > 0 && IsDigit(line[pos - 1])
    requires nums0 == Scanned(line, pos)
    ensures gotNum <==> IsDigit(line[pos])
    ensures nums == Scanned(line, pos + 1)
  {
    nums, gotNum := nums0, gotNum0;
    var c := line[pos];
    if IsDigit(c) {
      var num := DigitValue(c);
      if gotNum {
        ScanExtends(line, pos);
        var idx := |nums| - 1;
        nums := nums[idx := nums[idx].(value := nums[idx].value * 10 + num)];
      } else {
        ScanStarts(line, pos);
        gotNum := true;
        nums := nums + [Num(num, pos, 0)];
      }
    } else {
      if gotNum {
        ScanCloses(line, pos);
        var idx := |nums| - 1;
        nums := nums[idx := nums[idx].(end := pos - 1)];
        gotNum := false;
      } else {
        ScanSkips(line, pos);
      }
    }
  }

  /** The end of the scan, day3.rs:82-96: the open number is closed at the
      end of the line, and the symbol columns are collected. */
  method CloseLine(line: string, select: Selector, nums0: seq<Num>, gotNum: bool, positions: seq<nat>) returns (lp: LineProc)
    requires gotNum <==> |line| > 0 && IsDigit(line[|line| - 1])
    requires nums0 == Scanned(line, |line|)
    requires positions == SymbolsUpTo(line, select, |line|)
    ensures lp == ScanLine(line, select)
  {
    var nums := nums0;
    ScannedEnd(line);
    if gotNum {
      var idx := |nums| - 1;
      nums := nums[idx := nums[idx].(end := |line| - 1)];
    }
    SymbolsAreColumns(line, select);
    lp := LineProc(nums, set p | p in positions);
  }

  /** The scan of day3.rs:58-97. The last number's end column is left at 0
      while the number is still open, and set once a non-digit (or the end
      of the line) closes it. A digit run must fit in 32 bits, as the
      `u32` arithmetic of day3.rs:69-70 panics otherwise. */
  method ProcessLine(line: string, select: Selector) returns (lp: LineProc)
    requires AllRunsFit(line, U32_LIMIT)
    ensures lp == ScanLine(line, select)
  {
    var nums: seq<Num> := [];
    var gotNum := false;
    var positions: seq<nat> := [];
    for pos := 0 to |line|
      invariant gotNum <==> pos > 0 && IsDigit(line[pos - 1])
      invariant nums == Scanned(line, pos)
      invariant positions == SymbolsUpTo(line, select, pos)
    {
      var c := line[pos];
      nums, gotNum := ScanChar(line, pos, nums, gotNum);
      if Selects(select, c) {
        positions := positions + [pos];
      }
    }
    lp := CloseLine(line, select, nums, gotNum, positions);
  }

  // ---------------------------------------------------------------------
  // The window (`new`, `push`)
  // ---------------------------------------------------------------------

  /** Every number and symbol of `lp` lies in the first `width` columns,
      and its numbers are in left-to-right order. */
  predicate FitsWithin(lp: LineProc, width: nat) {
    && OrderedRuns(lp.nums)
    && (forall k :: 0 <= k < |lp.nums| ==> lp.nums[k].end < width)
    && (forall p :: p in lp.symbols ==> p < width)
  }

  /** What every window built by `New` and `Push` satisfies. */
  predicate WellFormed(sec: Section) {
    && FitsWithin(sec.preceding, sec.width)
    && FitsWithin(sec.current, sec.width)
    && FitsWithin(sec.next, sec.width)
  }

  /** A fresh window (day3.rs:48-56): three empty lines and width 0. */
  function New(select: Selector): (sec: Section)
    ensures WellFormed(sec) && sec.select == select
  {
    Section(select, 0, Empty, Empty, Empty)
  }

  /** The window after `line` is pushed (day3.rs:99-107). */
  function Pushed(sec: Section, line: string): Section {
    Section(sec.select, if sec.width >= |line| then sec.width else |line|,
      sec.current, sec.next, ScanLine(line, sec.select))
  }

  lemma FitsWider(lp: LineProc, width: nat, wider: nat)
    requires FitsWithin(lp, width) && width <= wider
    ensures FitsWithin(lp, wider)
  {
  }

  /** Pushing a line keeps every line inside the (grown) width. */
  lemma PushKeepsWellFormed(sec: Section, line: string)
    requires WellFormed(sec)
    ensures WellFormed(Pushed(sec, line))
  {
    var w := Pushed(sec, line).width;
    FitsWider(sec.current, sec.width, w);
    FitsWider(sec.next, sec.width, w);
    ScanLineFits(line, sec.select);
    FitsWider(ScanLine(line, sec.select), |line|, w);
  }

  /** `push` (day3.rs:99-107): the lines move up by one, the new line is
      scanned into the last place, and the width grows to the longest line. */
  method Push(sec: Section, line: string) returns (r: Section)
    requires AllRunsFit(line, U32_LIMIT)
    ensures r == Pushed(sec, line)
  {
    var next := ProcessLine(line, sec.select);
    r := Section(sec.select, if sec.width >= |line| then sec.width else |line|,
      sec.current, sec.next, next);
  }

  /** The scanned line `i` of `lines`, or an empty one outside the lines. */
  function LineAt(select: Selector, lines: seq<string>, i: int): LineProc {
    if 0 <= i < |lines| then ScanLine(lines[i], select) else Empty
  }

  /** The longest of the first `n` lines (0 for lines past the end). */
  function Width(lines: seq<string>, n: nat): nat {
    if n == 0 then 0
    else
      var w := Width(lines, n - 1);
      var len := if n - 1 < |lines| then |lines[n - 1]| else 0;
      if w >= len then w else len
  }

  lemma {:induction false} WidthBound(lines: seq<string>, n: nat, i: nat)
    requires i < n && i < |lines|
    ensures |lines[i]| <= Width(lines, n)
  {
    if i < n - 1 {
      WidthBound(lines, n - 1, i);
    }
  }

  /** The window after the first `n` lines have been pushed. */
  function WindowAt(select: Selector, lines: seq<string>, n: nat): Section {
    Section(select, Width(lines, n),
      LineAt(select, lines, n - 3), LineAt(select, lines, n - 2), LineAt(select, lines, n - 1))
  }

  lemma ScanEmptyLine(select: Selector)
    ensures ScanLine("", select) == Empty
  {
    assert SymbolColumns("", select) == {};
  }

  /** A fresh window has seen no lines; each push (of the next line, or of
      the empty line that ends the input, day3.rs:177) shifts the window one
      line down. */
  lemma NewWindow(select: Selector, lines: seq<string>)
    ensures New(select) == WindowAt(select, lines, 0)
  {
  }

  lemma PushWindow(select: Selector, lines: seq<string>, n: nat)
    requires n <= |lines|
    ensures Pushed(WindowAt(select, lines, n), if n < |lines| then lines[n] else "") == WindowAt(select, lines, n + 1)
  {
    if n == |lines| {
      ScanEmptyLine(select);
    }
  }

  lemma LineAtFits(select: Selector, lines: seq<string>, n: nat, i: int)
    requires i < n
    ensures FitsWithin(LineAt(select, lines, i), Width(lines, n))
  {
    if 0 <= i < |lines| {
      ScanLineFits(lines[i], select);
      WidthBound(lines, n, i);
      FitsWider(LineAt(select, lines, i), |lines[i]|, Width(lines, n));
    }
  }

  lemma WindowWellFormed(select: Selector, lines: seq<string>, n: nat)
    ensures WellFormed(WindowAt(select, lines, n))
  {
    LineAtFits(select, lines, n, n - 3);
    LineAtFits(select, lines, n, n - 2);
    LineAtFits(select, lines, n, n - 1);
  }

  // ---------------------------------------------------------------------
  // Part numbers (`find_adjacent_nums`)
  // ---------------------------------------------------------------------

  /** First column searched around a number that starts at `start` (day3.rs:111). */
  function SearchLo(start: nat): nat {
    if start > 0 then start - 1 else start
  }

  /** Last column searched around a number that ends at `end` (day3.rs:112):
      one past it, unless it ends in the last column of the widest line. */
  function SearchHi(width: nat, end: nat): nat {
    if end < width - 1 then end + 1 else end
  }

  /** A symbol of one of the three lines of the window lies at column `c`. */
  predicate SymbolAt(sec: Section, c: int) {
    c in sec.preceding.symbols || c in sec.current.symbols || c in sec.next.symbols
  }

  /** The filter of day3.rs:110-121: a symbol of the window lies in the
      columns searched around `num`. */
  predicate IsAdjacent(sec: Section, num: Num) {
    exists c :: SearchLo(num.start) <= c <= SearchHi(sec.width, num.end) && SymbolAt(sec, c)
  }

  /** The clipping of the searched columns to the window changes nothing: a
      number is adjacent exactly when a symbol lies in the column before it,
      under it, or in the column after it. */
  lemma AdjacentIffNearSymbol(sec: Section, num: Num)
    requires WellFormed(sec)
    ensures IsAdjacent(sec, num) <==> exists c :: num.start - 1 <= c <= num.end + 1 && SymbolAt(sec, c)
  {
    if c :| num.start - 1 <= c <= num.end + 1 && SymbolAt(sec, c) {
      assert 0 <= c < sec.width;
      assert SearchLo(num.start) <= c <= SearchHi(sec.width, num.end);
    }
  }

  /** The closure of day3.rs:110-121 for one number: the columns around it
      are searched one by one, in the three lines in turn. */
  method TouchesSymbol(sec: Section, num: Num) returns (b: bool)
    requires sec.width > 0
    ensures b == IsAdjacent(sec, num)
  {
    var rl := if num.start > 0 then num.start - 1 else num.start;
    var rh := if num.end < sec.width - 1 then num.end + 1 else num.end;
    var rx := rl;
    while rx <= rh
      invariant rl <= rx
      invariant forall c :: rl <= c < rx ==> !SymbolAt(sec, c)
      decreases rh - rx
    {
      var sps := [sec.preceding.symbols, sec.current.symbols, sec.next.symbols];
      for i := 0 to 3
        invariant forall j :: 0 <= j < i ==> rx !in sps[j]
      {
        if rx in sps[i] {
          assert SymbolAt(sec, rx);
          return true;
        }
      }
      assert !SymbolAt(sec, rx) by {
        assert rx !in sps[0] && rx !in sps[1] && rx !in sps[2];
      }
      rx := rx + 1;
    }
    return false;
  }

  /** The values of the adjacent numbers among the first `n` of the middle line. */
  function AdjacentUpTo(sec: Section, n: nat): seq<nat>
    requires n <= |sec.current.nums|
  {
    if n == 0 then []
    else
      var num := sec.current.nums[n - 1];
      AdjacentUpTo(sec, n - 1) + (if IsAdjacent(sec, num) then [num.value] else [])
  }

  function AdjacentNums(sec: Section): seq<nat> {
    AdjacentUpTo(sec, |sec.current.nums|)
  }

  /** `find_adjacent_nums` (day3.rs:109-123): the values of the numbers of
      the middle line that touch a symbol, in order. `self.width - 1`
      underflows when the middle line has a number and the width is 0. */
  method FindAdjacentNums(sec: Section) returns (vals: seq<nat>)
    requires sec.current.nums != [] ==> sec.width > 0
    ensures vals == AdjacentNums(sec)
  {
    vals := [];
    for k := 0 to |sec.current.nums|
      invariant vals == AdjacentUpTo(sec, k)
    {
      var b := TouchesSymbol(sec, sec.current.nums[k]);
      if b {
        vals := vals + [sec.current.nums[k].value];
      }
    }
  }

  // ---------------------------------------------------------------------
  // Part numbers of the whole schematic
  // ---------------------------------------------------------------------

  /** Row `r` of the schematic has a symbol (of part one) at column `c`. */
  predicate GridSymbol(lines: seq<string>, r: int, c: int) {
    0 <= r < |lines| && 0 <= c < |lines[r]| && IsSymbol(lines[r][c])
  }

  /** A number of row `i` is a part number: a symbol lies in one of the
      cells around it, diagonals included. */
  predicate IsPartNumber(lines: seq<string>, i: int, num: Num) {
    exists r, c :: i - 1 <= r <= i + 1 && num.start - 1 <= c <= num.end + 1 && GridSymbol(lines, r, c)
  }

  /** The part numbers among the first `n` numbers of row `i`. */
  function PartValuesUpTo(lines: seq<string>, i: nat, n: nat): seq<nat>
    requires i < |lines| && n <= |Runs(lines[i])|
  {
    if n == 0 then []
    else
      var num := Runs(lines[i])[n - 1];
      PartValuesUpTo(lines, i, n - 1) + (if IsPartNumber(lines, i, num) then [num.value] else [])
  }

  function Sum(s: seq<nat>): nat {
    if s == [] then 0 else Sum(s[..|s| - 1]) + s[|s| - 1]
  }

  /** The sum of the part numbers of the first `n` rows. */
  function PartSumOfRows(lines: seq<string>, n: int): nat
    requires n <= |lines|
  {
    if n <= 0 then 0
    else PartSumOfRows(lines, n - 1) + Sum(PartValuesUpTo(lines, n - 1, |Runs(lines[n - 1])|))
  }

  /** The answer of part one: the sum of all part numbers of the schematic. */
  function PartSum(lines: seq<string>): nat {
    PartSumOfRows(lines, |lines|)
  }

  /** In the window whose middle line is row `i`, a symbol of the window is
      a symbol of row `i` or of a row next to it. */
  lemma SymbolAtRow(lines: seq<string>, i: nat, c: int)
    requires i < |lines|
    ensures SymbolAt(WindowAt(Symbols, lines, i + 2), c) <==> exists r :: i - 1 <= r <= i + 1 && GridSymbol(lines, r, c)
  {
    var sec := WindowAt(Symbols, lines, i + 2);
    if SymbolAt(sec, c) {
      if c in sec.preceding.symbols {
        assert GridSymbol(lines, i - 1, c);
      } else if c in sec.current.symbols {
        assert GridSymbol(lines, i, c);
      } else {
        assert GridSymbol(lines, i + 1, c);
      }
    }
    if r :| i - 1 <= r <= i + 1 && GridSymbol(lines, r, c) {
      assert c in LineAt(Symbols, lines, r).symbols;
    }
  }

  /** In the window whose middle line is row `i`, the filter of day3.rs:110-121
      keeps exactly the part numbers of row `i`. */
  lemma AdjacentIsPartNumber(lines: seq<string>, i: nat, num: Num)
    requires i < |lines|
    ensures IsAdjacent(WindowAt(Symbols, lines, i + 2), num) <==> IsPartNumber(lines, i, num)
  {
    var sec := WindowAt(Symbols, lines, i + 2);
    WindowWellFormed(Symbols, lines, i + 2);
    AdjacentIffNearSymbol(sec, num);
    if IsPartNumber(lines, i, num) {
      var r, c :| i - 1 <= r <= i + 1 && num.start - 1 <= c <= num.end + 1 && GridSymbol(lines, r, c);
      SymbolAtRow(lines, i, c);
    }
    if c :| num.start - 1 <= c <= num.end + 1 && SymbolAt(sec, c) {
      SymbolAtRow(lines, i, c);
    }
  }

  lemma {:induction false} AdjacentUpToIsPartValues(lines: seq<string>, i: nat, n: nat)
    requires i < |lines| && n <= |Runs(lines[i])|
    ensures AdjacentUpTo(WindowAt(Symbols, lines, i + 2), n) == PartValuesUpTo(lines, i, n)
  {
    if n > 0 {
      AdjacentUpToIsPartValues(lines, i, n - 1);
      AdjacentIsPartNumber(lines, i, Runs(lines[i])[n - 1]);
    }
  }

  /** What the driver adds after pushing line `j`: the part numbers of the
      row before it, whose window is now complete (nothing after the first push). */
  lemma WindowPartNumbers(lines: seq<string>, j: nat)
    requires j <= |lines|
    ensures PartSumOfRows(lines, j) == PartSumOfRows(lines, j - 1) + Sum(AdjacentNums(WindowAt(Symbols, lines, j + 1)))
  {
    if j > 0 {
      AdjacentUpToIsPartValues(lines, j - 1, |Runs(lines[j - 1])|);
    }
  }

  /** One step of the driver (day3.rs:172-175 and 177-180): push a line and
      add up the part numbers of the new middle line. */
  method PushAndAddParts(sec: Section, line: string, ghost lines: seq<string>, ghost j: nat) returns (next: Section, sum: nat)
    requires j <= |lines| && line == (if j < |lines| then lines[j] else "")
    requires AllRunsFit(line, U32_LIMIT) && sec == WindowAt(Symbols, lines, j)
    ensures next == WindowAt(Symbols, lines, j + 1)
    ensures PartSumOfRows(lines, j) == PartSumOfRows(lines, j - 1) + sum
  {
    PushWindow(Symbols, lines, j);
    WindowWellFormed(Symbols, lines, j);
    next := Push(sec, line);
    PushKeepsWellFormed(sec, line);
    if next.current.nums != [] {
      assert next.current.nums[0].end < next.width;
    }
    var ret := FindAdjacentNums(next);
    WindowPartNumbers(lines, j);
    sum := Sum(ret);
  }

  /** `process_lines_day3` (day3.rs:168-182): every line is pushed, then an
      empty line, and after each push the part numbers of the middle line
      are added up. The total is the sum of all part numbers of the
      schematic. */
  method ProcessLinesDay3(lines: seq<string>) returns (total: nat)
    requires forall i :: 0 <= i < |lines| ==> AllRunsFit(lines[i], U32_LIMIT)
    ensures total == PartSum(lines)
  {
    total := 0;
    var sec := New(Symbols);
    NewWindow(Symbols, lines);
    for j := 0 to |lines|
      invariant sec == WindowAt(Symbols, lines, j)
      invariant total == PartSumOfRows(lines, j - 1)
    {
      var sum;
      sec, sum := PushAndAddParts(sec, lines[j], lines, j);
      total := total + sum;
    }
    var sum;
    sec, sum := PushAndAddParts(sec, "", lines, |lines|);
    total := total + sum;
  }

  // ---------------------------------------------------------------------
  // Gears (`star_search_range`, `find_gears`)
  // ---------------------------------------------------------------------

  /** The values of the numbers of `nums` whose columns include `seek`. */
  function CoverValues(nums: seq<Num>, seek: int): set<nat> {
    set k | 0 <= k < |nums| && nums[k].start <= seek <= nums[k].end :: nums[k].value
  }

  /** The comparator of day3.rs:137-145: `Equal` on the number that covers
      `seek`, `Less` on a number that starts before it. */
  function CoverProbe(probe: Num, seek: nat): Ordering {
    if probe.start <= seek <= probe.end then Equal
    else if probe.start < seek then Less
    else Greater
  }

  /** On numbers in left-to-right order the comparator is monotone, as the
      binary search needs. */
  lemma CoverProbeMonotone(nums: seq<Num>, seek: nat)
    ensures OrderedRuns(nums) ==> Monotone(nums, p => CoverProbe(p, seek))
  {
  }

  /** On numbers in left-to-right order at most one covers a column. */
  lemma OnlyOneCovers(nums: seq<Num>, seek: int, k: nat)
    requires OrderedRuns(nums) && k < |nums| && nums[k].start <= seek <= nums[k].end
    ensures CoverValues(nums, seek) == {nums[k].value}
  {
    forall v | v in CoverValues(nums, seek)
      ensures v == nums[k].value
    {
      var k' :| 0 <= k' < |nums| && nums[k'].start <= seek <= nums[k'].end && nums[k'].value == v;
      assert k' == k;
    }
  }

  /** One binary search of day3.rs:137-148: the value of the number that
      covers `seek`. Whatever it finds covers `seek`; on numbers in order it
      finds the only one there is, or reports that there is none. */
  method CoveringValue(nums: seq<Num>, seek: nat) returns (r: Option<nat>)
    ensures r.Some? ==> r.value in CoverValues(nums, seek)
    ensures OrderedRuns(nums) ==> CoverValues(nums, seek) == if r.Some? then {r.value} else {}
  {
    var idx := BinarySearchBy(nums, p => CoverProbe(p, seek));
    CoverProbeMonotone(nums, seek);
    if idx.Some? {
      r := Some(nums[idx.value].value);
      if OrderedRuns(nums) {
        OnlyOneCovers(nums, seek, idx.value);
      }
    } else {
      r := None;
    }
  }

  /** `star_search_range` (day3.rs:125-128): the columns searched around a
      star, clipped at the first column and at the last column of the widest
      line. */
  function StarSearchRange(width: nat, pos: nat): (r: (nat, nat))
    ensures r.0 <= r.1
    ensures pos < width ==> r.0 <= pos <= r.1 < width
  {
    (if pos == 0 then 0 else pos - 1, if pos == width - 1 then width - 1 else pos + 1)
  }

  /** The searched columns are the columns next to the star that lie in the
      window. */
  lemma StarRangeClips(width: nat, pos: nat, c: int)
    requires pos < width
    ensures StarSearchRange(width, pos).0 <= c <= StarSearchRange(width, pos).1
      <==> pos - 1 <= c <= pos + 1 && 0 <= c < width
  {
  }

  /** The numbers of the three lines of the window, top to bottom. */
  function WindowNums(sec: Section): seq<seq<Num>> {
    [sec.preceding.nums, sec.current.nums, sec.next.nums]
  }

  /** The values covering `seek` in the first `n` lines of `ls`. */
  function CoverInLines(ls: seq<seq<Num>>, n: nat, seek: int): set<nat>
    requires n <= |ls|
  {
    if n == 0 then {} else CoverInLines(ls, n - 1, seek) + CoverValues(ls[n - 1], seek)
  }

  /** The values found for the columns `lo` to `hi` of the window. */
  function ValuesBetween(sec: Section, lo: int, hi: int): set<nat>
    decreases hi - lo + 1
  {
    if hi < lo then {} else ValuesBetween(sec, lo, hi - 1) + CoverInLines(WindowNums(sec), 3, hi)
  }

  /** The set `star_nums` of day3.rs:133-150: the values of the numbers that
      cover a searched column around the star at `pos`. */
  function StarValues(sec: Section, pos: nat): set<nat> {
    var (lo, hi) := StarSearchRange(sec.width, pos);
    ValuesBetween(sec, lo, hi)
  }

  /** The inner loop of day3.rs:135-149: the values of the numbers of the
      three lines that cover column `seek` are added to `star0`. */
  method AddCovering(sec: Section, seek: nat, star0: set<nat>) returns (star: set<nat>)
    ensures WellFormed(sec) ==> star == star0 + CoverInLines(WindowNums(sec), 3, seek)
  {
    star := star0;
    var ls := [sec.preceding.nums, sec.current.nums, sec.next.nums];
    for i := 0 to 3
      invariant WellFormed(sec) ==> star == star0 + CoverInLines(ls, i, seek)
    {
      var found := CoveringValue(ls[i], seek);
      if found.Some? {
        star := star + {found.value};
      }
    }
  }

  /** The loops of day3.rs:133-150 for the star at `pos`. */
  method StarNums(sec: Section, pos: nat) returns (star: set<nat>)
    ensures WellFormed(sec) ==> star == StarValues(sec, pos)
  {
    star := {};
    var (startPos, endPos) := StarSearchRange(sec.width, pos);
    var seek := startPos;
    while seek <= endPos
      invariant startPos <= seek <= endPos + 1
      invariant WellFormed(sec) ==> star == ValuesBetween(sec, startPos, seek - 1)
      decreases endPos - seek
    {
      star := AddCovering(sec, seek, star);
      seek := seek + 1;
    }
  }

  /** The product of the two values of a two-element set. */
  ghost function PairProduct(vs: set<nat>): nat
    requires |vs| == 2
  {
    var a :| a in vs;
    assert |vs - {a}| == 1;
    var b :| b in vs - {a};
    a * b
  }

  /** It does not matter in which order the two values are taken. */
  lemma PairProductOf(vs: set<nat>, a: nat, b: nat)
    requires |vs| == 2 && a in vs && b in vs && a != b
    ensures PairProduct(vs) == a * b
  {
    assert {a, b} <= vs;
    assert |vs - {a, b}| == 0;
    assert vs == {a, b};
  }

  /** A star touching exactly two number values is a gear; its ratio is
      their product (0 for any other star). */
  ghost function Ratio(sec: Section, pos: nat): nat {
    var vs := StarValues(sec, pos);
    if |vs| == 2 then PairProduct(vs) else 0
  }

  ghost function Ratios(sec: Section): nat -> nat {
    p => Ratio(sec, p)
  }

  /** The fold of day3.rs:190: the sum of the products of the pairs. */
  function GearSum(gears: seq<(nat, nat)>): nat {
    if gears == [] then 0
    else GearSum(gears[..|gears| - 1]) + gears[|gears| - 1].0 * gears[|gears| - 1].1
  }

  lemma GearSumAppend(gears: seq<(nat, nat)>, g: (nat, nat))
    ensures GearSum(gears + [g]) == GearSum(gears) + g.0 * g.1
  {
    assert (gears + [g])[..|gears|] == gears;
  }

  /** The pair pushed for a star (day3.rs:151-154): the two values, in the
      order the hash set yields them, when there are exactly two. */
  method PairOf(star: set<nat>) returns (g: Option<(nat, nat)>)
    ensures g.Some? <==> |star| == 2
    ensures g.Some? ==> g.value.0 != g.value.1 && g.value.0 in star && g.value.1 in star
    ensures g.Some? ==> g.value.0 * g.value.1 == PairProduct(star)
  {
    if |star| == 2 {
      var a :| a in star;
      assert |star - {a}| == 1;
      var b :| b in star - {a};
      PairProductOf(star, a, b);
      g := Some((a, b));
    } else {
      g := None;
    }
  }

  /** Moving one star from the remaining ones to the done ones adds its ratio. */
  lemma RatioSumStep(sec: Section, remaining: set<nat>, pos: nat)
    requires pos in remaining && remaining <= sec.current.symbols
    ensures SetSum(sec.current.symbols - (remaining - {pos}), Ratios(sec))
      == SetSum(sec.current.symbols - remaining, Ratios(sec)) + Ratio(sec, pos)
  {
    SetSumAdd(sec.current.symbols - remaining, Ratios(sec), pos);
    assert sec.current.symbols - remaining + {pos} == sec.current.symbols - (remaining - {pos});
  }

  /** `find_gears` (day3.rs:130-157): for each star of the middle line, in
      the order the hash set yields them, the two values of a gear. The sum
      of their products is the sum of the gear ratios of the middle line,
      whatever that order. `self.width - 1` underflows when the middle line
      has a star and the width is 0. */
  method FindGears(sec: Section) returns (gears: seq<(nat, nat)>)
    requires sec.current.symbols != {} ==> sec.width > 0
    ensures forall g :: g in gears ==> g.0 != g.1
    ensures WellFormed(sec) ==> GearSum(gears) == SetSum(sec.current.symbols, Ratios(sec))
  {
    gears := [];
    var remaining := sec.current.symbols;
    while remaining != {}
      invariant remaining <= sec.current.symbols
      invariant forall g :: g in gears ==> g.0 != g.1
      invariant WellFormed(sec) ==> GearSum(gears) == SetSum(sec.current.symbols - remaining, Ratios(sec))
      decreases |remaining|
    {
      var pos :| pos in remaining;
      var star := StarNums(sec, pos);
      var g := PairOf(star);
      if g.Some? {
        GearSumAppend(gears, g.value);
        gears := gears + [g.value];
      }
      RatioSumStep(sec, remaining, pos);
      remaining := remaining - {pos};
    }
    assert sec.current.symbols - remaining == sec.current.symbols;
  }

  // ---------------------------------------------------------------------
  // Gear ratios of the whole schematic
  // ---------------------------------------------------------------------

  /** The values of the numbers of rows `i - 1` to `i + 1` that lie in a
      cell around column `p` of row `i`, diagonals included. */
  function GridStarValues(lines: seq<string>, i: int, p: int): set<nat> {
    set r, k | i - 1 <= r <= i + 1 && 0 <= r < |lines| && 0 <= k < |Runs(lines[r])|
      && Runs(lines[r])[k].start - 1 <= p <= Runs(lines[r])[k].end + 1 :: Runs(lines[r])[k].value
  }

  /** The ratio of the star at row `i`, column `p`, read off the schematic. */
  ghost function GridRatio(lines: seq<string>, i: int, p: int): nat {
    var vs := GridStarValues(lines, i, p);
    if |vs| == 2 then PairProduct(vs) else 0
  }

  /** The star columns of a row, left to right. */
  function StarColumns(line: string): seq<nat> {
    SymbolsUpTo(line, Stars, |line|)
  }

  /** The sum of the ratios of the stars at the columns `ps[..n]` of row `i`. */
  ghost function RowRatioSum(lines: seq<string>, i: int, ps: seq<nat>, n: nat): nat
    requires n <= |ps|
  {
    if n == 0 then 0 else RowRatioSum(lines, i, ps, n - 1) + GridRatio(lines, i, ps[n - 1])
  }

  /** The sum of the gear ratios of the stars of the first `n` rows. */
  ghost function GearSumOfRows(lines: seq<string>, n: int): nat
    requires n <= |lines|
  {
    if n <= 0 then 0
    else
      var ps := StarColumns(lines[n - 1]);
      GearSumOfRows(lines, n - 1) + RowRatioSum(lines, n - 1, ps, |ps|)
  }

  /** The answer of part two: the sum of all gear ratios of the schematic. */
  ghost function GearRatioSum(lines: seq<string>): nat {
    GearSumOfRows(lines, |lines|)
  }

  lemma {:induction false} ValuesBetweenHas(sec: Section, lo: int, hi: int, v: nat)
    ensures v in ValuesBetween(sec, lo, hi) <==> exists seek :: lo <= seek <= hi && v in CoverInLines(WindowNums(sec), 3, seek)
    decreases hi - lo + 1
  {
    if hi >= lo {
      var here := CoverInLines(WindowNums(sec), 3, hi);
      ValuesBetweenHas(sec, lo, hi - 1, v);
      assert ValuesBetween(sec, lo, hi) == ValuesBetween(sec, lo, hi - 1) + here;
      if v in ValuesBetween(sec, lo, hi) {
        if v !in here {
          var seek :| lo <= seek <= hi - 1 && v in CoverInLines(WindowNums(sec), 3, seek);
          assert lo <= seek <= hi;
        }
        assert exists seek :: lo <= seek <= hi && v in CoverInLines(WindowNums(sec), 3, seek);
      } else {
        forall seek | lo <= seek <= hi
          ensures v !in CoverInLines(WindowNums(sec), 3, seek)
        {
          if seek < hi {
            assert !(lo <= seek <= hi - 1 && v in CoverInLines(WindowNums(sec), 3, seek));
          }
        }
      }
    }
  }

  lemma {:induction false} CoverInLinesHas(ls: seq<seq<Num>>, n: nat, seek: int, v: nat)
    requires n <= |ls|
    ensures v in CoverInLines(ls, n, seek) <==> exists d :: 0 <= d < n && v in CoverValues(ls[d], seek)
  {
    if n > 0 {
      CoverInLinesHas(ls, n - 1, seek, v);
    }
  }

  /** The numbers of the window line `d` (0 to 2) whose middle line is row `i`. */
  lemma WindowLine(lines: seq<string>, i: nat, d: nat)
    requires d < 3
    ensures WindowNums(WindowAt(Stars, lines, i + 2))[d] == LineAt(Stars, lines, i - 1 + d).nums
  {
  }

  /** A number of a row next to row `i` that covers a column next to `p`
      lies in a cell around `p`. */
  lemma CoverIsGridValue(lines: seq<string>, i: nat, p: nat, r: int, seek: int, v: nat)
    requires i - 1 <= r <= i + 1 && 0 <= r < |lines| && p - 1 <= seek <= p + 1
    requires v in CoverValues(Runs(lines[r]), seek)
    ensures v in GridStarValues(lines, i, p)
  {
    var rs := Runs(lines[r]);
    var k :| 0 <= k < |rs| && rs[k].start <= seek <= rs[k].end && rs[k].value == v;
    assert rs[k].start - 1 <= p <= rs[k].end + 1;
  }

  lemma StarValuesInGrid(lines: seq<string>, i: nat, p: nat, v: nat)
    requires i < |lines| && p < |lines[i]|
    requires v in StarValues(WindowAt(Stars, lines, i + 2), p)
    ensures v in GridStarValues(lines, i, p)
  {
    var sec := WindowAt(Stars, lines, i + 2);
    var ls := WindowNums(sec);
    var (lo, hi) := StarSearchRange(sec.width, p);
    ValuesBetweenHas(sec, lo, hi, v);
    var seek :| lo <= seek <= hi && v in CoverInLines(ls, 3, seek);
    CoverInLinesHas(ls, 3, seek, v);
    var d :| 0 <= d < 3 && v in CoverValues(ls[d], seek);
    WindowLine(lines, i, d);
    WidthBound(lines, i + 2, i);
    StarRangeClips(sec.width, p, seek);
    var r := i - 1 + d;
    if 0 <= r < |lines| {
      var rs := Runs(lines[r]);
      assert ls[d] == rs;
      assert v in CoverValues(rs, seek);
      assert p - 1 <= seek <= p + 1;
      CoverIsGridValue(lines, i, p, r, seek, v);
    }
  }

  /** A number ends inside its line. */
  lemma RunEndsInLine(s: string, k: nat)
    requires k < |Runs(s)|
    ensures Runs(s)[k].start <= Runs(s)[k].end < |s|
  {
    RunsUpToAreRuns(s, |s|);
  }

  /** A number of row `r` next to row `i` that covers `seek` is found in the
      window whose middle line is row `i`. */
  lemma CoverFoundInWindow(lines: seq<string>, i: nat, r: nat, k: nat, seek: int)
    requires i - 1 <= r <= i + 1 && r < |lines| && k < |Runs(lines[r])|
    requires Runs(lines[r])[k].start <= seek <= Runs(lines[r])[k].end
    ensures Runs(lines[r])[k].value in CoverInLines(WindowNums(WindowAt(Stars, lines, i + 2)), 3, seek)
  {
    var ls := WindowNums(WindowAt(Stars, lines, i + 2));
    var d := r - i + 1;
    WindowLine(lines, i, d);
    assert Runs(lines[r])[k].value in CoverValues(ls[d], seek);
    CoverInLinesHas(ls, 3, seek, Runs(lines[r])[k].value);
  }

  lemma GridValuesInStar(lines: seq<string>, i: nat, p: nat, v: nat)
    requires i < |lines| && p < |lines[i]|
    requires v in GridStarValues(lines, i, p)
    ensures v in StarValues(WindowAt(Stars, lines, i + 2), p)
  {
    var r, k :| i - 1 <= r <= i + 1 && 0 <= r < |lines| && 0 <= k < |Runs(lines[r])|
      && Runs(lines[r])[k].start - 1 <= p <= Runs(lines[r])[k].end + 1 && Runs(lines[r])[k].value == v;
    var num := Runs(lines[r])[k];
    var seek := if p < num.start then num.start else if p > num.end then num.end else p;
    var width := Width(lines, i + 2);
    RunEndsInLine(lines[r], k);
    WidthBound(lines, i + 2, r);
    WidthBound(lines, i + 2, i);
    StarRangeClips(width, p, seek);
    CoverFoundInWindow(lines, i, r, k, seek);
    var (lo, hi) := StarSearchRange(width, p);
    ValuesBetweenHas(WindowAt(Stars, lines, i + 2), lo, hi, v);
  }

  /** In the window whose middle line is row `i`, the values the search of
      day3.rs:133-150 collects around a star are the values of the numbers
      in the cells around it: clipping the search to the window loses none. */
  lemma StarValuesAreGridValues(lines: seq<string>, i: nat, p: nat)
    requires i < |lines| && p < |lines[i]|
    ensures StarValues(WindowAt(Stars, lines, i + 2), p) == GridStarValues(lines, i, p)
  {
    forall v | v in StarValues(WindowAt(Stars, lines, i + 2), p)
      ensures v in GridStarValues(lines, i, p)
    {
      StarValuesInGrid(lines, i, p, v);
    }
    forall v | v in GridStarValues(lines, i, p)
      ensures v in StarValues(WindowAt(Stars, lines, i + 2), p)
    {
      GridValuesInStar(lines, i, p, v);
    }
  }

  /** The scan meets the symbol columns from left to right. */
  lemma {:induction false} SymbolsUpToIncrease(line: string, select: Selector, n: nat)
    requires n <= |line|
    ensures forall a :: 0 <= a < |SymbolsUpTo(line, select, n)| ==> SymbolsUpTo(line, select, n)[a] < n
    ensures forall a, b :: 0 <= a < b < |SymbolsUpTo(line, select, n)| ==>
      SymbolsUpTo(line, select, n)[a] < SymbolsUpTo(line, select, n)[b]
  {
    if n > 0 {
      SymbolsUpToIncrease(line, select, n - 1);
    }
  }

  /** In the window whose middle line is row `i`, the ratio of a star of
      row `i` is its ratio read off the schematic. */
  lemma RatioAtRow(lines: seq<string>, i: nat, n: nat, p: nat)
    requires i < |lines| && p < |lines[i]| && n == i + 2
    ensures Ratios(WindowAt(Stars, lines, n))(p) == GridRatio(lines, i, p)
  {
    StarValuesAreGridValues(lines, i, p);
  }

  /** `f` gives the ratio of each of the stars at the columns `ps` of row `i`. */
  ghost predicate RatiosAgree(lines: seq<string>, i: int, f: nat -> nat, ps: seq<nat>) {
    forall k :: 0 <= k < |ps| ==> f(ps[k]) == GridRatio(lines, i, ps[k])
  }

  lemma {:induction false} RowRatioSumIsSeqSum(lines: seq<string>, i: int, f: nat -> nat, ps: seq<nat>, n: nat)
    requires n <= |ps| && RatiosAgree(lines, i, f, ps)
    ensures SeqSum(ps, f, n) == RowRatioSum(lines, i, ps, n)
  {
    if n > 0 {
      RowRatioSumIsSeqSum(lines, i, f, ps, n - 1);
    }
  }

  /** Summed over the stars `ps` collected into a set, `f` gives the sum of
      their ratios from left to right. */
  lemma SetSumIsRowSum(lines: seq<string>, i: int, f: nat -> nat, ps: seq<nat>, s: set<nat>)
    requires Distinct(ps) && RatiosAgree(lines, i, f, ps) && s == Elements(ps, |ps|)
    ensures SetSum(s, f) == RowRatioSum(lines, i, ps, |ps|)
  {
    SetSumOfDistinct(ps, f, |ps|);
    RowRatioSumIsSeqSum(lines, i, f, ps, |ps|);
  }

  /** The stars of a row, collected into a set, are the star columns the
      scan of that row finds. */
  lemma StarColumnsAreSymbols(line: string)
    ensures Distinct(StarColumns(line))
    ensures forall k :: 0 <= k < |StarColumns(line)| ==> StarColumns(line)[k] < |line|
    ensures Elements(StarColumns(line), |StarColumns(line)|) == SymbolColumns(line, Stars)
  {
    var ps := StarColumns(line);
    SymbolsUpToIncrease(line, Stars, |line|);
    SymbolsAreColumns(line, Stars);
    assert Elements(ps, |ps|) == (set p | p in ps);
  }

  /** In the window whose middle line is row `i`, the stars of the middle
      line are the star columns of row `i`. */
  lemma WindowStars(lines: seq<string>, i: nat, n: nat)
    requires i < |lines| && n == i + 2
    ensures WindowAt(Stars, lines, n).current.symbols == Elements(StarColumns(lines[i]), |StarColumns(lines[i])|)
  {
    StarColumnsAreSymbols(lines[i]);
  }

  /** In the window whose middle line is row `i`, the ratios the window
      computes agree with the schematic at every star of row `i`. */
  lemma WindowRatiosAgree(lines: seq<string>, i: nat, n: nat)
    requires i < |lines| && n == i + 2
    ensures RatiosAgree(lines, i, Ratios(WindowAt(Stars, lines, n)), StarColumns(lines[i]))
  {
    var ps := StarColumns(lines[i]);
    StarColumnsAreSymbols(lines[i]);
    forall k | 0 <= k < |ps|
      ensures Ratios(WindowAt(Stars, lines, n))(ps[k]) == GridRatio(lines, i, ps[k])
    {
      RatioAtRow(lines, i, n, ps[k]);
    }
  }

  /** The gear ratios the window whose middle line is row `i` adds up are
      the ratios of the stars of row `i`. */
  lemma WindowRowSum(lines: seq<string>, i: nat, n: nat)
    requires i < |lines| && n == i + 2
    ensures SetSum(WindowAt(Stars, lines, n).current.symbols, Ratios(WindowAt(Stars, lines, n)))
      == RowRatioSum(lines, i, StarColumns(lines[i]), |StarColumns(lines[i])|)
  {
    StarColumnsAreSymbols(lines[i]);
    WindowStars(lines, i, n);
    WindowRatiosAgree(lines, i, n);
    SetSumIsRowSum(lines, i, Ratios(WindowAt(Stars, lines, n)), StarColumns(lines[i]), WindowAt(Stars, lines, n).current.symbols);
  }

  /** What the driver adds after pushing line `j`: the gear ratios of the
      row before it, whose window is now complete (nothing after the first push). */
  lemma WindowGears(lines: seq<string>, j: nat)
    requires j <= |lines|
    ensures GearSumOfRows(lines, j)
      == GearSumOfRows(lines, j - 1) + SetSum(WindowAt(Stars, lines, j + 1).current.symbols, Ratios(WindowAt(Stars, lines, j + 1)))
  {
    if j > 0 {
      WindowRowSum(lines, j - 1, j + 1);
    }
  }

  /** One step of the driver of part two (day3.rs:188-191 and 193-196): push
      a line, find the gears of the new middle line and add up their ratios. */
  method PushAndAddGears(sec: Section, total: nat, line: string, ghost lines: seq<string>, ghost j: nat)
    returns (next: Section, newTotal: nat)
    requires j <= |lines| && line == (if j < |lines| then lines[j] else "")
    requires AllRunsFit(line, U32_LIMIT)
    requires sec == WindowAt(Stars, lines, j) && total == GearSumOfRows(lines, j - 1)
    ensures next == WindowAt(Stars, lines, j + 1) && newTotal == GearSumOfRows(lines, j)
  {
    PushWindow(Stars, lines, j);
    next := Push(sec, line);
    WindowWellFormed(Stars, lines, j + 1);
    if next.current.symbols != {} {
      var p :| p in next.current.symbols;
      assert p < next.width;
    }
    var gears := FindGears(next);
    WindowGears(lines, j);
    newTotal := total + GearSum(gears);
  }

  /** `process_lines_day3_part2` (day3.rs:184-198): every line is pushed,
      then an empty line, and after each push the gear ratios of the middle
      line are added up. The total is the sum of all gear ratios of the
      schematic. */
  method ProcessLinesDay3Part2(lines: seq<string>) returns (total: nat)
    requires forall i :: 0 <= i < |lines| ==> AllRunsFit(lines[i], U32_LIMIT)
    ensures total == GearRatioSum(lines)
  {
    total := 0;
    var sec := New(Stars);
    NewWindow(Stars, lines);
    for j := 0 to |lines|
      invariant sec == WindowAt(Stars, lines, j)
      invariant total == GearSumOfRows(lines, j - 1)
    {
      sec, total := PushAndAddGears(sec, total, lines[j], lines, j);
    }
    sec, total := PushAndAddGears(sec, total, "", lines, |lines|);
  }
}
