// Day 1: calibration values. Part 1 takes the first and the last decimal
// digit of a line; part 2 also accepts the spelled-out words "zero".."nine",
// finding the last one by scanning the reversed line with a table of
// reversed words.

module Calibration {
  import opened Common

  // ---------------------------------------------------------------------
  // Part 1: plain digits
  // ---------------------------------------------------------------------

  /** The value of the leftmost digit of `s`, or 0 when there is none. */
  function FirstDigit(s: string): nat
  {
    if s == [] then 0
    else if IsDigit(s[0]) then DigitValue(s[0])
    else FirstDigit(s[1..])
  }

  /** The value of the rightmost digit of `s`, or 0 when there is none. */
  function LastDigit(s: string): nat
  {
    if s == [] then 0
    else if IsDigit(s[|s| - 1]) then DigitValue(s[|s| - 1])
    else LastDigit(s[..|s| - 1])
  }

  /** The digit at `i`, with no digit before it, is the one `FirstDigit` reports. */
  lemma {:induction false} FirstDigitIsLeftmost(s: string, i: nat)
    requires i < |s| && IsDigit(s[i])
    requires forall j :: 0 <= j < i ==> !IsDigit(s[j])
    ensures FirstDigit(s) == DigitValue(s[i])
  {
    if i > 0 {
      assert !IsDigit(s[0]);
      assert forall j :: 0 <= j < i - 1 ==> s[1..][j] == s[j + 1];
      FirstDigitIsLeftmost(s[1..], i - 1);
    }
  }

  /** The digit at `i`, with no digit after it, is the one `LastDigit` reports. */
  lemma {:induction false} LastDigitIsRightmost(s: string, i: nat)
    requires i < |s| && IsDigit(s[i])
    requires forall j :: i < j < |s| ==> !IsDigit(s[j])
    ensures LastDigit(s) == DigitValue(s[i])
  {
    if i < |s| - 1 {
      assert !IsDigit(s[|s| - 1]);
      LastDigitIsRightmost(s[..|s| - 1], i);
    }
  }

  /** A line without digits yields (0, 0). */
  lemma {:induction false} NoDigitNoValue(s: string)
    requires forall j :: 0 <= j < |s| ==> !IsDigit(s[j])
    ensures FirstDigit(s) == 0 && LastDigit(s) == 0
  {
    if s != [] {
      assert !IsDigit(s[0]) && !IsDigit(s[|s| - 1]);
      NoDigitNoValue(s[1..]);
      NoDigitNoValue(s[..|s| - 1]);
    }
  }

  /**
   * `process_line_day1_simple`: one scan from the left and one from the
   * right, each stopping at the first digit it meets.
   */
  method ProcessLineSimple(line: string) returns (first: nat, last: nat)
    ensures first == FirstDigit(line) && last == LastDigit(line)
    ensures first < 10 && last < 10
  {
    first, last := 0, 0;
    var i := 0;
    while i < |line|
      invariant 0 <= i <= |line|
      invariant FirstDigit(line[i..]) == FirstDigit(line)
    {
      if IsDigit(line[i]) {
        first := DigitValue(line[i]);
        break;
      }
      i := i + 1;
    }
    var j := |line|;
    assert line[..j] == line;
    while j > 0
      invariant 0 <= j <= |line|
      invariant LastDigit(line[..j]) == LastDigit(line)
    {
      if IsDigit(line[j - 1]) {
        last := DigitValue(line[j - 1]);
        break;
      }
      assert line[..j][..j - 1] == line[..j - 1];
      j := j - 1;
    }
  }

  // ---------------------------------------------------------------------
  // Part 2: digit words
  // ---------------------------------------------------------------------

  /** A list of `value(v, tag(w))` alternatives, as given to nom's `alt`. */
  type Table = seq<(string, int)>

  /** What one alternative returns: the rest of the input and the value. */
  type Parser = string -> Option<(string, int)>

  /** The alternatives of `parse_num`, in their order. */
  const NumberWords: Table := [
    ("0", 0), ("zero", 0), ("1", 1), ("one", 1), ("2", 2), ("two", 2),
    ("3", 3), ("three", 3), ("4", 4), ("four", 4), ("5", 5), ("five", 5),
    ("6", 6), ("six", 6), ("7", 7), ("seven", 7), ("8", 8), ("eight", 8),
    ("9", 9), ("nine", 9)]

  /** The alternatives of `parse_num_rev`, in their order. */
  const ReversedNumberWords: Table := [
    ("0", 0), ("orez", 0), ("1", 1), ("eno", 1), ("2", 2), ("owt", 2),
    ("3", 3), ("eerht", 3), ("4", 4), ("ruof", 4), ("5", 5), ("evif", 5),
    ("6", 6), ("xis", 6), ("7", 7), ("neves", 7), ("8", 8), ("thgie", 8),
    ("9", 9), ("enin", 9)]

  /** The spelled-out digit names, indexed by their value. */
  const DigitNames: seq<string> :=
    ["zero", "one", "two", "three", "four", "five", "six", "seven", "eight", "nine"]

  function Reverse(s: string): (r: string)
    ensures |r| == |s|
    ensures forall i :: 0 <= i < |s| ==> r[i] == s[|s| - 1 - i]
  {
    if s == [] then [] else Reverse(s[1..]) + [s[0]]
  }

  /** nom's `alt`: the first alternative whose tag starts the input wins.
      It succeeds exactly when some tag starts the input, and then reports
      the earliest such alternative's value and the input after its tag. */
  function Alt(table: Table, s: string): (r: Option<(string, int)>)
    ensures r.Some? <==> exists i :: 0 <= i < |table| && table[i].0 <= s
    ensures r.Some? ==>
      exists i :: 0 <= i < |table| && table[i].0 <= s
        && (forall j :: 0 <= j < i ==> !(table[j].0 <= s))
        && r.value == (s[|table[i].0|..], table[i].1)
  {
    if table == [] then None
    else match Tag(s, table[0].0)
      case Some(rest) => Some((rest, table[0].1))
      case None =>
        var r := Alt(table[1..], s);
        FirstTagOfRest(table, s, r);
        r
  }

  /** The earliest tag of `table` that starts `s`, when the first does not,
      is one place after the earliest such tag of `table[1..]`. */
  lemma FirstTagOfRest(table: Table, s: string, r: Option<(string, int)>)
    requires table != [] && !(table[0].0 <= s)
    requires r.Some? <==> exists i :: 0 <= i < |table[1..]| && table[1..][i].0 <= s
    requires r.Some? ==>
      exists i :: 0 <= i < |table[1..]| && table[1..][i].0 <= s
        && (forall j :: 0 <= j < i ==> !(table[1..][j].0 <= s))
        && r.value == (s[|table[1..][i].0|..], table[1..][i].1)
    ensures r.Some? <==> exists i :: 0 <= i < |table| && table[i].0 <= s
    ensures r.Some? ==>
      exists i :: 0 <= i < |table| && table[i].0 <= s
        && (forall j :: 0 <= j < i ==> !(table[j].0 <= s))
        && r.value == (s[|table[i].0|..], table[i].1)
  {
    assert forall i :: 1 <= i < |table| ==> table[i] == table[1..][i - 1];
    if r.Some? {
      var k :| 0 <= k < |table[1..]| && table[1..][k].0 <= s
        && (forall j :: 0 <= j < k ==> !(table[1..][j].0 <= s))
        && r.value == (s[|table[1..][k].0|..], table[1..][k].1);
      assert table[k + 1] == table[1..][k];
    }
  }

  /** `parse_num`: what it returns is a digit value, announced at the start
      of the input by that digit or its name, and the input after it. */
  function ParseNum(s: string): (r: Option<(string, int)>)
    ensures r.Some? ==>
      var (rest, d) := r.value;
      0 <= d < 10 && (s == ["0123456789"[d]] + rest || s == DigitNames[d] + rest)
  {
    NumberWordsSpelled();
    AltSpelled(NumberWords, s, DigitNames);
    Alt(NumberWords, s)
  }

  /** `parse_num_rev`: what it returns is a digit value, announced at the
      start of the input by that digit or its reversed name, and the input
      after it. */
  function ParseNumRev(s: string): (r: Option<(string, int)>)
    ensures r.Some? ==>
      var (rest, d) := r.value;
      0 <= d < 10 && (s == ["0123456789"[d]] + rest || s == Reverse(DigitNames[d]) + rest)
  {
    ReversedSpelled();
    AltSpelled(ReversedNumberWords, s, ReversedDigitNames());
    Alt(ReversedNumberWords, s)
  }

  const ParseNumFn: Parser := s => ParseNum(s)

  const ParseNumRevFn: Parser := s => ParseNumRev(s)

  /** Each alternative of the number table is a digit, or a digit name, with its value. */
  lemma NumberWordsSpelled()
    ensures forall i :: 0 <= i < |NumberWords| ==> Spelled(NumberWords[i], DigitNames)
  {
  }

  /** Every digit and every digit name is in the number table. */
  lemma NumberWordsComplete(d: nat)
    requires d < 10
    ensures NumberWords[2 * d].0 == ["0123456789"[d]] && NumberWords[2 * d + 1].0 == DigitNames[d]
  {
  }

  /** `Alt` stops at alternative `i` when its tag starts the input and no earlier one does. */
  lemma AltAt(table: Table, s: string, i: nat)
    requires i < |table| && table[i].0 <= s
    requires forall j :: 0 <= j < i ==> !(table[j].0 <= s)
    ensures Alt(table, s) == Some((s[|table[i].0|..], table[i].1))
  {
    var k :| 0 <= k < |table| && table[k].0 <= s
      && (forall j :: 0 <= j < k ==> !(table[j].0 <= s))
      && Alt(table, s).value == (s[|table[k].0|..], table[k].1);
    assert k == i;
  }

  /** An alternative that reads a digit, or the name of a digit in `names`, as its value. */
  predicate Spelled(e: (string, int), names: seq<string>) {
    0 <= e.1 < 10 && e.1 < |names| && (e.0 == ["0123456789"[e.1]] || e.0 == names[e.1])
  }

  /** Over a table of spelled digits, `Alt` consumes a digit or a digit name and returns its value. */
  lemma {:induction false} AltSpelled(table: Table, s: string, names: seq<string>)
    requires forall i :: 0 <= i < |table| ==> Spelled(table[i], names)
    ensures Alt(table, s).Some? ==>
      var (rest, d) := Alt(table, s).value;
      0 <= d < 10 && d < |names| && (s == ["0123456789"[d]] + rest || s == names[d] + rest)
  {
    if table != [] {
      var (w, d) := table[0];
      assert Spelled(table[0], names);
      if w <= s {
        assert s == w + s[|w|..];
      } else {
        assert forall i :: 0 <= i < |table[1..]| ==> table[1..][i] == table[i + 1];
        AltSpelled(table[1..], s, names);
      }
    }
  }

  /** The digit names reversed character by character. */
  function ReversedDigitNames(): (names: seq<string>)
    ensures |names| == 10 && forall d :: 0 <= d < 10 ==> names[d] == Reverse(DigitNames[d])
  {
    seq(10, d requires 0 <= d < 10 => Reverse(DigitNames[d]))
  }

  /** Each alternative of the reversed table is a digit, or a reversed digit name, with its value. */
  lemma ReversedSpelled()
    ensures forall i :: 0 <= i < |ReversedNumberWords| ==> Spelled(ReversedNumberWords[i], ReversedDigitNames())
  {
    ReversedTable();
    NumberWordsSpelled();
    var names := ReversedDigitNames();
    forall i | 0 <= i < |ReversedNumberWords|
      ensures Spelled(ReversedNumberWords[i], names)
    {
      var (w, d) := NumberWords[i];
      assert Spelled(NumberWords[i], DigitNames);
      if w == ["0123456789"[d]] {
        assert Reverse(w) == w;
      }
    }
  }

  /** `parse_num` succeeds on every input that starts with a digit or a digit name. */
  lemma ParseNumComplete(s: string, d: nat)
    requires d < 10 && (["0123456789"[d]] <= s || DigitNames[d] <= s)
    ensures ParseNum(s).Some?
  {
    NumberWordsComplete(d);
    assert NumberWords[2 * d].0 <= s || NumberWords[2 * d + 1].0 <= s;
  }

  /** Every value in a table is a digit. */
  predicate DigitValued(table: Table) {
    forall i :: 0 <= i < |table| ==> 0 <= table[i].1 < 10
  }

  lemma {:induction false} AltDigit(table: Table, s: string)
    requires DigitValued(table)
    ensures Alt(table, s).Some? ==> 0 <= Alt(table, s).value.1 < 10
  {
    if table != [] && !(table[0].0 <= s) {
      assert DigitValued(table[1..]) by {
        forall i | 0 <= i < |table[1..]| ensures 0 <= table[1..][i].1 < 10 {
          assert table[1..][i] == table[i + 1];
        }
      }
      AltDigit(table[1..], s);
    }
  }

  lemma TablesDigitValued()
    ensures DigitValued(NumberWords) && DigitValued(ReversedNumberWords)
  {
  }

  /** Both number parsers only ever return a digit value. */
  lemma ParsersGiveDigits()
    ensures forall s :: ParseNumFn(s).Some? ==> 0 <= ParseNumFn(s).value.1 < 10
    ensures forall s :: ParseNumRevFn(s).Some? ==> 0 <= ParseNumRevFn(s).value.1 < 10
  {
    TablesDigitValued();
    forall s ensures ParseNumFn(s).Some? ==> 0 <= ParseNumFn(s).value.1 < 10 {
      AltDigit(NumberWords, s);
    }
    forall s ensures ParseNumRevFn(s).Some? ==> 0 <= ParseNumRevFn(s).value.1 < 10 {
      AltDigit(ReversedNumberWords, s);
    }
  }

  /** The reversed table holds the character reversal of each word, with the same value. */
  lemma ReversedTable()
    ensures |ReversedNumberWords| == |NumberWords|
    ensures forall i :: 0 <= i < |NumberWords| ==>
      ReversedNumberWords[i] == (Reverse(NumberWords[i].0), NumberWords[i].1)
  {
    forall i | 0 <= i < |NumberWords|
      ensures ReversedNumberWords[i] == (Reverse(NumberWords[i].0), NumberWords[i].1)
    {
      ReverseOf(NumberWords[i].0, ReversedNumberWords[i].0);
    }
  }

  /** Any string that mirrors `w` character by character is its reversal. */
  lemma ReverseOf(w: string, r: string)
    requires |r| == |w| && forall i :: 0 <= i < |w| ==> r[i] == w[|w| - 1 - i]
    ensures Reverse(w) == r
  {
  }

  // ---------------------------------------------------------------------
  // proc_line: the first suffix at which a parser matches
  // ---------------------------------------------------------------------

  /** The value `f` yields at the first position where it matches, or 0. */
  function FirstMatch(f: Parser, line: string): (v: int)
    ensures v != 0 ==> exists i :: 0 <= i < |line| && f(line[i..]).Some? && v == f(line[i..]).value.1
  {
    if line == [] then 0
    else match f(line)
      case Some(x) =>
        assert line[0..] == line;
        x.1
      case None =>
        var v := FirstMatch(f, line[1..]);
        assert v != 0 ==> exists i :: 0 <= i < |line| && f(line[i..]).Some? && v == f(line[i..]).value.1 by {
          if v != 0 {
            var k :| 0 <= k < |line[1..]| && f(line[1..][k..]).Some? && v == f(line[1..][k..]).value.1;
            assert line[1..][k..] == line[k + 1..];
          }
        }
        v
  }

  /** The position `i`, with no match before it, is where `FirstMatch` takes its value. */
  lemma {:induction false} FirstMatchIsLeftmost(f: Parser, line: string, i: nat)
    requires i < |line| && f(line[i..]).Some?
    requires forall j :: 0 <= j < i ==> f(line[j..]).None?
    ensures FirstMatch(f, line) == f(line[i..]).value.1
  {
    if i > 0 {
      assert f(line[0..]).None? && line[0..] == line;
      forall j | 0 <= j < i - 1 ensures f(line[1..][j..]).None? {
        assert line[1..][j..] == line[j + 1..];
      }
      assert line[1..][i - 1..] == line[i..];
      FirstMatchIsLeftmost(f, line[1..], i - 1);
    }
  }

  /** Without any match, `FirstMatch` is 0. */
  lemma {:induction false} NoMatchIsZero(f: Parser, line: string)
    requires forall j :: 0 <= j < |line| ==> f(line[j..]).None?
    ensures FirstMatch(f, line) == 0
  {
    if line != [] {
      assert f(line[0..]).None? && line[0..] == line;
      forall j | 0 <= j < |line| - 1 ensures f(line[1..][j..]).None? {
        assert line[1..][j..] == line[j + 1..];
      }
      NoMatchIsZero(f, line[1..]);
    }
  }

  /** A parser whose every value is a digit gives a digit from `FirstMatch`. */
  lemma {:induction false} FirstMatchDigit(f: Parser, line: string)
    requires forall s :: f(s).Some? ==> 0 <= f(s).value.1 < 10
    ensures 0 <= FirstMatch(f, line) < 10
  {
    if line != [] && f(line).None? {
      FirstMatchDigit(f, line[1..]);
    }
  }

  /** `proc_line`: try `f` at each position in turn and return its first value. */
  method ProcLine(line: string, f: Parser) returns (v: int)
    ensures v == FirstMatch(f, line)
  {
    for idx := 0 to |line|
      invariant FirstMatch(f, line[idx..]) == FirstMatch(f, line)
    {
      match f(line[idx..]) {
        case Some(x) =>
          return x.1;
        case None =>
          assert line[idx..][1..] == line[idx + 1..];
      }
    }
    return 0;
  }

  // ---------------------------------------------------------------------
  // The rightmost match, stated on the forward table
  // ---------------------------------------------------------------------

  predicate EndsWith(p: string, w: string) {
    |w| <= |p| && p[|p| - |w|..] == w
  }

  /** The first alternative, in table order, whose word ends `p`. */
  function AltSuffix(table: Table, p: string): Option<int>
  {
    if table == [] then None
    else if EndsWith(p, table[0].0) then Some(table[0].1)
    else AltSuffix(table[1..], p)
  }

  /**
   * The value of the forward word that ends furthest right in `line`: the
   * longest prefix that ends with a word decides, or 0 if none does.
   */
  function LastMatch(table: Table, line: string): int
  {
    if line == [] then 0
    else match AltSuffix(table, line)
      case Some(v) => v
      case None => LastMatch(table, line[..|line| - 1])
  }

  /** The end position `e`, with no word ending after it, is where `LastMatch` takes its value. */
  lemma {:induction false} LastMatchIsRightmost(table: Table, line: string, e: nat)
    requires 0 < e <= |line| && AltSuffix(table, line[..e]).Some?
    requires forall k :: e < k <= |line| ==> AltSuffix(table, line[..k]).None?
    ensures LastMatch(table, line) == AltSuffix(table, line[..e]).value
  {
    if e < |line| {
      assert line[..|line|] == line;
      assert AltSuffix(table, line).None?;
      var init := line[..|line| - 1];
      forall k | e < k <= |init| ensures AltSuffix(table, init[..k]).None? {
        assert init[..k] == line[..k];
      }
      assert init[..e] == line[..e];
      LastMatchIsRightmost(table, init, e);
    } else {
      assert line[..e] == line;
    }
  }

  /** When no word ends any prefix of the line, `LastMatch` is 0. */
  lemma {:induction false} NoWordEndsIsZero(table: Table, line: string)
    requires forall k :: 0 < k <= |line| ==> AltSuffix(table, line[..k]).None?
    ensures LastMatch(table, line) == 0
  {
    if line != [] {
      var init := line[..|line| - 1];
      assert line[..|line|] == line;
      forall k | 0 < k <= |init| ensures AltSuffix(table, init[..k]).None? {
        assert init[..k] == line[..k];
      }
      NoWordEndsIsZero(table, init);
    }
  }

  /** A reversed word starts the reversed text exactly when the word ends the text. */
  lemma ReversedPrefix(w: string, p: string)
    ensures Reverse(w) <= Reverse(p) <==> EndsWith(p, w)
  {
    var rw, rp := Reverse(w), Reverse(p);
    if rw <= rp {
      forall i | 0 <= i < |w| ensures p[|p| - |w|..][i] == w[i] {
        assert rp[|w| - 1 - i] == rw[|w| - 1 - i];
      }
    }
    if EndsWith(p, w) {
      forall i | 0 <= i < |w| ensures rw[i] == rp[i] {
        assert p[|p| - |w|..][|w| - 1 - i] == w[|w| - 1 - i];
      }
    }
  }

  /** Scanning the reversed text with the reversed table finds the same alternative as matching word ends. */
  lemma {:induction false} AltReversed(table: Table, rtable: Table, p: string)
    requires |rtable| == |table|
    requires forall i :: 0 <= i < |table| ==> rtable[i] == (Reverse(table[i].0), table[i].1)
    ensures Alt(rtable, Reverse(p)).Some? <==> AltSuffix(table, p).Some?
    ensures AltSuffix(table, p).Some? ==> Alt(rtable, Reverse(p)).value.1 == AltSuffix(table, p).value
  {
    if table != [] {
      ReversedPrefix(table[0].0, p);
      assert rtable[0] == (Reverse(table[0].0), table[0].1);
      if !EndsWith(p, table[0].0) {
        forall i | 0 <= i < |table[1..]|
          ensures rtable[1..][i] == (Reverse(table[1..][i].0), table[1..][i].1)
        {
          assert rtable[1..][i] == rtable[i + 1] && table[1..][i] == table[i + 1];
        }
        AltReversed(table[1..], rtable[1..], p);
      }
    }
  }

  /** Scanning the reversed text with a parser for the reversed table finds the word that ends furthest right. */
  lemma {:induction false} ScanReversed(f: Parser, table: Table, rtable: Table, line: string)
    requires |rtable| == |table|
    requires forall i :: 0 <= i < |table| ==> rtable[i] == (Reverse(table[i].0), table[i].1)
    requires forall s :: f(s) == Alt(rtable, s)
    ensures FirstMatch(f, Reverse(line)) == LastMatch(table, line)
  {
    if line != [] {
      var init := line[..|line| - 1];
      AltReversed(table, rtable, line);
      assert f(Reverse(line)) == Alt(rtable, Reverse(line));
      assert Reverse(line)[1..] == Reverse(init);
      ScanReversed(f, table, rtable, init);
    }
  }

  /** Scanning the reversed line with `parse_num_rev` finds the number word that ends furthest right. */
  lemma ReversedScanFindsLast(line: string)
    ensures FirstMatch(ParseNumRevFn, Reverse(line)) == LastMatch(NumberWords, line)
  {
    ReversedTable();
    ScanReversed(ParseNumRevFn, NumberWords, ReversedNumberWords, line);
  }

  /**
   * `process_line_day1_part2`: the first value from the left with
   * `parse_num`, and the first value of the reversed line with
   * `parse_num_rev`, which is the value of the word ending furthest right.
   */
  method ProcessLinePart2(line: string) returns (first: int, last: int)
    ensures first == FirstMatch(ParseNumFn, line)
    ensures last == LastMatch(NumberWords, line)
    ensures 0 <= first < 10 && 0 <= last < 10
  {
    var revLine := Reverse(line);
    first := ProcLine(line, ParseNumFn);
    last := ProcLine(revLine, ParseNumRevFn);
    ReversedScanFindsLast(line);
    ParsersGiveDigits();
    FirstMatchDigit(ParseNumFn, line);
    FirstMatchDigit(ParseNumRevFn, revLine);
  }

  // ---------------------------------------------------------------------
  // The examples of the test module
  // ---------------------------------------------------------------------

  /** `Alt` reaches alternative `i` when every earlier tag differs from the input in its first or second character. */
  lemma AltAtHead(table: Table, s: string, i: nat)
    requires i < |table| && table[i].0 <= s && s != []
    requires forall j :: 0 <= j < i ==>
      var w := table[j].0;
      w != [] && (w[0] != s[0] || (|w| > 1 && |s| > 1 && w[1] != s[1]))
    ensures Alt(table, s) == Some((s[|table[i].0|..], table[i].1))
  {
    forall j | 0 <= j < i ensures !(table[j].0 <= s) {
      var w := table[j].0;
      if w[0] != s[0] {
        NotPrefixAt(w, s, 0);
      } else {
        NotPrefixAt(w, s, 1);
      }
    }
    AltAt(table, s, i);
  }

  /** The last value is what `parse_num_rev` reads at the start of the reversed line. */
  lemma LastFromReversed(p: string)
    requires p != [] && ParseNumRev(Reverse(p)).Some?
    ensures LastMatch(NumberWords, p) == ParseNumRev(Reverse(p)).value.1
  {
    ReversedScanFindsLast(p);
  }

  /** The first value is what `parse_num` reads at the start of the line, when it reads one. */
  lemma FirstFromStart(s: string)
    requires s != [] && ParseNum(s).Some?
    ensures FirstMatch(ParseNumFn, s) == ParseNum(s).value.1
  {
  }

  /** A reversed line that starts with "eno" reads as 1. */
  lemma ReversedOne(r: string)
    requires |r| >= 3 && r[0] == 'e' && r[1] == 'n' && r[2] == 'o'
    ensures ParseNumRev(r) == Some((r[3..], 1))
  {
    assert r[..3] == "eno";
    AltAtHead(ReversedNumberWords, r, 3);
  }

  /** A reversed line that starts with "owt" reads as 2. */
  lemma ReversedTwo(r: string)
    requires |r| >= 3 && r[0] == 'o' && r[1] == 'w' && r[2] == 't'
    ensures ParseNumRev(r) == Some((r[3..], 2))
  {
    assert r[..3] == "owt";
    NotPrefixAt("orez", r, 1);
    AltAt(ReversedNumberWords, r, 5);
  }

  /** A reversed line that starts with '6' reads as 6. */
  lemma ReversedSix(r: string)
    requires r != [] && r[0] == '6'
    ensures ParseNumRev(r) == Some((r[1..], 6))
  {
    assert r[..1] == "6";
    AltAtHead(ReversedNumberWords, r, 12);
  }

  /** A line that starts with '1' reads as 1. */
  lemma StartsWithOne(s: string)
    requires s != [] && s[0] == '1'
    ensures ParseNum(s) == Some((s[1..], 1))
  {
    assert s[..1] == "1";
    AltAtHead(NumberWords, s, 2);
  }

  /** A line that starts with "six" reads as 6. */
  lemma StartsWithSix(s: string)
    requires |s| >= 3 && s[0] == 's' && s[1] == 'i' && s[2] == 'x'
    ensures ParseNum(s) == Some((s[3..], 6))
  {
    assert s[..3] == "six";
    AltAtHead(NumberWords, s, 13);
  }

  /** A line that starts with "three" reads as 3. */
  lemma StartsWithThree(s: string)
    requires |s| >= 5 && s[..5] == "three"
    ensures ParseNum(s) == Some((s[5..], 3))
  {
    AltAtHead(NumberWords, s, 7);
  }

  /** No number starts at a character that begins no digit or digit name, nor at a 't' that begins neither "two" nor "three". */
  lemma NoNumberStarts(s: string)
    requires |s| >= 2
    requires s[0] !in "0123456789zotfsen" || (s[0] == 't' && s[1] != 'w' && s[1] != 'h')
    ensures ParseNum(s).None?
  {
    forall i | 0 <= i < |NumberWords| ensures !(NumberWords[i].0 <= s) {
      LeadingLetters(i);
      var w := NumberWords[i].0;
      if w[0] != s[0] {
        NotPrefixAt(w, s, 0);
      } else {
        NotPrefixAt(w, s, 1);
      }
    }
  }

  /** A word that differs from the start of `s` at one position does not start `s`. */
  lemma NotPrefixAt(w: string, s: string, k: nat)
    requires k < |w| && k < |s| && w[k] != s[k]
    ensures !(w <= s)
  {
  }

  /** How the words of the number table begin. */
  lemma LeadingLetters(i: nat)
    requires i < |NumberWords|
    ensures |NumberWords[i].0| >= 1 && NumberWords[i].0[0] in "0123456789zotfsen"
    ensures NumberWords[i].0[0] == 't' ==> |NumberWords[i].0| >= 2 && NumberWords[i].0[1] in "wh"
  {
  }

  /** "1eighttwo8jfnhmfivefivezdsxqxqsjkone" gives (1, 1). */
  lemma ExampleOne(line: string)
    requires line == "1eighttwo8jfnhmfivefivezdsxqxqsjkone"
    ensures FirstMatch(ParseNumFn, line) == 1 && LastMatch(NumberWords, line) == 1
  {
    StartsWithOne(line);
    FirstFromStart(line);
    ReversedOne(Reverse(line));
    LastFromReversed(line);
  }

  /** No number starts in "rtkrbt". */
  lemma NothingBeforeThree(line: string)
    requires line == "rtkrbtthree8sixfoureight6"
    ensures forall j :: 0 <= j < 6 ==> ParseNumFn(line[j..]).None?
  {
    var p := line[..7];
    assert p == "rtkrbtt";
    forall j | 0 <= j < 6 ensures ParseNumFn(line[j..]).None? {
      assert line[j] == p[j] && line[j + 1] == p[j + 1];
      NoNumberAt(line, j);
    }
  }

  /** No number starts at position `j` when the characters there begin no
      digit and no digit name. */
  lemma NoNumberAt(line: string, j: nat)
    requires j + 1 < |line|
    requires line[j] !in "0123456789zotfsen" || (line[j] == 't' && line[j + 1] != 'w' && line[j + 1] != 'h')
    ensures ParseNumFn(line[j..]).None?
  {
    assert line[j..][0] == line[j] && line[j..][1] == line[j + 1];
    NoNumberStarts(line[j..]);
  }

  /** "rtkrbtthree8sixfoureight6" gives (3, 6). */
  lemma ExampleTwo(line: string)
    requires line == "rtkrbtthree8sixfoureight6"
    ensures FirstMatch(ParseNumFn, line) == 3 && LastMatch(NumberWords, line) == 6
  {
    NothingBeforeThree(line);
    assert line[6..][..5] == "three";
    StartsWithThree(line[6..]);
    FirstMatchIsLeftmost(ParseNumFn, line, 6);
    ReversedSix(Reverse(line));
    LastFromReversed(line);
  }

  /** "six8threepvlxttc85two" gives (6, 2). */
  lemma ExampleThree(line: string)
    requires line == "six8threepvlxttc85two"
    ensures FirstMatch(ParseNumFn, line) == 6 && LastMatch(NumberWords, line) == 2
  {
    StartsWithSix(line);
    FirstFromStart(line);
    ReversedTwo(Reverse(line));
    LastFromReversed(line);
  }
}
