/** Shared vocabulary: the fixed-width integer ranges the program uses, the
    ASCII character classes, and the small prefix parsers (in the manner of the
    nom combinators `tag`, `digit1`, `space1`, `multispace1`,
    `separated_list1`) that the puzzle modules build on. Every parser takes
    the input text and answers `None` on failure or `Some` of its result
    together with the unconsumed rest of the input. */
module Common {

  datatype Option<T> = None | Some(value: T)

  datatype Result<T, E> = Ok(value: T) | Err(error: E)

  /** `AoCError` of src/common.rs:29-35, without its message text. A failed
      integer parse becomes an `InputValueError` (src/common.rs:37-41). */
  datatype AoCError = InputFormatError | InputValueError

  const U32_LIMIT: nat := 0x1_0000_0000
  const U64_LIMIT: nat := 0x1_0000_0000_0000_0000

  /** Rust's `u32`, `u64` and `usize` (taken to be 64 bits wide). */
  type u32 = x: int | 0 <= x < 0x1_0000_0000
  type u64 = x: int | 0 <= x < 0x1_0000_0000_0000_0000

  // ---------------------------------------------------------------------
  // Character classes (ASCII only)
  // ---------------------------------------------------------------------

  predicate IsDigit(c: char) { '0' <= c <= '9' }

  /** `IsDigit` as a value, for `Span`. (Passing the predicate itself would
      give every use of `IsDigit` extra axioms to instantiate.) */
  const DigitClass: char -> bool := c => IsDigit(c)

  /** nom's `space1` accepts spaces and tabs. */
  predicate IsSpace(c: char) { c == ' ' || c == '\t' }

  /** nom's `multispace1` accepts spaces, tabs, carriage returns and newlines. */
  predicate IsMultispace(c: char) { c == ' ' || c == '\t' || c == '\r' || c == '\n' }

  const MultispaceClass: char -> bool := c => IsMultispace(c)

  /** Rust's `char::is_whitespace`, restricted to ASCII. */
  predicate IsWhitespace(c: char) {
    c == ' ' || c == '\t' || c == '\n' || c == '\r' || c as int == 11 || c as int == 12
  }

  function DigitValue(c: char): (d: nat)
    requires IsDigit(c)
    ensures d < 10
    ensures c == "0123456789"[d]
  {
    c as int - '0' as int
  }

  predicate AllDigits(s: string) {
    forall i :: 0 <= i < |s| ==> IsDigit(s[i])
  }

  /** The value of a run of decimal digits, read left to right (leading
      zeros allowed, as Rust's integer parsing allows them). */
  function DecimalValue(ds: string): nat
    requires AllDigits(ds)
  {
    if ds == [] then 0 else DecimalValue(ds[..|ds| - 1]) * 10 + DigitValue(ds[|ds| - 1])
  }

  /** The shortest decimal rendering of `n`. */
  function DecimalString(n: nat): (s: string)
    ensures s != [] && AllDigits(s)
    ensures n == 0 <==> s == "0"
    decreases n
  {
    if n < 10 then ["0123456789"[n]] else DecimalString(n / 10) + ["0123456789"[n % 10]]
  }

  lemma {:induction false} DecimalRoundTrip(n: nat)
    ensures DecimalValue(DecimalString(n)) == n
    decreases n
  {
    var s := DecimalString(n);
    if n < 10 {
      assert DigitValue(s[0]) == n;
      assert s[..0] == [];
    } else {
      DecimalRoundTrip(n / 10);
      assert s[..|s| - 1] == DecimalString(n / 10);
      assert DigitValue(s[|s| - 1]) == n % 10;
    }
  }

  /** Dropping trailing digits never increases a decimal value: the digits
      read so far while a run is accumulated are worth no more than the run. */
  lemma {:induction false} DecimalValueOfPrefix(ds: string, k: nat)
    requires AllDigits(ds) && k <= |ds|
    ensures DecimalValue(ds[..k]) <= DecimalValue(ds)
    decreases |ds| - k
  {
    if k < |ds| {
      DecimalValueOfPrefix(ds[..|ds| - 1], k);
      assert ds[..|ds| - 1][..k] == ds[..k];
    } else {
      assert ds[..k] == ds;
    }
  }

  /** Dropping leading digits never increases a decimal value. */
  lemma {:induction false} DecimalValueOfSuffix(ds: string, k: nat)
    requires AllDigits(ds) && k <= |ds|
    ensures DecimalValue(ds[k..]) <= DecimalValue(ds)
    decreases |ds|
  {
    if k == |ds| {
      assert ds[k..] == [];
    } else {
      DecimalValueOfSuffix(ds[..|ds| - 1], k);
      assert ds[..|ds| - 1][k..] == ds[k..][..|ds[k..]| - 1];
    }
  }

  // ---------------------------------------------------------------------
  // Spans and tags
  // ---------------------------------------------------------------------

  /** The length of the longest prefix of `s` all of whose characters satisfy `p`. */
  function Span(s: string, p: char -> bool): (n: nat)
    ensures n <= |s|
    ensures forall i :: 0 <= i < n ==> p(s[i])
    ensures n < |s| ==> !p(s[n])
  {
    if s == [] || !p(s[0]) then 0 else 1 + Span(s[1..], p)
  }

  /** nom's `tag(t)`: succeeds exactly when `t` is a prefix of the input. */
  function Tag(s: string, t: string): (r: Option<string>)
    ensures r.Some? <==> t <= s
    ensures r.Some? ==> s == t + r.value
  {
    if t <= s then Some(s[|t|..]) else None
  }

  /** nom's `space1`: one or more spaces or tabs. */
  function Space1(s: string): (r: Option<string>)
    ensures r.Some? <==> (s != [] && IsSpace(s[0]))
    ensures r.Some? ==> |r.value| < |s| && r.value == s[|s| - |r.value|..]
    ensures r.Some? ==> r.value == [] || !IsSpace(r.value[0])
    ensures r.Some? ==> forall i :: 0 <= i < |s| - |r.value| ==> IsSpace(s[i])
  {
    var n := Span(s, IsSpace);
    if n == 0 then None else Some(s[n..])
  }

  /** nom's `multispace1`: one or more spaces, tabs, carriage returns or newlines. */
  function Multispace1(s: string): (r: Option<string>)
    ensures r.Some? <==> (s != [] && IsMultispace(s[0]))
    ensures r.Some? ==> |r.value| < |s| && r.value == s[|s| - |r.value|..]
    ensures r.Some? ==> r.value == [] || !IsMultispace(r.value[0])
  {
    var n := Span(s, MultispaceClass);
    if n == 0 then None else Some(s[n..])
  }

  // ---------------------------------------------------------------------
  // Numbers (src/common.rs `number`)
  // ---------------------------------------------------------------------

  /** The value of the leading digit run of `s` (0 when there is none). */
  function LeadingValue(s: string): nat {
    var n := Span(s, DigitClass);
    DecimalValue(s[..n])
  }

  /** Every digit run of `s`, read from any of its digits on, fits below
      `limit`. A scanner that reads every run of its line (day 3's does)
      panics on a run that does not fit its integer type, so it asks this
      of its callers. */
  predicate AllRunsFit(s: string, limit: nat) {
    forall i :: 0 <= i <= |s| ==> RunValueAt(s, i) < limit
  }

  /** The value of the digit run that starts at index `i` of `s`. */
  function RunValueAt(s: string, i: nat): nat
    requires i <= |s|
  {
    LeadingValue(s[i..])
  }

  /** `number::<T>`: `digit1` followed by parsing the run as `T`, where
      `limit` is one more than the largest value of `T`. */
  function Number(input: string, limit: nat): (r: Option<(nat, string)>)
    requires LeadingValue(input) < limit
    ensures r.None? <==> (input == [] || !IsDigit(input[0]))
    ensures r.Some? ==>
      var k := |input| - |r.value.1|;
      && 0 < k <= |input|
      && input[k..] == r.value.1
      && AllDigits(input[..k])
      && (k < |input| ==> !IsDigit(input[k]))
      && r.value.0 == DecimalValue(input[..k])
      && r.value.0 < limit
  {
    var n := Span(input, DigitClass);
    if n == 0 then None else Some((DecimalValue(input[..n]), input[n..]))
  }

  /** Printing a number and parsing it back gives the number and leaves
      whatever followed the digits untouched. */
  lemma NumberRoundTrip(n: nat, rest: string, limit: nat)
    requires n < limit
    requires rest == [] || !IsDigit(rest[0])
    ensures LeadingValue(DecimalString(n) + rest) < limit
    ensures Number(DecimalString(n) + rest, limit) == Some((n, rest))
  {
    var d := DecimalString(n);
    var s := d + rest;
    SpanOfPrefix(d, rest, DigitClass);
    assert s[..|d|] == d;
    DecimalRoundTrip(n);
  }

  /** A span stops exactly where a prefix of passing characters ends. */
  lemma {:induction false} SpanOfPrefix(p: string, rest: string, f: char -> bool)
    requires forall i :: 0 <= i < |p| ==> f(p[i])
    requires rest == [] || !f(rest[0])
    ensures Span(p + rest, f) == |p|
  {
    if p != [] {
      assert (p + rest)[1..] == p[1..] + rest;
      SpanOfPrefix(p[1..], rest, f);
    } else {
      assert p + rest == rest;
    }
  }

  /** A non-empty run of spaces and tabs, as `space1` reads it. */
  predicate Blanks(b: string) {
    b != [] && forall i :: 0 <= i < |b| ==> IsSpace(b[i])
  }

  /** A non-empty run of whitespace, as `multispace1` reads it. */
  predicate Whitespace(w: string) {
    w != [] && forall i :: 0 <= i < |w| ==> IsMultispace(w[i])
  }

  /** `space1` reads a whole run of blanks in front of anything else. */
  lemma BlanksThen(b: string, t: string)
    requires Blanks(b)
    requires t == [] || !IsSpace(t[0])
    ensures Space1(b + t) == Some(t)
  {
    SpanOfPrefix(b, t, IsSpace);
    assert (b + t)[|b|..] == t;
  }

  /** `multispace1` reads a whole run of whitespace in front of anything else. */
  lemma WhitespaceThen(w: string, t: string)
    requires Whitespace(w)
    requires t == [] || !IsMultispace(t[0])
    ensures Multispace1(w + t) == Some(t)
  {
    SpanOfPrefix(w, t, MultispaceClass);
    assert (w + t)[|w|..] == t;
  }

  // ---------------------------------------------------------------------
  // Lists of numbers (`separated_list1(multispace1, number)`)
  // ---------------------------------------------------------------------

  /** The digit runs that `separated_list1(multispace1, number::<T>)` reads
      from `s` fit below `limit`: the leading run and, after each
      separator, the run that follows it. `number` panics on a run that does
      not fit; text after the list is never read. */
  predicate ListFits(s: string, limit: nat)
    decreases |s|
  {
    var n := Span(s, DigitClass);
    DecimalValue(s[..n]) < limit && (n == 0 || MoreFits(s[n..], limit))
  }

  /** The digit runs that the repetition reads from `s` fit below `limit`. */
  predicate MoreFits(s: string, limit: nat)
    decreases |s|
  {
    var m := Span(s, MultispaceClass);
    m == 0 || ListFits(s[m..], limit)
  }

  /** `s` reads as the numbers `vs` and then `t`: every number is a maximal
      run of digits, and a run of whitespace separates neighbours. */
  predicate ListText(s: string, vs: seq<nat>, t: string)
    decreases |vs|, 1
  {
    var n := Span(s, DigitClass);
    && vs != [] && n > 0 && vs[0] == DecimalValue(s[..n])
    && MoreText(s[n..], vs[1..], t)
  }

  /** `s` reads as whitespace followed by the numbers `vs` in the manner of
      `ListText`, and then `t`; with no numbers, `t` is `s` itself. */
  predicate MoreText(s: string, vs: seq<nat>, t: string)
    decreases |vs|, 2
  {
    if vs == [] then t == s
    else
      var m := Span(s, MultispaceClass);
      m > 0 && ListText(s[m..], vs, t)
  }

  /** No further number can be read from `t`: it starts neither with a
      digit nor with whitespace followed by a digit. */
  predicate EndsList(t: string) {
    var m := Span(t, MultispaceClass);
    m == |t| || !IsDigit(t[m])
  }

  /** `separated_list1(multispace1, number::<T>)`: one number, then as many
      (whitespace, number) pairs as are present. A trailing separator that is
      not followed by a number is left unconsumed, as nom backtracks it. */
  function NumberList(s: string, limit: nat): (r: Option<(seq<nat>, string)>)
    requires ListFits(s, limit)
    ensures r.None? <==> (s == [] || !IsDigit(s[0]))
    ensures r.Some? ==> ListText(s, r.value.0, r.value.1) && EndsList(r.value.1)
    ensures r.Some? ==> |r.value.1| < |s| && AllBelow(r.value.0, limit)
  {
    var first := Number(s, limit);
    if first.None? then None
    else
      var (v, rest) := first.value;
      NumberAfterFits(s, limit);
      var (vs, tail) := MoreNumbers(rest, limit);
      ListTextOfNumber(s, limit, vs, tail);
      BelowCons(v, vs, limit);
      Some(([v] + vs, tail))
  }

  /** `number` reads the maximal leading digit run. */
  lemma NumberIsSpan(s: string, limit: nat)
    requires LeadingValue(s) < limit && Number(s, limit).Some?
    ensures var n := Span(s, DigitClass);
      Number(s, limit).value == (DecimalValue(s[..n]), s[n..])
  {
  }

  /** What follows the first number of a list is read with fitting runs. */
  lemma NumberAfterFits(s: string, limit: nat)
    requires ListFits(s, limit)
    ensures LeadingValue(s) < limit
    ensures Number(s, limit).Some? ==> MoreFits(Number(s, limit).value.1, limit)
  {
    if Number(s, limit).Some? {
      NumberIsSpan(s, limit);
    }
  }

  /** A number followed by more separated numbers is a list. */
  lemma ListTextOfNumber(s: string, limit: nat, vs: seq<nat>, t: string)
    requires LeadingValue(s) < limit && Number(s, limit).Some?
    requires MoreText(Number(s, limit).value.1, vs, t)
    ensures ListText(s, [Number(s, limit).value.0] + vs, t)
  {
    NumberIsSpan(s, limit);
    assert ([Number(s, limit).value.0] + vs)[1..] == vs;
  }

  /** One (whitespace, number) step of the repetition in `NumberList`. */
  function SepNumber(s: string, limit: nat): (r: Option<(nat, string)>)
    requires MoreFits(s, limit)
    ensures (s == [] || !IsDigit(s[0])) ==> (r.None? <==> EndsList(s))
    ensures r.Some? ==> MoreText(s, [r.value.0], r.value.1) && MoreFits(r.value.1, limit)
    ensures r.Some? ==> r.value.0 < limit && |r.value.1| < |s|
    ensures r.Some? ==> r.value.1 == [] || !IsDigit(r.value.1[0])
  {
    var sep := Multispace1(s);
    if sep.None? then None
    else
      var afterSep := sep.value;
      assert afterSep == s[Span(s, MultispaceClass)..];
      NumberAfterFits(afterSep, limit);
      var next := Number(afterSep, limit);
      if next.None? then None
      else
        ListTextOfNumber(afterSep, limit, [], next.value.1);
        assert [next.value.0] + [] == [next.value.0];
        next
  }

  /** Every number of `vs` is below `limit`. */
  predicate AllBelow(vs: seq<nat>, limit: nat) {
    forall i :: 0 <= i < |vs| ==> vs[i] < limit
  }

  lemma BelowCons(v: nat, vs: seq<nat>, limit: nat)
    requires v < limit && AllBelow(vs, limit)
    ensures AllBelow([v] + vs, limit)
  {
    assert forall i :: 0 < i <= |vs| ==> ([v] + vs)[i] == vs[i - 1];
  }

  /** The repetition part of `NumberList`: zero or more (whitespace, number). */
  function MoreNumbers(s: string, limit: nat): (r: (seq<nat>, string))
    requires MoreFits(s, limit)
    ensures MoreText(s, r.0, r.1)
    ensures (s == [] || !IsDigit(s[0])) ==> EndsList(r.1)
    ensures AllBelow(r.0, limit)
    ensures |r.1| <= |s|
    decreases |s|
  {
    var step := SepNumber(s, limit);
    if step.None? then ([], s)
    else
      var v, rest := step.value.0, step.value.1;
      var more := MoreNumbers(rest, limit);
      MoreTextCons(s, v, rest, more.0, more.1);
      BelowCons(v, more.0, limit);
      ([v] + more.0, more.1)
  }

  /** One separated number followed by more of them is a longer list. */
  lemma MoreTextCons(s: string, v: nat, rest: string, vs: seq<nat>, t: string)
    requires MoreText(s, [v], rest) && MoreText(rest, vs, t)
    ensures MoreText(s, [v] + vs, t)
  {
    var m := Span(s, MultispaceClass);
    var u := s[m..];
    var n := Span(u, DigitClass);
    assert [v][1..] == [];
    assert ListText(u, [v], rest);
    assert MoreText(u[n..], [], rest);
    assert rest == u[n..];
    assert ([v] + vs)[1..] == vs;
    assert ListText(u, [v] + vs, t);
  }

  /** Text in the manner of `ListText` followed by text that ends the list
      parses back: the runs read fit when the numbers do, and `NumberList`
      reads exactly those numbers and leaves exactly that text. */
  lemma {:induction false} ListTextParses(s: string, vs: seq<nat>, t: string, limit: nat)
    requires ListText(s, vs, t) && EndsList(t)
    requires AllBelow(vs, limit)
    ensures ListFits(s, limit) && NumberList(s, limit) == Some((vs, t))
    decreases |vs|, 1
  {
    var n := Span(s, DigitClass);
    MoreTextParses(s[n..], vs[1..], t, limit);
    HeadThenTail(vs);
  }

  /** The repetition reads back the numbers of text in the manner of `MoreText`. */
  lemma {:induction false} MoreTextParses(s: string, vs: seq<nat>, t: string, limit: nat)
    requires MoreText(s, vs, t) && EndsList(t) && limit > 0
    requires s == [] || !IsDigit(s[0])
    requires AllBelow(vs, limit)
    ensures MoreFits(s, limit) && MoreNumbers(s, limit) == (vs, t)
    decreases |vs|, 2
  {
    if vs != [] {
      var m := Span(s, MultispaceClass);
      var u := s[m..];
      var n := Span(u, DigitClass);
      MoreTextParses(u[n..], vs[1..], t, limit);
      HeadThenTail(vs);
    }
  }

  /** A non-empty sequence is its head followed by its tail. */
  lemma HeadThenTail<T>(vs: seq<T>)
    requires vs != []
    ensures [vs[0]] + vs[1..] == vs
  {
  }

  /** The numbers `ns` printed in decimal, with `seps[i]` between `ns[i]`
      and `ns[i + 1]`. */
  function Joined(ns: seq<nat>, seps: seq<string>): string
    requires ns != [] && |seps| == |ns| - 1
  {
    if |ns| == 1 then DecimalString(ns[0])
    else DecimalString(ns[0]) + (seps[0] + Joined(ns[1..], seps[1..]))
  }

  /** `k` single spaces, the separators of a list printed the plain way. */
  function Spaces(k: nat): (seps: seq<string>)
    ensures |seps| == k && forall i :: 0 <= i < k ==> seps[i] == " " && Whitespace(seps[i])
  {
    seq(k, _ => " ")
  }

  /** Printed numbers start with a digit. */
  lemma JoinedStartsWithDigit(ns: seq<nat>, seps: seq<string>, rest: string)
    requires ns != [] && |seps| == |ns| - 1
    ensures Joined(ns, seps) + rest != [] && IsDigit((Joined(ns, seps) + rest)[0])
  {
    var d := DecimalString(ns[0]);
    if |ns| == 1 {
      assert (Joined(ns, seps) + rest)[0] == d[0];
    } else {
      assert Joined(ns, seps) + rest == d + (seps[0] + Joined(ns[1..], seps[1..]) + rest);
    }
  }

  /** Numbers printed with whitespace between them are read in the manner
      of `ListText`, up to any text that does not start with a digit. */
  lemma {:induction false} JoinedListText(ns: seq<nat>, seps: seq<string>, rest: string)
    requires ns != [] && |seps| == |ns| - 1
    requires forall i :: 0 <= i < |seps| ==> Whitespace(seps[i])
    requires rest == [] || !IsDigit(rest[0])
    ensures ListText(Joined(ns, seps) + rest, ns, rest)
    decreases |ns|
  {
    var d := DecimalString(ns[0]);
    var s := Joined(ns, seps) + rest;
    DecimalRoundTrip(ns[0]);
    if |ns| == 1 {
      SpanOfPrefix(d, rest, DigitClass);
      assert s[..|d|] == d && s[|d|..] == rest;
      assert ns[1..] == [];
    } else {
      var tail := Joined(ns[1..], seps[1..]) + rest;
      assert s == d + (seps[0] + tail);
      JoinedListText(ns[1..], seps[1..], rest);
      JoinedStartsWithDigit(ns[1..], seps[1..], rest);
      SpanOfPrefix(d, seps[0] + tail, DigitClass);
      SpanOfPrefix(seps[0], tail, MultispaceClass);
      assert s[..|d|] == d && s[|d|..] == seps[0] + tail;
      assert (seps[0] + tail)[|seps[0]|..] == tail;
    }
  }

  /** Text that ends a list does not start with a digit. */
  lemma EndsListNoDigit(t: string)
    requires EndsList(t)
    ensures t == [] || !IsDigit(t[0])
  {
    if t != [] {
      var m := Span(t, MultispaceClass);
      assert m > 0 ==> MultispaceClass(t[0]);
    }
  }

  /** Printing numbers with any whitespace between them and parsing them
      back with `NumberList` gives the same numbers, and leaves whatever
      followed when it cannot continue the list. */
  lemma NumberListRoundTrip(ns: seq<nat>, seps: seq<string>, rest: string, limit: nat)
    requires ns != [] && |seps| == |ns| - 1
    requires forall i :: 0 <= i < |seps| ==> Whitespace(seps[i])
    requires AllBelow(ns, limit)
    requires EndsList(rest)
    ensures ListFits(Joined(ns, seps) + rest, limit)
    ensures NumberList(Joined(ns, seps) + rest, limit) == Some((ns, rest))
  {
    EndsListNoDigit(rest);
    JoinedListText(ns, seps, rest);
    ListTextParses(Joined(ns, seps) + rest, ns, rest, limit);
  }
  // ---------------------------------------------------------------------
  // Rust standard library helpers
  // ---------------------------------------------------------------------

  /** `str::split_whitespace`: the maximal runs of non-whitespace characters. */
  function Words(s: string): (ws: seq<string>)
    ensures forall w :: w in ws ==> w != [] && forall i :: 0 <= i < |w| ==> !IsWhitespace(w[i])
    decreases |s|
  {
    var lead := Span(s, IsWhitespace);
    if lead == |s| then []
    else
      var t := s[lead..];
      var n := Span(t, c => !IsWhitespace(c));
      [t[..n]] + Words(t[n..])
  }

  function Concat(ws: seq<string>): string {
    if ws == [] then [] else ws[0] + Concat(ws[1..])
  }

  function RemoveWhitespace(s: string): (r: string)
    ensures |r| <= |s|
  {
    if s == [] then [] else (if IsWhitespace(s[0]) then [] else [s[0]]) + RemoveWhitespace(s[1..])
  }

  lemma {:induction false} RemoveWhitespaceAppend(a: string, b: string)
    ensures RemoveWhitespace(a + b) == RemoveWhitespace(a) + RemoveWhitespace(b)
  {
    if a == [] {
      assert a + b == b;
    } else {
      assert (a + b)[1..] == a[1..] + b;
      RemoveWhitespaceAppend(a[1..], b);
    }
  }

  lemma {:induction false} RemoveWhitespaceOf(s: string, all: bool)
    requires forall i :: 0 <= i < |s| ==> IsWhitespace(s[i]) == all
    ensures RemoveWhitespace(s) == if all then [] else s
  {
    if s != [] {
      RemoveWhitespaceOf(s[1..], all);
    }
  }

  /** The words of `s`, concatenated, are `s` with its whitespace removed:
      splitting loses exactly the whitespace and nothing else. */
  lemma {:induction false} WordsLoseOnlyWhitespace(s: string)
    ensures Concat(Words(s)) == RemoveWhitespace(s)
    decreases |s|
  {
    var lead := Span(s, IsWhitespace);
    var t := s[lead..];
    LeadingWhitespaceRemoved(s, lead);
    if lead < |s| {
      var n := Span(t, c => !IsWhitespace(c));
      WordSplit(t, n);
      WordsLoseOnlyWhitespace(t[n..]);
      assert Words(s) == [t[..n]] + Words(t[n..]);
      assert Concat(Words(s)) == t[..n] + Concat(Words(t[n..]));
    } else {
      assert t == [];
    }
  }

  lemma LeadingWhitespaceRemoved(s: string, lead: nat)
    requires lead <= |s|
    requires forall i :: 0 <= i < lead ==> IsWhitespace(s[i])
    ensures RemoveWhitespace(s) == RemoveWhitespace(s[lead..])
  {
    assert s == s[..lead] + s[lead..];
    RemoveWhitespaceAppend(s[..lead], s[lead..]);
    RemoveWhitespaceOf(s[..lead], true);
  }

  lemma WordSplit(t: string, n: nat)
    requires n <= |t|
    requires forall i :: 0 <= i < n ==> !IsWhitespace(t[i])
    ensures RemoveWhitespace(t) == t[..n] + RemoveWhitespace(t[n..])
  {
    assert t == t[..n] + t[n..];
    RemoveWhitespaceAppend(t[..n], t[n..]);
    RemoveWhitespaceOf(t[..n], false);
  }

  /** `u64::from_str`: an optional `+`, then one or more decimal digits whose
      value fits in 64 bits; anything else is an error. */
  function ParseU64(s: string): (r: Option<u64>)
    ensures r.Some? <==>
      var ds := if s != [] && s[0] == '+' then s[1..] else s;
      ds != [] && AllDigits(ds) && DecimalValue(ds) < U64_LIMIT
    ensures r.Some? ==> r.value == DecimalValue(if s[0] == '+' then s[1..] else s)
  {
    var ds := if s != [] && s[0] == '+' then s[1..] else s;
    if ds != [] && AllDigits(ds) && DecimalValue(ds) < U64_LIMIT then Some(DecimalValue(ds)) else None
  }

  lemma ParseU64RoundTrip(n: u64)
    ensures ParseU64(DecimalString(n)) == Some(n)
  {
    DecimalRoundTrip(n);
    var s := DecimalString(n);
    assert s[0] != '+';
  }

  // ---------------------------------------------------------------------
  // In-place sorting (Rust's `sort_by`)
  // ---------------------------------------------------------------------

  /** Every element is `leq` its successor. For a total `leq` this is what
      `sort_by` promises of the vector it reorders. */
  predicate SortedBy<T>(s: seq<T>, leq: (T, T) -> bool) {
    forall k :: 0 < k < |s| ==> leq(s[k - 1], s[k])
  }

  ghost predicate IsTotal<T(!new)>(leq: (T, T) -> bool) {
    forall x, y :: leq(x, y) || leq(y, x)
  }

  lemma TotalAt<T(!new)>(leq: (T, T) -> bool, x: T, y: T)
    requires IsTotal(leq)
    ensures leq(x, y) || leq(y, x)
  {
  }

  method SwapWithPrevious<T>(a: array<T>, i: int)
    requires 0 < i < a.Length
    modifies a
    ensures a[i - 1] == old(a[i]) && a[i] == old(a[i - 1])
    ensures forall k :: 0 <= k < a.Length && k != i - 1 && k != i ==> a[k] == old(a[k])
    ensures multiset(a[..]) == old(multiset(a[..]))
  {
    a[i - 1], a[i] := a[i], a[i - 1];
  }

  /** Sorts `a` in place by insertion, swapping neighbours. Only totality of
      `leq` is needed, because sortedness is stated between neighbours. */
  method SortBy<T(!new)>(a: array<T>, leq: (T, T) -> bool)
    requires IsTotal(leq)
    modifies a
    ensures SortedBy(a[..], leq)
    ensures multiset(a[..]) == old(multiset(a[..]))
  {
    var i := 0;
    while i < a.Length
      invariant 0 <= i <= a.Length
      invariant forall k :: 0 < k < i ==> leq(a[k - 1], a[k])
      invariant multiset(a[..]) == old(multiset(a[..]))
    {
      var j := i;
      while 0 < j && !leq(a[j - 1], a[j])
        invariant 0 <= j <= i
        invariant forall k :: 0 < k <= i && k != j ==> leq(a[k - 1], a[k])
        invariant 0 < j < i ==> leq(a[j - 1], a[j + 1])
        invariant multiset(a[..]) == old(multiset(a[..]))
      {
        TotalAt(leq, a[j - 1], a[j]);
        SwapWithPrevious(a, j);
        j := j - 1;
      }
      i := i + 1;
    }
  }

  // ---------------------------------------------------------------------
  // Binary search (Rust's `slice::binary_search_by`)
  // ---------------------------------------------------------------------

  datatype Ordering = Less | Equal | Greater

  /** The comparator splits `s` into a prefix of `Less`, a middle of `Equal`
      and a suffix of `Greater` elements: what `binary_search_by` assumes. */
  predicate Monotone<T>(s: seq<T>, cmp: T -> Ordering) {
    forall i, j :: 0 <= i <= j < |s| ==>
      (cmp(s[j]) == Less ==> cmp(s[i]) == Less) && (cmp(s[i]) == Greater ==> cmp(s[j]) == Greater)
  }

  /** `binary_search_by` as the standard library of the time writes it:
      probe the middle of the window, move past a `Less` probe, stop before a
      `Greater` one and return at the first `Equal`. What it finds is always
      an `Equal` element; on a monotone comparator it finds one whenever
      there is one. */
  method BinarySearchBy<T>(s: seq<T>, cmp: T -> Ordering) returns (r: Option<nat>)
    ensures r.Some? ==> r.value < |s| && cmp(s[r.value]) == Equal
    ensures Monotone(s, cmp) ==> (r.None? <==> forall i :: 0 <= i < |s| ==> cmp(s[i]) != Equal)
  {
    var size := |s|;
    var left := 0;
    var right := size;
    while left < right
      invariant 0 <= left <= right <= |s| && size == right - left
      invariant Monotone(s, cmp) ==> forall i :: 0 <= i < left ==> cmp(s[i]) == Less
      invariant Monotone(s, cmp) ==> forall i :: right <= i < |s| ==> cmp(s[i]) == Greater
      decreases size
    {
      var mid := left + size / 2;
      var c := cmp(s[mid]);
      left := if c == Less then mid + 1 else left;
      right := if c == Greater then mid else right;
      if c == Equal {
        return Some(mid);
      }
      size := right - left;
    }
    return None;
  }

  // ---------------------------------------------------------------------
  // Sums over sets: a `HashSet` is walked in an order the program does not
  // choose, so a sum over it must not depend on the order.
  // ---------------------------------------------------------------------

  /** The sum of `f` over the elements of `s`. */
  ghost function SetSum<T>(s: set<T>, f: T -> nat): nat
    decreases |s|
  {
    if s == {} then 0
    else
      var x :| x in s;
      f(x) + SetSum(s - {x}, f)
  }

  /** Any element may be taken first. */
  lemma {:induction false} SetSumRemove<T>(s: set<T>, f: T -> nat, y: T)
    requires y in s
    ensures SetSum(s, f) == f(y) + SetSum(s - {y}, f)
    decreases |s|
  {
    var x :| x in s && SetSum(s, f) == f(x) + SetSum(s - {x}, f);
    if x != y {
      SetSumRemove(s - {x}, f, y);
      SetSumRemove(s - {y}, f, x);
      assert s - {x} - {y} == s - {y} - {x};
    }
  }

  /** Adding an element adds its value. */
  lemma SetSumAdd<T>(s: set<T>, f: T -> nat, y: T)
    requires y !in s
    ensures SetSum(s + {y}, f) == SetSum(s, f) + f(y)
  {
    SetSumRemove(s + {y}, f, y);
    assert s + {y} - {y} == s;
  }

  /** Functions that agree on `s` have the same sum over it. */
  lemma {:induction false} SetSumCongruent<T>(s: set<T>, f: T -> nat, g: T -> nat)
    requires forall x :: x in s ==> f(x) == g(x)
    ensures SetSum(s, f) == SetSum(s, g)
    decreases |s|
  {
    if s != {} {
      var y :| y in s;
      SetSumRemove(s, f, y);
      SetSumRemove(s, g, y);
      SetSumCongruent(s - {y}, f, g);
    }
  }

  /** The sum of `f` over `ps[..n]`, from left to right. */
  function SeqSum<T>(ps: seq<T>, f: T -> nat, n: nat): nat
    requires n <= |ps|
  {
    if n == 0 then 0 else SeqSum(ps, f, n - 1) + f(ps[n - 1])
  }

  /** No element occurs twice. */
  predicate Distinct<T(==)>(ps: seq<T>) {
    forall a, b :: 0 <= a < b < |ps| ==> ps[a] != ps[b]
  }

  /** The elements of `ps[..n]`. */
  ghost function Elements<T>(ps: seq<T>, n: nat): set<T>
    requires n <= |ps|
  {
    set k | 0 <= k < n :: ps[k]
  }

  /** Over the elements of a sequence without repetitions, the sum over the
      set is the sum in order. */
  lemma {:induction false} SetSumOfDistinct<T>(ps: seq<T>, f: T -> nat, n: nat)
    requires n <= |ps| && Distinct(ps)
    ensures SetSum(Elements(ps, n), f) == SeqSum(ps, f, n)
  {
    if n > 0 {
      SetSumOfDistinct(ps, f, n - 1);
      assert ps[n - 1] !in Elements(ps, n - 1);
      assert Elements(ps, n) == Elements(ps, n - 1) + {ps[n - 1]};
      SetSumAdd(Elements(ps, n - 1), f, ps[n - 1]);
    }
  }

  // ---------------------------------------------------------------------
  // Collecting results (`collect::<Result<Vec<_>, _>>()`)
  // ---------------------------------------------------------------------

  /** `xs[i]` is the first element on which `f` fails. */
  predicate FirstFailure<T, U, E>(xs: seq<T>, f: T -> Result<U, E>, i: int) {
    0 <= i < |xs| && f(xs[i]).Err? && forall j :: 0 <= j < i ==> f(xs[j]).Ok?
  }

  /** Collecting the results of `f` over `xs`: all the values, in order, or
      the error of the first element on which `f` fails. */
  function CollectAll<T, U, E>(xs: seq<T>, f: T -> Result<U, E>): (r: Result<seq<U>, E>)
    ensures r.Ok? <==> forall i :: 0 <= i < |xs| ==> f(xs[i]).Ok?
    ensures r.Ok? ==> |r.value| == |xs| && forall i :: 0 <= i < |xs| ==> r.value[i] == f(xs[i]).value
    ensures r.Err? ==> exists i :: FirstFailure(xs, f, i) && r.error == f(xs[i]).error
  {
    if xs == [] then Ok([])
    else
      match f(xs[0])
      case Err(e) =>
        assert FirstFailure(xs, f, 0);
        Err(e)
      case Ok(v) =>
        match CollectAll(xs[1..], f)
        case Err(e) =>
          assert exists i :: FirstFailure(xs, f, i) && e == f(xs[i]).error by {
            var i :| FirstFailure(xs[1..], f, i) && e == f(xs[1..][i]).error;
            FirstFailureShift(xs, f, i);
          }
          Err(e)
        case Ok(vs) =>
          assert forall i :: 0 < i < |xs| ==> xs[i] == xs[1..][i - 1];
          Ok([v] + vs)
  }

  lemma FirstFailureShift<T, U, E>(xs: seq<T>, f: T -> Result<U, E>, i: int)
    requires xs != [] && f(xs[0]).Ok? && FirstFailure(xs[1..], f, i)
    ensures FirstFailure(xs, f, i + 1) && xs[i + 1] == xs[1..][i]
  {
    forall j | 0 < j < i + 1
      ensures f(xs[j]).Ok?
    {
      assert xs[j] == xs[1..][j - 1];
    }
  }
}
