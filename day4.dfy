/** Scratchcards (src/day4.rs): the parser of a card line, the number of
    winning numbers a card holds, the doubling score of part one and the
    propagation of card copies of part two. */
module Scratchcards {
  import opened Common

  // ---------------------------------------------------------------------
  // Parsing a card line
  // ---------------------------------------------------------------------

  /** The two number lists of a card and its number. */
  datatype Card = Card(id: nat, winning: seq<nat>, have: seq<nat>)

  /** The card number `card_pre_parser` reads fits a `u32` once "Card" and
      blanks lead up to it. */
  predicate PreFits(s: string) {
    && Tag(s, "Card").Some?
    && Space1(Tag(s, "Card").value).Some?
    ==> LeadingValue(Space1(Tag(s, "Card").value).value) < U32_LIMIT
  }

  /** `s` is "Card", blanks, a run of digits worth `id`, ":" and then
      `rest`: the text `card_pre_parser` reads. */
  predicate IsPreText(s: string, id: nat, rest: string) {
    && "Card" <= s && Space1(s[4..]).Some?
    && var u := Space1(s[4..]).value;
    var n := Span(u, DigitClass);
    && n > 0 && id == DecimalValue(u[..n])
    && u[n..] == [':'] + rest
  }

  /** `card_pre_parser` (src/day4.rs:11-15): "Card", spaces or tabs, the
      card number as a `u32`, then ":"; the result is the card number. */
  function CardPreParser(s: string): (r: Option<(nat, string)>)
    requires PreFits(s)
    ensures r.Some? ==> IsPreText(s, r.value.0, r.value.1)
    ensures r.Some? ==>
      && "Card" <= s && Space1(s[4..]).Some?
      && r.value.0 == LeadingValue(Space1(s[4..]).value) && r.value.0 < U32_LIMIT
      && |r.value.1| < |s| && r.value.1 == s[|s| - |r.value.1|..]
      && s[|s| - |r.value.1| - 1] == ':'
  {
    match Tag(s, "Card")
    case None => None
    case Some(a) =>
      match Space1(a)
      case None => None
      case Some(b) =>
        match Number(b, U32_LIMIT)
        case None => None
        case Some((id, c)) =>
          match Tag(c, ":")
          case None => None
          case Some(d) =>
            PreTextOfParts(s, a, b, c, d, id);
            Some((id, d))
  }

  /** What the four steps of `card_pre_parser` read is a card prefix. */
  lemma PreTextOfParts(s: string, a: string, b: string, c: string, d: string, id: nat)
    requires Tag(s, "Card") == Some(a) && Space1(a) == Some(b)
    requires LeadingValue(b) < U32_LIMIT && Number(b, U32_LIMIT) == Some((id, c))
    requires Tag(c, ":") == Some(d)
    ensures IsPreText(s, id, d)
    ensures |d| < |s| && d == s[|s| - |d|..] && s[|s| - |d| - 1] == ':'
  {
    NumberIsSpan(b, U32_LIMIT);
    PreSuffixOfParts(s, a, b, c, d, id);
  }

  /** The prefix parser leaves the text after the colon it reads. */
  lemma PreSuffixOfParts(s: string, a: string, b: string, c: string, d: string, id: nat)
    requires Tag(s, "Card") == Some(a) && Space1(a) == Some(b)
    requires LeadingValue(b) < U32_LIMIT && Number(b, U32_LIMIT) == Some((id, c))
    requires Tag(c, ":") == Some(d)
    ensures |d| < |s| && d == s[|s| - |d|..] && s[|s| - |d| - 1] == ':'
  {
    assert s[|s| - |d| - 1] == c[0];
  }

  /** Every card prefix with a `u32` card number reads back as that number:
      `card_pre_parser` is complete for its grammar. */
  lemma PreParserComplete(s: string, id: nat, rest: string)
    requires IsPreText(s, id, rest) && id < U32_LIMIT
    ensures PreFits(s) && CardPreParser(s) == Some((id, rest))
  {
    var t := s[4..];
    var u := Space1(t).value;
    var n := Span(u, DigitClass);
    assert Tag(s, "Card") == Some(t);
    assert LeadingValue(u) == id;
    NumberIsSpan(u, U32_LIMIT);
    assert Tag(u[n..], ":") == Some(rest);
  }

  /** `s` is whitespace, "|", whitespace and then `rest`, which does not
      start with whitespace: the text between the two lists. */
  predicate IsBarText(s: string, rest: string) {
    var a := Span(s, MultispaceClass);
    && 0 < a < |s| && s[a] == '|'
    && var t := s[a + 1..];
    var b := Span(t, MultispaceClass);
    && b > 0 && rest == t[b..]
  }

  /** The `multispace1, tag("|"), multispace1` between the two lists. */
  function Bar(s: string): (r: Option<string>)
    ensures r.Some? ==> IsBarText(s, r.value)
    ensures r.Some? ==>
      && |r.value| < |s| && r.value == s[|s| - |r.value|..]
      && '|' in s[..|s| - |r.value|]
      && (r.value == [] || !IsMultispace(r.value[0]))
  {
    match Multispace1(s)
    case None => None
    case Some(a) =>
      match Tag(a, "|")
      case None => None
      case Some(b) =>
        match Multispace1(b)
        case None => None
        case Some(c) =>
          BarTextOfParts(s, a, b, c);
          Some(c)
  }

  /** What the three steps of the bar read is a bar text. */
  lemma BarTextOfParts(s: string, a: string, b: string, c: string)
    requires Multispace1(s) == Some(a) && Tag(a, "|") == Some(b) && Multispace1(b) == Some(c)
    ensures IsBarText(s, c) && '|' in s[..|s| - |c|]
  {
    var m := Span(s, MultispaceClass);
    assert a == s[m..] && s[m] == '|';
    assert b == s[m + 1..];
    assert s[..|s| - |c|][m] == '|';
  }

  /** Every bar text reads as the bar: `Bar` is complete for its grammar. */
  lemma BarComplete(s: string, rest: string)
    requires IsBarText(s, rest)
    ensures Bar(s) == Some(rest)
  {
    var a := Span(s, MultispaceClass);
    assert Multispace1(s) == Some(s[a..]);
    assert Tag(s[a..], "|") == Some(s[a + 1..]);
  }

  /** The digit runs that the parser of `process_line_day4` reads fit a
      `u32`: the card number, and the runs each list reads once the parser
      gets to it. Runs it never reaches, after a failed step or after the
      second list, are unconstrained, as the source never parses them. */
  predicate LineFits(line: string) {
    && PreFits(line)
    && (CardPreParser(line).Some? && Multispace1(CardPreParser(line).value.1).Some? ==>
          var b := Multispace1(CardPreParser(line).value.1).value;
          && ListFits(b, U32_LIMIT)
          && (NumberList(b, U32_LIMIT).Some? && Bar(NumberList(b, U32_LIMIT).value.1).Some? ==>
                ListFits(Bar(NumberList(b, U32_LIMIT).value.1).value, U32_LIMIT)))
  }

  /** Every number of a card fits a `u32`. */
  predicate CardValuesFit(c: Card) {
    c.id < U32_LIMIT && AllBelow(c.winning, U32_LIMIT) && AllBelow(c.have, U32_LIMIT)
  }

  /** `line` is a card line of `card`: the card prefix, whitespace, the
      winning numbers separated by whitespace (ended by the bar), the bar,
      and the card's own numbers separated by whitespace, followed by text
      that cannot continue the list. Leading zeros are allowed, as
      `number` reads them. */
  ghost predicate IsCardText(line: string, card: Card) {
    exists a, c, d, t ::
      && IsPreText(line, card.id, a)
      && ListText(a[Span(a, MultispaceClass)..], card.winning, c)
      && Span(a, MultispaceClass) > 0 && EndsList(c)
      && IsBarText(c, d)
      && ListText(d, card.have, t) && EndsList(t)
  }

  /** The parser of `process_line_day4` (src/day4.rs:18-27): the card
      prefix, whitespace, the winning numbers, the bar, the numbers of the
      card. Whatever follows the second list is ignored. Every number is
      read as a `u32`. */
  function ParseCard(line: string): (r: Option<Card>)
    requires LineFits(line)
    ensures r.Some? ==> IsCardText(line, r.value)
    ensures r.Some? ==> r.value.winning != [] && r.value.have != [] && CardValuesFit(r.value)
    ensures r.Some? ==>
      && "Card" <= line && Space1(line[4..]).Some?
      && r.value.id == LeadingValue(Space1(line[4..]).value)
  {
    match CardPreParser(line)
    case None => None
    case Some((id, a)) =>
      match Multispace1(a)
      case None => None
      case Some(b) =>
        match NumberList(b, U32_LIMIT)
        case None => None
        case Some((winning, c)) =>
          match Bar(c)
          case None => None
          case Some(d) =>
            match NumberList(d, U32_LIMIT)
            case None => None
            case Some((have, t)) =>
              CardTextOfParts(line, a, c, d, t, Card(id, winning, have));
              Some(Card(id, winning, have))
  }

  /** What the steps of the parser read is a card line. */
  lemma CardTextOfParts(line: string, a: string, c: string, d: string, t: string, card: Card)
    requires IsPreText(line, card.id, a) && Multispace1(a).Some?
    requires ListText(Multispace1(a).value, card.winning, c) && EndsList(c)
    requires IsBarText(c, d)
    requires ListText(d, card.have, t) && EndsList(t)
    ensures IsCardText(line, card)
  {
    assert Multispace1(a).value == a[Span(a, MultispaceClass)..];
  }

  /** Every card line of a card whose numbers fit a `u32` parses to that
      card: the parser is complete for its grammar, whatever the layout
      and whatever leading zeros the numbers are written with. */
  lemma ParseCardComplete(line: string, card: Card)
    requires IsCardText(line, card) && CardValuesFit(card)
    ensures LineFits(line) && ParseCard(line) == Some(card)
  {
    var a, c, d, t :|
      && IsPreText(line, card.id, a)
      && ListText(a[Span(a, MultispaceClass)..], card.winning, c)
      && Span(a, MultispaceClass) > 0 && EndsList(c)
      && IsBarText(c, d)
      && ListText(d, card.have, t) && EndsList(t);
    var b := a[Span(a, MultispaceClass)..];
    PreParserComplete(line, card.id, a);
    assert Multispace1(a) == Some(b);
    ListTextParses(b, card.winning, c, U32_LIMIT);
    BarComplete(c, d);
    ListTextParses(d, card.have, t, U32_LIMIT);
    CardFromParts(line, a, b, c, d, t, card);
  }

  // ---------------------------------------------------------------------
  // Matches
  // ---------------------------------------------------------------------

  /** The values of a list, as the `HashSet` of src/day4.rs:29-30 holds them. */
  function Values(ns: seq<nat>): set<nat> {
    set x | x in ns
  }

  /** The number of distinct winning numbers the card holds: the size of
      the intersection of src/day4.rs:31-32. It is at most the length of
      either list, and a value counts exactly when both lists hold it. */
  function Matches(c: Card): (n: nat)
    ensures n <= |c.winning| && n <= |c.have|
    ensures forall x :: x in Values(c.winning) * Values(c.have) <==> x in c.winning && x in c.have
  {
    var w, h := Values(c.winning), Values(c.have);
    ValuesAtMost(c.winning);
    ValuesAtMost(c.have);
    assert w * h <= w;
    assert w * h <= h;
    SubsetSize(w * h, w);
    SubsetSize(w * h, h);
    |w * h|
  }

  /** `process_line_day4` (src/day4.rs:17-33): the matches of the parsed
      card, or 0 when the line does not parse (`unwrap_or_default` gives two
      empty lists). */
  function ProcessLine(line: string): (n: nat)
    requires LineFits(line)
    ensures ParseCard(line).None? ==> n == 0
    ensures ParseCard(line).Some? ==> n == Matches(ParseCard(line).value)
  {
    match ParseCard(line)
    case None => 0
    case Some(c) => Matches(c)
  }

  /** A list has at most as many distinct values as entries. */
  lemma {:induction false} ValuesAtMost(ns: seq<nat>)
    ensures |Values(ns)| <= |ns|
  {
    if ns != [] {
      var init := ns[..|ns| - 1];
      ValuesAtMost(init);
      assert ns == init + [ns[|ns| - 1]];
      assert Values(ns) == Values(init) + {ns[|ns| - 1]};
    }
  }

  /** A subset is no larger than the set. */
  lemma {:induction false} SubsetSize(a: set<nat>, b: set<nat>)
    requires a <= b
    decreases |b|
    ensures |a| <= |b|
  {
    if a != {} {
      var x :| x in a;
      SubsetSize(a - {x}, b - {x});
    }
  }

  // ---------------------------------------------------------------------
  // Printing a card line and reading it back
  // ---------------------------------------------------------------------

  /** The blanks and whitespace of a card line: after "Card", after ":",
      between the numbers of each list, and on either side of "|". */
  datatype Layout = Layout(afterCard: string, afterColon: string, winningSeps: seq<string>,
                           beforeBar: string, afterBar: string, haveSeps: seq<string>)

  /** `l` lays out the lists of `c`, with one separator between each pair
      of neighbouring numbers. */
  predicate LayoutFor(c: Card, l: Layout) {
    && c.winning != [] && c.have != []
    && Blanks(l.afterCard) && Whitespace(l.afterColon)
    && Whitespace(l.beforeBar) && Whitespace(l.afterBar)
    && |l.winningSeps| == |c.winning| - 1 && |l.haveSeps| == |c.have| - 1
    && (forall i :: 0 <= i < |l.winningSeps| ==> Whitespace(l.winningSeps[i]))
    && (forall i :: 0 <= i < |l.haveSeps| ==> Whitespace(l.haveSeps[i]))
  }

  /** The layout of the puzzle input: single spaces throughout. */
  function PlainLayout(c: Card): (l: Layout)
    requires c.winning != [] && c.have != []
    ensures LayoutFor(c, l)
  {
    Layout(" ", " ", Spaces(|c.winning| - 1), " ", " ", Spaces(|c.have| - 1))
  }

  /** The card printed in layout `l`, followed by `rest`. */
  function CardText(c: Card, l: Layout, rest: string): string
    requires LayoutFor(c, l)
  {
    "Card" + (l.afterCard + (DecimalString(c.id) + (":" + (l.afterColon + WinningText(c, l, rest)))))
  }

  /** The text from the winning numbers on. */
  function WinningText(c: Card, l: Layout, rest: string): string
    requires LayoutFor(c, l)
  {
    Joined(c.winning, l.winningSeps) + BarText(c, l, rest)
  }

  /** The text from the whitespace before "|" on. */
  function BarText(c: Card, l: Layout, rest: string): string
    requires LayoutFor(c, l)
  {
    l.beforeBar + ("|" + (l.afterBar + (Joined(c.have, l.haveSeps) + rest)))
  }

  /** Whitespace, "|" and whitespace in front of a number read as the
      bar, and no number can be read across the "|". */
  lemma BarReadsBack(b1: string, b2: string, h: string)
    requires Whitespace(b1) && Whitespace(b2) && h != [] && IsDigit(h[0])
    ensures Bar(b1 + ("|" + (b2 + h))) == Some(h)
    ensures EndsList(b1 + ("|" + (b2 + h)))
  {
    var u := "|" + (b2 + h);
    WhitespaceThen(b2, h);
    assert Tag(u, "|") == Some(b2 + h) by {
      assert "|" <= u && u[1..] == b2 + h;
    }
    WhitespaceThen(b1, u);
    SpanOfPrefix(b1, u, MultispaceClass);
    assert (b1 + u)[|b1|] == '|';
  }

  /** The bar and the numbers of the card read back, and the bar ends the
      winning list. */
  lemma BarTextReadsBack(c: Card, l: Layout, rest: string)
    requires LayoutFor(c, l) && CardValuesFit(c) && EndsList(rest)
    ensures Bar(BarText(c, l, rest)) == Some(Joined(c.have, l.haveSeps) + rest)
    ensures EndsList(BarText(c, l, rest))
    ensures ListFits(Joined(c.have, l.haveSeps) + rest, U32_LIMIT)
    ensures NumberList(Joined(c.have, l.haveSeps) + rest, U32_LIMIT) == Some((c.have, rest))
  {
    NumberListRoundTrip(c.have, l.haveSeps, rest, U32_LIMIT);
    JoinedStartsWithDigit(c.have, l.haveSeps, rest);
    BarReadsBack(l.beforeBar, l.afterBar, Joined(c.have, l.haveSeps) + rest);
  }

  /** The winning numbers read back, up to the bar. */
  lemma WinningTextReadsBack(c: Card, l: Layout, rest: string)
    requires LayoutFor(c, l) && CardValuesFit(c) && EndsList(rest)
    ensures ListFits(WinningText(c, l, rest), U32_LIMIT)
    ensures NumberList(WinningText(c, l, rest), U32_LIMIT) == Some((c.winning, BarText(c, l, rest)))
    ensures Multispace1(l.afterColon + WinningText(c, l, rest)) == Some(WinningText(c, l, rest))
  {
    var b := BarText(c, l, rest);
    BarTextReadsBack(c, l, rest);
    NumberListRoundTrip(c.winning, l.winningSeps, b, U32_LIMIT);
    WhitespaceBeforeList(c.winning, l.winningSeps, b, l.afterColon);
  }

  /** Whitespace in front of printed numbers is read by `multispace1`. */
  lemma WhitespaceBeforeList(ns: seq<nat>, seps: seq<string>, rest: string, ws: string)
    requires ns != [] && |seps| == |ns| - 1 && Whitespace(ws)
    ensures Multispace1(ws + (Joined(ns, seps) + rest)) == Some(Joined(ns, seps) + rest)
  {
    JoinedStartsWithDigit(ns, seps, rest);
    WhitespaceThen(ws, Joined(ns, seps) + rest);
  }

  /** The card prefix reads back the card number, up to the whitespace
      after ":". */
  lemma PrefixReadsBack(c: Card, l: Layout, rest: string)
    requires LayoutFor(c, l) && CardValuesFit(c)
    ensures PreFits(CardText(c, l, rest))
    ensures CardPreParser(CardText(c, l, rest)) == Some((c.id, l.afterColon + WinningText(c, l, rest)))
  {
    PrefixOf(c.id, l.afterCard, l.afterColon + WinningText(c, l, rest));
  }

  /** "Card", blanks, a printed number and ":" read as the card number. */
  lemma PrefixOf(id: nat, blanks: string, a: string)
    requires id < U32_LIMIT && Blanks(blanks)
    ensures PreFits("Card" + (blanks + (DecimalString(id) + (":" + a))))
    ensures CardPreParser("Card" + (blanks + (DecimalString(id) + (":" + a)))) == Some((id, a))
  {
    var d := DecimalString(id);
    var t := d + (":" + a);
    var s := "Card" + (blanks + t);
    assert Tag(":" + a, ":") == Some(a) by {
      assert ":" <= ":" + a && (":" + a)[1..] == a;
    }
    NumberRoundTrip(id, ":" + a, U32_LIMIT);
    assert t[0] == d[0];
    BlanksThen(blanks, t);
    assert Tag(s, "Card") == Some(blanks + t) by {
      assert "Card" <= s && s[4..] == blanks + t;
    }
  }

  /** Printing a card in any layout and parsing the line gives the card
      back, whatever follows that cannot continue the second list. */
  lemma ParseCardRoundTrip(c: Card, l: Layout, rest: string)
    requires LayoutFor(c, l) && CardValuesFit(c) && EndsList(rest)
    ensures LineFits(CardText(c, l, rest))
    ensures ParseCard(CardText(c, l, rest)) == Some(c)
  {
    var w := WinningText(c, l, rest);
    PrefixReadsBack(c, l, rest);
    WinningTextReadsBack(c, l, rest);
    BarTextReadsBack(c, l, rest);
    CardFromParts(CardText(c, l, rest), l.afterColon + w, w, BarText(c, l, rest),
      Joined(c.have, l.haveSeps) + rest, rest, c);
  }

  /** The parser succeeds, within `LineFits`, when each of its steps does. */
  lemma CardFromParts(line: string, a: string, b: string, c: string, d: string, t: string, card: Card)
    requires PreFits(line) && CardPreParser(line) == Some((card.id, a))
    requires Multispace1(a) == Some(b)
    requires ListFits(b, U32_LIMIT) && NumberList(b, U32_LIMIT) == Some((card.winning, c))
    requires Bar(c) == Some(d)
    requires ListFits(d, U32_LIMIT) && NumberList(d, U32_LIMIT) == Some((card.have, t))
    ensures LineFits(line) && ParseCard(line) == Some(card)
  {
    FitsOfParts(line, a, b, c, d, card.id, card.winning);
  }

  /** A line whose lists fit, as the steps reach them, fits. */
  lemma FitsOfParts(line: string, a: string, b: string, c: string, d: string, id: nat, winning: seq<nat>)
    requires PreFits(line) && CardPreParser(line) == Some((id, a))
    requires Multispace1(a) == Some(b)
    requires ListFits(b, U32_LIMIT) && NumberList(b, U32_LIMIT) == Some((winning, c))
    requires Bar(c) == Some(d)
    requires ListFits(d, U32_LIMIT)
    ensures LineFits(line)
  {
  }

  /** A printed card line counts the matches of the card. */
  lemma ProcessCardLine(c: Card, l: Layout, rest: string)
    requires LayoutFor(c, l) && CardValuesFit(c) && EndsList(rest)
    ensures LineFits(CardText(c, l, rest))
    ensures ProcessLine(CardText(c, l, rest)) == Matches(c)
  {
    ParseCardRoundTrip(c, l, rest);
  }

  // ---------------------------------------------------------------------
  // Part one: the score
  // ---------------------------------------------------------------------

  function Pow2(n: nat): (p: nat)
    ensures p >= 1
  {
    if n == 0 then 1 else 2 * Pow2(n - 1)
  }

  /** `2^n` grows with `n`. */
  lemma {:induction false} Pow2Grows(m: nat, n: nat)
    requires m <= n
    ensures Pow2(m) <= Pow2(n)
  {
    if m < n {
      Pow2Grows(m, n - 1);
    }
  }

  /** `2^31`, the largest power of two a `u32` holds. */
  lemma Pow2ThirtyOne()
    ensures Pow2(31) == 0x8000_0000
  {
    assert Pow2(3) == 8;
    Pow2Add(3, 3);
    assert Pow2(6) == 64;
    Pow2Add(6, 6);
    assert Pow2(12) == 4096;
    Pow2Add(12, 12);
    assert Pow2(24) == 0x100_0000;
    Pow2Add(24, 3);
    assert Pow2(27) == 0x800_0000;
    Pow2Add(27, 3);
    assert Pow2(30) == 0x4000_0000;
  }

  /** Powers of two multiply by adding exponents. */
  lemma {:induction false} Pow2Add(a: nat, b: nat)
    ensures Pow2(a + b) == Pow2(a) * Pow2(b)
  {
    if b > 0 {
      Pow2Add(a, b - 1);
      assert Pow2(a + b) == 2 * Pow2(a + b - 1);
    }
  }

  /** The score of a card with `n` matches (src/day4.rs:39,76): none for no
      match, else `2u32.pow(n - 1)`, which overflows (and panics) from 33
      matches on. */
  function Score(n: nat): (s: nat)
    requires n <= 32
    ensures s < U32_LIMIT
    ensures n == 0 <==> s == 0
  {
    if n == 0 then 0
    else
      Pow2Grows(n - 1, 31);
      Pow2ThirtyOne();
      Pow2(n - 1)
  }

  /** One match scores 1, and every further match doubles the score. */
  lemma ScoreDoubles(n: nat)
    requires 1 <= n < 32
    ensures Score(1) == 1
    ensures Score(n + 1) == 2 * Score(n)
  {
  }

  /** The part one total (src/day4.rs:39,72-79): the scores of the cards
      added up. It is zero exactly when no card matches, and each card adds
      less than 2^32. */
  function ScoreTotal(matches: seq<nat>): (t: nat)
    requires forall i :: 0 <= i < |matches| ==> matches[i] <= 32
    ensures t == 0 <==> forall i :: 0 <= i < |matches| ==> matches[i] == 0
    ensures t <= |matches| * (U32_LIMIT - 1)
  {
    if matches == [] then 0
    else ScoreTotal(matches[..|matches| - 1]) + Score(matches[|matches| - 1])
  }

  // ---------------------------------------------------------------------
  // Part two: copies of cards
  // ---------------------------------------------------------------------

  /** How many copies of card `x` there are once every card has been
      scored: the original, plus one per copy of each earlier card `idx`
      whose `results[idx]` following cards reach `x`. */
  function Copies(results: seq<nat>, x: nat): (n: nat)
    requires x < |results|
    ensures n >= 1
    decreases x, x + 1
  {
    1 + Received(results, x, x)
  }

  /** The copies card `x` receives from the cards before card `n`. */
  function Received(results: seq<nat>, x: nat, n: nat): nat
    requires n <= x < |results|
    decreases x, n
  {
    if n == 0 then 0
    else
      var idx := n - 1;
      Received(results, x, idx) + (if x < idx + 1 + results[idx] then Copies(results, idx) else 0)
  }

  /** All copies of the first `n` cards. */
  function CopiesUpTo(results: seq<nat>, n: nat): nat
    requires n <= |results|
  {
    if n == 0 then 0 else CopiesUpTo(results, n - 1) + Copies(results, n - 1)
  }

  /** The count of card `x` after the first `done` cards have been scored. */
  function CountAfter(results: seq<nat>, x: nat, done: nat): nat
    requires x < |results|
  {
    1 + Received(results, x, if done < x then done else x)
  }

  /** Scoring card `idx` adds its copies to exactly the cards it reaches. */
  lemma ScoreStep(results: seq<nat>, idx: nat, x: nat)
    requires idx < x < |results|
    ensures CountAfter(results, x, idx + 1)
      == CountAfter(results, x, idx) + (if x < idx + 1 + results[idx] then Copies(results, idx) else 0)
  {
  }

  /** `process_part2` (src/day4.rs:47-56): every card starts with one copy;
      card `idx`, in order, adds its count to each of the next
      `results[idx]` cards that exist; the result is the number of cards.
      An empty list underflows `results.len() - 1` and panics. */
  method ProcessPart2(results: seq<nat>) returns (total: nat)
    requires |results| >= 1
    ensures total == CopiesUpTo(results, |results|)
  {
    var counts := new nat[|results|](_ => 1);
    for idx := 0 to |results| - 1
      invariant forall x :: 0 <= x < |results| ==> counts[x] == CountAfter(results, x, idx)
    {
      var end := if |results| < idx + 1 + results[idx] then |results| else idx + 1 + results[idx];
      assert counts[idx] == Copies(results, idx);
      for x := idx + 1 to end
        invariant forall y :: 0 <= y < |results| ==>
          counts[y] == (if idx < y < x then CountAfter(results, y, idx + 1) else CountAfter(results, y, idx))
      {
        ScoreStep(results, idx, x);
        counts[x] := counts[x] + counts[idx];
      }
      forall y | 0 <= y < |results| && !(idx < y < end)
        ensures CountAfter(results, y, idx) == CountAfter(results, y, idx + 1)
      {
        if idx < y {
          ScoreStep(results, idx, y);
        }
      }
    }
    total := 0;
    for i := 0 to counts.Length
      invariant total == CopiesUpTo(results, i)
    {
      assert counts[i] == Copies(results, i);
      total := total + counts[i];
    }
  }

  /** Every card is there at least once, so there are at least as many
      cards as there were originals. */
  lemma {:induction false} AtLeastOneEach(results: seq<nat>, n: nat)
    requires n <= |results|
    ensures CopiesUpTo(results, n) >= n
  {
    if n > 0 {
      AtLeastOneEach(results, n - 1);
    }
  }

  /** Copies only flow forward: the copies of a card depend on the results
      of the cards before it and on nothing after. */
  lemma {:induction false} CopiesFromEarlier(results: seq<nat>, more: seq<nat>, x: nat)
    requires x < |results| <= |more| && results == more[..|results|]
    ensures Copies(results, x) == Copies(more, x)
    decreases x, x + 1
  {
    ReceivedFromEarlier(results, more, x, x);
  }

  lemma {:induction false} ReceivedFromEarlier(results: seq<nat>, more: seq<nat>, x: nat, n: nat)
    requires n <= x < |results| <= |more| && results == more[..|results|]
    ensures Received(results, x, n) == Received(more, x, n)
    decreases x, n
  {
    if n > 0 {
      ReceivedFromEarlier(results, more, x, n - 1);
      CopiesFromEarlier(results, more, n - 1);
      assert results[n - 1] == more[n - 1];
    }
  }

  // ---------------------------------------------------------------------
  // The example of src/day4.rs:62-83
  // ---------------------------------------------------------------------

  /** The separator before `n` in the test lines: the numbers are right
      aligned in two columns, so a one-digit number has two blanks before it
      and any other number one. */
  function Pad(n: nat): (s: string)
    ensures Whitespace(s)
  {
    if n < 10 then "  " else " "
  }

  function ColumnSeps(ns: seq<nat>): (seps: seq<string>)
    requires ns != []
    ensures |seps| == |ns| - 1 && forall i :: 0 <= i < |seps| ==> Whitespace(seps[i])
  {
    seq(|ns| - 1, i requires 0 <= i < |ns| - 1 => Pad(ns[i + 1]))
  }

  /** The layout of the test lines of src/day4.rs:65-70: one blank after
      "Card" and before "|", and two columns for every number. */
  function ColumnLayout(c: Card): (l: Layout)
    requires c.winning != [] && c.have != []
    ensures LayoutFor(c, l)
  {
    Layout(" ", Pad(c.winning[0]), ColumnSeps(c.winning), " ", Pad(c.have[0]), ColumnSeps(c.have))
  }

  /** The cards of the test lines of src/day4.rs:65-70. */
  function ExampleCard(i: nat): (c: Card)
    requires i < 6
    ensures c.winning != [] && c.have != [] && CardValuesFit(c)
  {
    [Card(1, [41, 48, 83, 86, 17], [83, 86, 6, 31, 17, 9, 48, 53]),
     Card(2, [13, 32, 20, 16, 61], [61, 30, 68, 82, 17, 32, 24, 19]),
     Card(3, [1, 21, 53, 59, 44], [69, 82, 63, 72, 16, 21, 14, 1]),
     Card(4, [41, 92, 73, 84, 69], [59, 84, 76, 51, 58, 5, 54, 83]),
     Card(5, [87, 83, 26, 28, 32], [88, 30, 70, 12, 93, 22, 82, 36]),
     Card(6, [31, 18, 13, 56, 72], [74, 77, 10, 23, 35, 67, 36, 11])][i]
  }

  /** A number written with a leading zero reads as its value: the line
      "Card 1: 07 | 7" is a card line of card 1 with winning number 7 and
      number 7, so `ParseCardComplete` parses it to that card. */
  lemma LeadingZeroCard()
    ensures IsCardText("Card 1: 07 | 7", Card(1, [7], [7]))
  {
    LeadingZeroPre();
    LeadingZeroWinning();
    LeadingZeroBar();
    LeadingZeroHave();
    LeadingZeroGap();
    CardTextOfParts("Card 1: 07 | 7", " 07 | 7", " | 7", "7", "", Card(1, [7], [7]));
  }

  /** The parts of the leading-zero example line, one lemma each. */
  lemma LeadingZeroPre()
    ensures IsPreText("Card 1: 07 | 7", 1, " 07 | 7")
  {
    LeadingZeroBlank();
    LeadingZeroId();
  }

  lemma LeadingZeroBlank()
    ensures "Card" <= "Card 1: 07 | 7" && Space1("Card 1: 07 | 7"[4..]) == Some("1: 07 | 7")
  {
    assert "Card 1: 07 | 7"[4..] == " " + "1: 07 | 7";
    SpanOfPrefix(" ", "1: 07 | 7", IsSpace);
  }

  lemma LeadingZeroId()
    ensures Span("1: 07 | 7", DigitClass) == 1 && DecimalValue("1: 07 | 7"[..1]) == 1
    ensures "1: 07 | 7"[1..] == [':'] + " 07 | 7"
  {
    SpanOfPrefix("1", ": 07 | 7", DigitClass);
    assert "1: 07 | 7"[..1] == "1";
  }

  lemma LeadingZeroGap()
    ensures Multispace1(" 07 | 7") == Some("07 | 7")
  {
    SpanOfPrefix(" ", "07 | 7", MultispaceClass);
  }

  lemma LeadingZeroWinning()
    ensures ListText("07 | 7", [7], " | 7") && EndsList(" | 7")
  {
    SpanOfPrefix("07", " | 7", DigitClass);
    assert "07 | 7"[..2] == "07" && DecimalValue("07") == 7;
    LeadingZeroEnds();
  }

  lemma LeadingZeroEnds()
    ensures EndsList(" | 7")
  {
    SpanOfPrefix(" ", "| 7", MultispaceClass);
  }

  lemma LeadingZeroHave()
    ensures ListText("7", [7], "") && EndsList("")
  {
    SpanOfPrefix("7", "", DigitClass);
  }

  lemma LeadingZeroBar()
    ensures IsBarText(" | 7", "7")
  {
    SpanOfPrefix(" ", "| 7", MultispaceClass);
    assert " | 7"[2..] == " " + "7";
    SpanOfPrefix(" ", "7", MultispaceClass);
  }

  /** A card whose lists share exactly the values of `common`. */
  lemma MatchesOf(c: Card, common: set<nat>)
    requires forall x :: x in common <==> x in c.winning && x in c.have
    ensures Matches(c) == |common|
  {
    assert Values(c.winning) * Values(c.have) == common;
  }

  /** The test cards match 4, 2, 2, 1, 0 and 0 numbers. */
  lemma ExampleMatches(i: nat)
    requires i < 6
    ensures Matches(ExampleCard(i)) == [4, 2, 2, 1, 0, 0][i]
  {
    if i == 0 {
      ExampleMatches0();
    } else if i == 1 {
      ExampleMatches1();
    } else if i == 2 {
      ExampleMatches2();
    } else if i == 3 {
      ExampleMatches3();
    } else if i == 4 {
      ExampleMatches4();
    } else {
      ExampleMatches5();
    }
  }

  /** The shared values of each test card, one card per lemma. */
  lemma ExampleMatches0()
    ensures Matches(ExampleCard(0)) == 4
  {
    MatchesOf(ExampleCard(0), {48, 83, 86, 17});
  }

  lemma ExampleMatches1()
    ensures Matches(ExampleCard(1)) == 2
  {
    MatchesOf(ExampleCard(1), {32, 61});
  }

  lemma ExampleMatches2()
    ensures Matches(ExampleCard(2)) == 2
  {
    MatchesOf(ExampleCard(2), {1, 21});
  }

  lemma ExampleMatches3()
    ensures Matches(ExampleCard(3)) == 1
  {
    MatchesOf(ExampleCard(3), {84});
  }

  lemma ExampleMatches4()
    ensures Matches(ExampleCard(4)) == 0
  {
    MatchesOf(ExampleCard(4), {});
  }

  lemma ExampleMatches5()
    ensures Matches(ExampleCard(5)) == 0
  {
    MatchesOf(ExampleCard(5), {});
  }

  /** Each test line, printed in the layout of the test, parses to its card
      and counts 4, 2, 2, 1, 0 and 0 matches. */
  lemma ExampleLine(i: nat)
    requires i < 6
    ensures var c := ExampleCard(i);
      && LineFits(CardText(c, ColumnLayout(c), ""))
      && ProcessLine(CardText(c, ColumnLayout(c), "")) == [4, 2, 2, 1, 0, 0][i]
  {
    var c := ExampleCard(i);
    ProcessCardLine(c, ColumnLayout(c), "");
    ExampleMatches(i);
  }

  /** The example's matches score 13 in total. */
  lemma ExampleScore()
    ensures ScoreTotal([4, 2, 2, 1, 0, 0]) == 13
  {
    ScoreTotalSix(4, 2, 2, 1, 0, 0);
    assert Score(4) == 8 && Score(2) == 2 && Score(1) == 1 && Score(0) == 0;
  }

  /** The total of six cards' matches is the sum of their six scores. */
  lemma ScoreTotalSix(a: nat, b: nat, c: nat, d: nat, e: nat, f: nat)
    requires a <= 32 && b <= 32 && c <= 32 && d <= 32 && e <= 32 && f <= 32
    ensures ScoreTotal([a, b, c, d, e, f])
      == Score(a) + Score(b) + Score(c) + Score(d) + Score(e) + Score(f)
  {
    var s0: seq<nat> := [];
    ScoreTotalSnoc(s0, a);
    assert s0 + [a] == [a];
    ScoreTotalSnoc([a], b);
    assert [a] + [b] == [a, b];
    ScoreTotalSnoc([a, b], c);
    assert [a, b] + [c] == [a, b, c];
    ScoreTotalSnoc([a, b, c], d);
    assert [a, b, c] + [d] == [a, b, c, d];
    ScoreTotalSnoc([a, b, c, d], e);
    assert [a, b, c, d] + [e] == [a, b, c, d, e];
    ScoreTotalSnoc([a, b, c, d, e], f);
    assert [a, b, c, d, e] + [f] == [a, b, c, d, e, f];
  }

  lemma ScoreTotalSnoc(matches: seq<nat>, n: nat)
    requires forall i :: 0 <= i < |matches| ==> matches[i] <= 32
    requires n <= 32
    ensures ScoreTotal(matches + [n]) == ScoreTotal(matches) + Score(n)
  {
    assert (matches + [n])[..|matches|] == matches;
  }

  /** The example's matches end with 30 cards. */
  lemma ExampleCopies()
    ensures CopiesUpTo([4, 2, 2, 1, 0, 0], 6) == 30
  {
    var r := [4, 2, 2, 1, 0, 0];
    assert Copies(r, 0) == 1;
    assert Copies(r, 1) == 2;
    assert Received(r, 2, 1) == 1;
    assert Copies(r, 2) == 4;
    assert Received(r, 3, 2) == 3;
    assert Copies(r, 3) == 8;
    assert Received(r, 4, 2) == 1;
    assert Received(r, 4, 3) == 5;
    assert Copies(r, 4) == 14;
    assert Received(r, 5, 3) == 0;
    assert Copies(r, 5) == 1;
    assert CopiesUpTo(r, 6) == 30;
  }
}
