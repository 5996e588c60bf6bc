// Day 2: the parsers for game records such as
// "Game 1: 12 red, 2 green, 5 blue; 9 red, 6 green, 4 blue".
// Each parser returns what is left of the input together with what it read,
// as nom's `IResult` does, or `None` where nom reports an error.

module CubeGame {
  import opened Common

  /** `CubeColor`; its default variant (`None` in the source) is `NoColor` here. */
  datatype CubeColor = NoColor | Red | Green | Blue

  /** `Cubes`: how many cubes of one colour were shown. */
  datatype Cubes = Cubes(cnt: nat, color: CubeColor)

  /** The word that names a colour. */
  function ColorName(c: CubeColor): string
    requires c != NoColor
  {
    match c
    case Red => "red"
    case Green => "green"
    case Blue => "blue"
  }

  // ---------------------------------------------------------------------
  // color
  // ---------------------------------------------------------------------

  /** `color`: "red", "green" or "blue" at the head of the input, tried in that order. */
  function Color(input: string): (r: Option<(string, CubeColor)>)
    ensures r.Some? <==> ("red" <= input || "green" <= input || "blue" <= input)
    ensures r.Some? ==> r.value.1 != NoColor && input == ColorName(r.value.1) + r.value.0
  {
    match Tag(input, "red")
    case Some(rest) => Some((rest, Red))
    case None =>
      match Tag(input, "green")
      case Some(rest) => Some((rest, Green))
      case None =>
        match Tag(input, "blue")
        case Some(rest) => Some((rest, Blue))
        case None => None
  }

  /** No colour name is a prefix of another's text, whatever follows it. */
  lemma ColorNamesDistinct(c: CubeColor, rest: string)
    requires c != NoColor
    ensures c != Red ==> !("red" <= ColorName(c) + rest)
    ensures c != Green ==> !("green" <= ColorName(c) + rest)
  {
    var s := ColorName(c) + rest;
    assert s[0] == ColorName(c)[0];
  }

  /** `color` reads back the name of every colour. */
  lemma ColorRoundTrip(c: CubeColor, rest: string)
    requires c != NoColor
    ensures Color(ColorName(c) + rest) == Some((rest, c))
  {
    ColorNamesDistinct(c, rest);
  }

  // ---------------------------------------------------------------------
  // cube_parser
  // ---------------------------------------------------------------------

  /** Whatever digit run `cube_parser` meets after its leading blanks fits a u32,
      as `number` panics otherwise. */
  predicate CountFits(input: string) {
    Space1(input).Some? ==> LeadingValue(Space1(input).value) < U32_LIMIT
  }

  /** The text `cube_parser` accepts: a run of blanks, a run of digits that
      spells the count, another run of blanks, the colour's name, and then
      `rest`. Each run is taken whole, as `space1` and `digit1` take it. */
  predicate IsCubeText(input: string, c: Cubes, rest: string) {
    var b := Span(input, IsSpace);
    var t := input[b..];
    var n := Span(t, DigitClass);
    var g := Span(t[n..], IsSpace);
    && b > 0 && n > 0 && g > 0
    && c.cnt == DecimalValue(t[..n])
    && c.color != NoColor
    && t[n..][g..] == ColorName(c.color) + rest
  }

  /** `cube_parser`: blanks, a count, blanks, a colour. What it reads is
      exactly the text `IsCubeText` describes, so the count is the value of
      the digit run after the leading blanks. */
  function CubeParser(input: string): (r: Option<(string, Cubes)>)
    requires CountFits(input)
    ensures r.Some? ==> IsCubeText(input, r.value.1, r.value.0)
    ensures r.Some? ==>
      && Space1(input).Some?
      && r.value.1.cnt == LeadingValue(Space1(input).value) < U32_LIMIT
      && EndsWith(input, ColorName(r.value.1.color) + r.value.0)
  {
    match Space1(input)
    case None => None
    case Some(r1) =>
      match Number(r1, U32_LIMIT)
      case None => None
      case Some((cnt, r2)) =>
        match Space1(r2)
        case None => None
        case Some(r3) =>
          match Color(r3)
          case None => None
          case Some((rest, color)) =>
            CubeTextOfParts(input, r1, r2, r3, rest, Cubes(cnt, color));
            Some((rest, Cubes(cnt, color)))
  }

  /** What the four steps of `cube_parser` read is a cube text. */
  lemma CubeTextOfParts(input: string, r1: string, r2: string, r3: string, rest: string, c: Cubes)
    requires Space1(input) == Some(r1)
    requires LeadingValue(r1) < U32_LIMIT && Number(r1, U32_LIMIT) == Some((c.cnt, r2))
    requires Space1(r2) == Some(r3)
    requires Color(r3) == Some((rest, c.color))
    ensures IsCubeText(input, c, rest)
    ensures EndsWith(input, ColorName(c.color) + rest)
  {
    NumberIsSpan(r1, U32_LIMIT);
    SuffixOfSuffix(input, r1, r2, r3);
  }

  /** `t` is the tail of `s`. */
  predicate EndsWith(s: string, t: string) {
    |t| <= |s| && s[|s| - |t|..] == t
  }

  lemma SuffixOfSuffix(s: string, a: string, b: string, c: string)
    requires EndsWith(s, a) && EndsWith(a, b) && EndsWith(b, c)
    ensures EndsWith(s, c)
  {
    assert s[|s| - |c|..] == a[|a| - |c|..];
  }

  /** `cube_parser` accepts every cube text whose count fits a u32, and
      reads back its count, its colour and what follows it. */
  lemma CubeParserComplete(input: string, c: Cubes, rest: string)
    requires IsCubeText(input, c, rest) && c.cnt < U32_LIMIT
    ensures CountFits(input) && CubeParser(input) == Some((rest, c))
  {
    var b := Span(input, IsSpace);
    var t := input[b..];
    var n := Span(t, DigitClass);
    assert Space1(input) == Some(t);
    assert Number(t, U32_LIMIT) == Some((c.cnt, t[n..]));
    ColorRoundTrip(c.color, rest);
  }

  /** The text of a cube count: blanks, the count, blanks, the colour. */
  function CubeText(b1: string, n: nat, b2: string, c: CubeColor): string
    requires c != NoColor
  {
    b1 + DecimalString(n) + b2 + ColorName(c)
  }

  /** `cube_parser` reads back every printed cube count, whatever runs of
      blanks surround the count and whatever follows the colour. */
  lemma CubeRoundTrip(b1: string, n: nat, b2: string, c: CubeColor, rest: string)
    requires Blanks(b1) && Blanks(b2)
    requires n < U32_LIMIT && c != NoColor
    ensures CountFits(CubeText(b1, n, b2, c) + rest)
    ensures CubeParser(CubeText(b1, n, b2, c) + rest) == Some((rest, Cubes(n, c)))
  {
    var d, t3 := DecimalString(n), ColorName(c) + rest;
    var t2 := b2 + t3;
    assert t2[0] == b2[0];
    BlanksThenCount(b1, n, t2);
    BlanksThenColor(b2, c, rest);
    Regroup(b1, d, b2, ColorName(c), rest);
    CubeFromParts(b1 + (d + t2), d + t2, t2, t3, rest, n, c);
  }

  lemma Regroup(a: string, b: string, c: string, e: string, rest: string)
    ensures a + b + c + e + rest == a + (b + (c + (e + rest)))
  {
  }

  /** Blanks and a printed count are read by `space1` and `number`. */
  lemma BlanksThenCount(b: string, n: nat, t: string)
    requires Blanks(b) && n < U32_LIMIT
    requires t == [] || !IsDigit(t[0])
    ensures Space1(b + (DecimalString(n) + t)) == Some(DecimalString(n) + t)
    ensures LeadingValue(DecimalString(n) + t) < U32_LIMIT
    ensures Number(DecimalString(n) + t, U32_LIMIT) == Some((n, t))
  {
    var d := DecimalString(n);
    assert (d + t)[0] == d[0];
    BlanksThen(b, d + t);
    NumberRoundTrip(n, t, U32_LIMIT);
  }

  /** Blanks and a colour name are read by `space1` and `color`. */
  lemma BlanksThenColor(b: string, c: CubeColor, rest: string)
    requires Blanks(b) && c != NoColor
    ensures Space1(b + (ColorName(c) + rest)) == Some(ColorName(c) + rest)
    ensures Color(ColorName(c) + rest) == Some((rest, c))
  {
    assert (ColorName(c) + rest)[0] == ColorName(c)[0];
    BlanksThen(b, ColorName(c) + rest);
    ColorRoundTrip(c, rest);
  }

  /** `cube_parser` succeeds when each of its four steps does. */
  lemma CubeFromParts(s: string, t1: string, t2: string, t3: string, rest: string, n: nat, c: CubeColor)
    requires Space1(s) == Some(t1)
    requires LeadingValue(t1) < U32_LIMIT && Number(t1, U32_LIMIT) == Some((n, t2))
    requires Space1(t2) == Some(t3)
    requires Color(t3) == Some((rest, c))
    ensures CountFits(s) && CubeParser(s) == Some((rest, Cubes(n, c)))
  {
  }

  /** The cube of the test: " 12 red" is twelve red cubes and nothing is left. */
  lemma ExampleCube(input: string)
    requires input == " 12 red"
    ensures CountFits(input)
    ensures CubeParser(input) == Some(("", Cubes(12, Red)))
  {
    DecimalOfTwelve();
    assert input == CubeText(" ", 12, " ", Red) + "";
    CubeRoundTrip(" ", 12, " ", Red, "");
  }

  lemma DecimalOfTwelve()
    ensures DecimalString(12) == "12"
  {
    assert DecimalString(1) == "1";
  }

  // ---------------------------------------------------------------------
  // game_parser
  // ---------------------------------------------------------------------

  /** Whatever digit run `game_parser` meets after "Game" and blanks fits a u32. */
  predicate GameIdFits(input: string) {
    && Tag(input, "Game").Some?
    && Space1(Tag(input, "Game").value).Some?
    ==> LeadingValue(Space1(Tag(input, "Game").value).value) < U32_LIMIT
  }

  /** The text `game_parser` accepts: "Game", a run of blanks, a run of
      digits that spells the id, and then `rest`. */
  predicate IsGameText(input: string, id: nat, rest: string) {
    && "Game" <= input
    && var t := input[4..];
    var b := Span(t, IsSpace);
    var u := t[b..];
    var n := Span(u, DigitClass);
    && b > 0 && n > 0
    && id == DecimalValue(u[..n])
    && rest == u[n..]
  }

  /** `game_parser`: "Game", blanks, then the game's number. What it reads is
      exactly the text `IsGameText` describes, so the id is the value of the
      digit run after "Game" and its blanks. */
  function GameParser(input: string): (r: Option<(string, nat)>)
    requires GameIdFits(input)
    ensures r.Some? ==> IsGameText(input, r.value.1, r.value.0)
    ensures r.Some? ==>
      && "Game" <= input && Space1(input[4..]).Some?
      && r.value.1 == LeadingValue(Space1(input[4..]).value) < U32_LIMIT
      && EndsWith(input, r.value.0)
  {
    match Tag(input, "Game")
    case None => None
    case Some(r1) =>
      match Space1(r1)
      case None => None
      case Some(r2) =>
        match Number(r2, U32_LIMIT)
        case None => None
        case Some((id, rest)) =>
          NumberIsSpan(r2, U32_LIMIT);
          assert EndsWith(input, rest) by {
            assert EndsWith(input, r1);
            SuffixOfSuffix(input, r1, r2, rest);
          }
          Some((rest, id))
  }

  /** `game_parser` accepts every game header whose id fits a u32, and reads
      back the id and what follows it. */
  lemma GameParserComplete(input: string, id: nat, rest: string)
    requires IsGameText(input, id, rest) && id < U32_LIMIT
    ensures GameIdFits(input) && GameParser(input) == Some((rest, id))
  {
    var t := input[4..];
    var u := t[Span(t, IsSpace)..];
    assert Tag(input, "Game") == Some(t);
    assert Space1(t) == Some(u);
    assert Number(u, U32_LIMIT) == Some((id, rest));
  }

  /** `game_parser` reads back every game header, whatever run of blanks
      follows "Game", up to the first non-digit. */
  lemma GameRoundTrip(b: string, n: nat, rest: string)
    requires Blanks(b) && n < U32_LIMIT
    requires rest == [] || !IsDigit(rest[0])
    ensures GameIdFits("Game" + b + DecimalString(n) + rest)
    ensures GameParser("Game" + b + DecimalString(n) + rest) == Some((rest, n))
  {
    var d := DecimalString(n);
    var t1 := b + (d + rest);
    GameTextSplit(b, d, rest);
    BlanksThenCount(b, n, rest);
    GameFromParts("Game" + t1, t1, d + rest, rest, n);
  }

  lemma GameTextSplit(b: string, d: string, rest: string)
    ensures "Game" + b + d + rest == "Game" + (b + (d + rest))
  {
  }

  /** `game_parser` succeeds when each of its three steps does. */
  lemma GameFromParts(s: string, t1: string, t2: string, rest: string, n: nat)
    requires s == "Game" + t1
    requires Space1(t1) == Some(t2)
    requires LeadingValue(t2) < U32_LIMIT && Number(t2, U32_LIMIT) == Some((n, rest))
    ensures GameIdFits(s) && GameParser(s) == Some((rest, n))
  {
    assert Tag(s, "Game") == Some(t1);
  }

  /** The game of the test: "Game 15" is game 15. */
  lemma ExampleGame(input: string)
    requires input == "Game 15"
    ensures GameIdFits(input)
    ensures GameParser(input).Some? && GameParser(input).value.1 == 15
  {
    assert DecimalString(15) == "15" by {
      assert DecimalString(1) == "1";
    }
    assert input == "Game" + " " + DecimalString(15) + "";
    GameRoundTrip(" ", 15, "");
  }

  // ---------------------------------------------------------------------
  // groups_parser and group_parser
  // ---------------------------------------------------------------------

  /** How many characters of `s` come before its first `c` (all of them when there is none). */
  function UntilChar(s: string, c: char): (n: nat)
    ensures n <= |s|
    ensures forall i :: 0 <= i < n ==> s[i] != c
    ensures n < |s| ==> s[n] == c
  {
    if s == [] || s[0] == c then 0 else 1 + UntilChar(s[1..], c)
  }

  /** A piece as `is_not` returns it: non-empty and free of `c`. */
  predicate IsPiece(p: string, c: char) {
    p != [] && forall i :: 0 <= i < |p| ==> p[i] != c
  }

  /** nom's `is_not([c])`: the longest non-empty prefix without `c`, or failure. */
  function IsNot(s: string, c: char): (r: Option<(string, string)>)
    ensures r.Some? <==> (s != [] && s[0] != c)
    ensures r.Some? ==> IsPiece(r.value.1, c) && s == r.value.1 + r.value.0
    ensures r.Some? ==> r.value.0 == [] || r.value.0[0] == c
  {
    var n := UntilChar(s, c);
    if n == 0 then None else Some((s[n..], s[..n]))
  }

  /** The pieces joined by `c`. */
  function Join(ps: seq<string>, c: char): string {
    if ps == [] then [] else ps[0] + JoinTail(ps[1..], c)
  }

  /** Each piece preceded by `c`. */
  function JoinTail(ps: seq<string>, c: char): string {
    if ps == [] then [] else [c] + ps[0] + JoinTail(ps[1..], c)
  }

  /** Where `separated_list0` stops after a piece: at the end of the input,
      or before a `c` that no piece follows. */
  predicate StopsList(rest: string, c: char) {
    rest == [] || (rest[0] == c && (|rest| == 1 || rest[1] == c))
  }

  /** `separated_list0(tag([c]), is_not([c]))`: pieces separated by single
      `c`s. It never fails: with no piece at the front it returns no pieces
      and the whole input, and otherwise it stops where `StopsList` says. */
  function SeparatedList0(s: string, c: char): (r: (string, seq<string>))
    ensures forall i :: 0 <= i < |r.1| ==> IsPiece(r.1[i], c)
    ensures s == Join(r.1, c) + r.0
    ensures r.1 == [] <==> (s == [] || s[0] == c)
    ensures r.1 == [] ==> r.0 == s
    ensures r.1 != [] ==> StopsList(r.0, c)
  {
    match IsNot(s, c)
    case None => (s, [])
    case Some((r1, p)) =>
      var more := MorePieces(r1, c);
      FirstPiece(s, c, p, r1, more.1, more.0);
      (more.0, [p] + more.1)
  }

  /** The loop of `separated_list0` after its first piece: a separator and a
      piece, as long as both are there. */
  function MorePieces(s: string, c: char): (r: (string, seq<string>))
    requires s == [] || s[0] == c
    ensures forall i :: 0 <= i < |r.1| ==> IsPiece(r.1[i], c)
    ensures s == JoinTail(r.1, c) + r.0
    ensures StopsList(r.0, c)
    decreases |s|
  {
    if s == [] then (s, [])
    else
      match IsNot(s[1..], c)
      case None => (s, [])
      case Some((r1, p)) =>
        var more := MorePieces(r1, c);
        SeparatorAndPiece(s, c, p, r1, more.1, more.0);
        (more.0, [p] + more.1)
  }

  /** One more piece in front: how `Join` and `JoinTail` grow. */
  lemma Prepend(p: string, ps: seq<string>, c: char)
    requires IsPiece(p, c)
    requires forall i :: 0 <= i < |ps| ==> IsPiece(ps[i], c)
    ensures forall i :: 0 <= i < |[p] + ps| ==> IsPiece(([p] + ps)[i], c)
    ensures Join([p] + ps, c) == p + JoinTail(ps, c)
    ensures JoinTail([p] + ps, c) == [c] + p + JoinTail(ps, c)
  {
    assert ([p] + ps)[1..] == ps;
  }

  lemma FirstPiece(s: string, c: char, p: string, r1: string, ps: seq<string>, rest: string)
    requires s == p + r1
    requires r1 == JoinTail(ps, c) + rest
    requires IsPiece(p, c)
    requires forall i :: 0 <= i < |ps| ==> IsPiece(ps[i], c)
    ensures forall i :: 0 <= i < |[p] + ps| ==> IsPiece(([p] + ps)[i], c)
    ensures s == Join([p] + ps, c) + rest
  {
    Prepend(p, ps, c);
  }

  lemma SeparatorAndPiece(s: string, c: char, p: string, r1: string, ps: seq<string>, rest: string)
    requires s != [] && s[0] == c && s[1..] == p + r1
    requires r1 == JoinTail(ps, c) + rest
    requires IsPiece(p, c)
    requires forall i :: 0 <= i < |ps| ==> IsPiece(ps[i], c)
    ensures forall i :: 0 <= i < |[p] + ps| ==> IsPiece(([p] + ps)[i], c)
    ensures s == JoinTail([p] + ps, c) + rest
  {
    Prepend(p, ps, c);
    assert s == [c] + s[1..];
  }

  /** `groups_parser`: the ';'-separated groups of a game. It and
      `GroupParser` are the one combinator `separated_list0(tag(c),
      is_not(c))` with different separators, so both are `SeparatedList0`. */
  function GroupsParser(s: string): (r: (string, seq<string>))
    ensures forall i :: 0 <= i < |r.1| ==> IsPiece(r.1[i], ';')
    ensures s == Join(r.1, ';') + r.0
    ensures r.1 == [] <==> (s == [] || s[0] == ';')
    ensures r.1 == [] ==> r.0 == s
    ensures r.1 != [] ==> StopsList(r.0, ';')
  {
    SeparatedList0(s, ';')
  }

  /** `group_parser`: the ','-separated cube counts of a group. */
  function GroupParser(s: string): (r: (string, seq<string>))
    ensures forall i :: 0 <= i < |r.1| ==> IsPiece(r.1[i], ',')
    ensures s == Join(r.1, ',') + r.0
    ensures r.1 == [] <==> (s == [] || s[0] == ',')
    ensures r.1 == [] ==> r.0 == s
    ensures r.1 != [] ==> StopsList(r.0, ',')
  {
    SeparatedList0(s, ',')
  }

  /** `is_not` takes a whole piece and stops at the separator or the end. */
  lemma IsNotPiece(p: string, t: string, c: char)
    requires IsPiece(p, c)
    requires t == [] || t[0] == c
    ensures IsNot(p + t, c) == Some((t, p))
  {
    SpanOfPiece(p, t, c);
    assert (p + t)[..|p|] == p && (p + t)[|p|..] == t;
  }

  lemma {:induction false} SpanOfPiece(p: string, t: string, c: char)
    requires forall i :: 0 <= i < |p| ==> p[i] != c
    requires t == [] || t[0] == c
    ensures UntilChar(p + t, c) == |p|
  {
    if p == [] {
      assert p + t == t;
    } else {
      assert (p + t)[1..] == p[1..] + t;
      assert (p + t)[0] == p[0];
      SpanOfPiece(p[1..], t, c);
    }
  }

  /** Joining pieces, followed by text at which the list stops, and
      splitting again gives the pieces back and leaves that text. */
  lemma SeparatedListRoundTrip(ps: seq<string>, rest: string, c: char)
    requires forall i :: 0 <= i < |ps| ==> IsPiece(ps[i], c)
    requires StopsList(rest, c)
    ensures SeparatedList0(Join(ps, c) + rest, c) == (rest, ps)
  {
    if ps == [] {
      assert Join(ps, c) + rest == rest;
    } else {
      var tail := JoinTail(ps[1..], c);
      MorePiecesRoundTrip(ps[1..], rest, c);
      IsNotPiece(ps[0], tail + rest, c);
      assert Join(ps, c) + rest == ps[0] + (tail + rest);
      assert [ps[0]] + ps[1..] == ps;
    }
  }

  lemma {:induction false} MorePiecesRoundTrip(ps: seq<string>, rest: string, c: char)
    requires forall i :: 0 <= i < |ps| ==> IsPiece(ps[i], c)
    requires StopsList(rest, c)
    ensures JoinTail(ps, c) + rest == [] || (JoinTail(ps, c) + rest)[0] == c
    ensures MorePieces(JoinTail(ps, c) + rest, c) == (rest, ps)
  {
    if ps == [] {
      assert JoinTail(ps, c) + rest == rest;
      MorePiecesStops(rest, c);
    } else {
      MorePiecesRoundTrip(ps[1..], rest, c);
      MorePiecesCons(ps, rest, c);
    }
  }

  /** The inductive step of `MorePiecesRoundTrip`: a first piece in front of
      the later pieces is read before them. */
  lemma MorePiecesCons(ps: seq<string>, rest: string, c: char)
    requires ps != [] && IsPiece(ps[0], c)
    requires JoinTail(ps[1..], c) + rest == [] || (JoinTail(ps[1..], c) + rest)[0] == c
    requires MorePieces(JoinTail(ps[1..], c) + rest, c) == (rest, ps[1..])
    ensures JoinTail(ps, c) + rest == [] || (JoinTail(ps, c) + rest)[0] == c
    ensures MorePieces(JoinTail(ps, c) + rest, c) == (rest, ps)
  {
    var tail := JoinTail(ps[1..], c);
    assert JoinTail(ps, c) + rest == [c] + (ps[0] + (tail + rest));
    MorePiecesStep(ps[0], tail + rest, c);
    HeadThenTail(ps);
  }

  /** The loop reads nothing from text at which the list stops. */
  lemma MorePiecesStops(rest: string, c: char)
    requires StopsList(rest, c)
    ensures MorePieces(rest, c) == (rest, [])
  {
  }

  /** One separator-and-piece step of the loop, before text at which the
      piece ends. */
  lemma MorePiecesStep(p: string, t: string, c: char)
    requires IsPiece(p, c)
    requires t == [] || t[0] == c
    ensures MorePieces([c] + (p + t), c) == (MorePieces(t, c).0, [p] + MorePieces(t, c).1)
  {
    IsNotPiece(p, t, c);
    assert ([c] + (p + t))[1..] == p + t;
  }

  /** A group that does not start with ',' yields at least one cube text. */
  lemma GroupHasCube(g: string)
    requires g != [] && g[0] != ','
    ensures |GroupParser(g).1| >= 1
  {
  }

  /** The game of the test, after its "Game 1:" header: the four groups as
      `groups_parser` splits them. */
  const SampleGroups: seq<string> := [
    " 12 red, 2 green, 5 blue",
    " 9 red, 6 green, 4 blue",
    " 10 red, 2 green, 5 blue",
    " 8 blue, 9 red"
  ]

  /** Every group of the sample game yields at least one cube text. */
  lemma ExampleGroups(input: string)
    requires input == Join(SampleGroups, ';')
    ensures GroupsParser(input) == ([], SampleGroups)
    ensures forall i :: 0 <= i < |SampleGroups| ==> |GroupParser(SampleGroups[i]).1| >= 1
  {
    SampleGroupsArePieces();
    SeparatedListRoundTrip(SampleGroups, [], ';');
    assert Join(SampleGroups, ';') + [] == input;
    GroupsHaveCubes(SampleGroups);
  }

  /** The groups stop before ";;": nom backtracks over a ';' that no group follows. */
  lemma GroupsStopAtDouble()
    ensures GroupsParser("a;;b") == (";;b", ["a"])
  {
    var ps := ["a"];
    assert IsPiece(ps[0], ';');
    SeparatedListRoundTrip(ps, ";;b", ';');
    assert Join(ps, ';') == "a" by {
      assert ps[1..] == [];
    }
    assert "a" + ";;b" == "a;;b";
  }

  /** The groups stop before a trailing ';'. */
  lemma GroupsStopAtTrailing()
    ensures GroupsParser("a;b;") == (";", ["a", "b"])
  {
    var ps := ["a", "b"];
    assert IsPiece(ps[0], ';') && IsPiece(ps[1], ';');
    SeparatedListRoundTrip(ps, ";", ';');
    JoinTwo();
  }

  /** "a" and "b" joined by ';' and followed by ';' are "a;b;". */
  lemma JoinTwo()
    ensures Join(["a", "b"], ';') + ";" == "a;b;"
  {
    var ps := ["a", "b"];
    var tail := ["b"];
    assert ps[1..] == tail && tail[1..] == [];
    assert JoinTail(tail, ';') == ";b";
    assert Join(ps, ';') == "a" + ";b";
  }

  /** The sample's groups hold no ';' and each starts with a blank. */
  lemma SampleGroupsArePieces()
    ensures forall i :: 0 <= i < |SampleGroups| ==> IsPiece(SampleGroups[i], ';') && SampleGroups[i][0] == ' '
  {
    assert IsPiece(SampleGroups[0], ';');
    assert IsPiece(SampleGroups[1], ';');
    assert IsPiece(SampleGroups[2], ';');
    assert IsPiece(SampleGroups[3], ';');
  }

  /** Groups that start with a blank each yield a cube text. */
  lemma GroupsHaveCubes(gs: seq<string>)
    requires forall i :: 0 <= i < |gs| ==> gs[i] != [] && gs[i][0] == ' '
    ensures forall i :: 0 <= i < |gs| ==> |GroupParser(gs[i]).1| >= 1
  {
    forall i | 0 <= i < |gs|
      ensures |GroupParser(gs[i]).1| >= 1
    {
      GroupHasCube(gs[i]);
    }
  }
}
