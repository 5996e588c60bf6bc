/** Camel Cards (src/day7.rs): the card kinds, hands of five cards ranked
    first by their type and then card by card, the joker rule of part two,
    the parsers of hands and of hand-bid lines, and the total winnings. */
module CamelCards {
  import opened Common

  // ---------------------------------------------------------------------
  // Card kinds
  // ---------------------------------------------------------------------

  /** `Kind` (src/day7.rs:8-24). `SX` is the joker of part two, which the
      input spells `X` once every `J` has been replaced. The derived order
      is the order of declaration. */
  datatype Kind = SX | S2 | S3 | S4 | S5 | S6 | S7 | S8 | S9 | ST | SJ | SQ | SK | SA

  /** Every kind, in declaration order. */
  const AllKinds: seq<Kind> := [SX, S2, S3, S4, S5, S6, S7, S8, S9, ST, SJ, SQ, SK, SA]

  /** The position of a kind in the declaration, which is what the derived
      `Ord` compares. */
  function Rank(k: Kind): (r: nat)
    ensures r < |AllKinds| && AllKinds[r] == k
  {
    match k
    case SX => 0
    case S2 => 1
    case S3 => 2
    case S4 => 3
    case S5 => 4
    case S6 => 5
    case S7 => 6
    case S8 => 7
    case S9 => 8
    case ST => 9
    case SJ => 10
    case SQ => 11
    case SK => 12
    case SA => 13
  }

  /** The fourteen characters that spell a card. */
  predicate IsCardChar(c: char) {
    c in {'X', '2', '3', '4', '5', '6', '7', '8', '9', 'T', 'J', 'Q', 'K', 'A'}
  }

  /** The character that spells a kind. */
  function CharOf(k: Kind): (c: char)
    ensures IsCardChar(c) && !IsWhitespace(c)
  {
    match k
    case SX => 'X'
    case S2 => '2'
    case S3 => '3'
    case S4 => '4'
    case S5 => '5'
    case S6 => '6'
    case S7 => '7'
    case S8 => '8'
    case S9 => '9'
    case ST => 'T'
    case SJ => 'J'
    case SQ => 'Q'
    case SK => 'K'
    case SA => 'A'
  }

  /** `Kind::from` (src/day7.rs:26-45): the fourteen card characters and
      nothing else; any other character is an `InputValueError`. */
  function KindFrom(c: char): (r: Result<Kind, AoCError>)
    ensures r.Ok? <==> IsCardChar(c)
    ensures r.Ok? ==> CharOf(r.value) == c
    ensures r.Err? ==> r.error == InputValueError
  {
    match c
    case 'X' => Ok(SX)
    case '2' => Ok(S2)
    case '3' => Ok(S3)
    case '4' => Ok(S4)
    case '5' => Ok(S5)
    case '6' => Ok(S6)
    case '7' => Ok(S7)
    case '8' => Ok(S8)
    case '9' => Ok(S9)
    case 'T' => Ok(ST)
    case 'J' => Ok(SJ)
    case 'Q' => Ok(SQ)
    case 'K' => Ok(SK)
    case 'A' => Ok(SA)
    case _ => Err(InputValueError)
  }

  /** Reading back the character of a kind gives that kind. */
  lemma KindRoundTrip(k: Kind)
    ensures KindFrom(CharOf(k)) == Ok(k)
  {
    match k
    case SX =>
    case S2 =>
    case S3 =>
    case S4 =>
    case S5 =>
    case S6 =>
    case S7 =>
    case S8 =>
    case S9 =>
    case ST =>
    case SJ =>
    case SQ =>
    case SK =>
    case SA =>
  }

  // ---------------------------------------------------------------------
  // Hand types
  // ---------------------------------------------------------------------

  /** `HandType` (src/day7.rs:47-56), weakest first. */
  datatype HandType = HighCard | OnePair | TwoPair | ThreeOfAKind | FullHouse | FourOfAKind | FiveOfAKind

  /** The position of a type in the declaration: what the derived `Ord` compares. */
  function TypeRank(t: HandType): (r: nat)
    ensures r < 7
  {
    match t
    case HighCard => 0
    case OnePair => 1
    case TwoPair => 2
    case ThreeOfAKind => 3
    case FullHouse => 4
    case FourOfAKind => 5
    case FiveOfAKind => 6
  }

  // ---------------------------------------------------------------------
  // Counting the kinds of a hand
  // ---------------------------------------------------------------------

  /** The fold of `Hand::new` (src/day7.rs:81-85): every kind of `cards`
      mapped to how many of the cards have it. */
  function Counts(cards: seq<Kind>): map<Kind, nat> {
    if cards == [] then map[]
    else
      var m := Counts(cards[..|cards| - 1]);
      var k := cards[|cards| - 1];
      m[k := (if k in m then m[k] else 0) + 1]
  }

  /** The counts hold exactly the kinds of the hand, each with its
      multiplicity. */
  lemma {:induction false} CountsAreMultiplicities(cards: seq<Kind>)
    ensures forall k :: k in Counts(cards) <==> k in cards
    ensures forall k :: k in Counts(cards) ==> Counts(cards)[k] == multiset(cards)[k]
  {
    if cards != [] {
      var init := cards[..|cards| - 1];
      CountsAreMultiplicities(init);
      assert cards == init + [cards[|cards| - 1]];
    }
  }

  /** `Hand::new`'s counting loop. */
  method CountKinds(cards: seq<Kind>) returns (suits: map<Kind, nat>)
    ensures suits == Counts(cards)
  {
    suits := map[];
    for i := 0 to |cards|
      invariant suits == Counts(cards[..i])
    {
      var k := cards[i];
      assert cards[..i + 1][..i] == cards[..i];
      var counter := if k in suits then suits[k] else 0;
      suits := suits[k := counter + 1];
    }
    assert cards[..|cards|] == cards;
  }

  /** The count of `k` in `m`, zero for a kind that is not a key. */
  function CountOf(m: map<Kind, nat>, k: Kind): nat {
    if k in m then m[k] else 0
  }

  /** The counts of the first `n` kinds, in declaration order, added up. */
  function SumUpTo(m: map<Kind, nat>, n: nat): nat
    requires n <= |AllKinds|
  {
    if n == 0 then 0 else SumUpTo(m, n - 1) + CountOf(m, AllKinds[n - 1])
  }

  /** The number of cards the counts `m` stand for. */
  function Total(m: map<Kind, nat>): nat {
    SumUpTo(m, |AllKinds|)
  }

  /** Each kind has one place in the declaration. */
  lemma RankOfKind(i: nat)
    requires i < |AllKinds|
    ensures Rank(AllKinds[i]) == i
  {
  }

  /** Leaving a key out of the sum takes away its count, once it is among
      the kinds added. */
  lemma {:induction false} SumUpToRemove(m: map<Kind, nat>, y: Kind, n: nat)
    requires n <= |AllKinds|
    ensures SumUpTo(m, n) == SumUpTo(m - {y}, n) + (if Rank(y) < n then CountOf(m, y) else 0)
  {
    if n > 0 {
      SumUpToRemove(m, y, n - 1);
      RankOfKind(n - 1);
      var k := AllKinds[n - 1];
      if k == y {
        assert CountOf(m - {y}, k) == 0;
      } else {
        assert CountOf(m - {y}, k) == CountOf(m, k);
      }
    }
  }

  /** No counts, no cards. */
  lemma {:induction false} SumUpToEmpty(n: nat)
    requires n <= |AllKinds|
    ensures SumUpTo(map[], n) == 0
  {
    if n > 0 {
      SumUpToEmpty(n - 1);
    }
  }

  lemma TotalRemove(m: map<Kind, nat>, y: Kind)
    requires y in m
    ensures Total(m) == m[y] + Total(m - {y})
  {
    SumUpToRemove(m, y, |AllKinds|);
  }

  /** Setting the count of `k` to `v` changes the total by the difference. */
  lemma TotalUpdate(m: map<Kind, nat>, k: Kind, v: nat)
    ensures Total(m[k := v]) + (if k in m then m[k] else 0) == Total(m) + v
  {
    TotalRemove(m[k := v], k);
    if k in m {
      TotalRemove(m, k);
      assert m[k := v] - {k} == m - {k};
    } else {
      assert m[k := v] - {k} == m;
    }
  }

  /** The counts of a hand add up to its number of cards. */
  lemma {:induction false} CountsTotal(cards: seq<Kind>)
    ensures Total(Counts(cards)) == |cards|
    ensures |Counts(cards)| <= |cards|
    ensures forall k :: k in Counts(cards) ==> Counts(cards)[k] >= 1
  {
    if cards != [] {
      var init := cards[..|cards| - 1];
      CountsTotal(init);
      var m := Counts(init);
      var k := cards[|cards| - 1];
      var n := (if k in m then m[k] else 0) + 1;
      TotalUpdate(m, k, n);
      assert Counts(cards) == m[k := n];
      assert m[k := n].Keys == m.Keys + {k};
    } else {
      SumUpToEmpty(|AllKinds|);
    }
  }

  /** Removing a key leaves one key fewer. */
  lemma RemoveOne(m: map<Kind, nat>, k: Kind)
    requires k in m
    ensures |m - {k}| == |m| - 1
  {
    assert (m - {k}).Keys == m.Keys - {k};
  }

  /** With every count at least 1, one count plus one for each other kind
      is at most the total. */
  lemma {:induction false} TotalAtLeast(m: map<Kind, nat>, a: Kind)
    requires a in m && forall k :: k in m ==> m[k] >= 1
    ensures m[a] + |m| - 1 <= Total(m)
    decreases |m|
  {
    TotalRemove(m, a);
    RemoveOne(m, a);
    var rest := m - {a};
    if rest != map[] {
      var b :| b in rest;
      TotalAtLeast(rest, b);
    }
  }

  /** `n` times `b`, by repeated addition (which keeps the arithmetic
      of the proofs below linear). */
  function Times(n: nat, b: nat): nat {
    if n == 0 then 0 else Times(n - 1, b) + b
  }

  /** With every count at most `bound`, the total is at most `bound` per kind. */
  lemma {:induction false} TotalAtMost(m: map<Kind, nat>, bound: nat)
    requires forall k :: k in m ==> m[k] <= bound
    ensures Total(m) <= Times(|m|, bound)
    decreases |m|
  {
    if m == map[] {
      SumUpToEmpty(|AllKinds|);
    } else {
      var a :| a in m;
      TotalRemove(m, a);
      RemoveOne(m, a);
      TotalAtMost(m - {a}, bound);
    }
  }

  // ---------------------------------------------------------------------
  // Jokers
  // ---------------------------------------------------------------------

  /** The kind `max_by` settles on among the kinds of `AllKinds[..n]` that
      are keys of `m` (src/day7.rs:72): one with the largest count, and among
      equal counts the last one met. The map's iteration order is taken to be
      declaration order. */
  function BestUpTo(m: map<Kind, nat>, n: nat): Option<Kind>
    requires n <= |AllKinds|
  {
    if n == 0 then None
    else
      var b := BestUpTo(m, n - 1);
      var k := AllKinds[n - 1];
      if k in m && (b.None? || b.value !in m || m[b.value] <= m[k]) then Some(k) else b
  }

  /** Among the first `n` kinds, the search finds one of largest count, and
      finds none only when none of them is counted. */
  lemma {:induction false} BestUpToIsLargest(m: map<Kind, nat>, n: nat)
    requires n <= |AllKinds|
    ensures BestUpTo(m, n).Some? ==> BestUpTo(m, n).value in m && Rank(BestUpTo(m, n).value) < n
    ensures BestUpTo(m, n).Some? ==> forall k :: k in m && Rank(k) < n ==> m[k] <= m[BestUpTo(m, n).value]
    ensures BestUpTo(m, n).None? <==> forall k :: k in m ==> n <= Rank(k)
  {
    if n > 0 {
      BestUpToIsLargest(m, n - 1);
      RankOfKind(n - 1);
    }
  }

  /** Some kind other than the joker is counted. */
  predicate HasNonJoker(m: map<Kind, nat>) {
    exists k :: k in m && k != SX
  }

  /** `handle_jokers` panics when some jokers but no other kind remain. */
  predicate CanFoldJokers(m: map<Kind, nat>) {
    SX in m && m[SX] != 5 ==> HasNonJoker(m)
  }

  /** A kind other than the joker whose count no other such kind exceeds. */
  predicate IsLargestNonJoker(m: map<Kind, nat>, t: Kind) {
    t in m && t != SX && forall k :: k in m && k != SX ==> m[k] <= m[t]
  }

  /** The kind `max_by` picks once the jokers are removed. */
  function LargestNonJoker(m: map<Kind, nat>): (t: Kind)
    requires HasNonJoker(m)
    ensures IsLargestNonJoker(m, t)
  {
    var rest := m - {SX};
    var k :| k in m && k != SX;
    assert k in rest;
    BestUpToIsLargest(rest, |AllKinds|);
    var t := BestUpTo(rest, |AllKinds|).value;
    assert forall k :: k in m && k != SX ==> k in rest && Rank(k) < |AllKinds|;
    t
  }

  /** The jokers removed and their number added to the count of `t`. */
  function FoldOnto(m: map<Kind, nat>, t: Kind): map<Kind, nat>
    requires SX in m && t in m && t != SX
  {
    (m - {SX})[t := m[t] + m[SX]]
  }

  /** `Hand::handle_jokers` (src/day7.rs:66-78): unless the hand is five
      jokers, the jokers are removed and their number added to a kind of
      largest count. The number of cards and every other kind are kept, and
      the joker kind is gone unless the hand is five jokers. */
  function Jokers(m: map<Kind, nat>): (r: map<Kind, nat>)
    requires CanFoldJokers(m)
    ensures Total(r) == Total(m)
    ensures SX in r <==> SX in m && m[SX] == 5
    ensures forall k :: k != SX ==> (k in r <==> k in m)
    ensures |r| == if SX in m && m[SX] != 5 then |m| - 1 else |m|
    ensures (forall k :: k in m ==> m[k] >= 1) ==> forall k :: k in r ==> r[k] >= 1
  {
    if SX !in m then m
    else if m[SX] == 5 then FiveJokersStay(m); (m - {SX})[SX := 5]
    else FoldOntoKeepsCards(m, LargestNonJoker(m)); FoldOnto(m, LargestNonJoker(m))
  }

  /** The search of `max_by` (src/day7.rs:72) as a loop over the kinds in
      declaration order: a kind of largest count, the last such one. */
  method MaxCountKind(m: map<Kind, nat>) returns (best: Option<Kind>)
    ensures best == BestUpTo(m, |AllKinds|)
  {
    best := None;
    for i := 0 to |AllKinds|
      invariant best == BestUpTo(m, i)
    {
      var k := AllKinds[i];
      if k in m && (best.None? || best.value !in m || m[best.value] <= m[k]) {
        best := Some(k);
      }
    }
  }

  /** `Hand::handle_jokers`. */
  method HandleJokers(suits: map<Kind, nat>) returns (r: map<Kind, nat>)
    requires CanFoldJokers(suits)
    ensures r == Jokers(suits)
  {
    var removed := if SX in suits then Some(suits[SX]) else None;
    r := suits - {SX};
    match removed
    case Some(cnt) =>
      if cnt == 5 {
        r := r[SX := 5];
      } else {
        var best := MaxCountKind(r);
        assert HasNonJoker(suits);
        var k :| k in suits && k != SX;
        assert k in r;
        assert best == BestUpTo(suits - {SX}, |AllKinds|);
        BestUpToIsLargest(r, |AllKinds|);
        assert best.value == LargestNonJoker(suits);
        r := r[best.value := r[best.value] + cnt];
        assert r == FoldOnto(suits, best.value);
      }
    case None =>
      assert r == suits;
  }

  /** Folding the jokers onto `t` keeps the number of cards and every kind
      but the joker, and changes only the count of `t`. */
  lemma FoldOntoKeepsCards(m: map<Kind, nat>, t: Kind)
    requires SX in m && t in m && t != SX
    ensures Total(FoldOnto(m, t)) == Total(m)
    ensures FoldOnto(m, t).Keys == m.Keys - {SX}
    ensures |FoldOnto(m, t)| == |m| - 1
    ensures FoldOnto(m, t)[t] == m[t] + m[SX]
    ensures forall k :: k in FoldOnto(m, t) && k != t ==> FoldOnto(m, t)[k] == m[k]
  {
    var rest := m - {SX};
    TotalRemove(m, SX);
    TotalUpdate(rest, t, m[t] + m[SX]);
    RemoveOne(m, SX);
  }

  /** Five jokers come out of `handle_jokers` as they went in. */
  lemma FiveJokersStay(m: map<Kind, nat>)
    requires SX in m && m[SX] == 5
    ensures (m - {SX})[SX := 5] == m
  {
  }

  // ---------------------------------------------------------------------
  // Classifying a hand
  // ---------------------------------------------------------------------

  /** `Hand::get_type` (src/day7.rs:91-104) on the counts of a hand: the
      type follows from the number of kinds, and for three or two kinds
      from whether some count is 3 or 4. Any other number of kinds panics. */
  function GetType(suits: map<Kind, nat>): (t: HandType)
    requires 1 <= |suits| <= 5
    ensures t == FiveOfAKind <==> |suits| == 1
    ensures t in {FourOfAKind, FullHouse} <==> |suits| == 2
    ensures t in {ThreeOfAKind, TwoPair} <==> |suits| == 3
    ensures t == OnePair <==> |suits| == 4
    ensures t == HighCard <==> |suits| == 5
  {
    if |suits| == 5 then HighCard
    else if |suits| == 4 then OnePair
    else if |suits| == 3 then
      if exists k :: k in suits && suits[k] == 3 then ThreeOfAKind else TwoPair
    else if |suits| == 2 then
      if exists k :: k in suits && suits[k] == 4 then FourOfAKind else FullHouse
    else FiveOfAKind
  }

  /** The rule of Camel Cards stated directly: the type of a hand by the
      size of its largest group of equal kinds and its number of groups. */
  function TypeByGroups(groups: nat, largest: nat): HandType {
    if largest >= 5 then FiveOfAKind
    else if largest == 4 then FourOfAKind
    else if largest == 3 then (if groups == 2 then FullHouse else ThreeOfAKind)
    else if largest == 2 then (if groups == 3 then TwoPair else OnePair)
    else HighCard
  }

  /** `largest` is the largest count of `m`. */
  predicate IsLargest(m: map<Kind, nat>, largest: nat) {
    (exists k :: k in m && m[k] == largest) && forall k :: k in m ==> m[k] <= largest
  }

  /** The counts of five cards, every kind present at least once. */
  predicate FiveCards(m: map<Kind, nat>) {
    Total(m) == 5 && forall k :: k in m ==> m[k] >= 1
  }

  /** Five cards fall into one to five kinds. */
  lemma FiveCardsKinds(m: map<Kind, nat>)
    requires FiveCards(m)
    ensures 1 <= |m| <= 5
  {
    SumUpToEmpty(|AllKinds|);
    assert m != map[];
    var a :| a in m;
    TotalAtLeast(m, a);
  }

  /** `get_type` classifies the counts of five cards as the rule of the game
      does: its case analysis on the number of kinds never goes wrong. */
  lemma TypeIsByGroups(m: map<Kind, nat>, largest: nat)
    requires FiveCards(m) && IsLargest(m, largest)
    ensures 1 <= |m| <= 5
    ensures GetType(m) == TypeByGroups(|m|, largest)
  {
    FiveCardsKinds(m);
    var a :| a in m && m[a] == largest;
    TotalAtLeast(m, a);
    TotalAtMost(m, largest);
    if |m| == 3 && !(exists k :: k in m && m[k] == 3) {
      assert largest != 3;
    }
    if |m| == 2 && !(exists k :: k in m && m[k] == 4) {
      assert largest != 4;
    }
  }

  /** Folding the jokers of five cards onto a largest kind leaves five
      cards, one kind fewer, and a largest group of that kind's count plus
      the jokers. */
  lemma FoldOntoLargest(m: map<Kind, nat>, t: Kind)
    requires FiveCards(m) && SX in m && IsLargestNonJoker(m, t)
    ensures FiveCards(FoldOnto(m, t)) && |FoldOnto(m, t)| == |m| - 1
    ensures IsLargest(FoldOnto(m, t), m[t] + m[SX])
  {
    FoldOntoKeepsCards(m, t);
  }

  /** Folding the jokers of five cards onto a largest kind gives the type
      of a largest group of that kind's count plus the jokers. */
  lemma FoldOntoType(m: map<Kind, nat>, t: Kind)
    requires FiveCards(m) && SX in m && IsLargestNonJoker(m, t)
    ensures 1 <= |FoldOnto(m, t)| <= 5
    ensures GetType(FoldOnto(m, t)) == TypeByGroups(|m| - 1, m[t] + m[SX])
  {
    FoldOntoLargest(m, t);
    TypeIsByGroups(FoldOnto(m, t), m[t] + m[SX]);
  }

  /** The type of a hand with jokers does not depend on which kind of
      largest count the jokers join, so the iteration order of the map
      (src/day7.rs:72) cannot change a hand's rank. */
  lemma JokerChoiceIrrelevant(m: map<Kind, nat>, t: Kind)
    requires FiveCards(m) && SX in m && m[SX] != 5 && IsLargestNonJoker(m, t)
    ensures CanFoldJokers(m)
    ensures 1 <= |FoldOnto(m, t)| <= 5 && 1 <= |Jokers(m)| <= 5
    ensures GetType(FoldOnto(m, t)) == GetType(Jokers(m))
  {
    assert HasNonJoker(m);
    var best := LargestNonJoker(m);
    assert m[best] == m[t];
    FoldOntoType(m, t);
    FoldOntoType(m, best);
  }

  // ---------------------------------------------------------------------
  // Hands
  // ---------------------------------------------------------------------

  /** `Hand` (src/day7.rs:58-61): the five cards in order and the counts of
      their kinds, jokers folded. */
  datatype Hand = Hand(cards: seq<Kind>, suits: map<Kind, nat>)

  /** A hand whose type can be asked for without a panic. */
  type ValidHand = h: Hand | |h.cards| == 5 && 1 <= |h.suits| <= 5
    witness Hand([SA, SA, SA, SA, SA], map[SA := 5])

  /** `Hand::new` (src/day7.rs:80-89): the first five cards are kept, all
      cards are counted, and the jokers are folded. Fewer than five cards
      panic on the indexing; so does folding when no kind but jokers remains. */
  function MakeHand(cards: seq<Kind>): (h: Hand)
    requires |cards| >= 5 && CanFoldJokers(Counts(cards))
    ensures |h.cards| == 5 && h.cards <= cards
    ensures Total(h.suits) == |cards|
  {
    CountsTotal(cards);
    Hand(cards[..5], Jokers(Counts(cards)))
  }

  method NewHand(cards: seq<Kind>) returns (h: Hand)
    requires |cards| >= 5 && CanFoldJokers(Counts(cards))
    ensures h == MakeHand(cards)
  {
    var suits := CountKinds(cards);
    var folded := HandleJokers(suits);
    h := Hand([cards[0], cards[1], cards[2], cards[3], cards[4]], folded);
  }

  /** From five cards `Hand::new` never panics, the counts it keeps stand
      for five cards, and `get_type` never reaches its panic. */
  lemma FiveCardHand(cards: seq<Kind>)
    requires |cards| == 5
    ensures CanFoldJokers(Counts(cards))
    ensures FiveCards(MakeHand(cards).suits)
    ensures 1 <= |MakeHand(cards).suits| <= 5
  {
    var m := Counts(cards);
    CountsTotal(cards);
    if SX in m && m[SX] != 5 {
      TotalRemove(m, SX);
      var rest := m - {SX};
      SumUpToEmpty(|AllKinds|);
      assert rest != map[];
      var k :| k in rest;
    }
    FiveCardsKinds(Jokers(m));
  }

  /** `Hand::get_type`. */
  function HandTypeOf(h: ValidHand): HandType {
    GetType(h.suits)
  }

  /** Rust's comparison of two `[Kind; 5]` arrays: the first differing card
      decides. */
  function CardsCmp(a: seq<Kind>, b: seq<Kind>): (o: Ordering)
    requires |a| == |b|
    ensures o == Equal <==> a == b
  {
    if a == [] then Equal
    else if Rank(a[0]) < Rank(b[0]) then Less
    else if Rank(a[0]) > Rank(b[0]) then Greater
    else
      assert AllKinds[Rank(a[0])] == a[0] && AllKinds[Rank(b[0])] == b[0];
      assert a == [a[0]] + a[1..] && b == [b[0]] + b[1..];
      CardsCmp(a[1..], b[1..])
  }

  /** `Ord for Hand` (src/day7.rs:107-114): type first, then the cards. */
  function HandCmp(a: ValidHand, b: ValidHand): (o: Ordering)
    ensures o == Equal <==> HandEq(a, b)
  {
    var ta := TypeRank(HandTypeOf(a));
    var tb := TypeRank(HandTypeOf(b));
    TypeRankInjective(HandTypeOf(a), HandTypeOf(b));
    if ta < tb then Less
    else if ta > tb then Greater
    else CardsCmp(a.cards, b.cards)
  }

  /** `PartialEq for Hand` (src/day7.rs:116-120): every hand equals itself,
      and equal hands have the same cards and the same type. */
  function HandEq(a: ValidHand, b: ValidHand): (eq: bool)
    ensures a == b ==> eq
    ensures eq ==> a.cards == b.cards && GetType(a.suits) == GetType(b.suits)
  {
    HandTypeOf(a) == HandTypeOf(b) && a.cards == b.cards
  }

  function Flip(o: Ordering): Ordering {
    match o
    case Less => Greater
    case Equal => Equal
    case Greater => Less
  }

  lemma TypeRankInjective(s: HandType, t: HandType)
    ensures TypeRank(s) == TypeRank(t) <==> s == t
  {
  }

  /** Swapping the card sequences flips their comparison. */
  lemma {:induction false} CardsCmpAntisymmetric(a: seq<Kind>, b: seq<Kind>)
    requires |a| == |b|
    ensures CardsCmp(b, a) == Flip(CardsCmp(a, b))
  {
    if a != [] {
      CardsCmpAntisymmetric(a[1..], b[1..]);
    }
  }

  lemma {:induction false} CardsCmpTransitive(a: seq<Kind>, b: seq<Kind>, c: seq<Kind>)
    requires |a| == |b| == |c|
    requires CardsCmp(a, b) != Greater && CardsCmp(b, c) != Greater
    ensures CardsCmp(a, c) != Greater
  {
    if a != [] && Rank(a[0]) == Rank(b[0]) == Rank(c[0]) {
      CardsCmpTransitive(a[1..], b[1..], c[1..]);
    }
  }

  /** Swapping the hands flips the order. */
  lemma HandCmpConsistent(a: ValidHand, b: ValidHand)
    ensures HandCmp(b, a) == Flip(HandCmp(a, b))
  {
    CardsCmpAntisymmetric(a.cards, b.cards);
    TypeRankInjective(HandTypeOf(a), HandTypeOf(b));
  }

  /** The order is transitive. */
  lemma HandCmpTransitive(a: ValidHand, b: ValidHand, c: ValidHand)
    requires HandCmp(a, b) != Greater && HandCmp(b, c) != Greater
    ensures HandCmp(a, c) != Greater
  {
    if TypeRank(HandTypeOf(a)) == TypeRank(HandTypeOf(b)) == TypeRank(HandTypeOf(c)) {
      CardsCmpTransitive(a.cards, b.cards, c.cards);
    }
  }

  // ---------------------------------------------------------------------
  // Parsing
  // ---------------------------------------------------------------------

  /** `s.chars().map(Kind::from).collect()`: the kinds of the characters,
      or the error of the first character that is not a card. */
  function KindsOf(s: string): (r: Result<seq<Kind>, AoCError>)
    ensures r.Ok? <==> forall i :: 0 <= i < |s| ==> IsCardChar(s[i])
    ensures r.Ok? ==> |r.value| == |s| && forall i :: 0 <= i < |s| ==> CharOf(r.value[i]) == s[i]
    ensures r.Err? ==> r.error == InputValueError
  {
    if s == [] then Ok([])
    else
      match KindFrom(s[0])
      case Err(e) => Err(e)
      case Ok(k) =>
        match KindsOf(s[1..])
        case Err(e) => Err(e)
        case Ok(ks) => Ok([k] + ks)
  }

  /** The characters of some cards. */
  function HandString(cards: seq<Kind>): (s: string)
    ensures |s| == |cards|
  {
    seq(|cards|, i requires 0 <= i < |cards| => CharOf(cards[i]))
  }

  /** `FromStr for Hand` (src/day7.rs:130-141): exactly five characters
      (an `InputFormatError` otherwise), each of them a card. */
  function ParseHand(s: string): (r: Result<ValidHand, AoCError>)
    ensures |s| != 5 ==> r == Err(InputFormatError)
    ensures |s| == 5 ==> (r.Ok? <==> forall i :: 0 <= i < |s| ==> IsCardChar(s[i]))
    ensures r.Err? && |s| == 5 ==> r.error == InputValueError
    ensures r.Ok? ==> HandString(r.value.cards) == s && CanFoldJokers(Counts(r.value.cards))
    ensures r.Ok? ==> r.value.suits == Jokers(Counts(r.value.cards))
  {
    if |s| != 5 then Err(InputFormatError)
    else
      match KindsOf(s)
      case Err(e) => Err(e)
      case Ok(cards) =>
        FiveCardHand(cards);
        assert cards[..5] == cards;
        var hand: ValidHand := MakeHand(cards);
        Ok(hand)
  }

  /** Reading back the characters of some cards gives those cards. */
  lemma {:induction false} KindsOfHandString(cards: seq<Kind>)
    ensures KindsOf(HandString(cards)) == Ok(cards)
  {
    if cards != [] {
      var s := HandString(cards);
      KindRoundTrip(cards[0]);
      assert s[1..] == HandString(cards[1..]);
      KindsOfHandString(cards[1..]);
      assert cards == [cards[0]] + cards[1..];
    }
  }

  /** Parsing the characters of five cards gives the hand of those cards. */
  lemma ParseHandRoundTrip(cards: seq<Kind>)
    requires |cards| == 5
    ensures CanFoldJokers(Counts(cards))
    ensures ParseHand(HandString(cards)).Ok? && ParseHand(HandString(cards)).value == MakeHand(cards)
  {
    FiveCardHand(cards);
    KindsOfHandString(cards);
  }

  /** `HandBid` (src/day7.rs:143-146). */
  datatype HandBid = HandBid(hand: ValidHand, bid: u64)

  /** `FromStr for HandBid` (src/day7.rs:147-162): exactly two words, a
      hand and a bid; the hand is parsed first and its error wins. */
  function ParseHandBid(input: string): (r: Result<HandBid, AoCError>)
    ensures |Words(input)| != 2 ==> r == Err(InputValueError)
    ensures |Words(input)| == 2 ==>
      var (h, b) := (ParseHand(Words(input)[0]), ParseU64(Words(input)[1]));
      (h.Err? ==> r == Err(h.error))
      && (h.Ok? && b.None? ==> r == Err(InputValueError))
      && (h.Ok? && b.Some? ==> r == Ok(HandBid(h.value, b.value)))
  {
    var ws := Words(input);
    if |ws| != 2 then Err(InputValueError)
    else
      match ParseHand(ws[0])
      case Err(e) => Err(e)
      case Ok(hand) =>
        match ParseU64(ws[1])
        case None => Err(InputValueError)
        case Some(bid) => Ok(HandBid(hand, bid))
  }

  /** A word followed by nothing or by whitespace is the first word. */
  lemma WordsAfterWord(w: string, rest: string)
    requires w != [] && forall i :: 0 <= i < |w| ==> !IsWhitespace(w[i])
    requires rest == [] || IsWhitespace(rest[0])
    ensures Words(w + rest) == [w] + Words(rest)
  {
    var s := w + rest;
    assert s[0] == w[0];
    assert Span(s, IsWhitespace) == 0;
    var n := Span(s, c => !IsWhitespace(c));
    assert forall i :: 0 <= i < |w| ==> s[i] == w[i];
    if rest != [] {
      assert s[|w|] == rest[0];
    }
    assert n == |w|;
    assert s[..n] == w && s[n..] == rest;
  }

  /** One space before a word is skipped. */
  lemma WordsAfterSpace(b: string)
    requires b != [] && !IsWhitespace(b[0])
    ensures Words(" " + b) == Words(b)
  {
    var t := " " + b;
    assert t[1..] == b;
    assert Span(t, IsWhitespace) == 1 + Span(b, IsWhitespace) == 1;
    assert Span(b, IsWhitespace) == 0;
    assert b[0..] == b;
  }

  /** `Words` of a word, a space and a word gives back the two words. */
  lemma WordsOfPair(a: string, b: string)
    requires a != [] && b != []
    requires forall i :: 0 <= i < |a| ==> !IsWhitespace(a[i])
    requires forall i :: 0 <= i < |b| ==> !IsWhitespace(b[i])
    ensures Words(a + " " + b) == [a, b]
  {
    assert a + " " + b == a + (" " + b);
    WordsAfterWord(a, " " + b);
    WordsAfterSpace(b);
    WordsAfterWord(b, []);
    assert b + [] == b;
    assert Words([]) == [];
  }

  /** Card characters are not whitespace. */
  lemma HandStringHasNoWhitespace(cards: seq<Kind>)
    ensures forall i :: 0 <= i < |HandString(cards)| ==> !IsWhitespace(HandString(cards)[i])
  {
    var h := HandString(cards);
    forall i | 0 <= i < |h|
      ensures !IsWhitespace(h[i])
    {
      assert h[i] == CharOf(cards[i]);
    }
  }

  /** Digits are not whitespace. */
  lemma DecimalHasNoWhitespace(n: nat)
    ensures DecimalString(n) != []
    ensures forall i :: 0 <= i < |DecimalString(n)| ==> !IsWhitespace(DecimalString(n)[i])
  {
    DecimalRoundTrip(n);
  }

  /** A line of two words that read as a hand and a bid reads as that hand-bid. */
  lemma ParseHandBidOfWords(input: string, h: string, d: string)
    requires Words(input) == [h, d] && ParseHand(h).Ok? && ParseU64(d).Some?
    ensures ParseHandBid(input) == Ok(HandBid(ParseHand(h).value, ParseU64(d).value))
  {
  }

  /** A line written as the characters of five cards, a space and a bid
      reads back as that hand and bid. */
  lemma ParseHandBidRoundTrip(cards: seq<Kind>, bid: u64)
    requires |cards| == 5
    ensures CanFoldJokers(Counts(cards))
    ensures var r := ParseHandBid(HandString(cards) + " " + DecimalString(bid));
      r.Ok? && r.value.hand == MakeHand(cards) && r.value.bid == bid
  {
    FiveCardHand(cards);
    var h := HandString(cards);
    var d := DecimalString(bid);
    ParseU64RoundTrip(bid);
    HandStringHasNoWhitespace(cards);
    DecimalHasNoWhitespace(bid);
    WordsOfPair(h, d);
    ParseHandRoundTrip(cards);
    ParseHandBidOfWords(h + " " + d, h, d);
  }

  /** Reads one line of the input. */
  const HandBidParser: string -> Result<HandBid, AoCError> := line => ParseHandBid(line)

  /** `process_day7_input` (src/day7.rs:164-168): every line parsed, or the
      error of the first line that does not parse. */
  function ParseHandBids(lines: seq<string>): (r: Result<seq<HandBid>, AoCError>)
    ensures r.Ok? <==> forall i :: 0 <= i < |lines| ==> ParseHandBid(lines[i]).Ok?
    ensures r.Ok? ==> |r.value| == |lines| && forall i :: 0 <= i < |lines| ==> r.value[i] == ParseHandBid(lines[i]).value
    ensures r.Err? ==> exists i :: FirstFailure(lines, HandBidParser, i) && r.error == ParseHandBid(lines[i]).error
  {
    CollectAll(lines, HandBidParser)
  }

  // ---------------------------------------------------------------------
  // Winnings
  // ---------------------------------------------------------------------

  /** The order `sort_by` uses on hand-bids: by hand. */
  const BidLeq: (HandBid, HandBid) -> bool := (x: HandBid, y: HandBid) => HandCmp(x.hand, y.hand) != Greater

  lemma BidLeqTotal()
    ensures IsTotal(BidLeq)
  {
    forall x: HandBid, y: HandBid
      ensures BidLeq(x, y) || BidLeq(y, x)
    {
      HandCmpConsistent(x.hand, y.hand);
    }
  }

  /** In a sequence sorted between neighbours, every hand is at most every
      later one: a weaker hand never gets a higher rank than a stronger one. */
  lemma {:induction false} SortedBidsRanked(s: seq<HandBid>, i: nat, j: nat)
    requires SortedBy(s, BidLeq) && i <= j < |s|
    ensures HandCmp(s[i].hand, s[j].hand) != Greater
    decreases j - i
  {
    if i == j {
      CardsCmpAntisymmetric(s[i].hand.cards, s[i].hand.cards);
    } else {
      SortedBidsRanked(s, i, j - 1);
      assert BidLeq(s[j - 1], s[j]);
      HandCmpTransitive(s[i].hand, s[j - 1].hand, s[j].hand);
    }
  }

  /** The sum of rank times bid over `s[..n]`, ranks counted from 1. */
  function WinningsUpTo(s: seq<HandBid>, n: nat): nat
    requires n <= |s|
  {
    if n == 0 then 0 else WinningsUpTo(s, n - 1) + n * s[n - 1].bid
  }

  /** The fold of `get_day7_result` (src/day7.rs:178-183) over the sorted
      bids. */
  method Winnings(res: array<HandBid>) returns (total: nat)
    ensures total == WinningsUpTo(res[..], res.Length)
  {
    total := 0;
    for idx := 0 to res.Length
      invariant total == WinningsUpTo(res[..], idx)
    {
      total := total + (idx + 1) * res[idx].bid;
    }
  }

  /** The test helper `get_day7_result` (src/day7.rs:178-183): the hand-bids
      are sorted by hand, weakest first, and each bid is multiplied by its
      rank. */
  method Day7Result(res: array<HandBid>) returns (total: nat)
    modifies res
    ensures SortedBy(res[..], BidLeq) && multiset(res[..]) == old(multiset(res[..]))
    ensures total == WinningsUpTo(res[..], res.Length)
  {
    BidLeqTotal();
    SortBy(res, BidLeq);
    total := Winnings(res);
  }

  // ---------------------------------------------------------------------
  // Examples of src/day7.rs:210-260
  // ---------------------------------------------------------------------

  /** The counts of one more card. */
  lemma CountsSnoc(cards: seq<Kind>, k: Kind, more: seq<Kind>)
    requires more == cards + [k]
    ensures Counts(more) == Counts(cards)[k := (if k in Counts(cards) then Counts(cards)[k] else 0) + 1]
  {
    assert more[..|cards|] == cards;
  }

  /** The counts of KK677 are two kings, a six and two sevens. */
  lemma CountsKK677()
    ensures Counts([SK, SK, S6, S7, S7]) == map[SK := 2, S6 := 1, S7 := 2]
  {
    CountsSnoc([], SK, [SK]);
    CountsSnoc([SK], SK, [SK, SK]);
    CountsSnoc([SK, SK], S6, [SK, SK, S6]);
    CountsSnoc([SK, SK, S6], S7, [SK, SK, S6, S7]);
    CountsSnoc([SK, SK, S6, S7], S7, [SK, SK, S6, S7, S7]);
  }

  /** The counts of KTJJT are a king, two tens and two jacks. */
  lemma CountsKTJJT()
    ensures Counts([SK, ST, SJ, SJ, ST]) == map[SK := 1, ST := 2, SJ := 2]
  {
    CountsSnoc([], SK, [SK]);
    CountsSnoc([SK], ST, [SK, ST]);
    CountsSnoc([SK, ST], SJ, [SK, ST, SJ]);
    CountsSnoc([SK, ST, SJ], SJ, [SK, ST, SJ, SJ]);
    CountsSnoc([SK, ST, SJ, SJ], ST, [SK, ST, SJ, SJ, ST]);
  }

  /** Three kinds, none of them three times: two pair. */
  lemma TwoPairOf(a: Kind, b: Kind, c: Kind, p: nat, q: nat, r: nat, m: map<Kind, nat>)
    requires a != b && b != c && a != c && p != 3 && q != 3 && r != 3
    requires m == map[a := p, b := q, c := r]
    ensures |m| == 3 && GetType(m) == TwoPair
  {
    assert m.Keys == {a, b, c};
  }

  /** A hand of three kinds, no joker among them and none three times,
      parses as two pair. */
  lemma TwoPairHand(cards: seq<Kind>, s: string, a: Kind, b: Kind, c: Kind, p: nat, q: nat, r: nat)
    requires |cards| == 5 && HandString(cards) == s
    requires a != SX && b != SX && c != SX
    requires a != b && b != c && a != c && p != 3 && q != 3 && r != 3
    requires Counts(cards) == map[a := p, b := q, c := r]
    ensures ParseHand(s).Ok? && ParseHand(s).value.cards == cards
    ensures HandTypeOf(ParseHand(s).value) == TwoPair
  {
    ParseHandRoundTrip(cards);
    var h := ParseHand(s).value;
    assert SX !in Counts(cards);
    assert h.suits == Counts(cards);
    TwoPairOf(a, b, c, p, q, r, h.suits);
  }

  /** KK677 is two pair (src/day7.rs:211-217). */
  lemma HandKK677()
    ensures ParseHand("KK677").Ok? && ParseHand("KK677").value.cards == [SK, SK, S6, S7, S7]
    ensures HandTypeOf(ParseHand("KK677").value) == TwoPair
  {
    var x := [SK, SK, S6, S7, S7];
    assert HandString(x) == "KK677";
    CountsKK677();
    TwoPairHand(x, "KK677", SK, S6, S7, 2, 1, 2);
  }

  /** KTJJT is two pair, before jokers (src/day7.rs:211-217). */
  lemma HandKTJJT()
    ensures ParseHand("KTJJT").Ok? && ParseHand("KTJJT").value.cards == [SK, ST, SJ, SJ, ST]
    ensures HandTypeOf(ParseHand("KTJJT").value) == TwoPair
  {
    var y := [SK, ST, SJ, SJ, ST];
    assert HandString(y) == "KTJJT";
    CountsKTJJT();
    TwoPairHand(y, "KTJJT", SK, ST, SJ, 1, 2, 2);
  }

  /** Two hands of one type whose cards are those of KK677 and KTJJT:
      the second card ranks the first hand higher. */
  lemma SecondCardDecides(a: ValidHand, b: ValidHand)
    requires HandTypeOf(a) == HandTypeOf(b)
    requires a.cards == [SK, SK, S6, S7, S7] && b.cards == [SK, ST, SJ, SJ, ST]
    ensures HandCmp(a, b) == Greater
  {
    var x, y := a.cards, b.cards;
    assert CardsCmp(x, y) == CardsCmp(x[1..], y[1..]) == Greater;
  }

  /** KK677 ranks above KTJJT (src/day7.rs:255-260): both are two pair, and
      the second card decides. */
  lemma ExampleOrdering()
    ensures ParseHand("KK677").Ok? && ParseHand("KTJJT").Ok?
    ensures HandCmp(ParseHand("KK677").value, ParseHand("KTJJT").value) == Greater
  {
    HandKK677();
    HandKTJJT();
    SecondCardDecides(ParseHand("KK677").value, ParseHand("KTJJT").value);
  }
}
