/** The seed almanac: every stage is a list of rules `(source, dest, width)`
    that shift the half-open range `[source, source + width)` onto
    `[dest, dest + width)`; a value no rule contains passes through a stage
    unchanged. Stages are sorted by source and searched with Rust's
    `binary_search_by`, and a seed is folded through the stages in order. */
module Almanac {
  import opened Common

  /** One rule, stored (as in the source) in the order source, dest, width. */
  datatype Rule = Rule(source: u64, dest: u64, width: u64)

  datatype Day5Error = EmptyInitialLine | MissingSeedsPrefix | NoSeeds | MissingMapHeader

  // ---------------------------------------------------------------------
  // Parsing one rule line
  // ---------------------------------------------------------------------

  /** A rule line parses without a panic: the digit runs `number` reads
      fit in 64 bits, and the line starts with at least three numbers
      (`unwrap_or_default` gives an empty list, and `p[1]` panics). */
  predicate RuleLine(line: string) {
    && ListFits(line, U64_LIMIT)
    && var p := NumberList(line, U64_LIMIT);
    && p.Some? && |p.value.0| >= 3
  }

  /** The line's text spells a list of at least three numbers "d s w ..."
      and `r` is the rule with source `s`, dest `d` and width `w`. */
  ghost predicate SpellsRule(line: string, r: Rule) {
    exists vs: seq<u64>, t :: |vs| >= 3 && ListText(line, vs, t) && r == Rule(vs[1], vs[0], vs[2])
  }

  /** `parse_map_line`: the line reads "dest source width", and the rule
      stores source first. The dest is the line's leading number, and the
      three values are the first three numbers the line's text spells. */
  function ParseMapLine(line: string): (r: Rule)
    requires RuleLine(line)
    ensures r.dest == LeadingValue(line)
    ensures SpellsRule(line, r)
  {
    var p := NumberList(line, U64_LIMIT).value;
    assert ListText(line, p.0, p.1);
    Rule(p.0[1], p.0[0], p.0[2])
  }

  /** Printing three or more numbers "d s w ...", separated by any runs of
      whitespace and followed by any text that does not continue the list,
      and parsing the line gives the rule with source `s`, dest `d` and
      width `w`: the first two numbers change places, and further numbers
      are ignored. */
  lemma ParseMapLineRoundTrip(ns: seq<u64>, seps: seq<string>, rest: string)
    requires |ns| >= 3 && |seps| == |ns| - 1
    requires forall i :: 0 <= i < |seps| ==> Whitespace(seps[i])
    requires EndsList(rest)
    ensures RuleLine(Joined(ns, seps) + rest)
    ensures ParseMapLine(Joined(ns, seps) + rest) == Rule(ns[1], ns[0], ns[2])
  {
    NumberListRoundTrip(ns, seps, rest, U64_LIMIT);
  }

  // ---------------------------------------------------------------------
  // Stages and their meaning
  // ---------------------------------------------------------------------

  predicate Contains(r: Rule, v: int) {
    r.source <= v < r.source + r.width
  }

  /** The 64-bit additions `source + width` (day5.rs:77) and
      `seek - source + dest` (day5.rs:93) do not overflow. */
  predicate NoOverflow(r: Rule) {
    r.source + r.width < U64_LIMIT && r.dest + r.width <= U64_LIMIT
  }

  predicate StageFits(m: seq<Rule>) {
    forall r :: r in m ==> NoOverflow(r)
  }

  predicate StagesFit(ms: seq<seq<Rule>>) {
    forall m :: m in ms ==> StageFits(m)
  }

  /** Where a rule sends a value it contains. */
  function Shift(r: Rule, v: u64): (w: u64)
    requires NoOverflow(r) && Contains(r, v)
    ensures w - r.dest == v - r.source
    ensures r.dest <= w < r.dest + r.width
  {
    v - r.source + r.dest
  }

  /** Some rule of the stage contains `v`. */
  predicate InStage(m: seq<Rule>, v: int) {
    exists r :: r in m && Contains(r, v)
  }

  /** `w` is `v` shifted by a rule of the stage that contains it. */
  predicate ShiftedBy(m: seq<Rule>, v: int, w: int) {
    exists r :: r in m && NoOverflow(r) && Contains(r, v) && w == Shift(r, v)
  }

  /** No rule of any stage contains `v`. */
  predicate Untouched(ms: seq<seq<Rule>>, v: int) {
    forall m :: m in ms ==> !InStage(m, v)
  }

  /** Reference meaning of a stage: the first rule containing `v` shifts
      it; a value no rule contains is unchanged. */
  function Apply(m: seq<Rule>, v: u64): (w: u64)
    requires StageFits(m)
    ensures !InStage(m, v) ==> w == v
    ensures InStage(m, v) ==> ShiftedBy(m, v, w)
  {
    if m == [] then v
    else if Contains(m[0], v) then
      assert m[0] in m;
      Shift(m[0], v)
    else
      assert forall r :: r in m ==> r == m[0] || r in m[1..];
      Apply(m[1..], v)
  }

  /** Two rules whose ranges do not overlap. */
  predicate Apart(x: Rule, y: Rule) {
    x.source + x.width <= y.source || y.source + y.width <= x.source
  }

  /** Any two different rules of the stage have disjoint ranges (a rule may
      be repeated: both copies send a value to the same place). */
  predicate RulesApart(m: seq<Rule>) {
    forall x, y :: x in m && y in m ==> x == y || Apart(x, y)
  }

  predicate PositiveWidths(m: seq<Rule>) {
    forall r :: r in m ==> r.width > 0
  }

  predicate SortedBySource(m: seq<Rule>) {
    forall i, j :: 0 <= i <= j < |m| ==> m[i].source <= m[j].source
  }

  /** What the binary search relies on. */
  predicate Searchable(m: seq<Rule>) {
    StageFits(m) && SortedBySource(m) && PositiveWidths(m) && RulesApart(m)
  }

  /** In a stage of disjoint rules, the rule containing a value decides
      where it goes, wherever that rule sits in the list. */
  lemma {:induction false} ApplyFindsContainingRule(m: seq<Rule>, v: u64, x: Rule)
    requires StageFits(m) && RulesApart(m)
    requires x in m && Contains(x, v)
    ensures Apply(m, v) == Shift(x, v)
  {
    assert m[0] in m;
    if !Contains(m[0], v) {
      assert x in m[1..];
      ApplyFindsContainingRule(m[1..], v, x);
    }
  }

  /** A stage's meaning depends only on which rules it holds, not on their
      order, when the rules are disjoint: sorting a stage keeps its meaning. */
  lemma ApplyIgnoresOrder(m1: seq<Rule>, m2: seq<Rule>, v: u64)
    requires StageFits(m1) && RulesApart(m1)
    requires forall r :: r in m1 <==> r in m2
    ensures StageFits(m2)
    ensures Apply(m1, v) == Apply(m2, v)
  {
    if x :| x in m1 && Contains(x, v) {
      ApplyFindsContainingRule(m1, v, x);
      ApplyFindsContainingRule(m2, v, x);
    } else {
    }
  }

  /** The seed-to-soil map of the worked example, in both orders. */
  lemma SeedToSoilExample()
    ensures var m := [Rule(98, 50, 2), Rule(50, 52, 48)];
      && Apply(m, 79) == 81 && Apply(m, 14) == 14 && Apply(m, 55) == 57 && Apply(m, 13) == 13
      && Apply([m[1], m[0]], 79) == 81 && Apply([m[1], m[0]], 55) == 57
  {
  }

  // ---------------------------------------------------------------------
  // Binary search (`find_by_source`, `map_by_source`)
  // ---------------------------------------------------------------------

  /** The comparator handed to `binary_search_by` (day5.rs:76-84). */
  function Probe(r: Rule, seek: u64): Ordering {
    if seek >= r.source && seek < r.source + r.width then Equal
    else if r.source < seek then Less
    else Greater
  }

  /** On a searchable stage the comparator is monotone, so the binary
      search is exact. */
  lemma ProbeMonotone(m: seq<Rule>, seek: u64)
    requires Searchable(m)
    ensures Monotone(m, r => Probe(r, seek))
  {
    forall i, j | 0 <= i <= j < |m|
      ensures (Probe(m[j], seek) == Less ==> Probe(m[i], seek) == Less)
           && (Probe(m[i], seek) == Greater ==> Probe(m[j], seek) == Greater)
    {
      assert m[i] in m && m[j] in m;
    }
  }

  /** `find_by_source`: binary search of a stage for the rule whose source
      range contains `seek`. What it finds contains `seek`; on a searchable
      stage it finds a rule exactly when one contains `seek`. */
  method FindBySource(m: seq<Rule>, seek: u64) returns (r: Option<nat>)
    requires StageFits(m)
    ensures r.Some? ==> r.value < |m| && Contains(m[r.value], seek)
    ensures Searchable(m) ==> (r.None? <==> forall i :: 0 <= i < |m| ==> !Contains(m[i], seek))
  {
    r := BinarySearchBy(m, x => Probe(x, seek));
    if Searchable(m) {
      ProbeMonotone(m, seek);
    }
  }

  /** Looks `seek` up in one stage. On a searchable stage this is exactly
      the stage's meaning; on any stage the result is `seek` itself or the
      shift of `seek` by some rule that contains it. */
  method MapBySource(m: seq<Rule>, seek: u64) returns (r: u64)
    requires StageFits(m)
    ensures Searchable(m) ==> r == Apply(m, seek)
    ensures r == seek || exists i :: 0 <= i < |m| && Contains(m[i], seek) && NoOverflow(m[i]) && r == Shift(m[i], seek)
  {
    var found := FindBySource(m, seek);
    match found {
      case Some(idx) =>
        assert m[idx] in m;
        r := seek - m[idx].source + m[idx].dest;
        if Searchable(m) {
          ApplyFindsContainingRule(m, seek, m[idx]);
        }
      case None =>
        r := seek;
        if Searchable(m) {
          forall x | x in m
            ensures !Contains(x, seek)
          {
            var i :| 0 <= i < |m| && m[i] == x;
          }
        }
    }
  }

  /** Reference meaning of the whole almanac: the stages applied in order.
      A value that no rule of any stage contains comes out unchanged; in
      particular with no stages at all. */
  function ApplyAll(ms: seq<seq<Rule>>, v: u64): (w: u64)
    requires StagesFit(ms)
    ensures Untouched(ms, v) ==> w == v
  {
    if ms == [] then v
    else
      assert ms[|ms| - 1] in ms;
      assert Untouched(ms, v) ==> Untouched(ms[..|ms| - 1], v);
      Apply(ms[|ms| - 1], ApplyAll(ms[..|ms| - 1], v))
  }

  /** Running the almanac in two parts runs the first part, then the second. */
  lemma {:induction false} ApplyAllAppend(a: seq<seq<Rule>>, b: seq<seq<Rule>>, v: u64)
    requires StagesFit(a) && StagesFit(b)
    ensures StagesFit(a + b)
    ensures ApplyAll(a + b, v) == ApplyAll(b, ApplyAll(a, v))
    decreases |b|
  {
    if b == [] {
      assert a + b == a;
    } else {
      var b' := b[..|b| - 1];
      assert (a + b)[..|a + b| - 1] == a + b';
      assert b[|b| - 1] in b;
      ApplyAllAppend(a, b', v);
    }
  }

  /** Stage by stage, two almanacs holding the same disjoint rules mean the same. */
  lemma {:induction false} ApplyAllIgnoresOrder(ms1: seq<seq<Rule>>, ms2: seq<seq<Rule>>, v: u64)
    requires StagesFit(ms1) && |ms1| == |ms2|
    requires forall k :: 0 <= k < |ms1| ==> RulesApart(ms1[k]) && forall r :: r in ms1[k] <==> r in ms2[k]
    ensures StagesFit(ms2)
    ensures ApplyAll(ms1, v) == ApplyAll(ms2, v)
    decreases |ms1|
  {
    forall m | m in ms2
      ensures StageFits(m)
    {
      var k :| 0 <= k < |ms2| && ms2[k] == m;
      assert ms1[k] in ms1;
    }
    if ms1 != [] {
      var n := |ms1| - 1;
      ApplyAllIgnoresOrder(ms1[..n], ms2[..n], v);
      assert ms1[n] in ms1;
      ApplyIgnoresOrder(ms1[n], ms2[n], ApplyAll(ms1[..n], v));
    }
  }

  /** `map_with_groups`: the value is passed through every stage in turn. */
  method MapWithGroups(v: u64, maps: seq<seq<Rule>>) returns (r: u64)
    requires StagesFit(maps)
    ensures (forall k :: 0 <= k < |maps| ==> Searchable(maps[k])) ==> r == ApplyAll(maps, v)
  {
    r := v;
    for k := 0 to |maps|
      invariant StagesFit(maps[..k])
      invariant (forall j :: 0 <= j < |maps| ==> Searchable(maps[j])) ==> r == ApplyAll(maps[..k], v)
    {
      assert maps[k] in maps;
      assert maps[..k + 1][..k] == maps[..k];
      r := MapBySource(maps[k], r);
    }
    assert maps[..|maps|] == maps;
  }

  // ---------------------------------------------------------------------
  // One map group (`process_map_group`)
  // ---------------------------------------------------------------------

  /** How many lines precede the first empty one. */
  function LeadingNonEmpty(lines: seq<string>): (n: nat)
    ensures n <= |lines|
    ensures forall i :: 0 <= i < n ==> lines[i] != []
    ensures n < |lines| ==> lines[n] == []
  {
    if lines == [] || lines[0] == [] then 0 else 1 + LeadingNonEmpty(lines[1..])
  }

  /** Every line before the first empty one is a rule line. */
  predicate RuleLines(lines: seq<string>) {
    forall i :: 0 <= i < LeadingNonEmpty(lines) ==> RuleLineAt(lines, i)
  }

  /** Line `i` is a rule line (a name of its own keeps the quantifier in
      `RuleLines` from unfolding `RuleLine` at every line index in sight). */
  predicate RuleLineAt(lines: seq<string>, i: nat)
    requires i < |lines|
  {
    RuleLine(lines[i])
  }

  function ParseMapLineAt(lines: seq<string>, i: nat): Rule
    requires i < |lines| && RuleLineAt(lines, i)
  {
    ParseMapLine(lines[i])
  }

  /** The rules of the first `n` lines, in input order. */
  function RulesOfFirst(lines: seq<string>, n: nat): (rs: seq<Rule>)
    requires RuleLines(lines) && n <= LeadingNonEmpty(lines)
    ensures |rs| == n
  {
    if n == 0 then [] else RulesOfFirst(lines, n - 1) + [ParseMapLineAt(lines, n - 1)]
  }

  /** The rules of the lines before the first empty line, in input order. */
  function ParsedRules(lines: seq<string>): (rs: seq<Rule>)
    requires RuleLines(lines)
    ensures |rs| == LeadingNonEmpty(lines)
  {
    RulesOfFirst(lines, LeadingNonEmpty(lines))
  }

  predicate BySource(x: Rule, y: Rule) {
    x.source <= y.source
  }

  lemma BySourceIsTotal()
    ensures IsTotal(BySource)
  {
    forall x: Rule, y: Rule
      ensures BySource(x, y) || BySource(y, x)
    {
    }
  }

  lemma {:induction false} SourcesChain(s: seq<Rule>, i: nat, j: nat)
    requires SortedBy(s, BySource) && i <= j < |s|
    ensures s[i].source <= s[j].source
    decreases j - i
  {
    if i < j {
      SourcesChain(s, i, j - 1);
      assert BySource(s[j - 1], s[j]);
    }
  }

  /** Neighbour-wise order by source is order by source between any two rules. */
  lemma SortedBySourceFromNeighbours(s: seq<Rule>)
    requires SortedBy(s, BySource)
    ensures SortedBySource(s)
  {
    forall i, j | 0 <= i <= j < |s|
      ensures s[i].source <= s[j].source
    {
      SourcesChain(s, i, j);
    }
  }

  /** The `take_while` of day5.rs:23: how many lines precede the first empty one. */
  method CountLeadingNonEmpty(lines: seq<string>) returns (n: nat)
    ensures n == LeadingNonEmpty(lines)
  {
    n := 0;
    while n < |lines| && lines[n] != []
      invariant n <= |lines|
      invariant forall i :: 0 <= i < n ==> lines[i] != []
    {
      n := n + 1;
    }
  }

  /** The `take_while` and `map` of day5.rs:23-25: the rules of the lines
      before the first empty line, in order. */
  method ParseLeadingRules(lines: seq<string>) returns (rules: seq<Rule>)
    requires RuleLines(lines)
    ensures rules == ParsedRules(lines)
  {
    var n := CountLeadingNonEmpty(lines);
    rules := [];
    for i := 0 to n
      invariant rules == RulesOfFirst(lines, i)
    {
      var rule := ParseMapLineAt(lines, i);
      rules := rules + [rule];
    }
  }

  /** Keeps the lines before the first empty line, parses each, and sorts
      the rules by source: the result is a reordering of the parsed rules. */
  method ProcessMapGroup(lines: seq<string>) returns (rs: seq<Rule>)
    requires RuleLines(lines)
    ensures multiset(rs) == multiset(ParsedRules(lines))
    ensures SortedBySource(rs)
  {
    var rules := ParseLeadingRules(lines);
    var a := new Rule[|rules|](i requires 0 <= i < |rules| => rules[i]);
    assert a[..] == rules;
    BySourceIsTotal();
    SortBy(a, BySource);
    rs := a[..];
    SortedBySourceFromNeighbours(rs);
  }

  /** A sorted stage read from rules that are disjoint and non-empty is
      searchable, so the binary search finds exactly the containing rule. */
  lemma SortedStageIsSearchable(parsed: seq<Rule>, sorted: seq<Rule>)
    requires StageFits(parsed) && PositiveWidths(parsed) && RulesApart(parsed)
    requires multiset(sorted) == multiset(parsed) && SortedBySource(sorted)
    ensures Searchable(sorted)
    ensures forall r :: r in sorted <==> r in parsed
  {
    assert forall r :: r in sorted <==> r in multiset(sorted);
    assert forall r :: r in parsed <==> r in multiset(parsed);
  }

  // ---------------------------------------------------------------------
  // The whole input (`process_day5_input`)
  // ---------------------------------------------------------------------

  /** The fold of day5.rs:32: lines are grouped, an empty line closing the
      current group and opening a new one. */
  function Groups(lines: seq<string>): (g: seq<seq<string>>)
    ensures |g| >= 1
  {
    if lines == [] then [[]]
    else
      var g := Groups(lines[..|lines| - 1]);
      var line := lines[|lines| - 1];
      if line == [] then g + [[]] else g[|g| - 1 := g[|g| - 1] + [line]]
  }

  /** The inverse of `Groups`: groups rejoined with an empty line between. */
  function JoinGroups(g: seq<seq<string>>): seq<string>
    requires |g| >= 1
  {
    if |g| == 1 then g[0] else JoinGroups(g[..|g| - 1]) + [[]] + g[|g| - 1]
  }

  lemma {:induction false} JoinExtendLast(g: seq<seq<string>>, line: string)
    requires |g| >= 1
    ensures JoinGroups(g[|g| - 1 := g[|g| - 1] + [line]]) == JoinGroups(g) + [line]
  {
    var h := g[|g| - 1 := g[|g| - 1] + [line]];
    if |g| > 1 {
      assert h[..|h| - 1] == g[..|g| - 1];
    }
  }

  /** Grouping loses no line: rejoining the groups gives back the input. */
  lemma {:induction false} GroupsRoundTrip(lines: seq<string>)
    ensures JoinGroups(Groups(lines)) == lines
  {
    if lines != [] {
      var init := lines[..|lines| - 1];
      var line := lines[|lines| - 1];
      var g := Groups(init);
      GroupsRoundTrip(init);
      if line == [] {
        assert (g + [[]])[..|g|] == g;
      } else {
        JoinExtendLast(g, line);
      }
      assert init + [line] == lines;
    }
  }

  /** No group holds an empty line, and there is one more group than there
      are empty lines (so there is always at least one). */
  lemma {:induction false} GroupsShape(lines: seq<string>)
    ensures forall k, j :: 0 <= k < |Groups(lines)| && 0 <= j < |Groups(lines)[k]| ==> Groups(lines)[k][j] != []
    ensures |Groups(lines)| == 1 + EmptyLines(lines)
  {
    if lines != [] {
      GroupsShape(lines[..|lines| - 1]);
    }
  }

  function EmptyLines(lines: seq<string>): nat {
    if lines == [] then 0
    else EmptyLines(lines[..|lines| - 1]) + (if lines[|lines| - 1] == [] then 1 else 0)
  }

  method GroupLines(lines: seq<string>) returns (groups: seq<seq<string>>)
    ensures groups == Groups(lines)
  {
    groups := [[]];
    for i := 0 to |lines|
      invariant groups == Groups(lines[..i])
    {
      assert lines[..i + 1][..i] == lines[..i];
      if lines[i] == [] {
        groups := groups + [[]];
      } else {
        var last := |groups| - 1;
        groups := groups[last := groups[last] + [lines[i]]];
      }
    }
    assert lines[..|lines|] == lines;
  }

  /** `str::find(t).is_some()`. */
  function HasSubstring(s: string, t: string): (b: bool)
    ensures b <==> exists i :: 0 <= i <= |s| && t <= s[i..]
  {
    if t <= s then (assert s[0..] == s; true)
    else if s == [] then false
    else
      var b := HasSubstring(s[1..], t);
      assert forall i :: 1 <= i <= |s| ==> s[1..][i - 1..] == s[i..];
      b
  }

  predicate IsMapGroup(group: seq<string>) {
    group != [] && HasSubstring(group[0], "map:")
  }

  function SeedsLine(g0: seq<string>): Option<string> {
    if g0 == [] then None else Some(g0[|g0| - 1])
  }

  /** The seeds after the "seeds: " prefix; a failed parse yields none. */
  function ParseSeeds(text: string): (seeds: seq<u64>)
    requires ListFits(text, U64_LIMIT)
    ensures seeds == [] <==> (text == [] || !IsDigit(text[0]))
    ensures seeds != [] ==> exists t :: ListText(text, seeds, t) && EndsList(t)
  {
    var p := NumberList(text, U64_LIMIT);
    if p.None? then [] else p.value.0
  }

  /** Seeds printed with any runs of whitespace between them read back. */
  lemma ParseSeedsRoundTrip(seeds: seq<u64>, seps: seq<string>)
    requires seeds != [] && |seps| == |seeds| - 1
    requires forall i :: 0 <= i < |seps| ==> Whitespace(seps[i])
    ensures ListFits(Joined(seeds, seps), U64_LIMIT)
    ensures ParseSeeds(Joined(seeds, seps)) == seeds
  {
    NumberListRoundTrip(seeds, seps, [], U64_LIMIT);
    assert Joined(seeds, seps) + [] == Joined(seeds, seps);
  }

  /** The digit runs `number` reads from the seed list fit in 64 bits. */
  predicate SeedsFit(lines: seq<string>) {
    var s := SeedsLine(Groups(lines)[0]);
    s.Some? && "seeds: " <= s.value ==> ListFits(s.value[7..], U64_LIMIT)
  }

  /** The checks of day5.rs:47-64, in their order: on success, the seeds
      and the rule lines of every map group (the group minus its header). */
  function Layout(lines: seq<string>): Result<(seq<u64>, seq<seq<string>>), Day5Error>
    requires SeedsFit(lines)
  {
    var g := Groups(lines);
    var s := SeedsLine(g[0]);
    if s.None? then Err(EmptyInitialLine)
    else if !("seeds: " <= s.value) then Err(MissingSeedsPrefix)
    else
      var seeds := ParseSeeds(s.value[7..]);
      if seeds == [] then Err(NoSeeds)
      else if exists k :: 1 <= k < |g| && !IsMapGroup(g[k]) then Err(MissingMapHeader)
      else Ok((seeds, MapBodies(g)))
  }

  /** The rule lines of each map group: the group without its header line. */
  function MapBodies(g: seq<seq<string>>): seq<seq<string>>
    requires g != [] && forall k :: 1 <= k < |g| ==> IsMapGroup(g[k])
  {
    seq(|g| - 1, k requires 0 <= k < |g| - 1 => assert IsMapGroup(g[k + 1]); g[k + 1][1..])
  }

  /** Empty input is rejected: the fold always yields one group, and its
      missing last line is the error (day5.rs:54). */
  lemma EmptyInputIsRejected()
    ensures Layout([]) == Err(EmptyInitialLine)
  {
  }

  /** The input parses without a panic: seeds fit, and when the layout
      checks pass, every rule line parses and its arithmetic fits. */
  predicate Day5Input(lines: seq<string>) {
    && SeedsFit(lines)
    && (Layout(lines).Ok? ==>
          var bodies := Layout(lines).value.1;
          forall k :: 0 <= k < |bodies| ==> RuleLines(bodies[k]) && StageFits(ParsedRules(bodies[k])))
  }

  /** The stages as read, each in input order (before sorting). */
  function ParsedStages(bodies: seq<seq<string>>): (ms: seq<seq<Rule>>)
    requires forall k :: 0 <= k < |bodies| ==> RuleLines(bodies[k])
    ensures |ms| == |bodies|
  {
    seq(|bodies|, k requires 0 <= k < |bodies| => ParsedRules(bodies[k]))
  }

  lemma ParsedStageAt(bodies: seq<seq<string>>, k: nat)
    requires forall k :: 0 <= k < |bodies| ==> RuleLines(bodies[k])
    requires k < |bodies|
    ensures ParsedStages(bodies)[k] == ParsedRules(bodies[k])
  {
  }

  /** `m` holds the rules of `stage`, sorted by source. */
  predicate SortedStage(m: seq<Rule>, stage: seq<Rule>) {
    multiset(m) == multiset(stage) && SortedBySource(m)
  }

  /** Parses and sorts every map group. */
  method ProcessMapGroups(bodies: seq<seq<string>>) returns (maps: seq<seq<Rule>>)
    requires forall k :: 0 <= k < |bodies| ==> RuleLines(bodies[k])
    ensures |maps| == |bodies|
    ensures forall k :: 0 <= k < |maps| ==> SortedStage(maps[k], ParsedStages(bodies)[k])
  {
    ghost var stages := ParsedStages(bodies);
    maps := [];
    for k := 0 to |bodies|
      invariant |maps| == k
      invariant forall j :: 0 <= j < k ==> SortedStage(maps[j], stages[j])
    {
      var m := ProcessMapGroup(bodies[k]);
      ParsedStageAt(bodies, k);
      SortedStagesSnoc(maps, m, stages, k);
      maps := maps + [m];
    }
  }

  /** One more sorted stage at the end keeps every stage sorted. */
  lemma SortedStagesSnoc(maps: seq<seq<Rule>>, m: seq<Rule>, stages: seq<seq<Rule>>, k: nat)
    requires |maps| == k < |stages|
    requires forall j :: 0 <= j < k ==> SortedStage(maps[j], stages[j])
    requires SortedStage(m, stages[k])
    ensures forall j :: 0 <= j < k + 1 ==> SortedStage((maps + [m])[j], stages[j])
  {
    var next := maps + [m];
    assert forall j :: 0 <= j < k ==> next[j] == maps[j];
    assert next[k] == m;
  }

  /** Runs every seed through the stages (day5.rs:70). */
  method MapSeeds(seeds: seq<u64>, maps: seq<seq<Rule>>) returns (ret: seq<u64>)
    requires StagesFit(maps)
    ensures |ret| == |seeds|
    ensures (forall k :: 0 <= k < |maps| ==> Searchable(maps[k])) ==>
      forall i :: 0 <= i < |seeds| ==> ret[i] == ApplyAll(maps, seeds[i])
  {
    ret := [];
    for i := 0 to |seeds|
      invariant |ret| == i
      invariant (forall k :: 0 <= k < |maps| ==> Searchable(maps[k])) ==>
        forall j :: 0 <= j < i ==> ret[j] == ApplyAll(maps, seeds[j])
    {
      var v := MapWithGroups(seeds[i], maps);
      ret := ret + [v];
    }
  }

  /** The header check of day5.rs:58-62 over every group after the first. */
  method AllMapGroups(groups: seq<seq<string>>) returns (ok: bool)
    requires groups != []
    ensures ok <==> forall k :: 1 <= k < |groups| ==> IsMapGroup(groups[k])
  {
    for k := 1 to |groups|
      invariant forall j :: 1 <= j < k ==> IsMapGroup(groups[j])
    {
      if !IsMapGroup(groups[k]) {
        return false;
      }
    }
    return true;
  }

  /** The grouping fold and the checks of day5.rs:32-64. */
  method ReadLayout(lines: seq<string>) returns (res: Result<(seq<u64>, seq<seq<string>>), Day5Error>)
    requires SeedsFit(lines)
    ensures res == Layout(lines)
  {
    var groups := GroupLines(lines);
    // `groups` is never empty (see `Groups`), so the emptiness check of
    // day5.rs:42 cannot fire and is not repeated here.
    if groups[0] == [] {
      return Err(EmptyInitialLine);
    }
    var seedsLine := groups[0][|groups[0]| - 1];
    if !("seeds: " <= seedsLine) {
      return Err(MissingSeedsPrefix);
    }
    var seeds := ParseSeeds(seedsLine[7..]);
    if seeds == [] {
      return Err(NoSeeds);
    }
    var headed := AllMapGroups(groups);
    if !headed {
      return Err(MissingMapHeader);
    }
    return Ok((seeds, MapBodies(groups)));
  }

  /** Reordering the rules of each stage keeps them within 64 bits. */
  lemma ReorderedStagesFit(stages: seq<seq<Rule>>, maps: seq<seq<Rule>>)
    requires StagesFit(stages) && |maps| == |stages|
    requires forall k :: 0 <= k < |maps| ==> multiset(maps[k]) == multiset(stages[k])
    ensures StagesFit(maps)
  {
    forall m | m in maps
      ensures StageFits(m)
    {
      var k :| 0 <= k < |maps| && maps[k] == m;
      assert stages[k] in stages;
      assert forall x :: x in m <==> x in multiset(m);
      assert forall x :: x in stages[k] <==> x in multiset(stages[k]);
    }
  }

  /** Sorting the stages of non-empty, disjoint rules makes each searchable
      and keeps the meaning of the whole almanac. */
  lemma SortedStagesKeepMeaning(stages: seq<seq<Rule>>, maps: seq<seq<Rule>>, v: u64)
    requires StagesFit(stages) && |maps| == |stages|
    requires forall k :: 0 <= k < |stages| ==> PositiveWidths(stages[k]) && RulesApart(stages[k])
    requires forall k :: 0 <= k < |maps| ==> multiset(maps[k]) == multiset(stages[k]) && SortedBySource(maps[k])
    ensures forall k :: 0 <= k < |maps| ==> Searchable(maps[k])
    ensures StagesFit(maps) && ApplyAll(maps, v) == ApplyAll(stages, v)
  {
    forall k | 0 <= k < |maps|
      ensures Searchable(maps[k]) && forall x :: x in maps[k] <==> x in stages[k]
    {
      assert stages[k] in stages;
      SortedStageIsSearchable(stages[k], maps[k]);
    }
    ApplyAllIgnoresOrder(maps, stages, v);
  }

  /** `process_day5_input`. It fails exactly as the layout checks fail, and
      otherwise gives one value per seed, in seed order; when every stage's
      rules are non-empty and disjoint, each value is the seed run through
      the stages as read. */
  method ProcessDay5Input(lines: seq<string>) returns (r: Result<seq<u64>, Day5Error>)
    requires Day5Input(lines)
    ensures r.Err? <==> Layout(lines).Err?
    ensures r.Err? ==> r.error == Layout(lines).error
    ensures r.Ok? ==> |r.value| == |Layout(lines).value.0|
    ensures r.Ok? ==>
      var (seeds, bodies) := Layout(lines).value;
      var stages := ParsedStages(bodies);
      (forall k :: 0 <= k < |stages| ==> PositiveWidths(stages[k]) && RulesApart(stages[k])) ==>
        StagesFit(stages) && forall i :: 0 <= i < |seeds| ==> r.value[i] == ApplyAll(stages, seeds[i])
  {
    var layout := ReadLayout(lines);
    if layout.Err? {
      return Err(layout.error);
    }
    var (seeds, bodies) := layout.value;
    var maps := ProcessMapGroups(bodies);
    ghost var stages := ParsedStages(bodies);
    assert StagesFit(stages) by {
      forall m | m in stages
        ensures StageFits(m)
      {
        var k :| 0 <= k < |stages| && stages[k] == m;
        ParsedStageAt(bodies, k);
      }
    }
    ReorderedStagesFit(stages, maps);
    var ret := MapSeeds(seeds, maps);
    if forall k :: 0 <= k < |stages| ==> PositiveWidths(stages[k]) && RulesApart(stages[k]) {
      forall i | 0 <= i < |seeds|
        ensures ret[i] == ApplyAll(stages, seeds[i])
      {
        SortedStagesKeepMeaning(stages, maps, seeds[i]);
      }
    }
    return Ok(ret);
  }
}
