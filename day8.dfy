// Day 8: a network of nodes, each naming a left and a right successor, walked
// by a cyclic list of 'L'/'R' instructions. Keys are fixed three-byte arrays,
// nodes are read from lines "AAA = (BBB, CCC)", and `NodeStream` steps a list
// of current keys together, stopping at the all-zero key.

module Network {
  import opened Common

  type byte = b: int | 0 <= b < 256

  /** A `[u8; 3]` node key. */
  type Key = k: seq<byte> | |k| == 3 witness [0, 0, 0]

  /** The all-zero key: the default of `[u8; 3]`, and the stream's stop sign. */
  const ZeroKey: Key := [0, 0, 0]

  const LeftByte: byte := 'L' as int
  const RightByte: byte := 'R' as int

  // ---------------------------------------------------------------------
  // to_utf3
  // ---------------------------------------------------------------------

  /** The key made of the first (up to) three bytes of `s`, zero-filled. */
  function Utf3(s: seq<byte>): (k: Key)
    ensures forall i :: 0 <= i < 3 ==> k[i] == if i < |s| then s[i] else 0
  {
    var padded := s + [0, 0, 0];
    padded[..3]
  }

  /** `to_utf3`: zips the bytes of `s` with a zeroed 3-byte buffer and copies each pair. */
  method ToUtf3(s: seq<byte>) returns (k: Key)
    ensures k == Utf3(s)
  {
    var ret := new byte[3](_ => 0);
    var n := if |s| < 3 then |s| else 3;
    for i := 0 to n
      invariant forall j :: 0 <= j < i ==> ret[j] == s[j]
      invariant forall j :: i <= j < 3 ==> ret[j] == 0
    {
      ret[i] := s[i];
    }
    k := ret[..];
  }

  /** A key read back through `to_utf3` is itself. */
  lemma Utf3OfKey(k: Key)
    ensures Utf3(k) == k
  {
  }

  /** On inputs of at most three bytes that carry no zero byte, `to_utf3` loses nothing. */
  lemma Utf3Injective(s: seq<byte>, t: seq<byte>)
    requires |s| <= 3 && |t| <= 3
    requires forall i :: 0 <= i < |s| ==> s[i] != 0
    requires forall i :: 0 <= i < |t| ==> t[i] != 0
    requires Utf3(s) == Utf3(t)
    ensures s == t
  {
    Utf3Length(s);
    Utf3Length(t);
    if |s| < 3 {
      assert Utf3(t)[|s|] == 0;
    }
    if |t| < 3 {
      assert Utf3(s)[|t|] == 0;
    }
    forall i | 0 <= i < |s| ensures s[i] == t[i] {
      assert Utf3(s)[i] == Utf3(t)[i];
    }
  }

  /** For an input of at most three non-zero bytes, the key's first zero sits at its length. */
  lemma Utf3Length(s: seq<byte>)
    requires |s| <= 3
    requires forall i :: 0 <= i < |s| ==> s[i] != 0
    ensures forall i :: 0 <= i < 3 ==> (Utf3(s)[i] == 0 <==> i >= |s|)
  {
  }

  // ---------------------------------------------------------------------
  // node_parser and Node::from_str
  // ---------------------------------------------------------------------

  /** nom's `take(n)` on text: exactly `n` characters, or failure. */
  function Take(s: string, n: nat): (r: Option<(string, string)>)
    ensures r.Some? <==> |s| >= n
    ensures r.Some? ==> |r.value.0| == n && s == r.value.0 + r.value.1
  {
    if |s| >= n then Some((s[..n], s[n..])) else None
  }

  /** `input` starts with a node line: " = (" after a three-character
      key, ", " after the left key, and ")" after the right key. */
  predicate StartsWithNodeLine(input: string) {
    |input| >= 16 && input[3..7] == " = (" && input[10..12] == ", " && input[15] == ')'
  }

  /**
   * `node_parser`: a three-character key, " = (", a three-character left
   * key, ", ", a three-character right key and ")". The result holds the
   * rest of the input and the three keys. It succeeds exactly on input
   * that starts with a node line, and reports that line's keys.
   */
  function NodeParser(input: string): (r: Option<(string, (string, string, string))>)
    ensures r.Some? <==> StartsWithNodeLine(input)
    ensures r.Some? ==> var (rest, (key, left, right)) := r.value;
      |key| == 3 && |left| == 3 && |right| == 3 && input == NodeLine(key, left, right) + rest
  {
    NodeLineSteps(input);
    match Take(input, 3)
    case None => None
    case Some((key, r1)) =>
      match Tag(r1, " = (")
      case None => None
      case Some(r2) =>
        match Take(r2, 3)
        case None => None
        case Some((left, r3)) =>
          match Tag(r3, ", ")
          case None => None
          case Some(r4) =>
            match Take(r4, 3)
            case None => None
            case Some((right, r5)) =>
              match Tag(r5, ")")
              case None => None
              case Some(rest) =>
                NodeLineOfSteps(input, key, left, right, rest);
                Some((rest, (key, left, right)))
  }

  /** On a node line every step of the parser succeeds. */
  lemma NodeLineSteps(input: string)
    ensures StartsWithNodeLine(input) ==>
      && Take(input, 3).Some? && Take(input, 3).value.1 == input[3..]
      && Tag(input[3..], " = (") == Some(input[7..])
      && Take(input[7..], 3).Some? && Take(input[7..], 3).value.1 == input[10..]
      && Tag(input[10..], ", ") == Some(input[12..])
      && Take(input[12..], 3).Some? && Take(input[12..], 3).value.1 == input[15..]
      && Tag(input[15..], ")").Some?
  {
    if StartsWithNodeLine(input) {
      assert input[3..][..4] == input[3..7];
      assert input[3..][4..] == input[7..];
      assert input[7..][3..] == input[10..];
      assert input[10..][..2] == input[10..12];
      assert input[10..][2..] == input[12..];
      assert input[12..][3..] == input[15..];
      assert input[15..][..1] == [input[15]];
    }
  }

  /** What the steps read, put back together, is a node line. */
  lemma NodeLineOfSteps(input: string, key: string, left: string, right: string, rest: string)
    requires |key| == 3 && |left| == 3 && |right| == 3
    requires input == key + (" = (" + (left + (", " + (right + (")" + rest)))))
    ensures StartsWithNodeLine(input) && input == NodeLine(key, left, right) + rest
  {
  }

  /** The text of a node line. */
  function NodeLine(key: string, left: string, right: string): string {
    key + " = (" + left + ", " + right + ")"
  }

  /** `node_parser` reads back every node line, whatever follows it. */
  lemma NodeParserRoundTrip(key: string, left: string, right: string, rest: string)
    requires |key| == 3 && |left| == 3 && |right| == 3
    ensures NodeParser(NodeLine(key, left, right) + rest) == Some((rest, (key, left, right)))
  {
    var r5 := ")" + rest;
    var r4 := right + r5;
    var r3 := ", " + r4;
    var r2 := left + r3;
    var r1 := " = (" + r2;
    var s := NodeLine(key, left, right) + rest;
    assert s == key + r1;
    TakeOfConcat(key, r1);
    TagOfConcat(" = (", r2);
    TakeOfConcat(left, r3);
    TagOfConcat(", ", r4);
    TakeOfConcat(right, r5);
    TagOfConcat(")", rest);
  }

  lemma TakeOfConcat(a: string, b: string)
    ensures Take(a + b, |a|) == Some((a, b))
  {
    assert (a + b)[..|a|] == a;
  }

  lemma TagOfConcat(a: string, b: string)
    ensures Tag(a + b, a) == Some(b)
  {
    assert (a + b)[|a|..] == b;
  }

  /** A node: its key and the keys of its left and right successors. */
  datatype Node = Node(key: Key, left: Key, right: Key)

  predicate IsAscii(s: string) {
    forall i :: 0 <= i < |s| ==> s[i] as int < 128
  }

  /** `str::bytes` on ASCII text: one byte per character. */
  function AsciiBytes(s: string): (bs: seq<byte>)
    requires IsAscii(s)
    ensures |bs| == |s| && forall i :: 0 <= i < |s| ==> bs[i] == s[i] as int
  {
    seq(|s|, i requires 0 <= i < |s| => s[i] as int)
  }

  /** `k` holds the character codes of the first (up to) three characters
      of `s`, and zero past its end. */
  predicate KeyOf(k: Key, s: string) {
    forall i :: 0 <= i < 3 ==> k[i] == if i < |s| then s[i] as int else 0
  }

  /** `Node::new`: each key is read from the bytes of its text. */
  function NewNode(key: string, left: string, right: string): (n: Node)
    requires IsAscii(key) && IsAscii(left) && IsAscii(right)
    ensures KeyOf(n.key, key) && KeyOf(n.left, left) && KeyOf(n.right, right)
  {
    Node(Utf3(AsciiBytes(key)), Utf3(AsciiBytes(left)), Utf3(AsciiBytes(right)))
  }

  /** `s` starts with a node line, and `n` holds the bytes of its key, its
      left key and its right key. */
  ghost predicate IsNodeText(s: string, n: Node) {
    exists key, left, right, rest ::
      && |key| == 3 && |left| == 3 && |right| == 3
      && s == NodeLine(key, left, right) + rest
      && IsAscii(key) && IsAscii(left) && IsAscii(right)
      && n == Node(AsciiBytes(key), AsciiBytes(left), AsciiBytes(right))
  }

  /** `Node::from_str`: the parsed node, or an input-value error. */
  function NodeFromStr(s: string): (r: Result<Node, AoCError>)
    requires IsAscii(s)
    ensures r.Err? <==> NodeParser(s).None?
    ensures r.Err? ==> r.error == InputValueError
    ensures r.Ok? ==> IsNodeText(s, r.value)
  {
    match NodeParser(s)
    case None => Err(InputValueError)
    case Some((rest, (key, left, right))) =>
      AsciiParts(key, left, right, s);
      assert |key| == 3 && |left| == 3 && |right| == 3 && s == NodeLine(key, left, right) + rest;
      Ok(NewNode(key, left, right))
  }

  /** The parts of an ASCII node line are ASCII. */
  lemma AsciiParts(key: string, left: string, right: string, s: string)
    requires IsAscii(s) && NodeLine(key, left, right) <= s
    ensures IsAscii(key) && IsAscii(left) && IsAscii(right)
  {
    var line := NodeLine(key, left, right);
    forall i | 0 <= i < |key| ensures key[i] as int < 128 {
      assert key[i] == line[i] == s[i];
    }
    forall i | 0 <= i < |left| ensures left[i] as int < 128 {
      assert left[i] == line[|key| + 4 + i] == s[|key| + 4 + i];
    }
    forall i | 0 <= i < |right| ensures right[i] as int < 128 {
      assert right[i] == line[|key| + 4 + |left| + 2 + i] == s[|key| + 4 + |left| + 2 + i];
    }
  }

  /** A node line of ASCII keys reads as the node holding those keys' bytes,
      whatever follows it. */
  lemma NodeFromLine(key: string, left: string, right: string, rest: string)
    requires |key| == 3 && |left| == 3 && |right| == 3
    requires IsAscii(key) && IsAscii(left) && IsAscii(right)
    requires IsAscii(NodeLine(key, left, right) + rest)
    ensures NodeFromStr(NodeLine(key, left, right) + rest).Ok?
    ensures NodeFromStr(NodeLine(key, left, right) + rest).value
      == Node(AsciiBytes(key), AsciiBytes(left), AsciiBytes(right))
  {
    var line := NodeLine(key, left, right) + rest;
    NodeParserRoundTrip(key, left, right, rest);
    AsciiParts(key, left, right, line);
  }

  /** The node of the test line: the character codes of "AAA", "BBB" and "CCC". */
  const ExampleNodeKeys := Node([65, 65, 65], [66, 66, 66], [67, 67, 67])

  /** The line of the test: "AAA = (BBB, CCC)". */
  lemma ExampleNode(line: string)
    requires line == "AAA = (BBB, CCC)"
    ensures NodeParser(line) == Some(("", ("AAA", "BBB", "CCC")))
    ensures IsAscii(line) && NodeFromStr(line) == Ok(ExampleNodeKeys)
  {
    var key, left, right := "AAA", "BBB", "CCC";
    assert line == NodeLine(key, left, right);
    assert line + "" == line;
    NodeParserRoundTrip(key, left, right, "");
    AsciiTriple(key, 'A');
    AsciiTriple(left, 'B');
    AsciiTriple(right, 'C');
    AsciiLine(key, left, right);
    NodeFromLine(key, left, right, "");
  }

  /** Three copies of one ASCII character are three copies of its byte. */
  lemma AsciiTriple(s: string, c: char)
    requires s == [c, c, c] && c as int < 128
    ensures IsAscii(s) && AsciiBytes(s) == [c as int, c as int, c as int]
  {
  }

  /** A node line over ASCII keys is ASCII. */
  lemma AsciiLine(key: string, left: string, right: string)
    requires IsAscii(key) && IsAscii(left) && IsAscii(right)
    ensures IsAscii(NodeLine(key, left, right))
  {
  }

  // ---------------------------------------------------------------------
  // NodeStream
  // ---------------------------------------------------------------------

  predicate IsTurn(b: byte) {
    b == LeftByte || b == RightByte
  }

  /** Where one key goes on one instruction: a key without a node goes to the zero key. */
  function Successor(m: map<Key, Node>, k: Key, ins: byte): (r: Key)
    requires k in m ==> IsTurn(ins)
  {
    if k !in m then ZeroKey
    else if ins == LeftByte then m[k].left
    else m[k].right
  }

  /** Whether some current key has a node, so that the instruction is read. */
  predicate AnyKnown(m: map<Key, Node>, keys: seq<Key>) {
    exists i :: 0 <= i < |keys| && keys[i] in m
  }

  /** Every key takes its own successor; the number of keys stays the same. */
  function Step(m: map<Key, Node>, keys: seq<Key>, ins: byte): (r: seq<Key>)
    requires AnyKnown(m, keys) ==> IsTurn(ins)
    ensures |r| == |keys|
    ensures forall i :: 0 <= i < |keys| ==> r[i] == Successor(m, keys[i], ins)
  {
    seq(|keys|, i requires 0 <= i < |keys| => Successor(m, keys[i], ins))
  }

  /** Keys walk independently: stepping two lists together steps each on its own. */
  lemma StepSplits(m: map<Key, Node>, a: seq<Key>, b: seq<Key>, ins: byte)
    requires IsTurn(ins)
    ensures Step(m, a + b, ins) == Step(m, a, ins) + Step(m, b, ins)
  {
    var whole, left, right := Step(m, a + b, ins), Step(m, a, ins), Step(m, b, ins);
    forall i | 0 <= i < |a + b| ensures whole[i] == (left + right)[i] {
      if i >= |a| {
        assert (a + b)[i] == b[i - |a|];
      }
    }
  }

  /** Once no current key has a node, every key becomes the zero key, so the following `next` stops. */
  lemma StepWithoutNodes(m: map<Key, Node>, keys: seq<Key>, ins: byte)
    requires !AnyKnown(m, keys)
    ensures forall i :: 0 <= i < |keys| ==> Step(m, keys, ins)[i] == ZeroKey
    ensures |keys| > 0 ==> ZeroKey in Step(m, keys, ins)
  {
    if |keys| > 0 {
      assert Step(m, keys, ins)[0] == ZeroKey;
    }
  }

  /** The instruction index after `idx`: one further, back to 0 at the end. */
  function NextIndex(idx: nat, len: nat): nat {
    if idx + 1 == len then 0 else idx + 1
  }

  /** Over a non-empty instruction list, the index after `n` steps from 0 is `n` modulo its length. */
  lemma NextIndexCycles(n: nat, len: nat)
    requires len > 0
    ensures NextIndex(n % len, len) == (n + 1) % len
  {
    var q, r := n / len, n % len;
    assert n == q * len + r;
    if r + 1 == len {
      assert n + 1 == (q + 1) * len + 0;
      ModUnique(n + 1, len, q + 1, 0);
    } else {
      assert n + 1 == q * len + (r + 1);
      ModUnique(n + 1, len, q, r + 1);
    }
  }

  /** The remainder is the unique `r` in `[0, len)` with `n == q * len + r`. */
  lemma ModUnique(n: nat, len: nat, q: nat, r: nat)
    requires 0 <= r < len && n == q * len + r
    ensures n % len == r
  {
    var q', r' := n / len, n % len;
    assert q' * len + r' == q * len + r;
    if q' < q {
      assert q * len - q' * len == (q - q') * len;
      MulAtLeast(q - q', len);
    } else if q' > q {
      assert q' * len - q * len == (q' - q) * len;
      MulAtLeast(q' - q, len);
    }
  }

  /** A positive multiple of `b` is at least `b`. */
  lemma {:induction false} MulAtLeast(a: nat, b: nat)
    requires a >= 1
    ensures a * b >= b
  {
    if a > 1 {
      MulAtLeast(a - 1, b);
      assert a * b == (a - 1) * b + b;
    }
  }

  class NodeStream {
    const m: map<Key, Node>
    var nextKeys: seq<Key>
    const ixBytes: seq<byte>
    var idx: nat
    /** How many steps the stream has taken. */
    ghost var steps: nat

    /** The instruction index is the step count, modulo the instruction count. */
    ghost predicate Valid()
      reads this
    {
      |ixBytes| > 0 ==> idx == steps % |ixBytes|
    }

    /** Whether `next` can read the instruction it needs, when it needs one. */
    predicate CanStep()
      reads this
    {
      ZeroKey in nextKeys || !AnyKnown(m, nextKeys)
      || (idx < |ixBytes| && IsTurn(ixBytes[idx]))
    }

    /** The instruction at `idx`; read only when some current key has a node. */
    function CurrentInstruction(): byte
      reads this
    {
      if idx < |ixBytes| then ixBytes[idx] else LeftByte
    }

    /** `NodeStream::new`: starts at the given keys and at the first instruction. */
    constructor (nodeMap: map<Key, Node>, startKeys: seq<Key>, ix: seq<byte>)
      ensures m == nodeMap && nextKeys == startKeys && ixBytes == ix
      ensures idx == 0 && steps == 0
      ensures Valid()
    {
      m := nodeMap;
      nextKeys := startKeys;
      ixBytes := ix;
      idx := 0;
      steps := 0;
    }

    /**
     * `next`: stops (and changes nothing) once a current key is the zero
     * key; otherwise returns the current keys, moves each to its successor
     * under the current instruction and advances the instruction index.
     */
    method Next() returns (r: Option<seq<Key>>)
      requires Valid() && CanStep()
      modifies this
      ensures Valid()
      ensures old(ZeroKey in nextKeys) ==> r == None && unchanged(this)
      ensures !old(ZeroKey in nextKeys) ==>
        && r == Some(old(nextKeys))
        && nextKeys == Step(m, old(nextKeys), old(CurrentInstruction()))
        && idx == NextIndex(old(idx), |ixBytes|)
        && steps == old(steps) + 1
    {
      if ZeroKey in nextKeys {
        return None;
      }
      var stepped := Step(m, nextKeys, CurrentInstruction());
      if |ixBytes| > 0 {
        NextIndexCycles(steps, |ixBytes|);
      }
      idx := NextIndex(idx, |ixBytes|);
      steps := steps + 1;
      var retKey := nextKeys;
      nextKeys := stepped;
      return Some(retKey);
    }
  }
}
