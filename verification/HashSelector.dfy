/** The consistent-hash selector: a 32-bit FNV-style hash and an index modulo the nodes. */
module HashSelector {
  import opened Basics
  import opened Errors

  /** A uint32 and a byte, as integers; multiplication wraps modulo 2^32. */
  type Word = x: int | 0 <= x < 0x1_0000_0000
  type Byte = x: int | 0 <= x < 256
  type Bytes = seq<Byte>

  const OFFSET: Word := 2166136261

  /** Bitwise exclusive or of the low `bits` bits. */
  function Xor(a: nat, b: nat, bits: nat): nat {
    if bits == 0 then 0 else 2 * Xor(a / 2, b / 2, bits - 1) + Differ(a, b)
  }

  /** The exclusive or of the lowest bits. */
  function Differ(a: nat, b: nat): nat { if a % 2 == b % 2 then 0 else 1 }

  lemma {:induction false} XorBounded(a: nat, b: nat, bits: nat)
    ensures Xor(a, b, bits) < Pow2(bits)
  {
    if bits == 0 {
    } else {
      XorBounded(a / 2, b / 2, bits - 1);
    }
  }

  lemma XorParts(a: nat, b: nat, bits: nat)
    requires bits > 0
    ensures Xor(a, b, bits) / 2 == Xor(a / 2, b / 2, bits - 1) && Xor(a, b, bits) % 2 == Differ(a, b)
  {
  }

  /** What was mixed in can be taken out again, from either side. */
  lemma {:induction false} XorCancels(a: nat, b: nat, bits: nat)
    requires a < Pow2(bits) && b < Pow2(bits)
    ensures Xor(Xor(a, b, bits), b, bits) == a && Xor(Xor(a, b, bits), a, bits) == b
  {
    if bits == 0 {
    } else {
      var x := Xor(a, b, bits);
      XorParts(a, b, bits);
      XorCancels(a / 2, b / 2, bits - 1);
      Reassemble(Xor(x, b, bits), x, b, a, bits);
      Reassemble(Xor(x, a, bits), x, a, b, bits);
    }
  }

  lemma Reassemble(r: nat, x: nat, y: nat, z: nat, bits: nat)
    requires bits > 0 && r == Xor(x, y, bits)
    requires Xor(x / 2, y / 2, bits - 1) == z / 2 && Differ(x, y) == z % 2
    ensures r == z
  {
    XorParts(x, y, bits);
  }

  lemma WordSize()
    ensures Pow2(25) == 33554432 && Pow2(32) == 0x1_0000_0000
  {
    assert Pow2(8) == 256;
    assert Pow2(16) == 65536;
    assert Pow2(24) == 16777216;
    assert Pow2(25) == 33554432;
  }

  /** `h ^ uint32(b)`. */
  function Mix(h: Word, b: Byte): Word {
    WordSize();
    XorBounded(h, b, 32);
    Xor(h, b, 32)
  }

  /** Multiplication by the FNV prime, and by its inverse modulo 2^32. */
  function Spread(h: Word): Word { (h * 16777619) % 0x1_0000_0000 }

  function Unspread(h: Word): Word { (h * 899433627) % 0x1_0000_0000 }

  function Step(h: Word, b: Byte): Word { Spread(Mix(h, b)) }

  function Unstep(h: Word, b: Byte): Word { Mix(Unspread(h), b) }

  function HashFrom(h: Word, key: Bytes): Word {
    if key == [] then h else Step(HashFrom(h, key[..|key| - 1]), key[|key| - 1])
  }

  method DefaultHash(key: Bytes) returns (hash: Word)
    ensures hash == HashFrom(OFFSET, key)
  {
    hash := OFFSET;
    for i := 0 to |key|
      invariant hash == HashFrom(OFFSET, key[..i])
    {
      assert key[..i + 1][..i] == key[..i];
      hash := Mix(hash, key[i]);
      hash := Spread(hash);
    }
    assert key[..|key|] == key;
  }

  lemma Residue(a: int, h: Word, k: int)
    requires a == h + k * 0x1_0000_0000
    ensures a % 0x1_0000_0000 == h
  {
  }

  lemma Quotient(a: int) returns (q: int)
    ensures a % 0x1_0000_0000 == a - q * 0x1_0000_0000
  {
    q := a / 0x1_0000_0000;
  }

  /** 16777619 * 899433627 == 1 + 3513497 * 2^32. */
  lemma SpreadInvertible(h: Word)
    ensures Unspread(Spread(h)) == h && Spread(Unspread(h)) == h
  {
    var q := Quotient(h * 16777619);
    Residue(Spread(h) * 899433627, h, h * 3513497 - q * 899433627);
    var p := Quotient(h * 899433627);
    Residue(Unspread(h) * 16777619, h, h * 3513497 - p * 16777619);
  }

  lemma MixInvolutive(h: Word, b: Byte)
    ensures Mix(Mix(h, b), b) == h
  {
    WordSize();
    XorCancels(h, b, 32);
  }

  lemma MixSeparates(h: Word, b: Byte, b': Byte)
    requires Mix(h, b) == Mix(h, b')
    ensures b == b'
  {
    WordSize();
    XorCancels(h, b, 32);
    XorCancels(h, b', 32);
  }

  /** Each byte step is a bijection on the 32-bit states. */
  lemma StepBijective(h: Word, b: Byte)
    ensures Unstep(Step(h, b), b) == h && Step(Unstep(h, b), b) == h
  {
    SpreadInvertible(Mix(h, b));
    MixInvolutive(h, b);
    MixInvolutive(Unspread(h), b);
    SpreadInvertible(h);
  }

  lemma StepSeparatesBytes(h: Word, b: Byte, b': Byte)
    requires Step(h, b) == Step(h, b')
    ensures b == b'
  {
    SpreadInvertible(Mix(h, b));
    SpreadInvertible(Mix(h, b'));
    MixSeparates(h, b, b');
  }

  /** Different states stay different through any common tail. */
  lemma {:induction false} TailInjective(h: Word, h': Word, tail: Bytes)
    ensures HashFrom(h, tail) == HashFrom(h', tail) <==> h == h'
  {
    if tail == [] {
    } else {
      var p, b := tail[..|tail| - 1], tail[|tail| - 1];
      TailInjective(h, h', p);
      StepBijective(HashFrom(h, p), b);
      StepBijective(HashFrom(h', p), b);
    }
  }

  lemma {:induction false} HashAppend(h: Word, a: Bytes, b: Bytes)
    ensures HashFrom(h, a + b) == HashFrom(HashFrom(h, a), b)
  {
    if b == [] {
      assert a + b == a;
    } else {
      HashAppend(h, a, b[..|b| - 1]);
      assert (a + b)[..|a + b| - 1] == a + b[..|b| - 1];
    }
  }

  /** Keys of equal length that differ in exactly one byte never share a hash. */
  lemma OneByteMatters(key: Bytes, i: nat, b: Byte)
    requires i < |key|
    ensures HashFrom(OFFSET, key[i := b]) == HashFrom(OFFSET, key) <==> key[i] == b
  {
    var head, tail := key[..i], key[i + 1..];
    var h := HashFrom(OFFSET, head);
    assert key == head + [key[i]] + tail && key[i := b] == head + [b] + tail;
    HashAppend(OFFSET, head + [key[i]], tail);
    HashAppend(OFFSET, head + [b], tail);
    assert (head + [key[i]])[..i] == head && (head + [b])[..i] == head;
    TailInjective(Step(h, key[i]), Step(h, b), tail);
    if key[i] != b && Step(h, key[i]) == Step(h, b) {
      StepSeparatesBytes(h, key[i], b);
    }
  }

  type Node = nat

  /** The node a hash stands for. */
  function NodeOf(nodes: seq<Node>, hash: Word): Option<Node> {
    if nodes == [] then None else Some(nodes[hash % |nodes|])
  }

  lemma InRange(h: nat, n: nat)
    requires n > 0
    ensures 0 <= h % n < n && (h < n ==> h % n == h)
  {
  }

  /** Every node is chosen by some hash, and two hashes choose the same position exactly when
      they are congruent modulo the number of nodes. */
  lemma HashDecides(nodes: seq<Node>, i: nat, h: Word, h': Word)
    requires i < |nodes| <= 0x1_0000_0000
    ensures NodeOf(nodes, i) == Some(nodes[i])
    ensures Distinct(nodes) ==> (NodeOf(nodes, h) == NodeOf(nodes, h') <==> h % |nodes| == h' % |nodes|)
  {
    InRange(i, |nodes|);
    InRange(h, |nodes|);
    InRange(h', |nodes|);
    var a, b := h % |nodes|, h' % |nodes|;
    assert Distinct(nodes) ==> (nodes[a] == nodes[b] <==> a == b);
  }

  /** Known values of the hash: of the empty key and of "a". */
  lemma KnownHashes()
    ensures HashFrom(OFFSET, []) == 0x811c9dc5
    ensures HashFrom(OFFSET, [97]) == 0xe40c292c
  {
    assert [97][..0] == [];
    assert Mix(OFFSET, 97) == 0x811c9da4 by {
      XorOf97(OFFSET, 97);
    }
  }

  lemma {:induction false} XorZero(a: nat, bits: nat)
    requires a < Pow2(bits)
    ensures Xor(a, 0, bits) == a
  {
    if bits == 0 {
    } else {
      XorZero(a / 2, bits - 1);
    }
  }

  lemma XorStep(a: nat, b: nat, bits: nat, rest: nat)
    requires bits > 0 && Xor(a / 2, b / 2, bits - 1) == rest
    ensures Xor(a, b, bits) == 2 * rest + Differ(a, b)
  {
  }

  lemma XorOf97(a: nat, b: nat)
    requires a == 0x811c9dc5 && b == 97
    ensures Xor(a, b, 32) == 0x811c9da4
  {
    var a1, b1 := a / 2, b / 2;
    var a2, b2 := a1 / 2, b1 / 2;
    XorOf12(a2 / 2, b2 / 2);
    XorStep(a2, b2, 30, 270767028);
    XorStep(a1, b1, 31, 541534057);
    XorStep(a, b, 32, 1083068114);
  }

  /** The same without the lowest three bits. */
  lemma XorOf12(a: nat, b: nat)
    requires a == 270767032 && b == 12
    ensures Xor(a, b, 29) == 270767028
  {
    var a1, b1 := a / 2, b / 2;
    var a2, b2 := a1 / 2, b1 / 2;
    var a3, b3 := a2 / 2, b2 / 2;
    WordSize();
    XorZero(a3 / 2, 25);
    XorStep(a3, b3, 26, a3 / 2);
    XorStep(a2, b2, 27, 33845878);
    XorStep(a1, b1, 28, 67691757);
    XorStep(a, b, 29, 135383514);
  }

  class ConsistentHashSelector {
    var nodes: seq<Node>

    constructor ()
      ensures nodes == []
    {
      nodes := [];
    }

    /** Keeps its own copy of the given nodes. */
    method Apply(given: array<Node>)
      modifies this
      ensures nodes == given[..]
    {
      nodes := given[..];
    }

    /** `key` is the printed hash key of the context (a context without one prints as a fixed
        text); an empty key is replaced by the clock reading `clock`. */
    method Select(key: Bytes, clock: Bytes) returns (node: Option<Node>)
      ensures node.Some? <==> nodes != []
      ensures node.Some? ==> node.value in nodes
      ensures node == NodeOf(nodes, HashFrom(OFFSET, if key == [] then clock else key))
    {
      if |nodes| == 0 {
        return None;
      }
      var hash := DefaultHash(if key == [] then clock else key);
      var index := hash % |nodes|;
      node := Some(nodes[index]);
    }
  }
}
