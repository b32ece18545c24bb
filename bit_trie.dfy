/**
 * The bit trie that classifies an opcode byte (BitTrie in src/utility.rs,
 * duplicated in ep02/src/main.rs and src/structures.rs).
 *
 * Each node may hold a value and has at most two children, one per bit.
 * `insert(bits, len, val)` descends the low `len` bits of `bits`, most
 * significant first, creating missing nodes, and stores `val` at the node it
 * reaches. `match_bits(byte)` descends the byte's bits from bit 7 down and
 * returns the first node on the way that holds a value, together with the
 * number of bits consumed to reach it.
 *
 * The source keeps the children in a HashMap keyed by the bit; here a node
 * has a `zero` and a `one` child, and `Nil` stands for a child that does not
 * exist.
 */
module BitTrie {
  import opened Wrappers
  import opened Bits

  datatype Trie<V> = Nil | Node(value: Option<V>, zero: Trie<V>, one: Trie<V>)

  /** `BitTrie::default()`: a root with no value and no children. */
  function Empty<V>(): Trie<V>
  {
    Node(None, Nil, Nil)
  }

  /** `children.get(&bit)`, with Nil for a missing child (and below Nil). */
  function Child<V>(t: Trie<V>, bit: Bit): Trie<V>
  {
    match t
    case Nil => Nil
    case Node(_, zero, one) => if bit == 0 then zero else one
  }

  /** The node reached from t by following the path p (Nil if it does not exist). */
  function Descend<V>(t: Trie<V>, p: seq<Bit>): Trie<V>
    decreases |p|
  {
    if p == [] then t else Descend(Child(t, p[0]), p[1..])
  }

  /** The value stored at the node reached by p, None if there is no node or no value. */
  function ValueAt<V>(t: Trie<V>, p: seq<Bit>): Option<V>
  {
    match Descend(t, p)
    case Nil => None
    case Node(v, _, _) => v
  }

  /** The low `len` bits of `bits`, most significant first: the bits that
      `insert` visits as `(bits >> i) & 1` for i = len-1 down to 0. */
  function Path(bits: nat, len: nat): (p: seq<Bit>)
    ensures |p| == len
  {
    if len == 0 then [] else Path(bits / 2, len - 1) + [bits % 2]
  }

  /** The first k bits of a byte, most significant first: the path of
      `b >> (8 - k)` of length k. */
  function Prefix(b: Byte, k: nat): seq<Bit>
    requires k <= 8
  {
    Path(Shr(b, 8 - k), k)
  }

  // ---------------------------------------------------------------------
  // Paths

  /** Element j of a path is bit len-1-j of the number. */
  lemma {:induction false} PathBit(x: nat, len: nat, j: nat)
    requires j < len
    ensures Path(x, len)[j] == BitOf(x, len - 1 - j)
  {
    if j < len - 1 {
      PathBit(x / 2, len - 1, j);
      ShiftShift(x, 1, len - 2 - j);
    }
  }

  /** Two paths of numbers below 2^len are equal exactly when the numbers are. */
  lemma {:induction false} PathInjective(x: nat, y: nat, len: nat)
    requires x < Pow2(len) && y < Pow2(len)
    ensures Path(x, len) == Path(y, len) <==> x == y
  {
    if len > 0 && Path(x, len) == Path(y, len) {
      var px, py := Path(x / 2, len - 1), Path(y / 2, len - 1);
      assert px == Path(x, len)[..len - 1] && py == Path(y, len)[..len - 1];
      assert x % 2 == Path(x, len)[len - 1] && y % 2 == Path(y, len)[len - 1];
      PathInjective(x / 2, y / 2, len - 1);
    }
  }

  /** Only the low len bits of a number take part in its path. */
  lemma {:induction false} PathLowBits(x: nat, len: nat)
    ensures Path(x, len) == Path(x % Pow2(len), len)
  {
    if len > 0 {
      var m := Pow2(len - 1);
      PathLowBits(x / 2, len - 1);
      HalveModulo(x, m);
      assert Path(x % Pow2(len), len) == Path(x % (2 * m) / 2, len - 1) + [x % (2 * m) % 2];
    }
  }

  /** Halving commutes with reduction modulo an even number 2m. */
  lemma HalveModulo(x: nat, m: nat)
    requires m > 0
    ensures x % (2 * m) / 2 == x / 2 % m
    ensures x % (2 * m) % 2 == x % 2
  {
    var q, r := x / (2 * m), x % (2 * m);
    assert x == q * (2 * m) + r;
    assert x == 2 * (q * m + r / 2) + r % 2;
    DivUnique(x, 2, q * m + r / 2, r % 2);
    assert x / 2 == q * m + r / 2;
    DivUnique(x / 2, m, q, r / 2);
  }

  /** A shorter prefix of a byte is a prefix of a longer one. */
  lemma PrefixOfPrefix(b: Byte, k: nat, j: nat)
    requires k <= j <= 8
    ensures Prefix(b, j)[..k] == Prefix(b, k)
  {
    TakeIsPath(Shr(b, 8 - j), j, k);
    ShiftShift(b, 8 - j, j - k);
  }

  lemma {:induction false} TakeIsPath(x: nat, n: nat, k: nat)
    requires k <= n
    ensures Path(x, n)[..k] == Path(Shr(x, n - k), k)
    decreases n
  {
    if k < n {
      TakeIsPath(x / 2, n - 1, k);
      ShiftShift(x, 1, n - 1 - k);
    }
  }

  // ---------------------------------------------------------------------
  // Descending

  lemma {:induction false} DescendSnoc<V>(t: Trie<V>, p: seq<Bit>, bit: Bit)
    ensures Descend(t, p + [bit]) == Child(Descend(t, p), bit)
    decreases |p|
  {
    if p != [] {
      assert (p + [bit])[1..] == p[1..] + [bit];
      DescendSnoc(Child(t, p[0]), p[1..], bit);
    }
  }

  /** Below a missing node every node is missing. */
  lemma {:induction false} DescendNil<V>(t: Trie<V>, p: seq<Bit>, q: seq<Bit>)
    requires Descend(t, p) == Nil
    ensures Descend(t, p + q) == Nil
    decreases |p|
  {
    if p == [] {
      assert p + q == q;
      NilDescend<V>(q);
    } else {
      assert (p + q)[1..] == p[1..] + q;
      DescendNil(Child(t, p[0]), p[1..], q);
    }
  }

  lemma {:induction false} NilDescend<V>(q: seq<Bit>)
    ensures Descend<V>(Nil, q) == Nil
    decreases |q|
  {
    if q != [] {
      NilDescend<V>(q[1..]);
    }
  }

  // ---------------------------------------------------------------------
  // insert

  /** `insert` along an explicit path: descend p, creating missing nodes,
      and store v at the node reached, overwriting any value there. */
  function InsertPath<V>(t: Trie<V>, p: seq<Bit>, v: V): (r: Trie<V>)
    ensures r.Node?
    decreases |p|
  {
    var n := OrDefault(t);
    if p == [] then n.(value := Some(v))
    else if p[0] == 0 then n.(zero := InsertPath(n.zero, p[1..], v))
    else n.(one := InsertPath(n.one, p[1..], v))
  }

  /** After an insert, the node at the inserted path holds v (overwriting
      whatever it held) and every other node's value is what it was. */
  lemma {:induction false} InsertValueAt<V>(t: Trie<V>, p: seq<Bit>, v: V, q: seq<Bit>)
    ensures ValueAt(InsertPath(t, p, v), q) == if q == p then Some(v) else ValueAt(t, q)
    decreases |p|
  {
    var n := if t.Nil? then Empty<V>() else t;
    var r := InsertPath(t, p, v);
    if q == [] || p == [] {
      if q != [] {
        assert Child(r, q[0]) == Child(n, q[0]) == Child(t, q[0]);
      }
    } else {
      assert Descend(r, q) == Descend(Child(r, q[0]), q[1..]);
      assert Descend(t, q) == Descend(Child(t, q[0]), q[1..]);
      if q[0] == p[0] {
        InsertValueAt(Child(n, p[0]), p[1..], v, q[1..]);
        assert q == p <==> q[1..] == p[1..] by {
          if q[1..] == p[1..] {
            assert q == [q[0]] + q[1..] && p == [p[0]] + p[1..];
          }
        }
      } else {
        assert Child(r, q[0]) == Child(n, q[0]);
      }
    }
  }

  /** After an insert, a node exists exactly where one existed before or
      where the inserted path passes (insert creates the missing nodes). */
  lemma {:induction false} InsertCreates<V>(t: Trie<V>, p: seq<Bit>, v: V, q: seq<Bit>)
    ensures Descend(InsertPath(t, p, v), q).Node? <==> Descend(t, q).Node? || q <= p
    decreases |p|
  {
    var n := if t.Nil? then Empty<V>() else t;
    var r := InsertPath(t, p, v);
    if q == [] {
    } else if p == [] {
      assert Child(r, q[0]) == Child(t, q[0]);
    } else {
      assert Descend(r, q) == Descend(Child(r, q[0]), q[1..]);
      assert Descend(t, q) == Descend(Child(t, q[0]), q[1..]);
      if q[0] == p[0] {
        InsertCreates(Child(n, p[0]), p[1..], v, q[1..]);
        assert q <= p <==> q[1..] <= p[1..];
      } else {
        assert Child(r, q[0]) == Child(n, q[0]) == Child(t, q[0]);
      }
    }
  }

  /** `BitTrie::insert(bits, len, val)` on values: descend the low len bits
      of `bits`, most significant first, creating missing nodes, and store v
      at the node reached. A longer shift would overflow a u8, hence len <= 8. */
  function Insert<V>(t: Trie<V>, bits: Byte, len: nat, v: V): (r: Trie<V>)
    requires len <= 8
    ensures r.Node?
    ensures Descend(r, Path(bits, len)).Node?
  {
    InsertCreates(t, Path(bits, len), v, Path(bits, len));
    InsertPath(t, Path(bits, len), v)
  }

  /** A node as `entry(bit).or_default()` leaves it: a missing node becomes
      an empty one. */
  function OrDefault<V>(t: Trie<V>): (r: Trie<V>)
    ensures r.Node?
    ensures t.Node? ==> r == t
  {
    if t.Nil? then Empty() else t
  }

  /** `BitTrie::insert(bits, len, val)` as the source performs it: walk down
      from the root one bit at a time, `(bits >> i) & 1` for i = len-1 down to
      0, creating each missing child, then store the value in the node
      reached. Nodes are values here, so the nodes passed on the way down are
      kept and rebuilt on the way back up. */
  method InsertBits<V>(t: Trie<V>, bits: Byte, len: nat, v: V) returns (r: Trie<V>)
    requires len <= 8
    ensures r == Insert(t, bits, len, v)
  {
    ghost var p := Path(bits, len);
    var spine: seq<Trie<V>> := [];
    var node := OrDefault(t);
    var i := len;
    while i > 0
      invariant 0 <= i <= len
      invariant |spine| == len - i
      invariant forall m :: 0 <= m < |spine| ==> spine[m] == OrDefault(Descend(t, p[..m]))
      invariant node == OrDefault(Descend(t, p[..len - i]))
    {
      i := i - 1;
      var bit := Shr(bits, i) % 2;
      PathBit(bits, len, len - 1 - i);
      DescendSnoc(t, p[..len - 1 - i], bit);
      assert p[..len - i] == p[..len - 1 - i] + [bit];
      spine := spine + [node];
      node := OrDefault(Child(node, bit));
    }
    assert p[..len] == p;
    r := node.(value := Some(v));
    var j := len;
    while j > 0
      invariant 0 <= j <= len
      invariant r == InsertPath(Descend(t, p[..j]), p[j..], v)
    {
      j := j - 1;
      var bit := Shr(bits, len - 1 - j) % 2;
      PathBit(bits, len, j);
      InsertPathStep(t, p, j, v);
      r := if bit == 0 then spine[j].(zero := r) else spine[j].(one := r);
    }
    assert p[..0] == [] && p[0..] == p;
  }

  /** One level of InsertPath along p, seen from the node at depth j. */
  lemma InsertPathStep<V>(t: Trie<V>, p: seq<Bit>, j: nat, v: V)
    requires j < |p|
    ensures InsertPath(Descend(t, p[..j]), p[j..], v) ==
      var n := OrDefault(Descend(t, p[..j]));
      var below := InsertPath(Descend(t, p[..j + 1]), p[j + 1..], v);
      if p[j] == 0 then n.(zero := below) else n.(one := below)
  {
    DescendSnoc(t, p[..j], p[j]);
    assert p[..j + 1] == p[..j] + [p[j]];
    assert p[j..][1..] == p[j + 1..];
  }

  /** The key of a node: the path of x of length k, for x < 2^k. */
  type Key = (nat, nat)

  /** The trie t holds exactly the values of m: the node at the path of
      (x, k) holds m[(x, k)] when the key is in m and nothing otherwise. */
  ghost predicate Represents<V>(t: Trie<V>, m: map<Key, V>)
  {
    forall x: nat, k: nat {:trigger ValueAt(t, Path(x, k))} | x < Pow2(k) ::
      ValueAt(t, Path(x, k)) == if (x, k) in m then Some(m[(x, k)]) else None
  }

  /** The empty trie holds no value. */
  lemma EmptyRepresents<V>()
    ensures Represents(Empty<V>(), map[])
  {
    forall x: nat, k: nat | x < Pow2(k)
      ensures ValueAt(Empty<V>(), Path(x, k)) == None
    {
      if k > 0 {
        NilDescend<V>(Path(x, k)[1..]);
      }
    }
  }

  /** After `insert(bits, len, v)` the trie holds v under the key of the low
      len bits of `bits`, overwriting any value there, and every other value
      as it was. */
  lemma {:induction false} InsertRepresents<V>(t: Trie<V>, m: map<Key, V>, bits: Byte, len: nat, v: V)
    requires len <= 8
    requires Represents(t, m)
    ensures Represents(Insert(t, bits, len, v), m[(bits % Pow2(len), len) := v])
  {
    var r := Insert(t, bits, len, v);
    var m' := m[(bits % Pow2(len), len) := v];
    forall x: nat, k: nat | x < Pow2(k)
      ensures ValueAt(r, Path(x, k)) == if (x, k) in m' then Some(m'[(x, k)]) else None
    {
      InsertValueAt(t, Path(bits, len), v, Path(x, k));
      PathLowBits(bits, len);
      if k == len {
        PathInjective(x, bits % Pow2(len), len);
      }
    }
  }

  // ---------------------------------------------------------------------
  // match_bits

  /** The first node holding a value among those reached by the prefixes of
      b of lengths k..8, with the length of that prefix. */
  function MatchFrom<V>(t: Trie<V>, b: Byte, k: nat): (r: Option<(V, nat)>)
    requires 1 <= k <= 9
    ensures r.Some? ==>
      && k <= r.value.1 <= 8
      && ValueAt(t, Prefix(b, r.value.1)) == Some(r.value.0)
      && forall j :: k <= j < r.value.1 ==> ValueAt(t, Prefix(b, j)).None?
    ensures r.None? <==> forall j :: k <= j <= 8 ==> ValueAt(t, Prefix(b, j)).None?
    decreases 9 - k
  {
    if k == 9 then None
    else match ValueAt(t, Prefix(b, k))
      case Some(v) => Some((v, k))
      case None => MatchFrom(t, b, k + 1)
  }

  /** If the prefixes of b reach values exactly as c describes (at most one
      of them, the one of c's length, holding c's value), the match is c. */
  lemma MatchIs<V>(t: Trie<V>, b: Byte, c: Option<(V, nat)>)
    requires c.Some? ==> 1 <= c.value.1 <= 8
    requires forall k :: 1 <= k <= 8 ==>
      ValueAt(t, Prefix(b, k)) == if c.Some? && c.value.1 == k then Some(c.value.0) else None
    ensures FirstMatch(t, b) == c
  {
  }

  /** What `match_bits(b)` returns: the first prefix of b, of 1 to 8 bits,
      whose node holds a value, or None when no prefix does. */
  function FirstMatch<V>(t: Trie<V>, b: Byte): Option<(V, nat)>
  {
    MatchFrom(t, b, 1)
  }

  /** `BitTrie::match_bits`: walk the bits of b from bit 7 down, stop at a
      missing child, return at the first node that holds a value. */
  method MatchBits<V>(t: Trie<V>, b: Byte) returns (r: Option<(V, nat)>)
    ensures r == FirstMatch(t, b)
  {
    var node := t;
    var i := 8;
    while i > 0
      invariant 0 <= i <= 8
      invariant node == Descend(t, Prefix(b, 8 - i))
      invariant MatchFrom(t, b, 9 - i) == FirstMatch(t, b)
    {
      i := i - 1;
      var bit := Shr(b, i) % 2;
      PrefixStep(b, 7 - i);
      DescendSnoc(t, Prefix(b, 7 - i), bit);
      var next := Child(node, bit);
      if next.Nil? {
        MissingNodeEndsMatch(t, b, 8 - i);
        return None;
      }
      node := next;
      if node.value.Some? {
        return Some((node.value.value, 8 - i));
      }
    }
    return None;
  }

  lemma PrefixStep(b: Byte, m: nat)
    requires m < 8
    ensures Prefix(b, m + 1) == Prefix(b, m) + [BitOf(b, 7 - m)]
  {
    ShiftShift(b, 7 - m, 1);
  }

  /** Once the path of b leaves the trie at depth k, no prefix of length k or
      more holds a value, so the match from k on finds nothing. */
  lemma MissingNodeEndsMatch<V>(t: Trie<V>, b: Byte, k: nat)
    requires 1 <= k <= 8
    requires Descend(t, Prefix(b, k)) == Nil
    ensures MatchFrom(t, b, k) == None
  {
    forall j | k <= j <= 8
      ensures ValueAt(t, Prefix(b, j)).None?
    {
      PrefixOfPrefix(b, k, j);
      assert Prefix(b, j) == Prefix(b, k) + Prefix(b, j)[k..];
      DescendNil(t, Prefix(b, k), Prefix(b, j)[k..]);
    }
  }

  /** A trie holding one pattern: after a single insert of v under the low
      len bits of `bits` into an empty trie, a byte matches (v, len) exactly
      when its top len bits are those bits, and matches nothing otherwise. */
  lemma {:induction false} SingleInsertMatch<V>(bits: Byte, len: nat, v: V, b: Byte)
    requires 1 <= len <= 8
    ensures FirstMatch(Insert(Empty(), bits, len, v), b) ==
      if Shr(b, 8 - len) == bits % Pow2(len) then Some((v, len)) else None
  {
    var r := Insert(Empty(), bits, len, v);
    var key := (bits % Pow2(len), len);
    EmptyRepresents<V>();
    InsertRepresents(Empty(), map[], bits, len, v);
    var c := if Shr(b, 8 - len) == bits % Pow2(len) then Some((v, len)) else None;
    forall k | 1 <= k <= 8
      ensures ValueAt(r, Prefix(b, k)) == if c.Some? && c.value.1 == k then Some(v) else None
    {
      ShrBound(b, k);
      assert ValueAt(r, Path(Shr(b, 8 - k), k)) == if (Shr(b, 8 - k), k) == key then Some(v) else None;
    }
    MatchIs(r, b, c);
  }
}
