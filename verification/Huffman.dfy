/** The static Huffman tree and the bit table built from it
    (src/Compression.cxx). A node holds two children; a positive child is the
    index of another node, any other child c is the leaf of symbol -c. */
module Huffman {
  import opened Bits
  import opened Seqs

  const NODES := 0x100
  const SYMBOLS := 0x101
  const FLUSH := 0x100

  datatype Node = Node(left: int, right: int)

  /** One of the 512 child fields of the tree. */
  datatype Slot = Slot(pos: nat, bit: bool)

  /** The bit 1 selects the left child, the bit 0 the right one. */
  function Child(n: Node, bit: bool): int {
    if bit then n.left else n.right
  }

  /** For every node but the root and for every symbol, the field that holds it. */
  datatype Parents = Parents(node: seq<Slot>, leaf: seq<Slot>)

  ghost predicate Parented(t: seq<Node>, p: Parents) {
    && |t| == NODES && |p.node| == NODES && |p.leaf| == SYMBOLS
    && (forall n :: 1 <= n < NODES ==>
          p.node[n].pos < n && Child(t[p.node[n].pos], p.node[n].bit) == n)
    && (forall s :: 0 <= s < SYMBOLS ==>
          p.leaf[s].pos < NODES && Child(t[p.leaf[s].pos], p.leaf[s].bit) == -s)
  }

  /** The bits on the way from the root to node n. */
  ghost function Path(t: seq<Node>, p: Parents, n: nat): seq<bool>
    requires Parented(t, p) && n < NODES
    decreases n
  {
    if n == 0 then [] else Path(t, p, p.node[n].pos) + [p.node[n].bit]
  }

  /** The bits on the way from the root to the leaf of symbol s. */
  ghost function Code(t: seq<Node>, p: Parents, s: nat): (r: seq<bool>)
    requires Parented(t, p) && s < SYMBOLS
  {
    Path(t, p, p.leaf[s].pos) + [p.leaf[s].bit]
  }

  /** No leaf directly below the root and no node deeper than 10, so that every
      code has 2 to 11 bits. */
  ghost predicate WellFormed(t: seq<Node>, p: Parents) {
    && Parented(t, p)
    && t[0].left > 0 && t[0].right > 0
    && forall n :: 0 <= n < NODES ==> |Path(t, p, n)| <= 10
  }

  /** What the decoder needs to step safely. */
  ghost predicate Shape(t: seq<Node>) {
    && |t| == NODES
    && (forall i :: 0 <= i < NODES ==> -FLUSH <= t[i].left < NODES)
    && (forall i :: 0 <= i < NODES ==> -FLUSH <= t[i].right < NODES)
  }

  // ---- Counting: 257 leaves and 255 inner nodes fill all 512 fields ----

  ghost function ParentFields(p: Parents): (r: seq<Slot>)
    requires |p.node| == NODES && |p.leaf| == SYMBOLS
    ensures |r| == 2 * NODES
  {
    p.leaf + p.node[1..]
  }

  ghost function AllFields(): (r: seq<Slot>)
    ensures |r| == 2 * NODES
    ensures forall x: Slot :: x in r <==> x.pos < NODES
  {
    var r := seq(2 * NODES, k requires k >= 0 => Slot(k / 2, k % 2 == 1));
    assert forall x: Slot :: x.pos < NODES ==> x in r by {
      forall x: Slot | x.pos < NODES ensures x in r {
        assert r[2 * x.pos + (if x.bit then 1 else 0)] == x;
      }
    }
    r
  }

  lemma ParentField(t: seq<Node>, p: Parents, k: int)
    requires Parented(t, p) && 0 <= k < 2 * NODES
    ensures var x := ParentFields(p)[k];
            && x.pos < NODES
            && Child(t[x.pos], x.bit) == (if k < SYMBOLS then -k else k - FLUSH)
            && x == (if k < SYMBOLS then p.leaf[k] else p.node[k - FLUSH])
  {
    if k >= SYMBOLS {
      assert ParentFields(p)[k] == p.node[k - FLUSH];
    }
  }

  lemma ParentFieldsDistinct(t: seq<Node>, p: Parents)
    requires Parented(t, p)
    ensures var xs := ParentFields(p); forall i, j :: 0 <= i < j < |xs| ==> xs[i] != xs[j]
  {
    forall i, j | 0 <= i < j < 2 * NODES
      ensures ParentFields(p)[i] != ParentFields(p)[j]
    {
      ParentField(t, p, i);
      ParentField(t, p, j);
    }
  }

  /** Every field of the tree is the parent field of the node or symbol it
      holds: nothing is referenced twice and nothing lies outside the tree. */
  lemma FieldsAreParents(t: seq<Node>, p: Parents, x: Slot)
    requires Parented(t, p) && x.pos < NODES
    ensures var c := Child(t[x.pos], x.bit);
            if c > 0 then x.pos < c < NODES && p.node[c] == x
            else -FLUSH <= c && p.leaf[-c] == x
  {
    var xs, ys := ParentFields(p), AllFields();
    ParentFieldsDistinct(t, p);
    DistinctSize(xs);
    SeqSize(ys);
    var held, all := set y | y in xs, set y | y in ys;
    forall y | y in xs ensures y in ys {
      var k :| 0 <= k < |xs| && xs[k] == y;
      ParentField(t, p, k);
    }
    SubsetOfEqualSize(held, all);
    assert x in all;
    var k :| 0 <= k < |xs| && xs[k] == x;
    ParentField(t, p, k);
  }

  lemma ShapeOf(t: seq<Node>, p: Parents)
    requires Parented(t, p)
    ensures Shape(t)
  {
    forall i | 0 <= i < NODES
      ensures -FLUSH <= t[i].left < NODES && -FLUSH <= t[i].right < NODES
    {
      FieldsAreParents(t, p, Slot(i, true));
      FieldsAreParents(t, p, Slot(i, false));
    }
  }

  // ---- Codes as walks through the tree ----

  /** Walking from node pos along the bits reaches the leaf of s with the last
      bit, and no leaf before it. */
  ghost predicate Spells(t: seq<Node>, pos: nat, bits: seq<bool>, s: nat)
    requires Shape(t) && pos < NODES
    decreases |bits|
  {
    && bits != []
    && var c := Child(t[pos], bits[0]);
       if |bits| == 1 then -c == s else c > 0 && Spells(t, c, bits[1..], s)
  }

  lemma {:induction false} WalkPath(t: seq<Node>, p: Parents, n: nat, rest: seq<bool>, s: nat)
    requires Parented(t, p) && Shape(t) && n < NODES && rest != []
    requires Spells(t, n, rest, s)
    ensures Spells(t, 0, Path(t, p, n) + rest, s)
    decreases n
  {
    if n == 0 {
      assert Path(t, p, n) + rest == rest;
    } else {
      var x := p.node[n];
      assert ([x.bit] + rest)[1..] == rest;
      WalkPath(t, p, x.pos, [x.bit] + rest, s);
      assert Path(t, p, n) + rest == Path(t, p, x.pos) + ([x.bit] + rest);
    }
  }

  lemma CodeSpells(t: seq<Node>, p: Parents, s: nat)
    requires Parented(t, p) && Shape(t) && s < SYMBOLS
    ensures Spells(t, 0, Code(t, p, s), s)
  {
    WalkPath(t, p, p.leaf[s].pos, [p.leaf[s].bit], s);
  }

  lemma {:induction false} SpellsUnique(t: seq<Node>, pos: nat, a: seq<bool>, x: nat, b: seq<bool>, y: nat)
    requires Shape(t) && pos < NODES
    requires Spells(t, pos, a, x) && Spells(t, pos, b, y) && a <= b
    ensures a == b && x == y
    decreases |a|
  {
    if |a| != 1 {
      SpellsUnique(t, Child(t[pos], a[0]), a[1..], x, b[1..], y);
      assert a == [a[0]] + a[1..] && b == [b[0]] + b[1..];
    }
  }

  /** No code is a prefix of another symbol's code. */
  lemma PrefixFree(t: seq<Node>, p: Parents, a: nat, b: nat)
    requires Parented(t, p) && a < SYMBOLS && b < SYMBOLS
    ensures Code(t, p, a) <= Code(t, p, b) ==> a == b
  {
    ShapeOf(t, p);
    CodeSpells(t, p, a);
    CodeSpells(t, p, b);
    if Code(t, p, a) <= Code(t, p, b) {
      SpellsUnique(t, 0, Code(t, p, a), a, Code(t, p, b), b);
    }
  }

  lemma {:induction false} SomeCodeBelow(t: seq<Node>, p: Parents, n: nat, bits: seq<bool>) returns (s: nat)
    requires WellFormed(t, p) && n < NODES
    requires Path(t, p, n) <= bits && |bits| >= 11
    ensures s < SYMBOLS && Code(t, p, s) <= bits
    decreases NODES - n
  {
    var x := Slot(n, bits[|Path(t, p, n)|]);
    var c := Child(t[n], x.bit);
    FieldsAreParents(t, p, x);
    if c > 0 {
      assert Path(t, p, c) == Path(t, p, n) + [x.bit];
      s := SomeCodeBelow(t, p, c, bits);
    } else {
      s := -c;
    }
  }

  /** The code is complete: any eleven bits begin with exactly one code. */
  lemma Complete(t: seq<Node>, p: Parents, bits: seq<bool>)
    requires WellFormed(t, p) && |bits| >= 11
    ensures exists s :: 0 <= s < SYMBOLS && Code(t, p, s) <= bits
    ensures forall a, b | 0 <= a < SYMBOLS && 0 <= b < SYMBOLS ::
              Code(t, p, a) <= bits && Code(t, p, b) <= bits ==> a == b
  {
    var s := SomeCodeBelow(t, p, 0, bits);
    forall a: nat, b: nat | a < SYMBOLS && b < SYMBOLS
                  && Code(t, p, a) <= bits && Code(t, p, b) <= bits
      ensures a == b
    {
      if |Code(t, p, a)| <= |Code(t, p, b)| {
        PrefixFree(t, p, a, b);
      } else {
        PrefixFree(t, p, b, a);
      }
    }
  }

  lemma CodeLength(t: seq<Node>, p: Parents, s: nat)
    requires WellFormed(t, p) && s < SYMBOLS
    ensures 2 <= |Code(t, p, s)| <= 11
  {
    assert p.leaf[s].pos != 0;
  }

  // ---- The bit table ----

  datatype Encoded = Encoded(nBits: nat, value: nat)

  ghost function Entry(t: seq<Node>, p: Parents, s: nat): Encoded
    requires Parented(t, p) && s < SYMBOLS
  {
    Encoded(|Code(t, p, s)|, Val(Code(t, p, s)))
  }

  /** Is node n the node a or below it? */
  ghost predicate Below(t: seq<Node>, p: Parents, a: nat, n: nat)
    requires Parented(t, p) && n < NODES
    decreases n
  {
    n == a || (n != 0 && Below(t, p, a, p.node[n].pos))
  }

  lemma {:induction false} AllBelowRoot(t: seq<Node>, p: Parents, n: nat)
    requires Parented(t, p) && n < NODES
    ensures Below(t, p, 0, n)
    decreases n
  {
    if n != 0 {
      AllBelowRoot(t, p, p.node[n].pos);
    }
  }

  lemma {:induction false} BelowIsLater(t: seq<Node>, p: Parents, a: nat, n: nat)
    requires Parented(t, p) && n < NODES && Below(t, p, a, n)
    ensures a <= n
    decreases n
  {
    if n != a {
      BelowIsLater(t, p, a, p.node[n].pos);
    }
  }

  /** The nodes below a are a itself and those below one of its child nodes. */
  lemma {:induction false} BelowSplits(t: seq<Node>, p: Parents, a: nat, n: nat)
    requires Parented(t, p) && a < NODES && n < NODES
    ensures Below(t, p, a, n) <==>
            || n == a
            || (t[a].left > 0 && Below(t, p, t[a].left, n))
            || (t[a].right > 0 && Below(t, p, t[a].right, n))
    ensures !(t[a].left > 0 && Below(t, p, t[a].left, n)
              && t[a].right > 0 && Below(t, p, t[a].right, n))
    ensures t[a].left > 0 ==> !Below(t, p, t[a].left, a)
    ensures t[a].right > 0 ==> !Below(t, p, t[a].right, a)
    decreases n
  {
    FieldsAreParents(t, p, Slot(a, true));
    FieldsAreParents(t, p, Slot(a, false));
    var l, r := t[a].left, t[a].right;
    if l > 0 && Below(t, p, l, a) {
      BelowIsLater(t, p, l, a);
      assert false;
    }
    if r > 0 && Below(t, p, r, a) {
      BelowIsLater(t, p, r, a);
      assert false;
    }
    if n != 0 {
      BelowSplits(t, p, a, p.node[n].pos);
      FieldsAreParents(t, p, p.node[n]);
    }
  }

  ghost predicate Written(t: seq<Node>, p: Parents, a: nat, s: nat)
    requires Parented(t, p) && s < SYMBOLS
  {
    Below(t, p, a, p.leaf[s].pos)
  }

  /** The symbol that a field holds, or one below the node that it holds. */
  ghost predicate Hit(t: seq<Node>, p: Parents, child: int, s: nat)
    requires Parented(t, p) && s < SYMBOLS
  {
    if child > 0 then Written(t, p, child, s) else s == -child
  }

  lemma HitSplits(t: seq<Node>, p: Parents, pos: nat, s: nat)
    requires Parented(t, p) && pos < NODES && s < SYMBOLS
    ensures Written(t, p, pos, s) <==> Hit(t, p, t[pos].left, s) || Hit(t, p, t[pos].right, s)
    ensures !(Hit(t, p, t[pos].left, s) && Hit(t, p, t[pos].right, s))
  {
    FieldsAreParents(t, p, Slot(pos, true));
    FieldsAreParents(t, p, Slot(pos, false));
    BelowSplits(t, p, pos, p.leaf[s].pos);
  }

  method FollowChild(dest: array<Encoded>, t: seq<Node>, ghost p: Parents, ghost x: Slot,
                     child: int, nBits: nat, value: nat)
    returns (ghost writes: multiset<nat>)
    requires WellFormed(t, p) && dest.Length == SYMBOLS
    requires x.pos < NODES && child == Child(t[x.pos], x.bit)
    requires nBits == |Path(t, p, x.pos)| + 1 && value == Val(Path(t, p, x.pos) + [x.bit])
    modifies dest
    ensures forall s :: 0 <= s < SYMBOLS ==>
              && dest[s] == (if Hit(t, p, child, s) then Entry(t, p, s) else old(dest[s]))
              && writes[s] == (if Hit(t, p, child, s) then 1 else 0)
    decreases NODES - x.pos, 0
  {
    FieldsAreParents(t, p, x);
    if child <= 0 {
      dest[-child] := Encoded(nBits, value);
      writes := multiset{-child};
    } else {
      writes := FillBitTable(dest, t, p, child, nBits, value);
    }
  }

  /** Fills in the symbols below node pos, each of them once, and touches no
      other entry. The value is kept in 16 bits and the length in 8. */
  method FillBitTable(dest: array<Encoded>, t: seq<Node>, ghost p: Parents,
                      pos: nat, nBits: nat, value: nat)
    returns (ghost writes: multiset<nat>)
    requires WellFormed(t, p) && dest.Length == SYMBOLS && pos < NODES
    requires nBits == |Path(t, p, pos)| && value == Val(Path(t, p, pos))
    modifies dest
    ensures forall s :: 0 <= s < SYMBOLS ==>
              && dest[s] == (if Written(t, p, pos, s) then Entry(t, p, s) else old(dest[s]))
              && writes[s] == (if Written(t, p, pos, s) then 1 else 0)
    decreases NODES - pos, 1
  {
    var path := Path(t, p, pos);
    ChildValues(path);
    var n := (nBits + 1) % 0x100;
    var v := value * 2 % 0x1_0000;
    FieldsAreParents(t, p, Slot(pos, true));
    FieldsAreParents(t, p, Slot(pos, false));
    ghost var w1 := FollowChild(dest, t, p, Slot(pos, true), t[pos].left, n, v + 1);
    ghost var w0 := FollowChild(dest, t, p, Slot(pos, false), t[pos].right, n, v);
    writes := w1 + w0;
    forall s | 0 <= s < SYMBOLS
      ensures && dest[s] == (if Written(t, p, pos, s) then Entry(t, p, s) else old(dest[s]))
              && writes[s] == (if Written(t, p, pos, s) then 1 else 0)
    {
      HitSplits(t, p, pos, s);
    }
  }

  lemma ChildValues(path: seq<bool>)
    requires |path| <= 10
    ensures 2 * Val(path) + 1 < 0x1_0000
    ensures Val(path + [true]) == 2 * Val(path) + 1
    ensures Val(path + [false]) == 2 * Val(path)
  {
    ValBound(path);
    Pow2Monotone(|path|, 10);
    assert Pow2(10) == 1024;
    assert (path + [true])[..|path|] == path;
    assert (path + [false])[..|path|] == path;
  }

  /** The table holds every symbol's code. */
  ghost predicate IsBitTable(t: seq<Node>, p: Parents, table: seq<Encoded>)
    requires Parented(t, p)
  {
    && |table| == SYMBOLS
    && forall s :: 0 <= s < SYMBOLS ==> table[s] == Entry(t, p, s)
  }

  /** The whole table is filled, whatever it held before, with one write for
      each symbol. */
  method BuildBitTable(t: seq<Node>, ghost p: Parents) returns (table: seq<Encoded>, ghost writes: multiset<nat>)
    requires WellFormed(t, p)
    ensures IsBitTable(t, p, table)
    ensures forall s :: 0 <= s < SYMBOLS ==> writes[s] == 1
  {
    var dest := new Encoded[SYMBOLS](_ => Encoded(0, 0));
    writes := FillBitTable(dest, t, p, 0, 0, 0);
    forall s | 0 <= s < SYMBOLS ensures Written(t, p, 0, s) {
      AllBelowRoot(t, p, p.leaf[s].pos);
    }
    table := dest[..];
  }
}
