/** A set of integers below 32 kept in one machine word. A word is modelled by its
  * bits, least significant first.
  */
module BitSets {
  import opened Machine

  type Word = w: seq<bool> | |w| == 32 witness seq(32, _ => false)

  function Zero(): Word {
    seq(32, _ => false)
  }

  ghost function Members(w: Word): set<nat> {
    set n: nat | n < 32 && w[n]
  }

  /** `trailing_ones` (or `trailing_zeros`): how many leading positions hold `bit`. */
  function Trailing(w: seq<bool>, bit: bool): (n: nat)
    ensures n <= |w|
    ensures forall i :: 0 <= i < n ==> w[i] == bit
    ensures n < |w| ==> w[n] != bit
  {
    if w == [] || w[0] != bit then 0 else 1 + Trailing(w[1..], bit)
  }

  lemma MembersSet(w: Word, n: nat)
    requires n < 32
    ensures Members(w[n := true]) == Members(w) + {n}
    ensures Members(w[n := false]) == Members(w) - {n}
  {
  }

  /** Two words with the same members are the same word. */
  lemma MembersInjective(v: Word, w: Word)
    requires Members(v) == Members(w)
    ensures v == w
  {
    assert forall n: nat :: n < 32 ==> (v[n] <==> n in Members(v));
    assert forall n: nat :: n < 32 ==> (w[n] <==> n in Members(w));
  }

  class BitSet {
    var bits: Word

    constructor (bits: Word)
      ensures this.bits == bits
    {
      this.bits := bits;
    }

    method Set(n: nat)
      requires n < 32
      modifies this
      ensures Members(bits) == old(Members(bits)) + {n}
    {
      MembersSet(bits, n);
      bits := bits[n := true];
    }

    method Clear(n: nat)
      requires n < 32
      modifies this
      ensures Members(bits) == old(Members(bits)) - {n}
    {
      MembersSet(bits, n);
      bits := bits[n := false];
    }

    /** Adds the least absent integer, unless all 32 are present. */
    method SetAny() returns (r: Option<nat>)
      modifies this
      ensures r.None? <==> forall n: nat :: n < 32 ==> n in old(Members(bits))
      ensures r.None? ==> bits == old(bits)
      ensures r.Some? ==>
        && r.value < 32 && r.value !in old(Members(bits))
        && (forall n: nat :: n < r.value ==> n in old(Members(bits)))
        && Members(bits) == old(Members(bits)) + {r.value}
    {
      var next := Trailing(bits, true);
      if next >= 32 {
        return None;
      }
      Set(next);
      return Some(next);
    }

    predicate Contains(n: nat)
      requires n < 32
      reads this
      ensures Contains(n) <==> n in Members(bits)
    {
      bits[n]
    }

    method Iter() returns (it: BitIterator)
      ensures fresh(it) && it.bits == bits
    {
      it := new BitIterator(bits);
    }
  }

  class BitIterator {
    var bits: Word

    constructor (bits: Word)
      ensures this.bits == bits
    {
      this.bits := bits;
    }

    /** The least member not yet produced. */
    method Next() returns (r: Option<nat>)
      modifies this
      ensures r.None? <==> old(Members(bits)) == {}
      ensures r.Some? ==>
        && r.value in old(Members(bits))
        && (forall n :: n in old(Members(bits)) ==> r.value <= n)
        && Members(bits) == old(Members(bits)) - {r.value}
    {
      var n := Trailing(bits, false);
      if n >= 32 {
        assert Members(bits) == {};
        return None;
      }
      MembersSet(bits, n);
      assert n in Members(bits);
      bits := bits[n := false];
      return Some(n);
    }
  }

  /** Draining an iterator yields the set's members, each once, in increasing order. */
  method Drain(it: BitIterator) returns (items: seq<nat>)
    modifies it
    ensures forall i, j :: 0 <= i < j < |items| ==> items[i] < items[j]
    ensures (set x | x in items) == old(Members(it.bits))
  {
    items := [];
    ghost var all := Members(it.bits);
    while true
      invariant forall i, j :: 0 <= i < j < |items| ==> items[i] < items[j]
      invariant forall x, y :: x in items && y in Members(it.bits) ==> x < y
      invariant (set x | x in items) + Members(it.bits) == all
      decreases Members(it.bits)
    {
      ghost var rest := Members(it.bits);
      var n := it.Next();
      if n.None? {
        return;
      }
      ghost var before := items;
      assert n.value in rest;
      assert forall x :: x in before ==> x < n.value;
      assert forall i :: 0 <= i < |before| ==> before[i] in before;
      items := items + [n.value];
      assert (set x | x in items) == (set x | x in before) + {n.value};
    }
  }
}
