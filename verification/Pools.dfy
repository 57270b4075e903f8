/** The pool of equivalent resources, shared out by number, with its one waker slot. */
module Pools {
  import opened Machine
  import opened BitSets

  predicate Numbered(n: nat, total: nat) {
    n < total
  }

  /** The numbers a pool shares out. */
  ghost function Below(total: nat): set<nat> {
    set n: nat | n < 32 && Numbered(n, total)
  }

  class Pool {
    const total: nat
    var bitmap: Word
    var waker: Option<nat>
    /** The numbers of the `Pooled` values in existence. */
    ghost var live: set<nat>
    /** The task whose poll was the latest to be left pending, and whether it was woken since. */
    ghost var pending: Option<nat>
    ghost var woken: bool

    /** The bits are exactly the live numbers, all below the total; and the latest task left
      * pending has been woken, or is still registered with nothing freed since.
      */
    ghost predicate Valid()
      reads this
    {
      && total <= 32
      && Members(bitmap) == live <= Below(total)
      && (pending.Some? && !woken ==> waker == pending && live == Below(total))
    }

    constructor (total: nat)
      requires total <= 32
      ensures Valid() && live == {} && this.total == total && pending == None
    {
      this.total := total;
      bitmap := Zero();
      waker := None;
      live, pending, woken := {}, None, false;
      new;
      assert Members(bitmap) == {};
    }

    /** The least free number, unless every one is taken. */
    method AllocInternal() returns (r: Option<nat>)
      requires total <= 32 && Members(bitmap) == live <= Below(total)
      modifies this`bitmap, this`live
      ensures Members(bitmap) == live <= Below(total)
      ensures r.None? <==> old(live) == Below(total)
      ensures r.None? ==> live == old(live)
      ensures r.Some? ==>
        && r.value < total && r.value !in old(live) && live == old(live) + {r.value}
        && forall n: nat :: n < r.value ==> n in old(live)
    {
      var bits := new BitSet(bitmap);
      var n := bits.SetAny();
      if n.None? {
        assert live == Below(total);
        return None;
      }
      if n.value >= total {
        assert live == Below(total);
        return None;
      }
      assert n.value in Below(total);
      bitmap := bits.bits;
      live := live + {n.value};
      return n;
    }

    /** `Drop` of a `Pooled`: the number is free again, and whoever is registered is woken. */
    method DeallocInternal(n: nat) returns (wakes: Option<nat>)
      requires Valid() && n in live
      modifies this`bitmap, this`live, this`waker, this`woken
      ensures Valid()
      ensures live == old(live) - {n} && waker == None
      ensures wakes == old(waker)
      ensures pending.Some? && !old(woken) ==> wakes == pending && woken
    {
      var bits := new BitSet(bitmap);
      bits.Clear(n);
      bitmap := bits.bits;
      live := live - {n};
      wakes := waker;
      waker := None;
      woken := woken || wakes == pending;
    }

    method TryAlloc() returns (r: Option<nat>)
      requires Valid()
      modifies this`bitmap, this`live
      ensures Valid()
      ensures r.None? <==> old(live) == Below(total)
      ensures r.None? ==> live == old(live)
      ensures r.Some? ==> r.value < total && r.value !in old(live) && live == old(live) + {r.value}
    {
      r := AllocInternal();
    }

    /** `PoolFuture::poll` by the task `task`: None is Poll::Pending. */
    method Poll(task: nat) returns (r: Option<nat>)
      requires Valid()
      modifies this
      ensures Valid()
      ensures r.None? <==> old(live) == Below(total)
      ensures r.Some? ==> r.value < total && r.value !in old(live) && live == old(live) + {r.value}
      ensures r.None? ==> live == old(live) && pending == Some(task) && !woken && waker == Some(task)
      ensures r.Some? ==> pending == old(pending) && woken == old(woken)
    {
      waker := Some(task);
      r := AllocInternal();
      if r.None? {
        pending, woken := Some(task), false;
      }
    }
  }
}
