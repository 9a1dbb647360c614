/** Destroying a setting: the recursion over its children frees exactly the records below it, each once. */
module ConfigDestroy {
  import opened ConfigSettings
  import opened ConfigInvariant
  import opened Options

  /** The shape of memory when s has been unlinked from its parent: it hangs from nowhere, all else is in place. */
  ghost predicate Unlinked(m: Memory, s: nat) {
    && Live(m, s)
    && (forall i: nat {:trigger Rooted(m, i)} :: Live(m, i) && i != s ==> Rooted(m, i))
    && (forall i: nat, k: nat :: KidAt(m, i, k) ==> Linked(m, i, k))
    && (forall i: nat, k: nat, l: nat :: KidAt(m, i, k) && KidAt(m, i, l) ==> Apart(m, i, k, l))
  }

  ghost function Subtree(m: Memory, s: nat): set<nat> {
    set i: nat | i < |m| && Live(m, i) && Ancestor(m, s, i)
  }

  function Cleared(m: Memory, freed: set<nat>): (r: Memory)
    ensures |r| == |m|
  {
    seq(|m|, i requires 0 <= i < |m| => if i in freed then Freed else m[i])
  }

  lemma {:induction false} AncestorBefore(m: Memory, s: nat, i: nat)
    requires Ancestor(m, s, i)
    ensures s <= i
    decreases i
  {
    if s != i {
      AncestorBefore(m, s, m[i].parent.value);
    }
  }

  /** A setting cannot be below two children of one parent. */
  lemma {:induction false} OneChild(m: Memory, p: nat, a: nat, b: nat, i: nat)
    requires Live(m, a) && Live(m, b) && m[a].parent == m[b].parent == Some(p) && p < a && p < b
    requires Ancestor(m, a, i) && Ancestor(m, b, i)
    ensures a == b
    decreases i
  {
    if i == a && i != b {
      AncestorBefore(m, b, p);
    } else if i == b && i != a {
      AncestorBefore(m, a, p);
    } else if i != a {
      OneChild(m, p, a, b, m[i].parent.value);
    }
  }

  /** A setting below another is that one, or below one of its children. */
  lemma {:induction false} ThroughChild(m: Memory, s0: nat, s: nat, i: nat) returns (k: nat)
    requires Unlinked(m, s0) && Live(m, s) && Live(m, i) && s0 <= s && Ancestor(m, s, i) && i != s
    ensures KidAt(m, s, k) && Ancestor(m, Kids(m[s])[k], i)
    decreases i
  {
    AncestorBefore(m, s, i);
    var p := m[i].parent.value;
    assert Rooted(m, i);
    if p == s {
      k :| 0 <= k < |Kids(m[s])| && Kids(m[s])[k] == i;
    } else {
      k := ThroughChild(m, s0, s, p);
    }
  }

  lemma {:induction false} ChildBelow(m: Memory, s: nat, c: nat, i: nat)
    requires Live(m, c) && m[c].parent == Some(s) && s < c && Ancestor(m, c, i)
    ensures Ancestor(m, s, i)
    decreases i
  {
    if i != c {
      ChildBelow(m, s, c, m[i].parent.value);
    }
  }

  /** The records below the first children of a setting. */
  ghost function FirstSubtrees(m: Memory, s: nat, n: nat): set<nat>
    requires Live(m, s) && n <= |Kids(m[s])|
  {
    set i: nat, k: nat | i < |m| && k < n && i in Subtree(m, Kids(m[s])[k]) :: i
  }

  lemma {:induction false} NextChildFree(m: Memory, s0: nat, s: nat, n: nat)
    requires Unlinked(m, s0) && Live(m, s) && n < |Kids(m[s])|
    ensures FirstSubtrees(m, s, n) !! Subtree(m, Kids(m[s])[n])
    ensures FirstSubtrees(m, s, n + 1) == FirstSubtrees(m, s, n) + Subtree(m, Kids(m[s])[n])
  {
    assert KidAt(m, s, n);
    forall i | i in FirstSubtrees(m, s, n) && i in Subtree(m, Kids(m[s])[n])
      ensures false
    {
      var k: nat :| k < n && i in Subtree(m, Kids(m[s])[k]);
      assert KidAt(m, s, k);
      assert Linked(m, s, k) && Linked(m, s, n) && Apart(m, s, k, n);
      OneChild(m, s, Kids(m[s])[k], Kids(m[s])[n], i);
    }
  }

  lemma {:induction false} AllChildrenFree(m: Memory, s0: nat, s: nat)
    requires Unlinked(m, s0) && Live(m, s) && s0 <= s
    ensures Subtree(m, s) == FirstSubtrees(m, s, |Kids(m[s])|) + {s}
  {
    forall i | i in Subtree(m, s) && i != s
      ensures i in FirstSubtrees(m, s, |Kids(m[s])|)
    {
      var k := ThroughChild(m, s0, s, i);
      assert i in Subtree(m, Kids(m[s])[k]);
    }
    forall i | i in FirstSubtrees(m, s, |Kids(m[s])|)
      ensures i in Subtree(m, s)
    {
      var k: nat :| k < |Kids(m[s])| && i in Subtree(m, Kids(m[s])[k]);
      assert KidAt(m, s, k);
      assert Linked(m, s, k);
      ChildBelow(m, s, Kids(m[s])[k], i);
    }
  }

  lemma {:induction false} ChildInside(m: Memory, s0: nat, s: nat, k: nat)
    requires Unlinked(m, s0) && KidAt(m, s, k)
    ensures var c := Kids(m[s])[k];
            && s < c && Live(m, c) && Subtree(m, c) <= Subtree(m, s) && s !in Subtree(m, c)
  {
    assert Linked(m, s, k);
    var c := Kids(m[s])[k];
    forall i | i in Subtree(m, c)
      ensures i in Subtree(m, s) && i != s
    {
      ChildBelow(m, s, c, i);
      AncestorBefore(m, c, i);
    }
  }

  /** Freeing what is below a setting is what removing it does to memory. */
  lemma {:induction false} ClearedIsDestroyed(m: Memory, s: nat)
    requires Live(m, s)
    ensures Cleared(m, Subtree(m, s)) == Destroy(m, s)
  {
    forall i: nat | i < |m|
      ensures Cleared(m, Subtree(m, s))[i] == Destroy(m, s)[i]
    {
      assert i in Subtree(m, s) <==> Live(m, i) && Ancestor(m, s, i);
    }
  }

  /** Unlinking changes the parent's list of children, and nothing else. */
  lemma {:induction false} UnlinkKeeps(m: Memory, p: nat, k: nat, i: nat, l: nat) returns (l0: nat)
    requires Live(m, p) && k < |Kids(m[p])| && KidAt(Unlink(m, p, k), i, l)
    ensures KidAt(m, i, l0) && Kids(Unlink(m, p, k)[i])[l] == Kids(m[i])[l0] && (i == p ==> l0 != k)
    ensures l0 == if i == p && l >= k then l + 1 else l
  {
    l0 := if i == p && l >= k then l + 1 else l;
  }

  lemma {:induction false} UnlinkRecord(m: Memory, p: nat, k: nat, i: nat)
    requires Live(m, p) && k < |Kids(m[p])|
    ensures var m' := Unlink(m, p, k);
            && (Live(m', i) <==> Live(m, i))
            && (Live(m, i) ==> m'[i].stype == m[i].stype && m'[i].parent == m[i].parent && m'[i].name == m[i].name)
            && (Live(m, i) && i != p ==> m'[i] == m[i])
  {
  }

  lemma {:induction false} UnlinkRooted(m: Memory, p: nat, k: nat, i: nat)
    requires Invariant(m) && KidAt(m, p, k) && Live(m, i) && i != Kids(m[p])[k]
    ensures Rooted(Unlink(m, p, k), i)
  {
    UnlinkRecord(m, p, k, i);
    assert Rooted(m, i);
    if i != 0 {
      UnlinkRecord(m, p, k, m[i].parent.value);
      if m[i].parent.value == p {
        StillIn(Kids(m[p]), k, i);
      }
    }
  }

  lemma {:induction false} UnlinkLinked(m: Memory, p: nat, k: nat, i: nat, l: nat)
    requires Invariant(m) && KidAt(m, p, k) && KidAt(Unlink(m, p, k), i, l)
    ensures Linked(Unlink(m, p, k), i, l)
  {
    var l0 := UnlinkKeeps(m, p, k, i, l);
    KidFacts(m, i, l0);
    UnlinkRecord(m, p, k, i);
    UnlinkRecord(m, p, k, Kids(m[i])[l0]);
  }

  lemma {:induction false} UnlinkApart(m: Memory, p: nat, k: nat, i: nat, l: nat, n: nat)
    requires Invariant(m) && KidAt(m, p, k) && KidAt(Unlink(m, p, k), i, l) && KidAt(Unlink(m, p, k), i, n)
    ensures Apart(Unlink(m, p, k), i, l, n)
  {
    var l0 := UnlinkKeeps(m, p, k, i, l);
    var n0 := UnlinkKeeps(m, p, k, i, n);
    assert Apart(m, i, l0, n0);
    UnlinkRecord(m, p, k, i);
    UnlinkRecord(m, p, k, Kids(m[i])[l0]);
    UnlinkRecord(m, p, k, Kids(m[i])[n0]);
  }

  lemma {:induction false} AfterUnlink(m: Memory, p: nat, k: nat)
    requires Invariant(m) && KidAt(m, p, k)
    ensures Unlinked(Unlink(m, p, k), Kids(m[p])[k])
  {
    var m' := Unlink(m, p, k);
    var s := Kids(m[p])[k];
    KidFacts(m, p, k);
    UnlinkRecord(m, p, k, s);
    forall i: nat | Live(m', i) && i != s
      ensures Rooted(m', i)
    {
      UnlinkRecord(m, p, k, i);
      UnlinkRooted(m, p, k, i);
    }
    forall i: nat, l: nat | KidAt(m', i, l)
      ensures Linked(m', i, l)
    {
      UnlinkLinked(m, p, k, i, l);
    }
    forall i: nat, l: nat, n: nat | KidAt(m', i, l) && KidAt(m', i, n)
      ensures Apart(m', i, l, n)
    {
      UnlinkApart(m, p, k, i, l, n);
    }
  }
}
