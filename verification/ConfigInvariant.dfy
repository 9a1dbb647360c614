/** The shape of the tree in memory, kept by every operation. */
module ConfigInvariant {
  import opened ConfigSettings
  import opened Options

  predicate IsScalarType(t: SettingType) {
    t == TINT || t == TINT64 || t == TFLOAT || t == TSTRING || t == TBOOL
  }

  predicate KidAt(m: Memory, i: nat, k: nat) {
    Live(m, i) && k < |Kids(m[i])|
  }

  /** A child lies behind its parent in memory, points back to it, and has a valid name if and only if that is a group. */
  predicate Linked(m: Memory, i: nat, k: nat)
    requires KidAt(m, i, k)
  {
    var c := Kids(m[i])[k];
    && i < c && Live(m, c) && m[c].parent == Some(i)
    && if m[i].stype == TGROUP then m[c].name.Some? && ValidName(m[c].name.value) else m[c].name.None?
  }

  /** Two children are different settings, of different names in a group and of one scalar type in an array. */
  predicate Apart(m: Memory, i: nat, k: nat, l: nat)
    requires KidAt(m, i, k) && KidAt(m, i, l)
  {
    var a, b := Kids(m[i])[k], Kids(m[i])[l];
    && Live(m, a) && Live(m, b)
    && (k != l ==> a != b && (m[i].stype == TGROUP ==> m[a].name != m[b].name))
    && (m[i].stype == TARRAY ==> IsScalarType(m[a].stype) && m[a].stype == m[b].stype)
  }

  /** Only aggregates have elements; every setting but the root is a child of its parent. */
  predicate Rooted(m: Memory, i: nat)
    requires Live(m, i)
  {
    && (m[i].value.Elements? <==> IsAggregate(m[i].stype) && !m[i].value.Zero?)
    && if i == 0 then m[i].parent == None && m[i].stype == TGROUP && m[i].name == None
       else
         && m[i].parent.Some? && m[i].parent.value < i && Live(m, m[i].parent.value)
         && i in Kids(m[m[i].parent.value])
  }

  ghost predicate Invariant(m: Memory) {
    && Live(m, 0)
    && (forall i: nat {:trigger Rooted(m, i)} :: Live(m, i) ==> Rooted(m, i))
    && (forall i: nat, k: nat :: KidAt(m, i, k) ==> Linked(m, i, k))
    && (forall i: nat, k: nat, l: nat :: KidAt(m, i, k) && KidAt(m, i, l) ==> Apart(m, i, k, l))
  }

  lemma {:induction false} KidFacts(m: Memory, p: nat, k: nat)
    requires Invariant(m) && KidAt(m, p, k)
    ensures Linked(m, p, k) && Rooted(m, p) && IsAggregate(m[p].stype)
  {
  }

  // ----- A new child

  /** What a new child must be like. */
  predicate Fits(m: Memory, p: nat, name: Option<string>, t: SettingType)
    requires Live(m, p)
  {
    && IsAggregate(m[p].stype)
    && (if m[p].stype == TGROUP then name.Some? && ValidName(name.value) && FindMember(m, p, name.value).None? else name.None?)
    && (m[p].stype == TARRAY ==> IsScalarType(t) && CheckType(m, p, t))
  }

  lemma {:induction false} HeadOfName(s: string)
    requires forall i :: 0 <= i < |s| ==> NameChar(s[i])
    ensures Head(s) == s
    decreases |s|
  {
    if s != "" {
      HeadOfName(s[1..]);
      assert s == [s[0]] + s[1..];
    }
  }

  /** On valid names the comparison is equality. */
  lemma {:induction false} ValidNameHead(s: string)
    requires ValidName(s)
    ensures Head(s) == s
  {
    forall i | 0 <= i < |s|
      ensures NameChar(s[i])
    {
    }
    HeadOfName(s);
  }

  lemma {:induction false} NewName(m: Memory, p: nat, name: string, k: nat)
    requires Invariant(m) && KidAt(m, p, k) && m[p].stype == TGROUP && FindMember(m, p, name).None?
    ensures Linked(m, p, k) && m[Kids(m[p])[k]].name != Some(name)
  {
    assert Linked(m, p, k);
    assert !HasName(m, Kids(m[p])[k], name);
  }

  /** Memory after a new record is linked as the last child of p. */
  predicate Grown(m: Memory, p: nat, e: Setting, m': Memory)
    requires Live(m, p)
  {
    m' == m[p := m[p].(value := Elements(Kids(m[p]) + [|m|]))] + [e]
  }

  lemma {:induction false} GrownOld(m: Memory, p: nat, e: Setting, m': Memory, i: nat)
    requires Live(m, p) && Grown(m, p, e, m') && e.Setting? && i < |m|
    ensures Live(m', i) <==> Live(m, i)
    ensures i != p ==> m'[i] == m[i]
    ensures m'[p].stype == m[p].stype && m'[p].name == m[p].name && m'[p].parent == m[p].parent
    ensures Live(m', p) && Kids(m'[p]) == Kids(m[p]) + [|m|] && |m'| == |m| + 1 && m'[|m|] == e
  {
  }

  /** A record that p may take as its new last child. */
  predicate NewChild(m: Memory, p: nat, e: Setting, m': Memory)
    requires Live(m, p)
  {
    && e.Setting? && Fits(m, p, e.name, e.stype) && e.parent == Some(p)
    && !e.value.Elements? && (e.value.Zero? || !IsAggregate(e.stype))
    && Grown(m, p, e, m')
  }

  lemma {:induction false} GrownLinked(m: Memory, p: nat, e: Setting, m': Memory, i: nat, k: nat)
    requires Invariant(m) && Live(m, p) && NewChild(m, p, e, m') && KidAt(m', i, k)
    ensures Linked(m', i, k)
  {
    GrownOld(m, p, e, m', if i < |m| then i else 0);
    if i < |m| && k < |Kids(m[i])| {
      KidFacts(m, i, k);
      GrownOld(m, p, e, m', Kids(m[i])[k]);
    }
  }

  lemma {:induction false} GrownApart(m: Memory, p: nat, e: Setting, m': Memory, i: nat, k: nat, l: nat)
    requires Invariant(m) && Live(m, p) && NewChild(m, p, e, m') && KidAt(m', i, k) && KidAt(m', i, l)
    ensures Apart(m', i, k, l)
  {
    GrownLinked(m, p, e, m', i, k);
    GrownLinked(m, p, e, m', i, l);
    GrownOld(m, p, e, m', if i < |m| then i else 0);
    var n := if i < |m| then |Kids(m[i])| else 0;
    if k < n && l < n {
      KidFacts(m, i, k);
      KidFacts(m, i, l);
      assert Apart(m, i, k, l);
      GrownOld(m, p, e, m', Kids(m[i])[k]);
      GrownOld(m, p, e, m', Kids(m[i])[l]);
    } else if k < n {
      GrownNewest(m, p, e, m', k);
    } else if l < n {
      GrownNewest(m, p, e, m', l);
    }
  }

  lemma {:induction false} GrownNewest(m: Memory, p: nat, e: Setting, m': Memory, l: nat)
    requires Invariant(m) && Live(m, p) && NewChild(m, p, e, m') && KidAt(m, p, l)
    ensures var a := Kids(m[p])[l];
            && a < |m| && Live(m', a) && m'[a].stype == m[a].stype
            && (m[p].stype == TGROUP ==> m'[a].name != e.name)
            && (m[p].stype == TARRAY ==> IsScalarType(e.stype) && m[a].stype == e.stype)
  {
    KidFacts(m, p, l);
    KidFacts(m, p, 0);
    GrownOld(m, p, e, m', Kids(m[p])[l]);
    assert Apart(m, p, 0, l);
    if m[p].stype == TGROUP {
      NewName(m, p, e.name.value, l);
    }
  }

  lemma {:induction false} GrownRooted(m: Memory, p: nat, e: Setting, m': Memory, i: nat)
    requires Invariant(m) && Live(m, p) && NewChild(m, p, e, m') && Live(m', i)
    ensures Rooted(m', i)
  {
    GrownOld(m, p, e, m', p);
    if i < |m| {
      GrownOld(m, p, e, m', i);
      assert Rooted(m, i);
      if i != 0 {
        GrownOld(m, p, e, m', m[i].parent.value);
        assert i in Kids(m'[m[i].parent.value]);
      }
    } else {
      assert Kids(m'[p])[|Kids(m[p])|] == i;
    }
  }

  /** A child that fits keeps the shape, whatever scalar value it starts with. */
  lemma {:induction false} GrownInvariant(m: Memory, p: nat, e: Setting, m': Memory)
    requires Invariant(m) && Live(m, p) && NewChild(m, p, e, m')
    ensures Invariant(m')
  {
    GrownOld(m, p, e, m', 0);
    forall i: nat | Live(m', i)
      ensures Rooted(m', i)
    {
      GrownRooted(m, p, e, m', i);
    }
    forall i: nat, k: nat | KidAt(m', i, k)
      ensures Linked(m', i, k)
    {
      GrownLinked(m, p, e, m', i, k);
    }
    forall i: nat, k: nat, l: nat | KidAt(m', i, k) && KidAt(m', i, l)
      ensures Apart(m', i, k, l)
    {
      GrownApart(m, p, e, m', i, k, l);
    }
  }

  // ----- A new value or type

  /** A change of a setting's value, format or undetermined type. */
  predicate Reset(m: Memory, s: nat, e: Setting, m': Memory)
    requires Live(m, s)
  {
    && m' == m[s := e] && e.Setting? && e.name == m[s].name && e.parent == m[s].parent && Kids(e) == Kids(m[s])
    && (e.stype == m[s].stype || m[s].stype == TNONE)
    && (e.value.Elements? <==> IsAggregate(e.stype) && !e.value.Zero?)
  }

  lemma {:induction false} ResetLinked(m: Memory, s: nat, e: Setting, m': Memory, i: nat, k: nat)
    requires Invariant(m) && Live(m, s) && Reset(m, s, e, m') && KidAt(m', i, k)
    ensures KidAt(m, i, k) && Linked(m', i, k)
  {
    assert Rooted(m, s);
    KidFacts(m, i, k);
  }

  lemma {:induction false} ResetApart(m: Memory, s: nat, e: Setting, m': Memory, i: nat, k: nat, l: nat)
    requires Invariant(m) && Live(m, s) && Reset(m, s, e, m') && KidAt(m', i, k) && KidAt(m', i, l)
    ensures Apart(m', i, k, l)
  {
    ResetLinked(m, s, e, m', i, k);
    ResetLinked(m, s, e, m', i, l);
    assert Rooted(m, i) && Rooted(m, s);
    KidFacts(m, i, k);
    KidFacts(m, i, l);
    assert Apart(m, i, k, l) && Apart(m, i, l, k);
  }

  lemma {:induction false} ResetInvariant(m: Memory, s: nat, e: Setting, m': Memory)
    requires Invariant(m) && Live(m, s) && Reset(m, s, e, m')
    ensures Invariant(m')
  {
    assert Rooted(m, 0);
    forall i: nat | Live(m', i)
      ensures Rooted(m', i)
    {
      assert Rooted(m, i);
    }
    forall i: nat, k: nat | KidAt(m', i, k)
      ensures Linked(m', i, k)
    {
      ResetLinked(m, s, e, m', i, k);
    }
    forall i: nat, k: nat, l: nat | KidAt(m', i, k) && KidAt(m', i, l)
      ensures Apart(m', i, k, l)
    {
      ResetApart(m, s, e, m', i, k, l);
    }
  }

  // ----- A child and everything below it removed

  lemma {:induction false} UnlinkAncestor(m: Memory, p: nat, k: nat, c: nat, i: nat)
    requires KidAt(m, p, k)
    ensures Ancestor(Unlink(m, p, k), c, i) == Ancestor(m, c, i)
    decreases i
  {
    if c != i && Live(m, i) && m[i].parent.Some? && m[i].parent.value < i {
      UnlinkAncestor(m, p, k, c, m[i].parent.value);
    }
  }

  /** What is left after a removal. */
  lemma {:induction false} RemoveLeaves(m: Memory, p: nat, k: nat, i: nat)
    requires Invariant(m) && KidAt(m, p, k) && i < |m|
    ensures var m', c := Remove(m, p, k), Kids(m[p])[k];
            && |m'| == |m|
            && (Live(m', i) <==> Live(m, i) && !Ancestor(m, c, i))
            && (Live(m', i) && i != p ==> m'[i] == m[i])
            && (Live(m', i) && i == p ==> m'[i] == m[p].(value := Elements(Without(Kids(m[p]), k))))
  {
    UnlinkAncestor(m, p, k, Kids(m[p])[k], i);
  }

  lemma {:induction false} ParentNotBelow(m: Memory, p: nat, k: nat)
    requires Invariant(m) && KidAt(m, p, k)
    ensures !Ancestor(m, Kids(m[p])[k], p) && !Ancestor(m, Kids(m[p])[k], 0)
  {
    KidFacts(m, p, k);
    NotBelow(m, Kids(m[p])[k], p);
    NotBelow(m, Kids(m[p])[k], 0);
  }

  lemma {:induction false} NotBelow(m: Memory, c: nat, i: nat)
    requires i < c
    ensures !Ancestor(m, c, i)
    decreases i
  {
    if Live(m, i) && m[i].parent.Some? && m[i].parent.value < i {
      NotBelow(m, c, m[i].parent.value);
    }
  }

  /** The place that the child now at place l had before. */
  function Shifted(k: nat, l: nat): nat { if l < k then l else l + 1 }

  lemma {:induction false} WithoutAt(elements: seq<nat>, k: nat, l: nat)
    requires k < |elements| && l < |Without(elements, k)|
    ensures Shifted(k, l) < |elements| && Shifted(k, l) != k && Without(elements, k)[l] == elements[Shifted(k, l)]
  {
  }

  /** Where a remaining child was before. */
  lemma {:induction false} RemovedKid(m: Memory, p: nat, k: nat, m': Memory, i: nat, l: nat, l0: nat)
    requires Invariant(m) && KidAt(m, p, k) && m' == Remove(m, p, k) && KidAt(m', i, l)
    requires l0 == if i == p then Shifted(k, l) else l
    ensures KidAt(m, i, l0) && Kids(m'[i])[l] == Kids(m[i])[l0] && (i == p ==> l0 != k)
    ensures i < |m| && m'[i].stype == m[i].stype
  {
    RemoveLeaves(m, p, k, i);
    if i == p {
      WithoutAt(Kids(m[p]), k, l);
    }
  }

  lemma {:induction false} RemovedLinked(m: Memory, p: nat, k: nat, m': Memory, i: nat, l: nat)
    requires Invariant(m) && KidAt(m, p, k) && m' == Remove(m, p, k) && KidAt(m', i, l)
    ensures Linked(m', i, l) && m'[Kids(m'[i])[l]].stype == m[Kids(m'[i])[l]].stype
    ensures m'[Kids(m'[i])[l]].name == m[Kids(m'[i])[l]].name
  {
    var l0 := if i == p then Shifted(k, l) else l;
    RemovedKid(m, p, k, m', i, l, l0);
    KidFacts(m, i, l0);
    KidFacts(m, p, k);
    RemoveLeaves(m, p, k, i);
    var c, d := Kids(m[p])[k], Kids(m[i])[l0];
    RemoveLeaves(m, p, k, d);
    if i == p {
      assert Apart(m, p, k, l0);
    }
  }

  lemma {:induction false} RemoveInvariant(m: Memory, p: nat, k: nat)
    requires Invariant(m) && KidAt(m, p, k)
    ensures Invariant(Remove(m, p, k))
  {
    var m' := Remove(m, p, k);
    ParentNotBelow(m, p, k);
    RemoveLeaves(m, p, k, 0);
    forall i: nat | Live(m', i)
      ensures Rooted(m', i)
    {
      RemovedRooted(m, p, k, m', i);
    }
    forall i: nat, l: nat | KidAt(m', i, l)
      ensures Linked(m', i, l)
    {
      RemovedLinked(m, p, k, m', i, l);
    }
    forall i: nat, l: nat, j: nat | KidAt(m', i, l) && KidAt(m', i, j)
      ensures Apart(m', i, l, j)
    {
      RemovedApart(m, p, k, m', i, l, j);
    }
  }

  lemma {:induction false} RemovedApart(m: Memory, p: nat, k: nat, m': Memory, i: nat, l: nat, j: nat)
    requires Invariant(m) && KidAt(m, p, k) && m' == Remove(m, p, k) && KidAt(m', i, l) && KidAt(m', i, j)
    ensures Apart(m', i, l, j)
  {
    var l0, j0 := if i == p then Shifted(k, l) else l, if i == p then Shifted(k, j) else j;
    RemovedKid(m, p, k, m', i, l, l0);
    RemovedKid(m, p, k, m', i, j, j0);
    RemovedLinked(m, p, k, m', i, l);
    RemovedLinked(m, p, k, m', i, j);
    assert Apart(m, i, l0, j0);
  }

  lemma {:induction false} StillIn(elements: seq<nat>, k: nat, i: nat)
    requires k < |elements| && i in elements && elements[k] != i
    ensures i in Without(elements, k)
  {
    var l: nat :| l < |elements| && elements[l] == i;
    assert Without(elements, k)[if l < k then l else l - 1] == i;
  }

  lemma {:induction false} RemovedRooted(m: Memory, p: nat, k: nat, m': Memory, i: nat)
    requires Invariant(m) && KidAt(m, p, k) && m' == Remove(m, p, k) && Live(m', i)
    ensures Rooted(m', i)
  {
    RemoveLeaves(m, p, k, i);
    assert Rooted(m, i);
    if i != 0 {
      var q := m[i].parent.value;
      RemoveLeaves(m, p, k, q);
      if q == p {
        StillIn(Kids(m[p]), k, i);
      }
    }
  }

  // ----- The operations

  lemma {:induction false} CreatedChild(m: Memory, p: nat, name: Option<string>, t: SettingType, m': Memory)
    requires Live(m, p) && IsAggregate(m[p].stype) && m' == Create(m, p, name, t).0
    ensures Grown(m, p, Setting(name, t, CONFIG_FORMAT_DEFAULT, Zero, Some(p)), m')
  {
  }

  /** A null name is followed exactly when the group has children. */
  lemma {:induction false} NullNameFollowed(m: Memory, p: nat)
    requires Invariant(m) && Live(m, p) && m[p].stype == TGROUP
    ensures FollowsNull(m, p, None) <==> Kids(m[p]) != []
  {
    if Kids(m[p]) != [] {
      assert KidAt(m, p, 0) && Linked(m, p, 0);
    }
  }

  /**
   * Adding a setting fails and changes nothing, or keeps the shape; except that a child added to an array must be a
   * scalar of the type of its first element, and one added to a group must have a name, which the code does not check.
   */
  lemma {:induction false} AddInvariant(m: Memory, p: nat, name: Option<string>, t: SettingType)
    requires Invariant(m) && Live(m, p) && !FollowsNull(m, p, name)
    ensures var r := Add(m, p, name, t);
            && (r.1.None? ==> r.0 == m)
            && (r.1.Some? ==>
                  && r.1 == Some(|m|) && Live(r.0, |m|) && r.0[|m|].stype == t && r.0[|m|].parent == Some(p)
                  && (Invariant(r.0) <==>
                        && (m[p].stype == TARRAY ==> IsScalarType(t) && CheckType(m, p, t))
                        && (m[p].stype == TGROUP ==> name.Some?)))
  {
    var r := Add(m, p, name, t);
    if r.1.Some? {
      var n := if IsVector(m[p].stype) then None else name;
      var e := Setting(n, t, CONFIG_FORMAT_DEFAULT, Zero, Some(p));
      CreatedChild(m, p, n, t, r.0);
      GrownOld(m, p, e, r.0, p);
      if m[p].stype == TGROUP && name.None? {
        assert !Linked(r.0, p, |Kids(m[p])|);
      } else if m[p].stype == TARRAY ==> IsScalarType(t) && CheckType(m, p, t) {
        GrownInvariant(m, p, e, r.0);
      } else {
        ArrayMixed(m, p, e, r.0);
      }
    }
  }

  lemma {:induction false} ArrayMixed(m: Memory, p: nat, e: Setting, m': Memory)
    requires Invariant(m) && Live(m, p) && m[p].stype == TARRAY && e.Setting? && Grown(m, p, e, m')
    requires !IsScalarType(e.stype) || !CheckType(m, p, e.stype)
    ensures !Invariant(m')
  {
    var n := |Kids(m[p])|;
    GrownOld(m, p, e, m', p);
    if !IsScalarType(e.stype) {
      assert !Apart(m', p, n, n);
    } else {
      KidFacts(m, p, 0);
      GrownOld(m, p, e, m', Kids(m[p])[0]);
      assert !Apart(m', p, 0, n);
    }
  }

  /** For one, an array without elements takes a group. */
  lemma {:induction false} ArrayTakesGroup() returns (m: Memory)
    ensures Invariant(m) && Live(m, 1) && m[1].stype == TARRAY
    ensures var r := Add(m, 1, None, TGROUP); r.1.Some? && !Invariant(r.0)
  {
    var root := [Setting(None, TGROUP, CONFIG_FORMAT_DEFAULT, Zero, None)];
    assert Rooted(root, 0);
    assert Invariant(root);
    AddInvariant(root, 0, Some("a"), TARRAY);
    m := Add(root, 0, Some("a"), TARRAY).0;
    AddInvariant(m, 1, None, TGROUP);
  }

  lemma {:induction false} ScalarOfItsType(s: Setting, x: Scalar, autoConvert: bool)
    requires s.Setting? && s.stype == TypeOf(x) && s.value.Zero?
    ensures var r := SetScalar(s, x, autoConvert);
            && r.Some? && r.value.Setting? && r.value.stype == s.stype && r.value.name == s.name && r.value.parent == s.parent
            && !r.value.value.Elements? && !r.value.value.Zero?
  {
  }

  lemma {:induction false} ScalarShape(s: Setting, x: Scalar, autoConvert: bool)
    requires s.Setting? && SetScalar(s, x, autoConvert).Some?
    requires s.value.Elements? <==> IsAggregate(s.stype) && !s.value.Zero?
    ensures var e := SetScalar(s, x, autoConvert).value;
            && e.Setting? && e.name == s.name && e.parent == s.parent && Kids(e) == Kids(s)
            && (e.stype == s.stype || s.stype == TNONE) && !e.value.Elements? && !IsAggregate(e.stype)
  {
    match x
    case AnInt(_) =>
    case AnInt64(_) =>
    case AFloat(_) =>
    case ABool(_) =>
    case AString(_) =>
  }

  lemma {:induction false} AppendInvariant(m: Memory, v: nat, x: Scalar, autoConvert: bool, m': Memory)
    requires Invariant(m) && Live(m, v) && IsVector(m[v].stype) && CheckType(m, v, TypeOf(x))
    requires m' == SetElem(m, v, -1, x, autoConvert).0
    ensures Invariant(m')
  {
    var made := Create(m, v, None, TypeOf(x)).0;
    var e0 := Setting(None, TypeOf(x), CONFIG_FORMAT_DEFAULT, Zero, Some(v));
    CreatedChild(m, v, None, TypeOf(x), made);
    GrownOld(m, v, e0, made, v);
    ScalarOfItsType(e0, x, autoConvert);
    var e := SetScalar(e0, x, autoConvert).value;
    assert m' == made[|m| := e];
    GrownInvariant(m, v, e, m');
  }

  lemma {:induction false} ChangeInvariant(m: Memory, s: nat, x: Scalar, autoConvert: bool)
    requires Invariant(m) && Live(m, s) && SetScalar(m[s], x, autoConvert).Some?
    ensures Invariant(m[s := SetScalar(m[s], x, autoConvert).value])
  {
    assert Rooted(m, s);
    ScalarShape(m[s], x, autoConvert);
    var e := SetScalar(m[s], x, autoConvert).value;
    ResetInvariant(m, s, e, m[s := e]);
  }

  /** Setting or appending an element of an array or list keeps the shape. */
  lemma {:induction false} SetElemInvariant(m: Memory, v: nat, idx: int, x: Scalar, autoConvert: bool)
    requires Invariant(m) && Live(m, v)
    ensures Invariant(SetElem(m, v, idx, x, autoConvert).0)
  {
    if IsVector(m[v].stype) && idx < 0 && CheckType(m, v, TypeOf(x)) {
      AppendInvariant(m, v, x, autoConvert, SetElem(m, v, -1, x, autoConvert).0);
    } else if IsVector(m[v].stype) && idx >= 0 && Elem(m, v, idx).Some? {
      var e := Elem(m, v, idx).value;
      if Live(m, e) && SetScalar(m[e], x, autoConvert).Some? {
        ChangeInvariant(m, e, x, autoConvert);
      }
    }
  }
}
