/** Writing a configuration and reading it back gives the same tree. */
module ConfigRoundTrip {
  import opened ConfigParser
  import opened ConfigSettings
  import opened ConfigInvariant
  import opened ConfigTree
  import opened ConfigView
  import opened ConfigWriter
  import opened ConfigBuilder
  import opened ConfigPrintParse
  import opened ConfigRebuild

  // ----- Which configurations print exactly

  /** A setting of a determined type that is not floating point. */
  predicate Exact(m: Memory, i: nat) {
    Live(m, i) ==> m[i].stype != TFLOAT && m[i].stype != TNONE
  }

  lemma {:induction false} ExactPrints(m: Memory, i: nat, df: int)
    requires Invariant(m) && Live(m, i) && forall j: nat {:trigger Exact(m, j)} :: Exact(m, j)
    ensures Printable(TreeOf(m, i, df))
    decreases |m| - i
  {
    assert Exact(m, i);
    if IsAggregate(m[i].stype) {
      forall k: nat | k < |Kids(m[i])|
        ensures var c := Kids(m[i])[k]; Live(m, c) && Printable(TreeOf(m, c, df))
      {
        KidFacts(m, i, k);
        ExactPrints(m, Kids(m[i])[k], df);
      }
      if m[i].stype == TGROUP {
        MembersPrint(m, i, df);
      } else {
        ElementsPrint(m, i, df);
      }
    }
  }

  lemma {:induction false} MembersPrint(m: Memory, i: nat, df: int)
    requires Invariant(m) && Live(m, i) && m[i].stype == TGROUP
    requires forall k: nat :: k < |Kids(m[i])| ==> Printable(TreeOf(m, Kids(m[i])[k], df))
    ensures Printable(GroupOf(MembersOf(m, i, Kids(m[i]), df)))
  {
    var ms := MembersOf(m, i, Kids(m[i]), df);
    forall k: nat | k < |ms|
      ensures ValidName(ms[k].name) && Printable(ms[k].value)
    {
      ChildTree(m, i, df, k);
      KidFacts(m, i, k);
    }
    forall k: nat, l: nat | k < l < |ms|
      ensures ms[k].name != ms[l].name
    {
      ChildTree(m, i, df, k);
      ChildTree(m, i, df, l);
      assert Apart(m, i, k, l);
    }
  }

  lemma {:induction false} ElementsPrint(m: Memory, i: nat, df: int)
    requires Invariant(m) && Live(m, i) && IsVector(m[i].stype)
    requires forall k: nat :: k < |Kids(m[i])| ==> Printable(TreeOf(m, Kids(m[i])[k], df))
    ensures Printable(TreeOf(m, i, df))
  {
    var es := ElementsOf(m, i, Kids(m[i]), df);
    forall k: nat | k < |es|
      ensures Printable(es[k])
      ensures m[i].stype == TARRAY ==> IsScalar(es[k]) && TreeType(es[k]) == TreeType(es[0])
    {
      ChildTree(m, i, df, k);
      if m[i].stype == TARRAY {
        ChildTree(m, i, df, 0);
        assert Apart(m, i, 0, k);
      }
    }
  }

  lemma {:induction false} PrintedIsExact(m: Memory, i: nat, df: int)
    requires Invariant(m) && Live(m, i) && Printable(TreeOf(m, 0, df))
    ensures Printable(TreeOf(m, i, df)) && Exact(m, i)
    decreases i
  {
    assert Rooted(m, i);
    if i != 0 {
      var p := m[i].parent.value;
      PrintedIsExact(m, p, df);
      var k: nat :| k < |Kids(m[p])| && Kids(m[p])[k] == i;
      ChildTree(m, p, df, k);
      KidFacts(m, p, k);
      if m[p].stype == TGROUP {
        assert TreeOf(m, p, df).members[k].value == TreeOf(m, i, df);
      } else {
        assert TreeOf(m, p, df).elements[k] == TreeOf(m, i, df);
      }
    }
  }

  /** A configuration prints exactly if and only if no setting in it is floating point or has no type yet. */
  lemma {:induction false} PrintsExactly(m: Memory, df: int)
    requires Invariant(m)
    ensures Printable(TreeOf(m, 0, df)) <==> forall i: nat {:trigger Exact(m, i)} :: Exact(m, i)
  {
    if Printable(TreeOf(m, 0, df)) {
      forall i: nat
        ensures Exact(m, i)
      {
        if Live(m, i) {
          PrintedIsExact(m, i, df);
        }
      }
    } else if forall i: nat {:trigger Exact(m, i)} :: Exact(m, i) {
      ExactPrints(m, 0, df);
    }
  }

  // ----- Back to the same tree

  /**
   * The parser reads back what the printer wrote: the same names, order, types, formats and values. It does so if and
   * only if the parser's stack is high enough for the nesting; otherwise it reports that it ran out of memory. The
   * format that numbers had by default becomes their own.
   */
  lemma {:induction false} WrittenIsReadBack(m: Memory, df: int, autoConvert: bool)
    requires Invariant(m) && Printable(TreeOf(m, 0, df))
    ensures TreeOf(m, 0, df).GroupOf?
    ensures var ms := TreeOf(m, 0, df).members;
            var c := Parse(MemberTokens(ms));
            var o := Build(Fresh(), c.events, autoConvert);
            if 1 + MembersHeight(ms) < YYMAXDEPTH then
              && c.status == Accepted && o.Ok? && Invariant(o.ctx.memory)
              && TreeOf(o.ctx.memory, 0, CONFIG_FORMAT_DEFAULT) == TreeOf(m, 0, df)
            else c.status == Exhausted
  {
    assert Rooted(m, 0);
    var ms := TreeOf(m, 0, df).members;
    PrintedIsParsed(ms);
    var ctx := Rebuilt(ms, autoConvert);
  }

  /** Lists in lists. */
  function Nested(n: nat): (t: Tree)
    ensures Printable(t) && n < Height(t)
  {
    if n == 0 then ListOf([]) else ListOf([Nested(n - 1)])
  }

  lemma {:induction false} NestedHeight(ms: seq<Member>, n: nat)
    requires ms == [Member("lists", Nested(n))]
    ensures Printable(GroupOf(ms)) && n < MembersHeight(ms)
  {
    assert ValidName("lists");
  }

  /** For one, lists nested as deep as the stack may grow are written, and not read back. */
  lemma {:induction false} DeepIsNotReadBack(n: nat, autoConvert: bool) returns (m: Memory)
    requires n >= YYMAXDEPTH
    ensures Invariant(m) && Printable(TreeOf(m, 0, CONFIG_FORMAT_DEFAULT)) && TreeOf(m, 0, CONFIG_FORMAT_DEFAULT).GroupOf?
    ensures TreeOf(m, 0, CONFIG_FORMAT_DEFAULT).members == [Member("lists", Nested(n))]
    ensures Parse(MemberTokens(TreeOf(m, 0, CONFIG_FORMAT_DEFAULT).members)).status == Exhausted
  {
    var ms := [Member("lists", Nested(n))];
    NestedHeight(ms, n);
    var ctx := Rebuilt(ms, autoConvert);
    m := ctx.memory;
    WrittenIsReadBack(m, CONFIG_FORMAT_DEFAULT, autoConvert);
  }

  /** Different trees are written differently. */
  lemma {:induction false} WrittenDiffers(a: seq<Member>, b: seq<Member>)
    requires Printable(GroupOf(a)) && Printable(GroupOf(b)) && 1 + MembersHeight(a) < YYMAXDEPTH
    requires MemberTokens(a) == MemberTokens(b)
    ensures a == b
  {
    PrintedIsParsed(a);
    PrintedIsParsed(b);
    var x := Rebuilt(a, false);
    var y := Rebuilt(b, false);
  }
}
