/** The printer: a walk over the settings in memory that writes tokens. */
module ConfigWriter {
  import opened ConfigTokens
  import opened ConfigSettings
  import opened ConfigInvariant
  import opened ConfigTree
  import opened ConfigView
  import opened Options

  // ----- The trees of children

  lemma {:induction false} ElementAt(m: Memory, p: nat, kids: seq<nat>, df: int, k: nat)
    requires p < |m| && k < |kids|
    ensures ElementsOf(m, p, kids, df)[k] == if p < kids[k] then TreeOf(m, kids[k], df) else Undetermined
    decreases |kids|
  {
    if k < |kids| - 1 {
      ElementAt(m, p, kids[..|kids| - 1], df, k);
    }
  }

  lemma {:induction false} MemberAt(m: Memory, p: nat, kids: seq<nat>, df: int, k: nat)
    requires p < |m| && k < |kids|
    ensures MembersOf(m, p, kids, df)[k]
         == Member(NameIn(m, kids[k]), if p < kids[k] then TreeOf(m, kids[k], df) else Undetermined)
    decreases |kids|
  {
    if k < |kids| - 1 {
      MemberAt(m, p, kids[..|kids| - 1], df, k);
    }
  }

  // ----- What is still to be written

  /** After some elements the next one follows, and a comma unless it is the last. */
  lemma {:induction false} NextElement(es: seq<Tree>, k: nat)
    requires k < |es| && forall i :: 0 <= i < |es| ==> Printable(es[i])
    ensures ElementTokens(es[k..])
         == Tokens(es[k]) + (if k + 1 < |es| then [Comma] else []) + ElementTokens(es[k + 1..])
  {
    var rest := es[k..];
    assert rest[1..] == es[k + 1..];
    if k + 1 < |es| {
      assert es[k + 1..][1..] == rest[1..][1..];
    }
  }

  lemma {:induction false} NextMember(ms: seq<Member>, k: nat)
    requires k < |ms| && forall i :: 0 <= i < |ms| ==> Printable(ms[i].value)
    ensures MemberTokens(ms[k..])
         == [Name(ms[k].name), Equals] + Tokens(ms[k].value) + [Semicolon] + MemberTokens(ms[k + 1..])
  {
    assert ms[k..][1..] == ms[k + 1..];
  }

  function StartOf(t: SettingType): seq<Token> {
    if t == TARRAY then [ArrayStart] else [ListStart]
  }

  function EndOf(t: SettingType): seq<Token> {
    if t == TARRAY then [ArrayEnd] else [ListEnd]
  }

  /** What is written, with what is left to write, is the whole. */
  ghost predicate ElementsTo(es: seq<Tree>, k: nat, start: seq<Token>, out: seq<Token>) {
    && k <= |es| && (forall i :: 0 <= i < |es| ==> Printable(es[i]))
    && out + ElementTokens(es[k..]) == start + ElementTokens(es)
  }

  ghost predicate MembersTo(ms: seq<Member>, k: nat, start: seq<Token>, out: seq<Token>) {
    && k <= |ms| && (forall i :: 0 <= i < |ms| ==> Printable(ms[i].value))
    && out + MemberTokens(ms[k..]) == start + MemberTokens(ms)
  }

  lemma {:induction false} ElementWritten(es: seq<Tree>, k: nat, start: seq<Token>, out: seq<Token>, more: seq<Token>)
    requires k < |es| && ElementsTo(es, k, start, out) && more == Tokens(es[k])
    ensures ElementsTo(es, k + 1, start, out + more + if k + 1 < |es| then [Comma] else [])
  {
    NextElement(es, k);
    var comma := if k + 1 < |es| then [Comma] else [];
    var rest := ElementTokens(es[k + 1..]);
    assert out + (more + comma + rest) == out + more + comma + rest;
  }

  lemma {:induction false} MemberWritten(ms: seq<Member>, k: nat, start: seq<Token>, out: seq<Token>, more: seq<Token>)
    requires k < |ms| && MembersTo(ms, k, start, out)
    requires more == [Name(ms[k].name), Equals] + Tokens(ms[k].value) + [Semicolon]
    ensures MembersTo(ms, k + 1, start, out + more)
  {
    NextMember(ms, k);
    var rest := MemberTokens(ms[k + 1..]);
    assert out + (more + rest) == out + more + rest;
  }

  lemma {:induction false} VectorTree(m: Memory, s: nat, df: int)
    requires Live(m, s) && IsVector(m[s].stype) && Printable(TreeOf(m, s, df))
    ensures var es := ElementsOf(m, s, Kids(m[s]), df);
            && ElementsTo(es, 0, StartOf(m[s].stype), StartOf(m[s].stype))
            && Tokens(TreeOf(m, s, df)) == StartOf(m[s].stype) + ElementTokens(es) + EndOf(m[s].stype)
  {
  }

  lemma {:induction false} GroupTree(m: Memory, s: nat, df: int)
    requires Live(m, s) && m[s].stype == TGROUP && Printable(TreeOf(m, s, df))
    ensures var ms := MembersOf(m, s, Kids(m[s]), df);
            && TreeOf(m, s, df) == GroupOf(ms) && MembersTo(ms, 0, [], []) && MembersTo(ms, 0, [GroupStart], [GroupStart])
            && Tokens(TreeOf(m, s, df)) == [GroupStart] + MemberTokens(ms) + [GroupEnd]
  {
  }

  lemma {:induction false} Written(es: seq<Tree>, ms: seq<Member>, start: seq<Token>, out: seq<Token>)
    ensures ElementsTo(es, |es|, start, out) ==> out == start + ElementTokens(es)
    ensures MembersTo(ms, |ms|, start, out) ==> out == start + MemberTokens(ms)
  {
    assert es[|es|..] == [] && ms[|ms|..] == [];
  }

  /** A child is a setting of its own, and its tree is among its parent's. */
  lemma {:induction false} ChildTree(m: Memory, s: nat, df: int, k: nat)
    requires Invariant(m) && KidAt(m, s, k)
    ensures var c := Kids(m[s])[k];
            && s < c < |m| && Live(m, c) && ElementsOf(m, s, Kids(m[s]), df)[k] == TreeOf(m, c, df)
            && MembersOf(m, s, Kids(m[s]), df)[k] == Member(NameIn(m, c), TreeOf(m, c, df))
            && (m[s].stype == TGROUP ==> m[c].name == Some(NameIn(m, c)))
  {
    KidFacts(m, s, k);
    ElementAt(m, s, Kids(m[s]), df, k);
    MemberAt(m, s, Kids(m[s]), df, k);
  }

  // ----- The printer

  /** Writes the value of a setting; a group at depth 0 has no braces. */
  method WriteValue(m: Memory, s: nat, defaultFormat: int, depth: nat) returns (out: seq<Token>)
    requires Invariant(m) && Live(m, s)
    ensures var t := TreeOf(m, s, defaultFormat);
            Printable(t) ==> out == if depth == 0 && t.GroupOf? then MemberTokens(t.members) else Tokens(t)
    decreases |m| - s, 0
  {
    if m[s].stype == TGROUP {
      out := WriteGroup(m, s, defaultFormat, depth);
    } else if IsVector(m[s].stype) {
      out := WriteVector(m, s, defaultFormat, depth);
    } else {
      out := WriteScalar(m[s], EffectiveFormat(m[s].format, defaultFormat));
      assert TreeOf(m, s, defaultFormat) == ScalarTree(m[s], defaultFormat);
    }
  }

  /** Writes a value that is not an aggregate. */
  method WriteScalar(s: Setting, format: int) returns (out: seq<Token>)
    requires s.Setting?
    ensures forall df :: EffectiveFormat(s.format, df) == format && Printable(ScalarTree(s, df)) && !IsAggregate(s.stype) ==>
      out == [ScalarToken(ScalarTree(s, df))]
  {
    var v := s.value;
    match s.stype
    case TBOOL => out := [Boolean(v.IVal? && v.ival != 0)];
    case TINT =>
      var i := if v.IVal? then v.ival else 0;
      out := if format == CONFIG_FORMAT_HEX then [Hex(i)] else [Integer(i)];
    case TINT64 =>
      var l := if v.LLVal? then v.llval else 0;
      out := if format == CONFIG_FORMAT_HEX then [Hex64(l)] else [Integer64(l)];
    case TFLOAT => out := [Float(if v.FVal? then v.fval else 0.0)];
    case TSTRING => out := [Str(if v.SVal? && v.sval.Some? then v.sval.value else "")];
    case _ => out := [Garbage, Garbage, Garbage];
  }

  method WriteVector(m: Memory, s: nat, defaultFormat: int, depth: nat) returns (out: seq<Token>)
    requires Invariant(m) && Live(m, s) && IsVector(m[s].stype)
    ensures var t := TreeOf(m, s, defaultFormat); Printable(t) ==> out == Tokens(t)
    decreases |m| - s, 0, 0
  {
    ghost var exact := Printable(TreeOf(m, s, defaultFormat));
    ghost var es := ElementsOf(m, s, Kids(m[s]), defaultFormat);
    ghost var start := StartOf(m[s].stype);
    if exact {
      VectorTree(m, s, defaultFormat);
    }
    out := StartOf(m[s].stype);
    var kids := Kids(m[s]);
    var len := |kids|;
    var k := 0;
    while len != 0
      invariant k + len == |kids| && 0 <= len
      invariant exact ==> ElementsTo(es, k, start, out)
      decreases len
    {
      len := len - 1;
      ChildTree(m, s, defaultFormat, k);
      var more := WriteValue(m, kids[k], defaultFormat, depth + 1);
      if exact {
        ElementWritten(es, k, start, out, more);
      }
      out := out + more + if len != 0 then [Comma] else [];
      k := k + 1;
    }
    Written(es, [], start, out);
    out := out + EndOf(m[s].stype);
  }

  method WriteGroup(m: Memory, s: nat, defaultFormat: int, depth: nat) returns (out: seq<Token>)
    requires Invariant(m) && Live(m, s) && m[s].stype == TGROUP
    ensures var t := TreeOf(m, s, defaultFormat);
            Printable(t) ==> out == if depth == 0 then MemberTokens(t.members) else Tokens(t)
    decreases |m| - s, 0, 0
  {
    ghost var exact := Printable(TreeOf(m, s, defaultFormat));
    ghost var ms := MembersOf(m, s, Kids(m[s]), defaultFormat);
    if exact {
      GroupTree(m, s, defaultFormat);
    }
    out := if depth > 0 then [GroupStart] else [];
    ghost var start := out;
    var kids := Kids(m[s]);
    var len := |kids|;
    var k := 0;
    while len != 0
      invariant k + len == |kids| && 0 <= len
      invariant exact ==> MembersTo(ms, k, start, out)
      decreases len
    {
      len := len - 1;
      ChildTree(m, s, defaultFormat, k);
      var more := WriteSetting(m, kids[k], defaultFormat, depth + 1);
      if exact {
        MemberWritten(ms, k, start, out, more);
      }
      out := out + more;
      k := k + 1;
    }
    Written([], ms, start, out);
    if depth > 0 {
      out := out + [GroupEnd];
    }
  }

  /** Writes a setting with its name, and a semicolon unless it is the root. */
  method WriteSetting(m: Memory, s: nat, defaultFormat: int, depth: nat) returns (out: seq<Token>)
    requires Invariant(m) && Live(m, s)
    ensures var t := TreeOf(m, s, defaultFormat);
            && (Printable(t) && depth == 0 && t.GroupOf? && m[s].name.None? ==> out == MemberTokens(t.members))
            && (Printable(t) && depth > 0 && m[s].name.Some? ==>
                  out == [Name(m[s].name.value), Equals] + Tokens(t) + [Semicolon])
    decreases |m| - s, 1
  {
    out := if m[s].name.Some? then [Name(m[s].name.value), Equals] else [];
    var value := WriteValue(m, s, defaultFormat, depth);
    out := out + value;
    if depth > 0 {
      out := out + [Semicolon];
    }
  }
}
