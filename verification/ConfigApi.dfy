/** The library's operations on a configuration, which change its settings in place. */
module ConfigApi {
  import opened ConfigTokens
  import opened ConfigTables
  import opened ConfigAutomaton
  import opened ConfigParser
  import opened ConfigSettings
  import opened ConfigInvariant
  import opened ConfigDestroy
  import opened ConfigTree
  import opened ConfigView
  import opened ConfigWriter
  import opened ConfigBuilder
  import opened ConfigSafety
  import opened Options

  // ----- Names

  lemma {:induction false} HeadPrefix(s: string)
    ensures |Head(s)| <= |s| && Head(s) == s[..|Head(s)|]
    ensures |Head(s)| < |s| ==> IsPathToken(s[|Head(s)|])
    ensures forall i :: 0 <= i < |Head(s)| ==> !IsPathToken(s[i])
    decreases |s|
  {
    if s != "" && !IsPathToken(s[0]) {
      HeadPrefix(s[1..]);
      assert s == [s[0]] + s[1..];
      forall i | 0 <= i < |Head(s)|
        ensures !IsPathToken(s[i])
      {
        assert i > 0 ==> s[i] == s[1..][i - 1];
      }
    }
  }

  /** The order of strings that strcmp uses. */
  predicate Precedes(a: string, b: string) {
    exists n: nat :: n <= |a| && n < |b| && a[..n] == b[..n] && (n == |a| || a[n] < b[n])
  }

  /** Compares two strings up to their first path tokens. */
  method NameCompare(a: string, b: string) returns (r: int)
    ensures r == 0 <==> Head(a) == Head(b)
    ensures r < 0 ==> Precedes(Head(a), Head(b))
    ensures r > 0 ==> Precedes(Head(b), Head(a))
  {
    HeadPrefix(a);
    HeadPrefix(b);
    var i := 0;
    while true
      invariant i <= |Head(a)| && i <= |Head(b)| && a[..i] == b[..i]
      decreases |a| - i
    {
      assert Head(a)[..i] == a[..i] && Head(b)[..i] == b[..i];
      var pd := i == |a| || IsPathToken(a[i]);
      var qd := i == |b| || IsPathToken(b[i]);
      if pd && qd {
        assert Head(a) == Head(a)[..i] && Head(b) == Head(b)[..i];
        return 0;
      } else if pd {
        return -1;
      } else if qd {
        return 1;
      } else if a[i] < b[i] {
        assert Head(a)[i] == a[i] && Head(b)[i] == b[i];
        return -1;
      } else if a[i] > b[i] {
        assert Head(a)[i] == a[i] && Head(b)[i] == b[i];
        return 1;
      }
      i := i + 1;
    }
  }

  method ValidateName(name: string) returns (ok: bool)
    ensures ok <==> ValidName(name)
  {
    if name == "" {
      return false;
    }
    if !IsAlpha(name[0]) && name[0] != '*' {
      return false;
    }
    var i := 1;
    while i < |name|
      invariant 1 <= i <= |name| && forall k :: 0 < k < i ==> NameChar(name[k])
    {
      if !NameChar(name[i]) {
        return false;
      }
      i := i + 1;
    }
    return true;
  }

  lemma {:induction false} HasPlace(m: Memory, s: nat)
    requires Invariant(m) && Live(m, s)
    ensures m[s].parent.None? <==> s == 0
    ensures s != 0 ==> Live(m, m[s].parent.value) && s in Kids(m[m[s].parent.value])
  {
    assert Rooted(m, s);
  }

  /** A turn of the parser's loop performs at most one action. */
  lemma {:induction false} StepActs(c: Parser)
    requires Sound(c) && c.status == Running
    ensures var d := Step(c); d.events == c.events || (|d.events| > 0 && d.events == c.events + [d.events[|c.events|]])
  {
    var q, k := Top(c.stack).state, Lookahead(c.input);
    StateBound(c.stack);
    if Decide(q, k).Reduce? {
      RuleDecided(q, k, Decide(q, k).rule);
      RuleOnStack(c.stack);
      assert |ActionOf(Yydefact(q), Top(c.stack).value)| <= 1;
    }
  }

  /** The parser only adds to its actions, so an action that aborts is the last to matter. */
  lemma {:induction false} AbortStays(c: Parser, autoConvert: bool)
    requires Sound(c) && !Build(Fresh(), c.events, autoConvert).Ok?
    ensures Build(Fresh(), Run(c).events, autoConvert) == Build(Fresh(), c.events, autoConvert)
    decreases |c.input|, if c.status == Running then 1 + Rank(Top(c.stack).state) else 0
  {
    if c.status == Running {
      StepSound(c);
      StepActs(c);
      var d := Step(c);
      if d.events != c.events {
        BuildSnoc(Fresh(), c.events, d.events[|c.events|], autoConvert);
      }
      AbortStays(d, autoConvert);
    }
  }

  class Config {
    var memory: Memory
    var defaultFormat: int
    var autoConvert: bool

    ghost predicate Valid()
      reads this
    {
      Invariant(memory)
    }

    ghost function Tree(): ConfigTree.Tree
      reads this
    {
      TreeOf(memory, 0, defaultFormat)
    }

    constructor ()
      ensures Valid() && memory == Fresh().memory && defaultFormat == CONFIG_FORMAT_DEFAULT && !autoConvert
    {
      memory := Fresh().memory;
      defaultFormat := CONFIG_FORMAT_DEFAULT;
      autoConvert := false;
    }

    // ----- Finding settings

    method ListSearch(elements: seq<nat>, name: string) returns (idx: nat)
      ensures idx == Search(memory, elements, name)
    {
      idx := 0;
      while idx < |elements|
        invariant idx <= |elements| && forall k :: 0 <= k < idx ==> !HasName(memory, elements[k], name)
      {
        var e := elements[idx];
        if e < |memory| && memory[e].Setting? && memory[e].name.Some? {
          var r := NameCompare(name, memory[e].name.value);
          if r == 0 {
            return;
          }
        }
        idx := idx + 1;
      }
    }

    method GetMember(g: nat, name: string) returns (found: Option<nat>)
      requires Live(memory, g)
      ensures found == FindMember(memory, g, name)
    {
      if memory[g].stype != TGROUP {
        return None;
      }
      var idx := ListSearch(Kids(memory[g]), name);
      return if idx < |Kids(memory[g])| then Some(Kids(memory[g])[idx]) else None;
    }

    method GetElem(v: nat, idx: nat) returns (found: Option<nat>)
      requires Live(memory, v)
      ensures found == Elem(memory, v, idx)
    {
      if !IsAggregate(memory[v].stype) || idx >= |Kids(memory[v])| {
        return None;
      }
      return Some(Kids(memory[v])[idx]);
    }

    /** The position of a setting in its parent; -1 for the root. */
    method Index(s: nat) returns (idx: int)
      requires Valid() && Live(memory, s)
      ensures s == 0 <==> idx == -1
      ensures s != 0 ==>
        && memory[s].parent.Some? && 0 <= idx && KidAt(memory, memory[s].parent.value, idx)
        && Kids(memory[memory[s].parent.value])[idx] == s
    {
      HasPlace(memory, s);
      if memory[s].parent.None? {
        return -1;
      }
      var elements := Kids(memory[memory[s].parent.value]);
      ghost var place: nat :| place < |elements| && elements[place] == s;
      idx := 0;
      while idx < |elements|
        invariant 0 <= idx <= place
      {
        if elements[idx] == s {
          return;
        }
        idx := idx + 1;
      }
    }

    // ----- Adding and removing

    /** Appends a new setting to an aggregate. */
    method Create(p: nat, name: Option<string>, t: SettingType) returns (setting: Option<nat>)
      requires Live(memory, p)
      modifies this`memory
      ensures (memory, setting) == ConfigSettings.Create(old(memory), p, name, t)
    {
      if !IsAggregate(memory[p].stype) {
        return None;
      }
      var e := |memory|;
      var parent := memory[p];
      ghost var before := memory;
      memory := memory + [Setting(name, t, CONFIG_FORMAT_DEFAULT, Zero, Some(p))];
      memory := memory[p := parent.(value := Elements(Kids(parent) + [e]))];
      assert memory == ConfigSettings.Create(before, p, name, t).0;
      return Some(e);
    }

    method Add(p: nat, name: Option<string>, t: SettingType) returns (setting: Option<nat>)
      requires Live(memory, p) && !FollowsNull(memory, p, name)
      modifies this`memory
      ensures (memory, setting) == ConfigSettings.Add(old(memory), p, name, t)
      ensures old(Valid()) && old(memory[p].stype != TARRAY && (memory[p].stype == TGROUP ==> name.Some?)) ==> Valid()
    {
      ghost var before := memory;
      var n := name;
      if IsVector(memory[p].stype) {
        n := None;
      }
      if n.Some? {
        var ok := ValidateName(n.value);
        if !ok {
          return None;
        }
        var known := GetMember(p, n.value);
        if known.Some? {
          return None;
        }
      }
      setting := Create(p, n, t);
      if Invariant(before) {
        AddInvariant(before, p, name, t);
      }
    }

    /** Frees a setting and all below it, children first. */
    method DestroySetting(s: nat, ghost m: Memory, ghost s0: nat, ghost freed: set<nat>)
      requires Unlinked(m, s0) && s0 <= s && Live(m, s)
      requires memory == Cleared(m, freed) && freed !! Subtree(m, s)
      modifies this`memory
      ensures memory == Cleared(m, freed + Subtree(m, s))
      decreases |m| - s
    {
      assert s in Subtree(m, s);
      var kids := Kids(memory[s]);
      var k := 0;
      while k < |kids|
        invariant k <= |kids| == |Kids(m[s])|
        invariant memory == Cleared(m, freed + FirstSubtrees(m, s, k))
      {
        ChildInside(m, s0, s, k);
        NextChildFree(m, s0, s, k);
        DestroySetting(kids[k], m, s0, freed + FirstSubtrees(m, s, k));
        assert freed + FirstSubtrees(m, s, k) + Subtree(m, kids[k]) == freed + FirstSubtrees(m, s, k + 1);
        k := k + 1;
      }
      AllChildrenFree(m, s0, s);
      memory := memory[s := Freed];
    }

    /** Takes the child at an index out of its parent, and destroys it. */
    method RemoveAt(p: nat, idx: nat)
      requires Valid() && KidAt(memory, p, idx)
      modifies this`memory
      ensures Valid() && memory == ConfigSettings.Remove(old(memory), p, idx)
    {
      ghost var before := memory;
      var elements := Kids(memory[p]);
      var removed := elements[idx];
      memory := memory[p := memory[p].(value := Elements(elements[..idx] + elements[idx + 1..]))];
      AfterUnlink(before, p, idx);
      assert memory == Unlink(before, p, idx) == Cleared(memory, {});
      DestroySetting(removed, memory, removed, {});
      ClearedIsDestroyed(Unlink(before, p, idx), removed);
      assert {} + Subtree(Unlink(before, p, idx), removed) == Subtree(Unlink(before, p, idx), removed);
      RemoveInvariant(before, p, idx);
    }

    method Remove(p: nat, name: string) returns (ok: bool)
      requires Valid() && Live(memory, p)
      modifies this`memory
      ensures Valid()
      ensures ok <==> old(FindMember(memory, p, name)).Some?
      ensures memory == if ok then ConfigSettings.Remove(old(memory), p, Search(old(memory), Kids(old(memory)[p]), name))
                        else old(memory)
    {
      if memory[p].stype != TGROUP {
        return false;
      }
      var idx := ListSearch(Kids(memory[p]), name);
      if idx == |Kids(memory[p])| {
        return false;
      }
      RemoveAt(p, idx);
      return true;
    }

    method RemoveElem(p: nat, idx: nat) returns (ok: bool)
      requires Valid() && Live(memory, p)
      modifies this`memory
      ensures Valid()
      ensures ok <==> old(Elem(memory, p, idx)).Some?
      ensures memory == if ok then ConfigSettings.Remove(old(memory), p, idx) else old(memory)
    {
      if !IsAggregate(memory[p].stype) || idx >= |Kids(memory[p])| {
        return false;
      }
      RemoveAt(p, idx);
      return true;
    }

    // ----- Values

    method SetValue(s: nat, x: Scalar) returns (ok: bool)
      requires Live(memory, s)
      modifies this`memory
      ensures ok <==> SetScalar(old(memory)[s], x, autoConvert).Some?
      ensures memory == if ok then old(memory)[s := SetScalar(old(memory)[s], x, autoConvert).value] else old(memory)
      ensures old(Valid()) ==> Valid()
    {
      ghost var before := memory;
      var changed := SetScalar(memory[s], x, autoConvert);
      if changed.None? {
        return false;
      }
      memory := memory[s := changed.value];
      if Invariant(before) {
        ChangeInvariant(before, s, x, autoConvert);
      }
      return true;
    }

    method SetFormat(s: nat, format: int) returns (ok: bool)
      requires Live(memory, s)
      modifies this`memory
      ensures ok <==> ConfigSettings.SetFormat(old(memory)[s], format).Some?
      ensures memory == Formatted(old(memory), s, Some(format))
      ensures old(Valid()) ==> Valid()
    {
      ghost var before := memory;
      if Invariant(before) {
        FormattedInvariant(before, s, Some(format));
      }
      var t := memory[s].stype;
      if (t != TINT && t != TINT64) || (format != CONFIG_FORMAT_DEFAULT && format != CONFIG_FORMAT_HEX) {
        return false;
      }
      memory := memory[s := memory[s].(format := format)];
      return true;
    }

    /** Sets an element of an array or list, or appends one for a negative index. */
    method SetElem(v: nat, idx: int, x: Scalar) returns (element: Option<nat>)
      requires Valid() && Live(memory, v)
      modifies this`memory
      ensures Valid()
      ensures (memory, element) == ConfigSettings.SetElem(old(memory), v, idx, x, autoConvert)
    {
      ghost var before := memory;
      SetElemInvariant(memory, v, idx, x, autoConvert);
      if !IsVector(memory[v].stype) {
        return None;
      }
      if idx < 0 {
        if !CheckType(memory, v, TypeOf(x)) {
          return None;
        }
        element := Create(v, None, TypeOf(x));
        Appended(before, v, x, autoConvert);
      } else {
        element := GetElem(v, idx);
        if element.None? {
          return None;
        }
        KidFacts(memory, v, idx);
      }
      var changed := SetScalar(memory[element.value], x, autoConvert);
      if changed.None? {
        return None;
      }
      memory := memory[element.value := changed.value];
    }

    // ----- Reading and writing

    /** The tokens that stand for the configuration. */
    method Write() returns (out: seq<Token>)
      requires Valid()
      ensures Tree().GroupOf? && (Printable(Tree()) ==> out == MemberTokens(Tree().members))
    {
      assert Rooted(memory, 0);
      out := WriteSetting(memory, 0, defaultFormat, 0);
    }

    /**
     * Replaces the configuration by the one that the tokens stand for. If they are no sentence, or an action aborts,
     * what was built so far remains.
     */
    method Read(tokens: seq<Token>) returns (ok: bool)
      modifies this
      ensures Valid() && defaultFormat == CONFIG_FORMAT_DEFAULT && autoConvert == old(autoConvert)
      ensures var c := Parse(tokens);
              var o := Build(Fresh(), c.events, autoConvert);
              && (ok <==> c.status == Accepted && o.Ok?)
              && (o.Ok? ==> memory == o.ctx.memory)
    {
      memory := Fresh().memory;
      defaultFormat := CONFIG_FORMAT_DEFAULT;
      var context := new ParseContext(this);
      var c := Initial(tokens);
      FreshFollows(autoConvert, tokens);
      while c.status == Running
        invariant context.config == this && fresh(context)
        invariant defaultFormat == CONFIG_FORMAT_DEFAULT && autoConvert == old(autoConvert)
        invariant Sound(c) && InStep(c, autoConvert) && Run(c) == Parse(tokens)
        invariant Build(Fresh(), c.events, autoConvert) == Ok(context.Value())
        decreases |c.input|, if c.status == Running then 1 + Rank(Top(c.stack).state) else 0
      {
        StepSound(c);
        StepInStep(c, autoConvert);
        var d := Step(c);
        StepActs(c);
        if |d.events| > |c.events| {
          var e := d.events[|c.events|];
          BuildSnoc(Fresh(), c.events, e, autoConvert);
          var acted := context.Perform(e);
          if !acted {
            AbortStays(d, autoConvert);
            return false;
          }
        }
        c := d;
      }
      ok := c.status == Accepted;
    }
  }

  /** The pointers that the semantic actions work with. */
  class ParseContext {
    const config: Config
    var parent: Option<nat>
    var setting: Option<nat>
    var text: Option<string>

    ghost function Value(): Context
      reads this, config
    {
      Context(config.memory, parent, setting, text)
    }

    constructor (config: Config)
      ensures this.config == config && parent == Some(0) && setting == Some(0) && text == None
    {
      this.config := config;
      parent := Some(0);
      setting := Some(0);
      text := None;
    }

    method Perform(event: Event) returns (ok: bool)
      requires config.Valid() && Act(Value(), event, config.autoConvert) != Crash
      modifies this, config`memory
      ensures ok <==> Act(old(Value()), event, config.autoConvert).Ok?
      ensures ok ==> Value() == Act(old(Value()), event, config.autoConvert).ctx
      ensures !ok ==> config.memory == old(config.memory)
    {
      match event
      case Named(t) =>
        if parent.None? {
          return false;
        }
        setting := config.Add(parent.value, Some(NameOf(t)), TNONE);
        ok := setting.Some?;
      case Open(b) =>
        if InList() {
          parent := config.Add(parent.value, None, BracketType(b));
        } else {
          config.memory := config.memory[setting.value := config.memory[setting.value].(stype := BracketType(b))];
          parent := setting;
          setting := None;
        }
        ok := true;
      case Close =>
        if parent.Some? {
          parent := config.memory[parent.value].parent;
        }
        ok := true;
      case Literal(t) =>
        ok := PutScalar(ScalarOf(t), FormatOf(t));
      case Piece(t) =>
        text := Some((if text.Some? then text.value else "") + PieceOf(t));
        ok := true;
      case Text =>
        var taken := text;
        text := None;
        ok := PutScalar(AString(taken), None);
    }

    predicate InList()
      reads this, config
    {
      parent.Some? && Live(config.memory, parent.value) && config.memory[parent.value].stype == TLIST
    }

    predicate InVector()
      reads this, config
    {
      parent.Some? && Live(config.memory, parent.value) && IsVector(config.memory[parent.value].stype)
    }

    /** A scalar goes to the end of the array or list that is open, or else to the setting just named. */
    method PutScalar(x: Scalar, format: Option<int>) returns (ok: bool)
      requires config.Valid() && ConfigBuilder.PutScalar(Value(), x, format, config.autoConvert) != Crash
      modifies config`memory
      ensures var o := ConfigBuilder.PutScalar(old(Value()), x, format, config.autoConvert);
              && (ok <==> o.Ok?) && (ok ==> Value() == o.ctx) && (!ok ==> config.memory == old(config.memory))
    {
      var target := setting;
      if InVector() {
        target := config.SetElem(parent.value, -1, x);
        if target.None? {
          return false;
        }
      } else {
        var done := config.SetValue(setting.value, x);
      }
      if format.Some? {
        var done := config.SetFormat(target.value, format.value);
      }
      return true;
    }
  }
}
