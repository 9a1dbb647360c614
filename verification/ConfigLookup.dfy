/** Looking settings up by paths of names and indices. */
module ConfigLookup {
  import opened ConfigSettings
  import opened ConfigInvariant
  import opened ConfigApi
  import opened Options

  const UINT_SIZE := 0x1_0000_0000

  /** The indices that atoi is defined for are below this. */
  const INT_LIMIT := 0x8000_0000

  // ----- Numbers in paths

  predicate IsSpace(c: char) { c == ' ' || '\t' <= c <= '\r' }

  function DigitValue(c: char): int { c as int - '0' as int }

  function Digits(s: string, value: int): int {
    if s == "" || !IsDigit(s[0]) then value else Digits(s[1..], 10 * value + DigitValue(s[0]))
  }

  /** The number that a string begins with: white space, a sign, digits. */
  function Atoi(s: string): int {
    if s != "" && IsSpace(s[0]) then Atoi(s[1..])
    else if s != "" && s[0] == '-' then -Digits(s[1..], 0)
    else if s != "" && s[0] == '+' then Digits(s[1..], 0)
    else Digits(s, 0)
  }

  function Decimal(n: nat): (s: string)
    ensures s != "" && forall i :: 0 <= i < |s| ==> IsDigit(s[i])
  {
    if n < 10 then [('0' as int + n) as char] else Decimal(n / 10) + [('0' as int + n % 10) as char]
  }

  lemma {:induction false} DigitsThen(a: string, b: string, value: int)
    requires forall i :: 0 <= i < |a| ==> IsDigit(a[i])
    ensures Digits(a + b, value) == Digits(b, Digits(a, value))
    decreases |a|
  {
    if a == "" {
      assert a + b == b;
    } else {
      assert (a + b)[1..] == a[1..] + b;
      DigitsThen(a[1..], b, 10 * value + DigitValue(a[0]));
    }
  }

  lemma {:induction false} DecimalDigits(n: nat)
    ensures Digits(Decimal(n), 0) == n
  {
    if n >= 10 {
      DecimalDigits(n / 10);
      var last := [('0' as int + n % 10) as char];
      DigitsThen(Decimal(n / 10), last, 0);
      assert last[1..] == "";
    }
  }

  /** Reading a number back, whatever follows it. */
  lemma {:induction false} AtoiDecimal(n: nat, rest: string)
    requires rest == "" || !IsDigit(rest[0])
    ensures Atoi(Decimal(n) + rest) == n
  {
    var s := Decimal(n) + rest;
    assert s[0] == Decimal(n)[0];
    DigitsThen(Decimal(n), rest, 0);
    DecimalDigits(n);
  }

  lemma {:induction false} DigitsHead(s: string, value: int)
    ensures Digits(Head(s), value) == Digits(s, value)
    decreases |s|
  {
    if s != "" && IsDigit(s[0]) {
      DigitsHead(s[1..], 10 * value + DigitValue(s[0]));
      assert Head(s)[1..] == Head(s[1..]);
    }
  }

  /** The number depends on the step only, not on the rest of the path. */
  lemma {:induction false} AtoiHead(s: string)
    ensures Atoi(Head(s)) == Atoi(s)
    decreases |s|
  {
    if s != "" && !IsPathToken(s[0]) {
      assert Head(s)[1..] == Head(s[1..]) && Head(s)[0] == s[0];
      if IsSpace(s[0]) {
        AtoiHead(s[1..]);
      } else if s[0] == '-' || s[0] == '+' {
        DigitsHead(s[1..], 0);
      } else {
        DigitsHead(s, 0);
      }
    }
  }

  // ----- Paths as steps

  function Tail(s: string): string {
    if s == "" || IsPathToken(s[0]) then s else Tail(s[1..])
  }

  lemma {:induction false} HeadTail(s: string)
    ensures Head(s) + Tail(s) == s
    ensures Tail(s) == "" || IsPathToken(Tail(s)[0])
    decreases |s|
  {
    if s != "" && !IsPathToken(s[0]) {
      HeadTail(s[1..]);
    }
  }

  /** The steps of a path: its longest parts without separators. */
  function Steps(path: string): seq<string>
    decreases |path|
  {
    if path == "" then []
    else if IsPathToken(path[0]) then Steps(path[1..])
    else
      HeadTail(path);
      [Head(path)] + Steps(Tail(path))
  }

  /** The setting that one step leads to: an element for a bracket, else a member. */
  function Follow(m: Memory, s: nat, step: string): Option<nat>
    requires Live(m, s)
  {
    if step != "" && step[0] == '[' then Elem(m, s, Atoi(step[1..]) % UINT_SIZE) else FindMember(m, s, step)
  }

  /** The setting that the steps lead to. */
  function Walk(m: Memory, s: nat, steps: seq<string>): Option<nat>
    requires Live(m, s)
    decreases |steps|
  {
    if steps == [] then Some(s)
    else
      var next := Follow(m, s, steps[0]);
      if next.Some? && Live(m, next.value) then Walk(m, next.value, steps[1..]) else None
  }

  /** A path whose last step is an opening bracket with nothing behind it. */
  predicate Dangling(path: string) {
    path != "" && path[|path| - 1] == '[' && (|path| == 1 || IsPathToken(path[|path| - 2]))
  }

  // ----- The lookup loop

  /** What the loop returns when it has come to this setting and this rest of the path. */
  function Lookup(m: Memory, s: nat, path: string): Option<nat>
    requires Live(m, s)
    decreases |path|
  {
    if path == "" then Some(s)
    else if IsPathToken(path[0]) then Lookup(m, s, path[1..])
    else
      var p := if path[0] == '[' then path[1..] else path;
      var found := if path[0] == '[' then Elem(m, s, Atoi(p) % UINT_SIZE) else FindMember(m, s, p);
      HeadTail(p);
      if found.None? || !Live(m, found.value) then (if p == "" then Some(s) else None)
      else Lookup(m, found.value, Tail(p))
  }

  lemma {:induction false} TailShrinks(path: string)
    requires path != "" && !IsPathToken(path[0])
    ensures |Tail(path)| < |path| && Tail(path) == Tail(path[1..])
  {
    HeadTail(path[1..]);
  }

  lemma {:induction false} FoundLive(m: Memory, s: nat, i: nat, name: string)
    requires Invariant(m) && Live(m, s)
    ensures Elem(m, s, i).Some? ==> Live(m, Elem(m, s, i).value)
    ensures FindMember(m, s, name).Some? ==> Live(m, FindMember(m, s, name).value)
  {
    if i < |Kids(m[s])| {
      KidFacts(m, s, i);
    }
  }

  function Skip(s: string): string {
    if s != "" && IsPathToken(s[0]) then Skip(s[1..]) else s
  }

  lemma {:induction false} LookupSkips(m: Memory, s: nat, path: string)
    requires Live(m, s)
    ensures Lookup(m, s, path) == Lookup(m, s, Skip(path))
    decreases |path|
  {
    if path != "" && IsPathToken(path[0]) {
      LookupSkips(m, s, path[1..]);
    }
  }

  /** One turn of the loop, at a step. */
  lemma {:induction false} LookupTurn(m: Memory, s: nat, path: string, p: string, found: Option<nat>)
    requires Invariant(m) && Live(m, s) && path != "" && !IsPathToken(path[0])
    requires p == if path[0] == '[' then path[1..] else path
    requires found == if path[0] == '[' then Elem(m, s, Atoi(p) % UINT_SIZE) else FindMember(m, s, p)
    ensures found.None? ==> Lookup(m, s, path) == if p == "" then Some(s) else None
    ensures found.Some? ==> Live(m, found.value) && Lookup(m, s, path) == Lookup(m, found.value, Tail(p))
    ensures |p| <= |path| && |Tail(p)| < |path|
  {
    FoundLive(m, s, Atoi(p) % UINT_SIZE, p);
    TailShrinks(path);
    HeadTail(p);
  }

  method PastTokens(path: string, from: nat) returns (p: nat)
    requires from <= |path|
    ensures from <= p <= |path| && path[p..] == Skip(path[from..])
    ensures p < |path| ==> !IsPathToken(path[p])
  {
    p := from;
    while p < |path| && IsPathToken(path[p])
      invariant from <= p <= |path| && Skip(path[p..]) == Skip(path[from..])
    {
      p := p + 1;
      assert path[p - 1..][1..] == path[p..];
    }
  }

  method PastStep(path: string, from: nat) returns (p: nat)
    requires from <= |path|
    ensures from <= p <= |path| && path[p..] == Tail(path[from..])
  {
    p := from;
    while p < |path| && !IsPathToken(path[p])
      invariant from <= p <= |path| && Tail(path[p..]) == Tail(path[from..])
    {
      p := p + 1;
      assert path[p - 1..][1..] == path[p..];
    }
  }

  /** The loop ends on every string: its cursor moves forward on every turn. */
  method LookupFrom(config: Config, start: nat, path: string) returns (setting: Option<nat>)
    requires config.Valid() && Live(config.memory, start)
    ensures setting == Lookup(config.memory, start, path)
    ensures setting.Some? ==> Live(config.memory, setting.value)
  {
    var p := 0;
    var s := start;
    ghost var m := config.memory;
    while true
      invariant p <= |path| && Live(m, s) && Lookup(m, start, path) == Lookup(m, s, path[p..])
      decreases |path| - p
    {
      LookupSkips(m, s, path[p..]);
      p := PastTokens(path, p);
      if p == |path| {
        return Some(s);
      }
      ghost var rest := path[p..];
      var found;
      if path[p] == '[' {
        p := p + 1;
        assert rest[1..] == path[p..];
        found := config.GetElem(s, Atoi(path[p..]) % UINT_SIZE);
      } else {
        found := config.GetMember(s, path[p..]);
      }
      LookupTurn(m, s, rest, path[p..], found);
      if found.None? {
        return if p < |path| then None else Some(s);
      }
      s := found.value;
      p := PastStep(path, p);
    }
  }

  // ----- The loop walks the steps

  lemma {:induction false} HeadHead(s: string)
    ensures Head(Head(s)) == Head(s)
    decreases |s|
  {
    if s != "" && !IsPathToken(s[0]) {
      HeadHead(s[1..]);
      assert Head(s)[1..] == Head(s[1..]);
    }
  }

  lemma {:induction false} SearchHead(m: Memory, elements: seq<nat>, name: string)
    ensures Search(m, elements, Head(name)) == Search(m, elements, name)
    decreases |elements|
  {
    HeadHead(name);
    if elements != [] {
      SearchHead(m, elements[1..], name);
    }
  }

  lemma {:induction false} FollowsHead(m: Memory, s: nat, path: string)
    requires Live(m, s) && path != "" && !IsPathToken(path[0])
    ensures Follow(m, s, Head(path))
         == if path[0] == '[' then Elem(m, s, Atoi(path[1..]) % UINT_SIZE) else FindMember(m, s, path)
  {
    assert Head(path)[0] == path[0] && Head(path)[1..] == Head(path[1..]);
    AtoiHead(path[1..]);
    SearchHead(m, Kids(m[s]), path);
  }

  lemma {:induction false} DanglingTail(path: string)
    requires path != "" && path != "["
    ensures IsPathToken(path[0]) ==> (Dangling(path[1..]) <==> Dangling(path))
    ensures !IsPathToken(path[0]) ==> (Dangling(Tail(path)) <==> Dangling(path))
  {
    HeadPrefix(path);
    HeadTail(path);
    var n := |Head(path)|;
    assert Tail(path) == path[n..];
  }

  /** Steps without the last one of a dangling path. */
  lemma {:induction false} DanglingSteps(path: string)
    requires Dangling(path)
    ensures Steps(path) != [] && Steps(path)[|Steps(path)| - 1] == "["
    decreases |path|
  {
    if path == "[" {
      assert Head(path) == "[" && Tail(path) == "";
    } else {
      DanglingTail(path);
      HeadTail(path);
      if IsPathToken(path[0]) {
        DanglingSteps(path[1..]);
      } else {
        TailShrinks(path);
        DanglingSteps(Tail(path));
      }
    }
  }

  function WithoutLast(steps: seq<string>): seq<string> {
    if steps == [] then [] else steps[..|steps| - 1]
  }

  /**
   * The loop finds the setting that the steps of the path lead to, or none; except for a path that ends in an opening
   * bracket alone, where a missing element gives the setting before it.
   */
  lemma {:induction false} LookupWalks(m: Memory, s: nat, path: string)
    requires Invariant(m) && Live(m, s)
    ensures var w := Walk(m, s, Steps(path));
            Lookup(m, s, path) == if w.None? && Dangling(path) then Walk(m, s, WithoutLast(Steps(path))) else w
    decreases |path|
  {
    if path == "[" {
      FollowsHead(m, s, path);
      FoundLive(m, s, 0, path);
      assert path[1..] == "";
      assert Head(path) == "[" && Tail(path) == "";
      assert Steps(path) == ["["];
      assert Atoi("") == 0;
    } else if path != "" {
      DanglingTail(path);
      if IsPathToken(path[0]) {
        LookupWalks(m, s, path[1..]);
      } else {
        LookupStep(m, s, path);
      }
    }
  }

  lemma {:induction false} LookupStep(m: Memory, s: nat, path: string)
    requires Invariant(m) && Live(m, s) && path != "" && path != "[" && !IsPathToken(path[0])
    requires Dangling(Tail(path)) <==> Dangling(path)
    ensures var w := Walk(m, s, Steps(path));
            Lookup(m, s, path) == if w.None? && Dangling(path) then Walk(m, s, WithoutLast(Steps(path))) else w
    decreases |path|, 0
  {
    HeadTail(path);
    TailShrinks(path);
    FollowsHead(m, s, path);
    var steps := Steps(path);
    assert steps[0] == Head(path) && steps[1..] == Steps(Tail(path));
    var next := Follow(m, s, steps[0]);
    FoundLive(m, s, Atoi(path[1..]) % UINT_SIZE, path);
    if Dangling(path) {
      DanglingSteps(Tail(path));
      assert WithoutLast(steps)[1..] == WithoutLast(Steps(Tail(path)));
    }
    if next.Some? {
      LookupWalks(m, next.value, Tail(path));
    }
  }

  /** For one, a bracket alone gives the root of an empty configuration, which has no element. */
  lemma {:induction false} BracketGivesRoot(m: Memory)
    requires Invariant(m) && Live(m, 0) && m[0].stype == TGROUP && Kids(m[0]) == []
    ensures Walk(m, 0, Steps("[")) == None && Lookup(m, 0, "[") == Some(0)
  {
    var path := "[";
    assert path[1..] == "" && Head(path) == "[" && Tail(path) == "";
    assert Steps(path) == ["["];
    LookupWalks(m, 0, path);
  }

  // ----- Paths to settings

  predicate IsStep(step: string) {
    step != "" && forall i :: 0 <= i < |step| ==> !IsPathToken(step[i])
  }

  function Join(steps: seq<string>): string {
    if steps == [] then "" else if |steps| == 1 then steps[0] else steps[0] + "." + Join(steps[1..])
  }

  lemma {:induction false} HeadThen(step: string, rest: string)
    requires (forall i :: 0 <= i < |step| ==> !IsPathToken(step[i])) && (rest == "" || IsPathToken(rest[0]))
    ensures Head(step + rest) == step && Tail(step + rest) == rest
    decreases |step|
  {
    if step == "" {
      assert step + rest == rest;
    } else {
      assert (step + rest)[1..] == step[1..] + rest;
      HeadThen(step[1..], rest);
      assert step == [step[0]] + step[1..];
    }
  }

  lemma {:induction false} JoinedSteps(steps: seq<string>)
    requires forall i :: 0 <= i < |steps| ==> IsStep(steps[i])
    ensures Steps(Join(steps)) == steps
    decreases |steps|
  {
    if |steps| == 1 {
      assert Join(steps) == steps[0] + "";
      HeadThen(steps[0], "");
    } else if steps != [] {
      var rest := "." + Join(steps[1..]);
      assert Join(steps) == steps[0] + rest;
      HeadThen(steps[0], rest);
      assert rest[1..] == Join(steps[1..]);
      JoinedSteps(steps[1..]);
      assert (steps[0] + rest)[0] == steps[0][0];
    }
  }

  function IndexIn(elements: seq<nat>, i: nat): (k: nat)
    requires i in elements
    ensures k < |elements| && elements[k] == i
  {
    if elements[0] == i then 0 else 1 + IndexIn(elements[1..], i)
  }

  /** The step from the parent of a setting to it. */
  function StepTo(m: Memory, i: nat): string
    requires Live(m, i) && m[i].parent.Some? && Live(m, m[i].parent.value) && i in Kids(m[m[i].parent.value])
  {
    if m[i].name.Some? then m[i].name.value else "[" + Decimal(IndexIn(Kids(m[m[i].parent.value]), i)) + "]"
  }

  /** The steps from a setting down to one below it. */
  ghost function StepsTo(m: Memory, a: nat, i: nat): seq<string>
    requires Invariant(m) && Live(m, i) && Ancestor(m, a, i)
    decreases i
  {
    if i == a then []
    else
      assert Rooted(m, i);
      StepsTo(m, a, m[i].parent.value) + [StepTo(m, i)]
  }

  lemma {:induction false} WalkThen(m: Memory, s: nat, steps: seq<string>, step: string)
    requires Invariant(m) && Live(m, s) && Walk(m, s, steps).Some? && Live(m, Walk(m, s, steps).value)
    requires Follow(m, Walk(m, s, steps).value, step).Some? && Live(m, Follow(m, Walk(m, s, steps).value, step).value)
    ensures Walk(m, s, steps + [step]) == Follow(m, Walk(m, s, steps).value, step)
    decreases |steps|
  {
    if steps != [] {
      assert (steps + [step])[1..] == steps[1..] + [step];
      WalkThen(m, Follow(m, s, steps[0]).value, steps[1..], step);
    }
  }

  /** One step leads from a parent to each of its children: names are different, and indices are in order. */
  lemma {:induction false} StepFollows(m: Memory, i: nat)
    requires Invariant(m) && Live(m, i) && i != 0
    requires m[i].parent.Some? && Live(m, m[i].parent.value) && |Kids(m[m[i].parent.value])| <= INT_LIMIT
    requires i in Kids(m[m[i].parent.value])
    ensures Follow(m, m[i].parent.value, StepTo(m, i)) == Some(i) && IsStep(StepTo(m, i))
  {
    var p := m[i].parent.value;
    var k := IndexIn(Kids(m[p]), i);
    KidFacts(m, p, k);
    if m[p].stype == TGROUP {
      NamedMember(m, p, k);
    } else {
      ElementStep(m, p, k);
    }
  }

  lemma {:induction false} ElementStep(m: Memory, p: nat, k: nat)
    requires KidAt(m, p, k) && IsAggregate(m[p].stype) && k < INT_LIMIT
    ensures Follow(m, p, "[" + Decimal(k) + "]") == Some(Kids(m[p])[k]) && IsStep("[" + Decimal(k) + "]")
  {
    AtoiDecimal(k, "]");
    var step := "[" + Decimal(k) + "]";
    assert step[1..] == Decimal(k) + "]";
  }

  lemma {:induction false} NamedMember(m: Memory, p: nat, k: nat)
    requires Invariant(m) && KidAt(m, p, k) && m[p].stype == TGROUP
    requires m[Kids(m[p])[k]].name.Some?
    ensures var name := m[Kids(m[p])[k]].name.value;
            FindMember(m, p, name) == Some(Kids(m[p])[k]) && IsStep(name)
  {
    KidFacts(m, p, k);
    var name := m[Kids(m[p])[k]].name.value;
    ValidNameHead(name);
    var j := Search(m, Kids(m[p]), name);
    assert HasName(m, Kids(m[p])[k], name);
    KidFacts(m, p, j);
    ValidNameHead(m[Kids(m[p])[j]].name.value);
    assert Apart(m, p, j, k);
  }

  /** Lookup inverts path construction: the path to a setting leads to it, from each setting above it. */
  lemma {:induction false} PathLeadsTo(m: Memory, a: nat, i: nat)
    requires Invariant(m) && Live(m, a) && Live(m, i) && Ancestor(m, a, i)
    requires forall j: nat :: Live(m, j) ==> |Kids(m[j])| <= INT_LIMIT
    ensures Lookup(m, a, Join(StepsTo(m, a, i))) == Some(i)
  {
    StepsLeadTo(m, a, i);
    var steps := StepsTo(m, a, i);
    JoinedSteps(steps);
    LookupWalks(m, a, Join(steps));
  }

  lemma {:induction false} StepsLeadTo(m: Memory, a: nat, i: nat)
    requires Invariant(m) && Live(m, a) && Live(m, i) && Ancestor(m, a, i)
    requires forall j: nat :: Live(m, j) ==> |Kids(m[j])| <= INT_LIMIT
    ensures Walk(m, a, StepsTo(m, a, i)) == Some(i)
    ensures forall k :: 0 <= k < |StepsTo(m, a, i)| ==> IsStep(StepsTo(m, a, i)[k])
    decreases i
  {
    if i != a {
      assert Rooted(m, i);
      var p := m[i].parent.value;
      StepsLeadTo(m, a, p);
      StepFollows(m, i);
      WalkThen(m, a, StepsTo(m, a, p), StepTo(m, i));
    }
  }
}
