/**
  The conditional-directive machine of the C preprocessor: a stack of dispatch tables decides which
  include lines are live.
  */
module Cpp {
  type Namespace = map<string, string>

  /** How an expression evaluates under the current definitions. */
  type Evaluator = (Namespace, string) -> bool

  datatype Directive =
    | If(expr: string) | Ifdef(name: string) | Ifndef(name: string)
    | Elif(expr: string) | Else | Endif
    | Define(name: string, expansion: string) | Undef(name: string)
    | Include(file: string) | IncludeNext(file: string) | Import(file: string)

  datatype Handling = Handle | Ignore
  datatype OnElif = DoElif | StopAtElif
  datatype OnElse = DoElse | StartAtElse | StopAtElse

  /** The entries of the dispatch table that change; every other directive always has its own handler. */
  datatype Table = Table(imports: Handling, includes: Handling, includeNexts: Handling, onElif: OnElif, onElse: OnElse)

  const DEFAULT_TABLE := Table(Handle, Handle, Handle, DoElif, DoElse)

  function StartHandling(t: Table): Table {
    t.(imports := Handle, includes := Handle, includeNexts := Handle)
  }

  function StopHandling(t: Table): Table {
    t.(imports := Ignore, includes := Ignore, includeNexts := Ignore)
  }

  datatype Machine = Machine(table: Table, stack: seq<Table>, ns: Namespace, result: seq<string>)

  /** From here on, no further branch of the group is live. */
  function Taken(t: Table): Table {
    StartHandling(t).(onElif := StopAtElif, onElse := StopAtElse)
  }

  function Enter(m: Machine, condition: bool): Machine {
    m.(stack := m.stack + [m.table],
       table := if condition then Taken(DEFAULT_TABLE)
                else StopHandling(DEFAULT_TABLE).(onElif := DoElif, onElse := StartAtElse))
  }

  /** The end of a group; one too many is ignored. */
  function Restore(m: Machine): Machine {
    if m.stack == [] then m
    else m.(table := m.stack[|m.stack| - 1], stack := m.stack[..|m.stack| - 1])
  }

  function Step(eval: Evaluator, m: Machine, d: Directive): Machine {
    match d
    case If(expr) => Enter(m, eval(m.ns, expr))
    case Ifdef(name) => Enter(m, name in m.ns)
    case Ifndef(name) => Enter(m, name !in m.ns)
    case Elif(expr) =>
      if m.table.onElif.StopAtElif? then m.(table := StopHandling(m.table))
      else if eval(m.ns, expr) then m.(table := Taken(m.table))
      else m
    case Else =>
      (match m.table.onElse
       case DoElse => m
       case StartAtElse => m.(table := StartHandling(m.table))
       case StopAtElse => m.(table := StopHandling(m.table)))
    case Endif => Restore(m)
    case Define(name, expansion) => m.(ns := m.ns[name := expansion])
    case Undef(name) => m.(ns := m.ns - {name})
    case Include(file) => if m.table.includes.Handle? then m.(result := m.result + [file]) else m
    case IncludeNext(file) => if m.table.includeNexts.Handle? then m.(result := m.result + [file]) else m
    case Import(_) => m
  }

  function Run(eval: Evaluator, m: Machine, ds: seq<Directive>): Machine
    decreases |ds|
  {
    if ds == [] then m else Run(eval, Step(eval, m, ds[0]), ds[1..])
  }

  lemma {:induction false} RunMore(eval: Evaluator, m: Machine, a: seq<Directive>, b: seq<Directive>)
    ensures Run(eval, m, a + b) == Run(eval, Run(eval, m, a), b)
    decreases |a|
  {
    if a == [] {
      assert a + b == b;
    } else {
      assert (a + b)[1..] == a[1..] + b;
      RunMore(eval, Step(eval, m, a[0]), a[1..], b);
    }
  }

  // ---------------------------------------------------------------- Well-nested directives

  datatype Block =
    | Empty
    | Line(d: Directive, next: Block)
    | Group(first: Directive, body: Block, rest: Rest, next: Block)

  datatype Rest = End | OrElif(expr: string, body: Block, rest: Rest) | OrElse(body: Block)

  predicate Opens(d: Directive) {
    d.If? || d.Ifdef? || d.Ifndef?
  }

  predicate Plain(d: Directive) {
    d.Define? || d.Undef? || d.Include? || d.IncludeNext? || d.Import?
  }

  predicate WellNested(b: Block) {
    match b
    case Empty => true
    case Line(d, next) => Plain(d) && WellNested(next)
    case Group(first, body, rest, next) => Opens(first) && WellNested(body) && WellNestedRest(rest) && WellNested(next)
  }

  predicate WellNestedRest(r: Rest) {
    match r
    case End => true
    case OrElif(_, body, rest) => WellNested(body) && WellNestedRest(rest)
    case OrElse(body) => WellNested(body)
  }

  function Flatten(b: Block): seq<Directive> {
    match b
    case Empty => []
    case Line(d, next) => [d] + Flatten(next)
    case Group(first, body, rest, next) => [first] + Flatten(body) + FlattenRest(rest) + Flatten(next)
  }

  function FlattenRest(r: Rest): seq<Directive> {
    match r
    case End => [Endif]
    case OrElif(expr, body, rest) => [Elif(expr)] + Flatten(body) + FlattenRest(rest)
    case OrElse(body) => [Else] + Flatten(body) + [Endif]
  }

  // ---------------------------------------------------------------- Which names are defined

  /** The name is defined at `i` and not undefined after that. */
  ghost predicate StaysDefined(ds: seq<Directive>, x: string, i: nat) {
    && i < |ds| && ds[i].Define? && ds[i].name == x
    && forall j | i < j < |ds| :: ds[j] != Undef(x)
  }

  /** The last directive about the name is a definition, or there is none and the name was defined before. */
  ghost predicate DefinedAfter(ds: seq<Directive>, x: string, before: bool) {
    (exists i: nat :: StaysDefined(ds, x, i)) || (before && Undef(x) !in ds)
  }

  lemma DefinedMore(ds: seq<Directive>, d: Directive, x: string, before: bool)
    ensures DefinedAfter(ds + [d], x, before) <==>
      (d.Define? && d.name == x) || (d != Undef(x) && DefinedAfter(ds, x, before))
  {
    var all := ds + [d];
    if d.Define? && d.name == x {
      assert StaysDefined(all, x, |ds|);
    }
    if i: nat :| StaysDefined(ds, x, i) && d != Undef(x) {
      assert StaysDefined(all, x, i);
    }
    if i: nat :| StaysDefined(all, x, i) {
      assert i < |ds| ==> all[|ds|] != Undef(x) && StaysDefined(ds, x, i) by {
        assert forall j | 0 <= j < |ds| :: all[j] == ds[j];
      }
    }
  }

  /** Definitions count wherever they stand: a name is defined exactly if the last directive about it defines it. */
  lemma {:induction false} DefinedIff(eval: Evaluator, m: Machine, ds: seq<Directive>, x: string)
    ensures x in Run(eval, m, ds).ns <==> DefinedAfter(ds, x, x in m.ns)
    decreases |ds|
  {
    if ds != [] {
      var before, d := ds[..|ds| - 1], ds[|ds| - 1];
      assert ds == before + [d] && [d][1..] == [];
      DefinedIff(eval, m, before, x);
      RunMore(eval, m, before, [d]);
      DefinedMore(before, d, x, x in m.ns);
    }
  }

  /** The directive says nothing about the name. */
  predicate Silent(d: Directive, x: string) {
    d != Undef(x) && (d.Define? ==> d.name != x)
  }

  lemma {:induction false} SilentKeeps(eval: Evaluator, m: Machine, ds: seq<Directive>, x: string)
    requires forall d | d in ds :: Silent(d, x)
    ensures x in Run(eval, m, ds).ns <==> x in m.ns
    ensures x in m.ns ==> Run(eval, m, ds).ns[x] == m.ns[x]
    decreases |ds|
  {
    if ds != [] {
      assert ds[0] in ds && forall d | d in ds[1..] :: d in ds;
      SilentKeeps(eval, Step(eval, m, ds[0]), ds[1..], x);
    }
  }

  /** A name stands for what the last definition says. */
  lemma LastDefinitionCounts(eval: Evaluator, m: Machine, before: seq<Directive>, x: string, expansion: string, after: seq<Directive>)
    requires forall d | d in after :: Silent(d, x)
    ensures var ns := Run(eval, m, before + ([Define(x, expansion)] + after)).ns; x in ns && ns[x] == expansion
  {
    var m1 := Run(eval, m, before);
    RunMore(eval, m, before, [Define(x, expansion)] + after);
    RunInTurn(eval, m1, Define(x, expansion), after);
    SilentKeeps(eval, Step(eval, m1, Define(x, expansion)), after, x);
  }

  lemma RunInTurn(eval: Evaluator, m: Machine, d: Directive, ds: seq<Directive>)
    ensures Run(eval, m, [d] + ds) == Run(eval, Step(eval, m, d), ds)
  {
    assert ([d] + ds)[1..] == ds;
  }

  lemma OneByOne(a: Directive, b: Directive, c: Directive)
    ensures [a] + ([b] + ([c] + [])) == [a, b, c]
  {
  }

  lemma GuardSteps(eval: Evaluator, m: Machine, x: string, file: string)
    ensures Step(eval, Step(eval, Step(eval, m, Ifdef(x)), Include(file)), Endif).result
         == m.result + if x in m.ns then [file] else []
  {
    assert m.result + [] == m.result;
  }

  /** So a guarded include is handled exactly if the last directive about its guard defines it. */
  lemma GuardedInclude(eval: Evaluator, m: Machine, ds: seq<Directive>, x: string, file: string)
    ensures Run(eval, m, ds + [Ifdef(x), Include(file), Endif]).result
         == Run(eval, m, ds).result + if DefinedAfter(ds, x, x in m.ns) then [file] else []
  {
    var m1, none := Run(eval, m, ds), [];
    OneByOne(Ifdef(x), Include(file), Endif);
    DefinedIff(eval, m, ds, x);
    RunMore(eval, m, ds, [Ifdef(x)] + ([Include(file)] + ([Endif] + none)));
    RunInTurn(eval, m1, Ifdef(x), [Include(file)] + ([Endif] + none));
    RunInTurn(eval, Step(eval, m1, Ifdef(x)), Include(file), [Endif] + none);
    RunInTurn(eval, Step(eval, Step(eval, m1, Ifdef(x)), Include(file)), Endif, none);
    GuardSteps(eval, m1, x, file);
  }

  // ---------------------------------------------------------------- What a block means

  /** The definitions after a block, and the includes it contributes. */
  datatype Meaning = Meaning(ns: Namespace, includes: seq<string>)

  function Holds(eval: Evaluator, ns: Namespace, d: Directive): bool
    requires Opens(d)
  {
    match d
    case If(expr) => eval(ns, expr)
    case Ifdef(name) => name in ns
    case Ifndef(name) => name !in ns
  }

  function MeanLine(d: Directive, live: bool, ns: Namespace): Meaning {
    match d
    case Define(name, expansion) => Meaning(ns[name := expansion], [])
    case Undef(name) => Meaning(ns - {name}, [])
    case Include(file) => Meaning(ns, if live then [file] else [])
    case IncludeNext(file) => Meaning(ns, if live then [file] else [])
    case _ => Meaning(ns, [])
  }

  /**
    Include lines count where they are live; definitions count everywhere. The branches of a group are
    live by its own conditions alone, wherever the group stands.
    */
  function Mean(eval: Evaluator, b: Block, live: bool, ns: Namespace): Meaning
    requires WellNested(b)
    decreases b, 1
  {
    match b
    case Empty => Meaning(ns, [])
    case Line(d, next) =>
      var first := MeanLine(d, live, ns);
      var after := Mean(eval, next, live, first.ns);
      Meaning(after.ns, first.includes + after.includes)
    case Group(first, body, rest, next) =>
      var group := MeanGroup(eval, b, ns);
      var after := Mean(eval, next, live, group.ns);
      Meaning(after.ns, group.includes + after.includes)
  }

  /** One group from its opening directive to its end. */
  function MeanGroup(eval: Evaluator, b: Block, ns: Namespace): Meaning
    requires WellNested(b) && b.Group?
    decreases b, 0
  {
    var taken := Holds(eval, ns, b.first);
    var one := Mean(eval, b.body, taken, ns);
    var others := MeanRest(eval, b.rest, taken, one.ns);
    Meaning(others.ns, one.includes + others.includes)
  }

  /** The remaining branches: the first whose condition holds is live, or the last one if none is. */
  function MeanRest(eval: Evaluator, r: Rest, taken: bool, ns: Namespace): Meaning
    requires WellNestedRest(r)
    decreases r, 0
  {
    match r
    case End => Meaning(ns, [])
    case OrElif(expr, body, rest) =>
      var live := !taken && eval(ns, expr);
      var one := Mean(eval, body, live, ns);
      var others := MeanRest(eval, rest, taken || live, one.ns);
      Meaning(others.ns, one.includes + others.includes)
    case OrElse(body) => Mean(eval, body, !taken, ns)
  }

  // ---------------------------------------------------------------- The machine computes the meaning

  /** Includes are handled, or they are not: the three entries agree. */
  predicate Uniform(t: Table) {
    t.imports == t.includes == t.includeNexts
  }

  predicate Live(t: Table) {
    t.includes.Handle?
  }

  /** The table inside a group: `taken` says whether a branch has been live already. */
  predicate InGroup(t: Table, taken: bool) {
    && Uniform(t)
    && t.onElif == (if taken then StopAtElif else DoElif)
    && t.onElse == (if taken then StopAtElse else StartAtElse)
    && (!taken ==> !Live(t))
  }

  lemma RunOne(eval: Evaluator, m: Machine, d: Directive)
    ensures Run(eval, m, [d]) == Step(eval, m, d)
  {
    assert [d][1..] == [];
  }

  lemma RunFirst(eval: Evaluator, m: Machine, d: Directive, ds: seq<Directive>)
    ensures Run(eval, m, [d] + ds) == Run(eval, Step(eval, m, d), ds)
  {
    assert ([d] + ds)[1..] == ds;
  }

  lemma RunThree(eval: Evaluator, m: Machine, d: Directive, a: seq<Directive>, b: seq<Directive>)
    ensures Run(eval, m, [d] + a + b) == Run(eval, Run(eval, Step(eval, m, d), a), b)
  {
    assert [d] + a + b == [d] + (a + b);
    RunFirst(eval, m, d, a + b);
    RunMore(eval, Step(eval, m, d), a, b);
  }

  lemma RunLine(eval: Evaluator, m: Machine, d: Directive)
    requires Uniform(m.table) && Plain(d)
    ensures var mean := MeanLine(d, Live(m.table), m.ns);
      Step(eval, m, d) == m.(ns := mean.ns, result := m.result + mean.includes)
  {
    assert m.result + [] == m.result;
  }

  lemma RunOpening(eval: Evaluator, m: Machine, d: Directive)
    requires Opens(d)
    ensures var taken := Holds(eval, m.ns, d);
      && Step(eval, m, d) == Enter(m, taken)
      && InGroup(Enter(m, taken).table, taken) && Live(Enter(m, taken).table) == taken
  {
  }

  lemma RunElif(eval: Evaluator, m: Machine, expr: string, taken: bool)
    requires InGroup(m.table, taken)
    ensures var m' := Step(eval, m, Elif(expr));
      && var live := !taken && eval(m.ns, expr);
      && m' == m.(table := m'.table)
      && InGroup(m'.table, taken || live) && Live(m'.table) == live
  {
  }

  lemma RunElse(eval: Evaluator, m: Machine, taken: bool)
    requires InGroup(m.table, taken)
    ensures var m' := Step(eval, m, Else);
      m' == m.(table := m'.table) && Uniform(m'.table) && Live(m'.table) == !taken
  {
  }

  /**
    Processing a well-nested block leaves the stack and the dispatch table as it found them, and adds
    exactly the includes that the block means.
    */
  lemma {:induction false} RunBlock(eval: Evaluator, m: Machine, b: Block)
    requires Uniform(m.table) && WellNested(b)
    ensures var mean := Mean(eval, b, Live(m.table), m.ns);
      Run(eval, m, Flatten(b)) == m.(ns := mean.ns, result := m.result + mean.includes)
    decreases b, 1
  {
    match b
    case Empty => assert m.result + [] == m.result;
    case Line(_, _) => RunBlockLine(eval, m, b);
    case Group(first, body, rest, next) =>
      var group := MeanGroup(eval, b, m.ns);
      RunGroup(eval, m, b);
      RunMore(eval, m, [first] + Flatten(body) + FlattenRest(rest), Flatten(next));
      var m1 := m.(ns := group.ns, result := m.result + group.includes);
      RunBlock(eval, m1, next);
      var after := Mean(eval, next, Live(m.table), group.ns).includes;
      assert (m.result + group.includes) + after == m.result + (group.includes + after);
  }

  lemma {:induction false} RunBlockLine(eval: Evaluator, m: Machine, b: Block)
    requires Uniform(m.table) && WellNested(b) && b.Line?
    ensures var mean := Mean(eval, b, Live(m.table), m.ns);
      Run(eval, m, Flatten(b)) == m.(ns := mean.ns, result := m.result + mean.includes)
    decreases b, 0
  {
    RunLine(eval, m, b.d);
    RunFirst(eval, m, b.d, Flatten(b.next));
    var m1 := Step(eval, m, b.d);
    RunBlock(eval, m1, b.next);
    var one, two := MeanLine(b.d, Live(m.table), m.ns).includes, Mean(eval, b.next, Live(m.table), m1.ns).includes;
    assert (m.result + one) + two == m.result + (one + two);
  }

  lemma {:induction false} RunGroup(eval: Evaluator, m: Machine, b: Block)
    requires WellNested(b) && b.Group?
    ensures var mean := MeanGroup(eval, b, m.ns);
      Run(eval, m, [b.first] + Flatten(b.body) + FlattenRest(b.rest))
        == m.(ns := mean.ns, result := m.result + mean.includes)
    decreases b, 0
  {
    var first, body, rest := b.first, b.body, b.rest;
    var taken := Holds(eval, m.ns, first);
    RunOpening(eval, m, first);
    var m1 := Enter(m, taken);
    RunThree(eval, m, first, Flatten(body), FlattenRest(rest));
    RunBlock(eval, m1, body);
    var one := Mean(eval, body, taken, m.ns);
    var m2 := m1.(ns := one.ns, result := m.result + one.includes);
    RunRest(eval, m2, rest, taken);
    var others := MeanRest(eval, rest, taken, one.ns);
    assert m2.stack[..|m2.stack| - 1] == m.stack;
    assert (m.result + one.includes) + others.includes == m.result + (one.includes + others.includes);
  }

  lemma {:induction false} RunRest(eval: Evaluator, m: Machine, r: Rest, taken: bool)
    requires WellNestedRest(r) && m.stack != [] && InGroup(m.table, taken)
    ensures var mean := MeanRest(eval, r, taken, m.ns);
      Run(eval, m, FlattenRest(r)) == Restore(m).(ns := mean.ns, result := m.result + mean.includes)
    decreases r, 1
  {
    match r
    case End =>
      RunOne(eval, m, Endif);
      assert m.result + [] == m.result;
    case OrElif(_, _, _) => RunOrElif(eval, m, r, taken);
    case OrElse(body) =>
      var m1 := Step(eval, m, Else);
      RunElse(eval, m, taken);
      RunThree(eval, m, Else, Flatten(body), [Endif]);
      RunBlock(eval, m1, body);
      RunOne(eval, Run(eval, m1, Flatten(body)), Endif);
  }

  lemma {:induction false} RunOrElif(eval: Evaluator, m: Machine, r: Rest, taken: bool)
    requires r.OrElif? && WellNestedRest(r) && m.stack != [] && InGroup(m.table, taken)
    ensures var mean := MeanRest(eval, r, taken, m.ns);
      Run(eval, m, FlattenRest(r)) == Restore(m).(ns := mean.ns, result := m.result + mean.includes)
    decreases r, 0
  {
    var m1 := Step(eval, m, Elif(r.expr));
    var live := !taken && eval(m.ns, r.expr);
    RunElif(eval, m, r.expr, taken);
    RunThree(eval, m, Elif(r.expr), Flatten(r.body), FlattenRest(r.rest));
    RunBlock(eval, m1, r.body);
    var one := Mean(eval, r.body, live, m.ns);
    var m2 := m1.(ns := one.ns, result := m.result + one.includes);
    RunRest(eval, m2, r.rest, taken || live);
    var others := MeanRest(eval, r.rest, taken || live, one.ns);
    assert (m.result + one.includes) + others.includes == m.result + (one.includes + others.includes);
  }

  // ---------------------------------------------------------------- The branches of a group

  /** The condition of each branch, at the moment it is met; the last branch has none. */
  function Conditions(eval: Evaluator, r: Rest, taken: bool, ns: Namespace): seq<bool>
    requires WellNestedRest(r)
  {
    match r
    case End => []
    case OrElif(expr, body, rest) =>
      var live := !taken && eval(ns, expr);
      [eval(ns, expr)] + Conditions(eval, rest, taken || live, Mean(eval, body, live, ns).ns)
    case OrElse(body) => [true]
  }

  /** The include lines that stand directly in each branch, not in a nested group. */
  function Direct(b: Block): seq<string> {
    match b
    case Empty => []
    case Line(d, next) => (if d.Include? || d.IncludeNext? then [d.file] else []) + Direct(next)
    case Group(_, _, _, next) => Direct(next)
  }

  function Branches(r: Rest): seq<Block> {
    match r
    case End => []
    case OrElif(_, body, rest) => [body] + Branches(rest)
    case OrElse(body) => [body]
  }

  /** The include lines of the first branch whose condition holds. */
  function FirstTrue(conditions: seq<bool>, branches: seq<Block>): seq<string>
    requires |conditions| == |branches|
  {
    if conditions == [] then []
    else if conditions[0] then Direct(branches[0])
    else FirstTrue(conditions[1..], branches[1..])
  }

  // Interleavings: two lists merged into one, each in its own order.

  /** The members of a list that are marked with `which`. */
  function Select(s: seq<string>, marks: seq<bool>, which: bool): seq<string>
    requires |s| == |marks|
  {
    if s == [] then [] else (if marks[0] == which then [s[0]] else []) + Select(s[1..], marks[1..], which)
  }

  ghost predicate Marks(whole: seq<string>, marks: seq<bool>, a: seq<string>, b: seq<string>) {
    |whole| == |marks| && Select(whole, marks, true) == a && Select(whole, marks, false) == b
  }

  ghost predicate Interleaves(whole: seq<string>, a: seq<string>, b: seq<string>) {
    exists marks :: Marks(whole, marks, a, b)
  }

  lemma {:induction false} SelectMore(s: seq<string>, m: seq<bool>, s': seq<string>, m': seq<bool>, which: bool)
    requires |s| == |m| && |s'| == |m'|
    ensures Select(s + s', m + m', which) == Select(s, m, which) + Select(s', m', which)
    decreases |s|
  {
    if s == [] {
      assert s + s' == s' && m + m' == m';
    } else {
      assert (s + s')[1..] == s[1..] + s' && (m + m')[1..] == m[1..] + m';
      SelectMore(s[1..], m[1..], s', m', which);
    }
  }

  lemma InterleavesMore(w: seq<string>, a: seq<string>, b: seq<string>, w': seq<string>, a': seq<string>, b': seq<string>)
    requires Interleaves(w, a, b) && Interleaves(w', a', b')
    ensures Interleaves(w + w', a + a', b + b')
  {
    var m :| Marks(w, m, a, b);
    var m' :| Marks(w', m', a', b');
    SelectMore(w, m, w', m', true);
    SelectMore(w, m, w', m', false);
    assert Marks(w + w', m + m', a + a', b + b');
  }

  lemma {:induction false} AllMarked(w: seq<string>, marks: seq<bool>, which: bool)
    requires |w| == |marks| && forall i | 0 <= i < |marks| :: marks[i] == which
    ensures Select(w, marks, which) == w && Select(w, marks, !which) == []
    decreases |w|
  {
    if w != [] {
      AllMarked(w[1..], marks[1..], which);
      assert w == [w[0]] + w[1..];
    }
  }

  lemma InterleavesOne(w: seq<string>)
    ensures Interleaves(w, w, []) && Interleaves(w, [], w)
  {
    var all, none := seq(|w|, i => true), seq(|w|, i => false);
    AllMarked(w, all, true);
    AllMarked(w, none, false);
    assert Marks(w, all, w, []) && Marks(w, none, [], w);
  }

  lemma {:induction false} SelectSizes(w: seq<string>, marks: seq<bool>)
    requires |w| == |marks|
    ensures |Select(w, marks, true)| + |Select(w, marks, false)| == |w|
    ensures Select(w, marks, false) == [] ==> Select(w, marks, true) == w
    decreases |w|
  {
    if w != [] {
      SelectSizes(w[1..], marks[1..]);
      assert w == [w[0]] + w[1..];
    }
  }

  lemma {:induction false} SelectTimes(w: seq<string>, marks: seq<bool>, x: string)
    requires |w| == |marks|
    ensures multiset(w)[x] == multiset(Select(w, marks, true))[x] + multiset(Select(w, marks, false))[x]
    decreases |w|
  {
    if w != [] {
      SelectTimes(w[1..], marks[1..], x);
      assert w == [w[0]] + w[1..];
    }
  }

  /** A list merged with another one is itself exactly if the other one is empty, and loses nothing. */
  lemma InterleavesMeans(w: seq<string>, a: seq<string>, b: seq<string>)
    requires Interleaves(w, a, b)
    ensures w == a <==> b == []
    ensures multiset(w) == multiset(a) + multiset(b)
  {
    var m :| Marks(w, m, a, b);
    SelectSizes(w, m);
    forall x ensures multiset(w)[x] == (multiset(a) + multiset(b))[x] {
      SelectTimes(w, m, x);
    }
  }

  // The group as a whole.

  /** What the groups standing in a block contribute. */
  function Nested(eval: Evaluator, b: Block, ns: Namespace): seq<string>
    requires WellNested(b)
  {
    match b
    case Empty => []
    case Line(d, next) => Nested(eval, next, MeanLine(d, false, ns).ns)
    case Group(_, _, _, next) =>
      var group := MeanGroup(eval, b, ns);
      group.includes + Nested(eval, next, group.ns)
  }

  function NestedRest(eval: Evaluator, r: Rest, taken: bool, ns: Namespace): seq<string>
    requires WellNestedRest(r)
  {
    match r
    case End => []
    case OrElif(expr, body, rest) =>
      var live := !taken && eval(ns, expr);
      Nested(eval, body, ns) + NestedRest(eval, rest, taken || live, Mean(eval, body, live, ns).ns)
    case OrElse(body) => Nested(eval, body, ns)
  }

  /** A block contributes what its groups do and, if it is live, its own include lines; the definitions do not depend on that. */
  lemma {:induction false} LiveAdds(eval: Evaluator, b: Block, live: bool, ns: Namespace)
    requires WellNested(b)
    ensures Mean(eval, b, live, ns).ns == Mean(eval, b, false, ns).ns
    ensures Interleaves(Mean(eval, b, live, ns).includes, if live then Direct(b) else [], Nested(eval, b, ns))
  {
    match b
    case Empty => InterleavesOne([]);
    case Line(d, next) =>
      LiveAdds(eval, next, live, MeanLine(d, live, ns).ns);
      var own := MeanLine(d, live, ns).includes;
      InterleavesOne(own);
      InterleavesMore(own, own, [], Mean(eval, next, live, MeanLine(d, live, ns).ns).includes,
                      if live then Direct(next) else [], Nested(eval, next, MeanLine(d, live, ns).ns));
      assert [] + Nested(eval, next, MeanLine(d, live, ns).ns) == Nested(eval, b, ns);
    case Group(_, _, _, next) =>
      var group := MeanGroup(eval, b, ns);
      LiveAdds(eval, next, live, group.ns);
      InterleavesOne(group.includes);
      InterleavesMore(group.includes, [], group.includes, Mean(eval, next, live, group.ns).includes,
                      if live then Direct(next) else [], Nested(eval, next, group.ns));
      assert [] + Direct(next) == Direct(b);
  }

  lemma {:induction false} RestHandlesFirstTrue(eval: Evaluator, r: Rest, taken: bool, ns: Namespace)
    requires WellNestedRest(r)
    ensures |Conditions(eval, r, taken, ns)| == |Branches(r)|
    ensures Interleaves(MeanRest(eval, r, taken, ns).includes,
                        if taken then [] else FirstTrue(Conditions(eval, r, taken, ns), Branches(r)),
                        NestedRest(eval, r, taken, ns))
  {
    match r
    case End => InterleavesOne([]);
    case OrElif(expr, body, rest) =>
      var live := !taken && eval(ns, expr);
      var ns' := Mean(eval, body, live, ns).ns;
      var conditions, branches := Conditions(eval, rest, taken || live, ns'), Branches(rest);
      LiveAdds(eval, body, live, ns);
      RestHandlesFirstTrue(eval, rest, taken || live, ns');
      assert Conditions(eval, r, taken, ns)[1..] == conditions && Branches(r)[1..] == branches;
      var own := if live then Direct(body) else [];
      var others := if taken || live then [] else FirstTrue(conditions, branches);
      InterleavesMore(Mean(eval, body, live, ns).includes, own, Nested(eval, body, ns),
                      MeanRest(eval, rest, taken || live, ns').includes, others, NestedRest(eval, rest, taken || live, ns'));
      assert own + others == if taken then [] else FirstTrue(Conditions(eval, r, taken, ns), Branches(r));
    case OrElse(body) => LiveAdds(eval, body, !taken, ns);
  }

  /**
    Of the include lines that stand directly in a group, those of the first branch whose condition is
    true are handled, in order, or those of the last branch if it has no condition and none before it is
    true. All other includes of the group come from groups nested in its branches.
    */
  lemma GroupHandlesFirstTrue(eval: Evaluator, b: Block, ns: Namespace)
    requires WellNested(b) && b.Group?
    ensures var first := Holds(eval, ns, b.first);
      var ns' := Mean(eval, b.body, first, ns).ns;
      var conditions := [first] + Conditions(eval, b.rest, first, ns');
      && |conditions| == |[b.body] + Branches(b.rest)|
      && Interleaves(MeanGroup(eval, b, ns).includes, FirstTrue(conditions, [b.body] + Branches(b.rest)),
                     Nested(eval, b.body, ns) + NestedRest(eval, b.rest, first, ns'))
  {
    var first := Holds(eval, ns, b.first);
    var ns' := Mean(eval, b.body, first, ns).ns;
    var conditions, branches := Conditions(eval, b.rest, first, ns'), Branches(b.rest);
    LiveAdds(eval, b.body, first, ns);
    RestHandlesFirstTrue(eval, b.rest, first, ns');
    assert ([first] + conditions)[1..] == conditions && ([b.body] + branches)[1..] == branches;
    var own := if first then Direct(b.body) else [];
    var others := if first then [] else FirstTrue(conditions, branches);
    InterleavesMore(Mean(eval, b.body, first, ns).includes, own, Nested(eval, b.body, ns),
                    MeanRest(eval, b.rest, first, ns').includes, others, NestedRest(eval, b.rest, first, ns'));
    assert own + others == FirstTrue([first] + conditions, [b.body] + branches);
  }

  // ---------------------------------------------------------------- Compared with a C compiler

  /** What a compiler reads: nothing inside a dead branch, neither includes nor definitions, nested groups or not. */
  function Compiled(eval: Evaluator, b: Block, compiled: bool, ns: Namespace): Meaning
    requires WellNested(b)
    decreases b, 1
  {
    match b
    case Empty => Meaning(ns, [])
    case Line(d, next) =>
      var first := CompiledLine(d, compiled, ns);
      var after := Compiled(eval, next, compiled, first.ns);
      Meaning(after.ns, first.includes + after.includes)
    case Group(_, _, _, next) =>
      var group := CompiledGroup(eval, b, compiled, ns);
      var after := Compiled(eval, next, compiled, group.ns);
      Meaning(after.ns, group.includes + after.includes)
  }

  function CompiledLine(d: Directive, compiled: bool, ns: Namespace): Meaning {
    if compiled then MeanLine(d, true, ns) else Meaning(ns, [])
  }

  function CompiledGroup(eval: Evaluator, b: Block, compiled: bool, ns: Namespace): Meaning
    requires WellNested(b) && b.Group?
    decreases b, 0
  {
    var taken := Holds(eval, ns, b.first);
    var one := Compiled(eval, b.body, compiled && taken, ns);
    var others := CompiledRest(eval, b.rest, compiled, taken, one.ns);
    Meaning(others.ns, one.includes + others.includes)
  }

  function CompiledRest(eval: Evaluator, r: Rest, compiled: bool, taken: bool, ns: Namespace): Meaning
    requires WellNestedRest(r)
    decreases r, 0
  {
    match r
    case End => Meaning(ns, [])
    case OrElif(expr, body, rest) =>
      var live := !taken && eval(ns, expr);
      var one := Compiled(eval, body, compiled && live, ns);
      var others := CompiledRest(eval, rest, compiled, taken || live, one.ns);
      Meaning(others.ns, one.includes + others.includes)
    case OrElse(body) => Compiled(eval, body, compiled && !taken, ns)
  }

  /** The include lines that are live in their own group and dead in one around it. */
  function Extra(eval: Evaluator, b: Block, live: bool, compiled: bool, ns: Namespace): seq<string>
    requires WellNested(b)
    decreases b, 1
  {
    match b
    case Empty => []
    case Line(d, next) =>
      var first := MeanLine(d, live && !compiled, ns);
      first.includes + Extra(eval, next, live, compiled, first.ns)
    case Group(_, _, _, next) =>
      ExtraGroup(eval, b, compiled, ns) + Extra(eval, next, live, compiled, MeanGroup(eval, b, ns).ns)
  }

  function ExtraGroup(eval: Evaluator, b: Block, compiled: bool, ns: Namespace): seq<string>
    requires WellNested(b) && b.Group?
    decreases b, 0
  {
    var taken := Holds(eval, ns, b.first);
    Extra(eval, b.body, taken, compiled && taken, ns)
    + ExtraRest(eval, b.rest, compiled, taken, Mean(eval, b.body, taken, ns).ns)
  }

  function ExtraRest(eval: Evaluator, r: Rest, compiled: bool, taken: bool, ns: Namespace): seq<string>
    requires WellNestedRest(r)
    decreases r, 0
  {
    match r
    case End => []
    case OrElif(expr, body, rest) =>
      var live := !taken && eval(ns, expr);
      Extra(eval, body, live, compiled && live, ns)
      + ExtraRest(eval, rest, compiled, taken || live, Mean(eval, body, live, ns).ns)
    case OrElse(body) => Extra(eval, body, !taken, compiled && !taken, ns)
  }

  /** No definition that a compiler does not read changes anything. */
  predicate Harmless(eval: Evaluator, b: Block, compiled: bool, ns: Namespace)
    requires WellNested(b)
    decreases b, 1
  {
    match b
    case Empty => true
    case Line(d, next) =>
      var ns' := MeanLine(d, false, ns).ns;
      (compiled || ns' == ns) && Harmless(eval, next, compiled, ns')
    case Group(_, _, _, next) =>
      HarmlessGroup(eval, b, compiled, ns) && Harmless(eval, next, compiled, MeanGroup(eval, b, ns).ns)
  }

  predicate HarmlessGroup(eval: Evaluator, b: Block, compiled: bool, ns: Namespace)
    requires WellNested(b) && b.Group?
    decreases b, 0
  {
    var taken := Holds(eval, ns, b.first);
    && Harmless(eval, b.body, compiled && taken, ns)
    && HarmlessRest(eval, b.rest, compiled, taken, Mean(eval, b.body, taken, ns).ns)
  }

  predicate HarmlessRest(eval: Evaluator, r: Rest, compiled: bool, taken: bool, ns: Namespace)
    requires WellNestedRest(r)
    decreases r, 0
  {
    match r
    case End => true
    case OrElif(expr, body, rest) =>
      var live := !taken && eval(ns, expr);
      && Harmless(eval, body, compiled && live, ns)
      && HarmlessRest(eval, rest, compiled, taken || live, Mean(eval, body, live, ns).ns)
    case OrElse(body) => Harmless(eval, body, compiled && !taken, ns)
  }

  /** What the machine finds, next to what a compiler reads and what it has in excess. */
  ghost predicate Compares(mean: Meaning, compiled: Meaning, extra: seq<string>) {
    mean.ns == compiled.ns && Interleaves(mean.includes, compiled.includes, extra)
  }

  lemma ComparesMore(m: Meaning, c: Meaning, e: seq<string>, m': Meaning, c': Meaning, e': seq<string>)
    requires Compares(m, c, e) && Compares(m', c', e')
    ensures Compares(Meaning(m'.ns, m.includes + m'.includes), Meaning(c'.ns, c.includes + c'.includes), e + e')
  {
    InterleavesMore(m.includes, c.includes, e, m'.includes, c'.includes, e');
  }

  lemma LineCompares(d: Directive, live: bool, compiled: bool, ns: Namespace)
    requires (compiled ==> live) && (compiled || MeanLine(d, false, ns).ns == ns)
    ensures Compares(MeanLine(d, live, ns), CompiledLine(d, compiled, ns), MeanLine(d, live && !compiled, ns).includes)
  {
    InterleavesOne(MeanLine(d, live, ns).includes);
  }

  /**
    As long as no definition that a compiler does not read changes anything, the machine has the
    compiler's definitions and finds the compiler's includes in order, merged with the extra ones.
    */
  lemma {:induction false} ComparesBlock(eval: Evaluator, b: Block, live: bool, compiled: bool, ns: Namespace)
    requires WellNested(b) && (compiled ==> live) && Harmless(eval, b, compiled, ns)
    ensures Compares(Mean(eval, b, live, ns), Compiled(eval, b, compiled, ns), Extra(eval, b, live, compiled, ns))
    decreases b, 1
  {
    match b
    case Empty => InterleavesOne([]);
    case Line(d, next) =>
      var ns' := MeanLine(d, live, ns).ns;
      LineCompares(d, live, compiled, ns);
      ComparesBlock(eval, next, live, compiled, ns');
      ComparesMore(MeanLine(d, live, ns), CompiledLine(d, compiled, ns), MeanLine(d, live && !compiled, ns).includes,
                   Mean(eval, next, live, ns'), Compiled(eval, next, compiled, ns'), Extra(eval, next, live, compiled, ns'));
    case Group(_, _, _, next) =>
      var group := MeanGroup(eval, b, ns);
      ComparesGroup(eval, b, compiled, ns);
      ComparesBlock(eval, next, live, compiled, group.ns);
      ComparesMore(group, CompiledGroup(eval, b, compiled, ns), ExtraGroup(eval, b, compiled, ns),
                   Mean(eval, next, live, group.ns), Compiled(eval, next, compiled, group.ns),
                   Extra(eval, next, live, compiled, group.ns));
  }

  lemma {:induction false} ComparesGroup(eval: Evaluator, b: Block, compiled: bool, ns: Namespace)
    requires WellNested(b) && b.Group? && HarmlessGroup(eval, b, compiled, ns)
    ensures Compares(MeanGroup(eval, b, ns), CompiledGroup(eval, b, compiled, ns), ExtraGroup(eval, b, compiled, ns))
    decreases b, 0
  {
    var taken := Holds(eval, ns, b.first);
    var one, one' := Mean(eval, b.body, taken, ns), Compiled(eval, b.body, compiled && taken, ns);
    ComparesBlock(eval, b.body, taken, compiled && taken, ns);
    ComparesRest(eval, b.rest, compiled, taken, one.ns);
    ComparesMore(one, one', Extra(eval, b.body, taken, compiled && taken, ns),
                 MeanRest(eval, b.rest, taken, one.ns), CompiledRest(eval, b.rest, compiled, taken, one.ns),
                 ExtraRest(eval, b.rest, compiled, taken, one.ns));
  }

  lemma {:induction false} ComparesRest(eval: Evaluator, r: Rest, compiled: bool, taken: bool, ns: Namespace)
    requires WellNestedRest(r) && HarmlessRest(eval, r, compiled, taken, ns)
    ensures Compares(MeanRest(eval, r, taken, ns), CompiledRest(eval, r, compiled, taken, ns), ExtraRest(eval, r, compiled, taken, ns))
    decreases r, 0
  {
    match r
    case End => InterleavesOne([]);
    case OrElif(expr, body, rest) =>
      var live := !taken && eval(ns, expr);
      var one, one' := Mean(eval, body, live, ns), Compiled(eval, body, compiled && live, ns);
      ComparesBlock(eval, body, live, compiled && live, ns);
      ComparesRest(eval, rest, compiled, taken || live, one.ns);
      ComparesMore(one, one', Extra(eval, body, live, compiled && live, ns),
                   MeanRest(eval, rest, taken || live, one.ns), CompiledRest(eval, rest, compiled, taken || live, one.ns),
                   ExtraRest(eval, rest, compiled, taken || live, one.ns));
    case OrElse(body) => ComparesBlock(eval, body, !taken, compiled && !taken, ns);
  }

  /**
    The machine finds the same includes as a compiler exactly if no include line is live in its own group
    and dead in one around it; and it never misses one.
    */
  lemma SameIncludesIff(eval: Evaluator, b: Block, ns: Namespace)
    requires WellNested(b) && Harmless(eval, b, true, ns)
    ensures var found, read := Mean(eval, b, true, ns), Compiled(eval, b, true, ns);
      && found.ns == read.ns
      && (found.includes == read.includes <==> Extra(eval, b, true, true, ns) == [])
      && Interleaves(found.includes, read.includes, Extra(eval, b, true, true, ns))
      && multiset(read.includes) <= multiset(found.includes)
  {
    ComparesBlock(eval, b, true, true, ns);
    InterleavesMeans(Mean(eval, b, true, ns).includes, Compiled(eval, b, true, ns).includes, Extra(eval, b, true, true, ns));
  }

  // The definitions, line by line.

  /** The definitions after each line, as the machine has them. */
  function Spaces(eval: Evaluator, b: Block, ns: Namespace): seq<Namespace>
    requires WellNested(b)
    decreases b, 1
  {
    match b
    case Empty => []
    case Line(d, next) => [MeanLine(d, false, ns).ns] + Spaces(eval, next, MeanLine(d, false, ns).ns)
    case Group(_, _, _, next) => SpacesGroup(eval, b, ns) + Spaces(eval, next, MeanGroup(eval, b, ns).ns)
  }

  function SpacesGroup(eval: Evaluator, b: Block, ns: Namespace): seq<Namespace>
    requires WellNested(b) && b.Group?
    decreases b, 0
  {
    var taken := Holds(eval, ns, b.first);
    Spaces(eval, b.body, ns) + SpacesRest(eval, b.rest, taken, Mean(eval, b.body, taken, ns).ns)
  }

  function SpacesRest(eval: Evaluator, r: Rest, taken: bool, ns: Namespace): seq<Namespace>
    requires WellNestedRest(r)
    decreases r, 0
  {
    match r
    case End => []
    case OrElif(expr, body, rest) =>
      var live := !taken && eval(ns, expr);
      Spaces(eval, body, ns) + SpacesRest(eval, rest, taken || live, Mean(eval, body, live, ns).ns)
    case OrElse(body) => Spaces(eval, body, ns)
  }

  /** The definitions after each line, as a compiler has them. */
  function CompiledSpaces(eval: Evaluator, b: Block, compiled: bool, ns: Namespace): seq<Namespace>
    requires WellNested(b)
    decreases b, 1
  {
    match b
    case Empty => []
    case Line(d, next) =>
      var ns' := CompiledLine(d, compiled, ns).ns;
      [ns'] + CompiledSpaces(eval, next, compiled, ns')
    case Group(_, _, _, next) =>
      CompiledSpacesGroup(eval, b, compiled, ns)
      + CompiledSpaces(eval, next, compiled, CompiledGroup(eval, b, compiled, ns).ns)
  }

  function CompiledSpacesGroup(eval: Evaluator, b: Block, compiled: bool, ns: Namespace): seq<Namespace>
    requires WellNested(b) && b.Group?
    decreases b, 0
  {
    var taken := Holds(eval, ns, b.first);
    CompiledSpaces(eval, b.body, compiled && taken, ns)
    + CompiledSpacesRest(eval, b.rest, compiled, taken, Compiled(eval, b.body, compiled && taken, ns).ns)
  }

  function CompiledSpacesRest(eval: Evaluator, r: Rest, compiled: bool, taken: bool, ns: Namespace): seq<Namespace>
    requires WellNestedRest(r)
    decreases r, 0
  {
    match r
    case End => []
    case OrElif(expr, body, rest) =>
      var live := !taken && eval(ns, expr);
      CompiledSpaces(eval, body, compiled && live, ns)
      + CompiledSpacesRest(eval, rest, compiled, taken || live, Compiled(eval, body, compiled && live, ns).ns)
    case OrElse(body) => CompiledSpaces(eval, body, compiled && !taken, ns)
  }

  lemma {:induction false} SameSize(eval: Evaluator, b: Block, compiled: bool, ns: Namespace, ns': Namespace)
    requires WellNested(b)
    ensures |Spaces(eval, b, ns)| == |CompiledSpaces(eval, b, compiled, ns')|
    decreases b, 1
  {
    match b
    case Empty =>
    case Line(d, next) =>
      SameSize(eval, next, compiled, MeanLine(d, false, ns).ns, CompiledLine(d, compiled, ns').ns);
    case Group(_, _, _, next) =>
      SameSizeGroup(eval, b, compiled, ns, ns');
      SameSize(eval, next, compiled, MeanGroup(eval, b, ns).ns, CompiledGroup(eval, b, compiled, ns').ns);
  }

  lemma {:induction false} SameSizeGroup(eval: Evaluator, b: Block, compiled: bool, ns: Namespace, ns': Namespace)
    requires WellNested(b) && b.Group?
    ensures |SpacesGroup(eval, b, ns)| == |CompiledSpacesGroup(eval, b, compiled, ns')|
    decreases b, 0
  {
    var taken, taken' := Holds(eval, ns, b.first), Holds(eval, ns', b.first);
    SameSize(eval, b.body, compiled && taken', ns, ns');
    SameSizeRest(eval, b.rest, compiled, taken, taken', Mean(eval, b.body, taken, ns).ns,
                 Compiled(eval, b.body, compiled && taken', ns').ns);
  }

  lemma {:induction false} SameSizeRest(eval: Evaluator, r: Rest, compiled: bool, taken: bool, taken': bool,
                                        ns: Namespace, ns': Namespace)
    requires WellNestedRest(r)
    ensures |SpacesRest(eval, r, taken, ns)| == |CompiledSpacesRest(eval, r, compiled, taken', ns')|
    decreases r, 0
  {
    match r
    case End =>
    case OrElif(expr, body, rest) =>
      var live, live' := !taken && eval(ns, expr), !taken' && eval(ns', expr);
      SameSize(eval, body, compiled && live', ns, ns');
      SameSizeRest(eval, rest, compiled, taken || live, taken' || live', Mean(eval, body, live, ns).ns,
                   Compiled(eval, body, compiled && live', ns').ns);
    case OrElse(body) => SameSize(eval, body, compiled && !taken', ns, ns');
  }

  lemma Parts(a: seq<Namespace>, b: seq<Namespace>, a': seq<Namespace>, b': seq<Namespace>)
    requires |a| == |a'|
    ensures a + b == a' + b' <==> a == a' && b == b'
  {
    if a + b == a' + b' {
      assert a == (a + b)[..|a|] && a' == (a' + b')[..|a|];
      assert b == (a + b)[|a|..] && b' == (a' + b')[|a|..];
    }
  }

  /** The machine and a compiler have the same definitions after every line exactly if no dead definition changes anything. */
  lemma {:induction false} SameDefinitionsIff(eval: Evaluator, b: Block, compiled: bool, ns: Namespace)
    requires WellNested(b)
    ensures Spaces(eval, b, ns) == CompiledSpaces(eval, b, compiled, ns) <==> Harmless(eval, b, compiled, ns)
    decreases b, 1
  {
    match b
    case Empty =>
    case Line(d, next) =>
      var space, space' := MeanLine(d, false, ns).ns, CompiledLine(d, compiled, ns).ns;
      SameSize(eval, next, compiled, space, space');
      Parts([space], Spaces(eval, next, space), [space'], CompiledSpaces(eval, next, compiled, space'));
      if space == space' {
        SameDefinitionsIff(eval, next, compiled, space);
      } else {
        assert [space][0] != [space'][0];
      }
    case Group(_, _, _, next) =>
      var after, after' := MeanGroup(eval, b, ns).ns, CompiledGroup(eval, b, compiled, ns).ns;
      SameSizeGroup(eval, b, compiled, ns, ns);
      Parts(SpacesGroup(eval, b, ns), Spaces(eval, next, after),
            CompiledSpacesGroup(eval, b, compiled, ns), CompiledSpaces(eval, next, compiled, after'));
      SameDefinitionsGroup(eval, b, compiled, ns);
      if HarmlessGroup(eval, b, compiled, ns) {
        ComparesGroup(eval, b, compiled, ns);
        SameDefinitionsIff(eval, next, compiled, after);
      }
  }

  lemma {:induction false} SameDefinitionsGroup(eval: Evaluator, b: Block, compiled: bool, ns: Namespace)
    requires WellNested(b) && b.Group?
    ensures SpacesGroup(eval, b, ns) == CompiledSpacesGroup(eval, b, compiled, ns) <==> HarmlessGroup(eval, b, compiled, ns)
    decreases b, 0
  {
    var taken := Holds(eval, ns, b.first);
    var after, after' := Mean(eval, b.body, taken, ns).ns, Compiled(eval, b.body, compiled && taken, ns).ns;
    SameSize(eval, b.body, compiled && taken, ns, ns);
    Parts(Spaces(eval, b.body, ns), SpacesRest(eval, b.rest, taken, after),
          CompiledSpaces(eval, b.body, compiled && taken, ns), CompiledSpacesRest(eval, b.rest, compiled, taken, after'));
    SameDefinitionsIff(eval, b.body, compiled && taken, ns);
    if Harmless(eval, b.body, compiled && taken, ns) {
      ComparesBlock(eval, b.body, taken, compiled && taken, ns);
      SameDefinitionsRest(eval, b.rest, compiled, taken, after);
    }
  }

  lemma {:induction false} SameDefinitionsRest(eval: Evaluator, r: Rest, compiled: bool, taken: bool, ns: Namespace)
    requires WellNestedRest(r)
    ensures SpacesRest(eval, r, taken, ns) == CompiledSpacesRest(eval, r, compiled, taken, ns)
       <==> HarmlessRest(eval, r, compiled, taken, ns)
    decreases r, 0
  {
    match r
    case End =>
    case OrElif(expr, body, rest) =>
      var live := !taken && eval(ns, expr);
      var after, after' := Mean(eval, body, live, ns).ns, Compiled(eval, body, compiled && live, ns).ns;
      SameSize(eval, body, compiled && live, ns, ns);
      Parts(Spaces(eval, body, ns), SpacesRest(eval, rest, taken || live, after),
            CompiledSpaces(eval, body, compiled && live, ns), CompiledSpacesRest(eval, rest, compiled, taken || live, after'));
      SameDefinitionsIff(eval, body, compiled && live, ns);
      if Harmless(eval, body, compiled && live, ns) {
        ComparesBlock(eval, body, live, compiled && live, ns);
        SameDefinitionsRest(eval, rest, compiled, taken || live, after);
      }
    case OrElse(body) => SameDefinitionsIff(eval, body, compiled && !taken, ns);
  }

  // Examples of the two ways to differ.

  /** Entering a group starts from the default table again: a group nested in a dead branch can be live. */
  lemma NestedInDeadBranch(eval: Evaluator, x: string, y: string, file: string, ns: Namespace)
    requires x !in ns && y !in ns
    ensures var b := Group(Ifdef(x), Group(Ifndef(y), Line(Include(file), Empty), End, Empty), End, Empty);
      && WellNested(b) && Harmless(eval, b, true, ns)
      && Extra(eval, b, true, true, ns) == [file] && Compiled(eval, b, true, ns).includes == []
  {
    var line := Line(Include(file), Empty);
    var inner := Group(Ifndef(y), line, End, Empty);
    var b := Group(Ifdef(x), inner, End, Empty);
    assert WellNested(Empty) && WellNestedRest(End) && WellNested(line) && WellNested(inner) && WellNested(b);
    assert MeanLine(Include(file), false, ns).ns == MeanLine(Include(file), true, ns).ns == ns;
    assert Mean(eval, Empty, false, ns).ns == Mean(eval, Empty, true, ns).ns == ns && Mean(eval, line, true, ns).ns == ns;
    assert Harmless(eval, Empty, false, ns) && Harmless(eval, Empty, true, ns) && Harmless(eval, line, false, ns);
    assert HarmlessRest(eval, End, false, true, ns) && HarmlessRest(eval, End, true, false, ns);
    assert MeanRest(eval, End, true, ns).ns == ns && MeanRest(eval, End, false, ns).ns == ns;
    assert MeanGroup(eval, inner, ns).ns == ns && HarmlessGroup(eval, inner, false, ns);
    assert Mean(eval, inner, false, ns).ns == ns && Harmless(eval, inner, false, ns);
    assert MeanGroup(eval, b, ns).ns == ns && HarmlessGroup(eval, b, true, ns);
    assert Extra(eval, line, true, false, ns) == [file] + [];
    assert ExtraGroup(eval, inner, false, ns) == [file] + [] + [];
    assert Extra(eval, inner, false, false, ns) == ExtraGroup(eval, inner, false, ns) + [];
    assert ExtraGroup(eval, b, true, ns) == Extra(eval, inner, false, false, ns) + [];
    assert Compiled(eval, line, false, ns).includes == [] + [];
    assert CompiledGroup(eval, inner, false, ns).includes == [] + [];
    assert Compiled(eval, inner, false, ns).includes == [] + [];
    assert CompiledGroup(eval, b, true, ns).includes == [] + [];
  }

  /** A definition in a dead branch that does change something can make the machine miss an include. */
  lemma MissedAfterDeadDefinition(eval: Evaluator, x: string, y: string, expansion: string, file: string, ns: Namespace)
    requires x !in ns && y !in ns
    ensures var guarded := Group(Ifndef(y), Line(Include(file), Empty), End, Empty);
      var b := Group(Ifdef(x), Line(Define(y, expansion), Empty), End, guarded);
      && WellNested(b) && !Harmless(eval, b, true, ns)
      && Mean(eval, b, true, ns).includes == [] && Compiled(eval, b, true, ns).includes == [file]
  {
    var line, define := Line(Include(file), Empty), Line(Define(y, expansion), Empty);
    var guarded := Group(Ifndef(y), line, End, Empty);
    var b := Group(Ifdef(x), define, End, guarded);
    var ns' := ns[y := expansion];
    assert WellNested(Empty) && WellNestedRest(End) && WellNested(line) && WellNested(define) && WellNested(guarded) && WellNested(b);
    assert ns' != ns && !Harmless(eval, define, false, ns) && !HarmlessGroup(eval, b, true, ns);
    assert Mean(eval, define, false, ns) == Meaning(ns', [] + []);
    assert MeanGroup(eval, b, ns) == Meaning(ns', [] + []);
    assert Mean(eval, line, false, ns') == Meaning(ns', [] + []);
    assert MeanGroup(eval, guarded, ns') == Meaning(ns', [] + []);
    assert Mean(eval, guarded, true, ns') == Meaning(ns', [] + []);
    assert Compiled(eval, define, false, ns) == Meaning(ns, [] + []);
    assert CompiledGroup(eval, b, true, ns) == Meaning(ns, [] + []);
    assert Compiled(eval, line, true, ns) == Meaning(ns, [file] + []);
    assert CompiledGroup(eval, guarded, true, ns) == Meaning(ns, [file] + []);
    assert Compiled(eval, guarded, true, ns) == Meaning(ns, [file] + []);
  }

  // ---------------------------------------------------------------- The preprocessor

  class PreProcessor {
    const eval: Evaluator
    var dispatchTable: Table
    var stack: seq<Table>
    var cppNamespace: Namespace
    var tuples: seq<Directive>
    var result: seq<string>

    ghost function Snapshot(): Machine
      reads this
    {
      Machine(dispatchTable, stack, cppNamespace, result)
    }

    constructor (eval: Evaluator, ns: Namespace)
      ensures this.eval == eval && cppNamespace == ns
    {
      this.eval := eval;
      cppNamespace := ns;
      dispatchTable, stack, tuples, result := DEFAULT_TABLE, [], [], [];
    }

    method Save()
      modifies `stack, `dispatchTable
      ensures stack == old(stack) + [old(dispatchTable)] && dispatchTable == DEFAULT_TABLE
    {
      stack := stack + [dispatchTable];
      dispatchTable := DEFAULT_TABLE;
    }

    method DoIfElseCondition(condition: bool)
      modifies `stack, `dispatchTable
      ensures Snapshot() == Enter(old(Snapshot()), condition)
    {
      Save();
      if condition {
        dispatchTable := StartHandling(dispatchTable);
        dispatchTable := dispatchTable.(onElif := StopAtElif, onElse := StopAtElse);
      } else {
        dispatchTable := StopHandling(dispatchTable);
        dispatchTable := dispatchTable.(onElif := DoElif, onElse := StartAtElse);
      }
    }

    method HandleElif(expr: string)
      modifies `dispatchTable
      ensures Snapshot() == Step(eval, old(Snapshot()), Elif(expr))
    {
      if dispatchTable.onElif.StopAtElif? {
        dispatchTable := StopHandling(dispatchTable);
      } else if eval(cppNamespace, expr) {
        dispatchTable := StartHandling(dispatchTable);
        dispatchTable := dispatchTable.(onElif := StopAtElif, onElse := StopAtElse);
      }
    }

    method HandleElse()
      modifies `dispatchTable
      ensures Snapshot() == Step(eval, old(Snapshot()), Else)
    {
      match dispatchTable.onElse {
        case DoElse =>
        case StartAtElse => dispatchTable := StartHandling(dispatchTable);
        case StopAtElse => dispatchTable := StopHandling(dispatchTable);
      }
    }

    method HandleEndif()
      modifies `stack, `dispatchTable
      ensures Snapshot() == Step(eval, old(Snapshot()), Endif)
    {
      if stack != [] {
        dispatchTable := stack[|stack| - 1];
        stack := stack[..|stack| - 1];
      }
    }

    method Dispatch(t: Directive)
      modifies `stack, `dispatchTable, `cppNamespace, `result
      ensures Snapshot() == Step(eval, old(Snapshot()), t)
    {
      match t {
        case If(expr) => DoIfElseCondition(eval(cppNamespace, expr));
        case Ifdef(name) => DoIfElseCondition(name in cppNamespace);
        case Ifndef(name) => DoIfElseCondition(name !in cppNamespace);
        case Elif(expr) => HandleElif(expr);
        case Else => HandleElse();
        case Endif => HandleEndif();
        case Define(name, expansion) => cppNamespace := cppNamespace[name := expansion];
        case Undef(name) => cppNamespace := cppNamespace - {name};
        case Include(file) =>
          if dispatchTable.includes.Handle? {
            result := result + [file];
          }
        case IncludeNext(file) =>
          if dispatchTable.includeNexts.Handle? {
            result := result + [file];
          }
        case Import(_) =>
      }
    }

    /** The includes of a file: those its blocks mean, when its directives are well nested. */
    method ProcessContents(fname: string, contents: seq<Directive>, ghost b: Block) returns (includes: seq<string>)
      modifies this
      ensures var m := Run(eval, Machine(DEFAULT_TABLE, [], old(cppNamespace), [fname]), contents);
        Snapshot() == m && (m.result != [] ==> includes == m.result[1..])
      ensures WellNested(b) && contents == Flatten(b) ==>
        && includes == Mean(eval, b, true, old(cppNamespace)).includes
        && cppNamespace == Mean(eval, b, true, old(cppNamespace)).ns
        && stack == [] && dispatchTable == DEFAULT_TABLE
    {
      stack := [];
      dispatchTable := DEFAULT_TABLE;
      tuples := contents;
      result := [fname];
      ghost var m := Snapshot();
      while tuples != []
        invariant Run(eval, Snapshot(), tuples) == Run(eval, m, contents)
        invariant result != []
        decreases |tuples|
      {
        var t := tuples[0];
        tuples := tuples[1..];
        Dispatch(t);
      }
      includes := result[1..];
      if WellNested(b) && contents == Flatten(b) {
        RunBlock(eval, m, b);
      }
    }
  }
}