/**
  Library aliases: a table from names to lists of names, expanded by a depth-first walk that
  tolerates cycles.
  */
module Aliases {
  type Table = map<string, seq<string>>

  /** Names given as a list; empty ones are dropped. */
  function MakeList(names: seq<string>): (r: seq<string>)
    ensures forall x :: x in r <==> x in names && x != ""
  {
    if names == [] then []
    else
      var rest := MakeList(names[1..]);
      assert names == [names[0]] + names[1..];
      if names[0] == "" then rest else [names[0]] + rest
  }

  /** Order and repetitions of the names that are not empty are kept. */
  lemma {:induction false} MakeListKeeps(a: seq<string>, b: seq<string>)
    ensures MakeList(a + b) == MakeList(a) + MakeList(b)
    ensures forall x :: MakeList([x]) == if x == "" then [] else [x]
  {
    forall x ensures MakeList([x]) == if x == "" then [] else [x] {
      assert [x][1..] == [];
    }
    if a == [] {
      assert a + b == b;
    } else {
      assert (a + b)[1..] == a[1..] + b;
      MakeListKeeps(a[1..], b);
    }
  }

  ghost function Names(names: seq<string>): set<string> {
    set x | x in names && x != ""
  }

  // ---------------------------------------------------------------- What an expansion should contain

  predicate Lists(libs: Table, a: string, b: string) {
    a in libs && b in libs[a]
  }

  ghost predicate IsPath(libs: Table, path: seq<string>) {
    path != [] && forall i | 0 <= i < |path| - 1 :: Lists(libs, path[i], path[i + 1])
  }

  ghost predicate Reachable(libs: Table, roots: set<string>, x: string) {
    exists path :: IsPath(libs, path) && path[0] in roots && path[|path| - 1] == x
  }

  /** A reachable name belongs to the expansion if it is no alias, or an alias that lists itself. */
  ghost predicate Belongs(libs: Table, roots: set<string>, x: string) {
    Reachable(libs, roots, x) && (x !in libs || x in libs[x])
  }

  ghost predicate Exactly(libs: Table, roots: set<string>, result: seq<string>) {
    forall x :: x in result <==> Belongs(libs, roots, x)
  }

  /** Some first part of the result is the whole expansion of the first `i` names. */
  ghost predicate Stage(libs: Table, names: seq<string>, result: seq<string>, i: nat)
    requires i <= |names|
  {
    exists k | 0 <= k <= |result| :: Exactly(libs, Names(names[..i]), result[..k])
  }

  /** The result grows name by name. */
  ghost predicate InStages(libs: Table, names: seq<string>, result: seq<string>) {
    forall i | 0 <= i <= |names| :: Stage(libs, names, result, i)
  }

  lemma NothingReachable(libs: Table)
    ensures Exactly(libs, Names([]), [])
  {
  }

  lemma NextStage(libs: Table, names: seq<string>, name: string, was: seq<string>, result: seq<string>)
    requires InStages(libs, names, was) && was <= result
    requires Exactly(libs, Names(names + [name]), result)
    ensures InStages(libs, names + [name], result)
  {
    var all := names + [name];
    forall i | 0 <= i <= |all| ensures Stage(libs, all, result, i) {
      if i <= |names| {
        assert Stage(libs, names, was, i);
        var k :| 0 <= k <= |was| && Exactly(libs, Names(names[..i]), was[..k]);
        assert all[..i] == names[..i] && result[..k] == was[..k];
      } else {
        assert all[..i] == all && result[..|result|] == result;
      }
    }
  }

  lemma RootReachable(libs: Table, roots: set<string>, x: string)
    requires x in roots
    ensures Reachable(libs, roots, x)
  {
    assert IsPath(libs, [x]);
  }

  lemma ListedReachable(libs: Table, roots: set<string>, a: string, b: string)
    requires Reachable(libs, roots, a) && Lists(libs, a, b)
    ensures Reachable(libs, roots, b)
  {
    var path :| IsPath(libs, path) && path[0] in roots && path[|path| - 1] == a;
    assert IsPath(libs, path + [b]);
    assert (path + [b])[|path|] == b;
  }

  /** Closed under the lists of the aliases in it. */
  ghost predicate Closed(libs: Table, s: set<string>) {
    forall a, b {:trigger Lists(libs, a, b)} | a in s && Lists(libs, a, b) :: b in s
  }

  lemma {:induction false} PathStays(libs: Table, path: seq<string>, s: set<string>)
    requires IsPath(libs, path) && path[0] in s && Closed(libs, s)
    ensures path[|path| - 1] in s
  {
    if |path| > 1 {
      var front := path[..|path| - 1];
      forall i | 0 <= i < |front| - 1 ensures Lists(libs, front[i], front[i + 1]) {
        assert Lists(libs, path[i], path[i + 1]);
      }
      PathStays(libs, front, s);
      assert Lists(libs, path[|path| - 2], path[|path| - 1]);
    }
  }

  // ---------------------------------------------------------------- The order of an expansion

  /** A name and where it was found: a position in the names wanted, then one in the list of each alias entered. */
  datatype Found = Found(path: seq<nat>, name: string)

  /** The path `q` leads from the name `b` to the name `x`, enters no alias of `open`, and none twice. */
  predicate LeadsFrom(libs: Table, b: string, open: set<string>, q: seq<nat>, x: string)
    decreases |q|, 1
  {
    if b !in libs then q == [] && x == b
    else b !in open && LeadsThrough(libs, b, libs[b], open + {b}, q, x)
  }

  /** The same through the list of the alias `a`; a name that lists itself is a library there. */
  predicate LeadsThrough(libs: Table, a: string, names: seq<string>, open: set<string>, q: seq<nat>, x: string)
    decreases |q|, 0
  {
    && q != [] && q[0] < |names|
    && if names[q[0]] == a then q[1..] == [] && x == a else LeadsFrom(libs, names[q[0]], open, q[1..], x)
  }

  /** The same from the names that are wanted. */
  predicate Leads(libs: Table, names: seq<string>, q: seq<nat>, x: string) {
    q != [] && q[0] < |names| && LeadsFrom(libs, names[q[0]], {}, q[1..], x)
  }

  /** The lexicographic order of paths. */
  predicate Before(p: seq<nat>, q: seq<nat>) {
    q != [] && (p == [] || p[0] < q[0] || (p[0] == q[0] && Before(p[1..], q[1..])))
  }

  ghost predicate Sorted(fs: seq<Found>) {
    forall i, j | 0 <= i < j < |fs| :: Before(fs[i].path, fs[j].path)
  }

  function Under(i: nat, fs: seq<Found>): seq<Found> {
    seq(|fs|, k requires 0 <= k < |fs| => Found([i] + fs[k].path, fs[k].name))
  }

  /** All that a name leads to, in depth-first order, with repetitions: only the aliases entered are cut off. */
  ghost function From(libs: Table, b: string, open: set<string>): seq<Found>
    decreases |libs.Keys - open|, 0, 0
  {
    if b !in libs then [Found([], b)]
    else if b in open then []
    else
      Smaller(libs.Keys, open, open + {b}, b);
      Through(libs, b, libs[b], open + {b})
  }

  ghost function Through(libs: Table, a: string, names: seq<string>, open: set<string>): seq<Found>
    decreases |libs.Keys - open|, 1, |names|
  {
    if names == [] then []
    else
      var i := |names| - 1;
      Through(libs, a, names[..i], open) + Under(i, Listed(libs, a, names[i], open))
  }

  ghost function Listed(libs: Table, a: string, b: string, open: set<string>): seq<Found>
    decreases |libs.Keys - open|, 0, 1
  {
    if b == a then [Found([], b)] else From(libs, b, open)
  }

  ghost function All(libs: Table, names: seq<string>): seq<Found> {
    if names == [] then []
    else
      var i := |names| - 1;
      All(libs, names[..i]) + Under(i, From(libs, names[i], {}))
  }

  lemma UnderHas(i: nat, fs: seq<Found>, f: Found)
    ensures f in Under(i, fs) <==> f.path != [] && f.path[0] == i && Found(f.path[1..], f.name) in fs
    ensures Sorted(fs) ==> Sorted(Under(i, fs))
  {
    var us := Under(i, fs);
    if f in us {
      var k :| 0 <= k < |us| && us[k] == f;
      assert f.path[1..] == fs[k].path;
    }
    if f.path != [] && f.path[0] == i && Found(f.path[1..], f.name) in fs {
      var k :| 0 <= k < |fs| && fs[k] == Found(f.path[1..], f.name);
      assert f.path == [i] + fs[k].path;
      assert us[k] == f;
    }
    forall j, k | Sorted(fs) && 0 <= j < k < |us| ensures Before(us[j].path, us[k].path) {
      assert us[j].path[1..] == fs[j].path && us[k].path[1..] == fs[k].path;
      assert Before(fs[j].path, fs[k].path);
    }
  }

  /** The found names of `a` all come from positions below `i`. */
  lemma SortedMore(a: seq<Found>, i: nat, fs: seq<Found>)
    requires Sorted(a) && Sorted(fs) && forall f | f in a :: f.path != [] && f.path[0] < i
    ensures Sorted(a + Under(i, fs))
  {
    var us := Under(i, fs);
    UnderHas(i, fs, Found([], ""));
    forall j, k | 0 <= j < k < |a + us| ensures Before((a + us)[j].path, (a + us)[k].path) {
      if j < |a| <= k {
        assert a[j] in a && us[k - |a|].path[0] == i;
      }
    }
  }

  /** What is found under a name is what listed paths lead to, in the order of the paths. */
  lemma {:induction false} FromIsExact(libs: Table, b: string, open: set<string>, f: Found)
    ensures f in From(libs, b, open) <==> LeadsFrom(libs, b, open, f.path, f.name)
    ensures Sorted(From(libs, b, open))
    decreases |libs.Keys - open|, 0, 0
  {
    if b in libs && b !in open {
      Smaller(libs.Keys, open, open + {b}, b);
      ThroughIsExact(libs, b, libs[b], open + {b}, f);
    }
  }

  lemma {:induction false} ThroughIsExact(libs: Table, a: string, names: seq<string>, open: set<string>, f: Found)
    ensures f in Through(libs, a, names, open) <==> LeadsThrough(libs, a, names, open, f.path, f.name)
    ensures Sorted(Through(libs, a, names, open))
    decreases |libs.Keys - open|, 1, |names|
  {
    if names != [] {
      var i := |names| - 1;
      var before, own := Through(libs, a, names[..i], open), Listed(libs, a, names[i], open);
      ThroughIsExact(libs, a, names[..i], open, f);
      UnderHas(i, own, f);
      var rest := if f.path == [] then f else Found(f.path[1..], f.name);
      ListedIsExact(libs, a, names[i], open, rest);
      forall g | g in before ensures g.path != [] && g.path[0] < i {
        ThroughIsExact(libs, a, names[..i], open, g);
      }
      SortedMore(before, i, own);
      assert f in before + Under(i, own) <==> f in before || f in Under(i, own);
    }
  }

  lemma {:induction false} ListedIsExact(libs: Table, a: string, b: string, open: set<string>, f: Found)
    ensures f in Listed(libs, a, b, open) <==>
      if b == a then f.path == [] && f.name == a else LeadsFrom(libs, b, open, f.path, f.name)
    ensures Sorted(Listed(libs, a, b, open))
    decreases |libs.Keys - open|, 0, 1
  {
    if b != a {
      FromIsExact(libs, b, open, f);
    }
  }

  lemma {:induction false} AllIsExact(libs: Table, names: seq<string>, f: Found)
    ensures f in All(libs, names) <==> Leads(libs, names, f.path, f.name)
    ensures Sorted(All(libs, names))
    decreases |names|
  {
    if names != [] {
      var i := |names| - 1;
      var before, own := All(libs, names[..i]), From(libs, names[i], {});
      AllIsExact(libs, names[..i], f);
      UnderHas(i, own, f);
      FromIsExact(libs, names[i], {}, if f.path == [] then f else Found(f.path[1..], f.name));
      forall g | g in before ensures g.path != [] && g.path[0] < i {
        AllIsExact(libs, names[..i], g);
      }
      SortedMore(before, i, own);
      assert f in before + Under(i, own) <==> f in before || f in Under(i, own);
    }
  }

  /** Adds the names found that are not there yet, in order. */
  ghost function AddNew(result: seq<string>, fs: seq<Found>): seq<string> {
    if fs == [] then result
    else AddName(AddNew(result, fs[..|fs| - 1]), fs[|fs| - 1].name)
  }

  function AddName(result: seq<string>, x: string): seq<string> {
    if x in result then result else result + [x]
  }

  lemma {:induction false} AddNewMore(result: seq<string>, a: seq<Found>, b: seq<Found>)
    ensures AddNew(result, a + b) == AddNew(AddNew(result, a), b)
    decreases |b|
  {
    if b == [] {
      assert a + b == a;
    } else {
      assert (a + b)[..|a + b| - 1] == a + b[..|b| - 1];
      AddNewMore(result, a, b[..|b| - 1]);
    }
  }

  /** Where a name was found plays no role when it is added. */
  lemma {:induction false} AddNewUnder(result: seq<string>, i: nat, fs: seq<Found>)
    ensures AddNew(result, Under(i, fs)) == AddNew(result, fs)
    decreases |fs|
  {
    if fs != [] {
      assert Under(i, fs)[..|fs| - 1] == Under(i, fs[..|fs| - 1]);
      AddNewUnder(result, i, fs[..|fs| - 1]);
    }
  }

  lemma {:induction false} AddNothing(result: seq<string>, fs: seq<Found>)
    requires forall f | f in fs :: f.name in result
    ensures AddNew(result, fs) == result
    decreases |fs|
  {
    if fs != [] {
      assert fs[|fs| - 1] in fs && forall f | f in fs[..|fs| - 1] :: f in fs;
      AddNothing(result, fs[..|fs| - 1]);
    }
  }

  lemma {:induction false} AllAdded(fs: seq<Found>)
    ensures forall k | 0 <= k < |fs| :: fs[k].name in AddNew([], fs)
    ensures forall x | x in AddNew([], fs) :: exists k :: 0 <= k < |fs| && fs[k].name == x
    decreases |fs|
  {
    if fs != [] {
      var before := fs[..|fs| - 1];
      AllAdded(before);
      forall x | x in AddNew([], fs) ensures exists k :: 0 <= k < |fs| && fs[k].name == x {
        if x in AddNew([], before) {
          var k :| 0 <= k < |before| && before[k].name == x;
          assert fs[k].name == x;
        } else {
          assert fs[|fs| - 1].name == x;
        }
      }
    }
  }

  /** Of two names, the one that is found first comes first. */
  lemma {:induction false} FirstFoundFirst(fs: seq<Found>, i: nat, j: nat) returns (k: nat)
    requires i < j < |AddNew([], fs)|
    ensures k < |fs| && fs[k].name == AddNew([], fs)[i]
    ensures forall m | 0 <= m < |fs| && fs[m].name == AddNew([], fs)[j] :: k < m
    decreases |fs|
  {
    var before := fs[..|fs| - 1];
    var was := AddNew([], before);
    AllAdded(before);
    if j < |was| {
      k := FirstFoundFirst(before, i, j);
    } else {
      assert was[i] in was;
      k :| 0 <= k < |before| && before[k].name == was[i];
      assert forall m | 0 <= m < |before| :: fs[m] == before[m] && fs[m].name in was;
    }
  }

  /**
    The order of an expansion: of two names in it, the one comes first that the lexicographically smaller
    path leads to. Some path to the first is smaller than every path to the second.
    */
  lemma FirstPathFirst(libs: Table, names: seq<string>, i: nat, j: nat) returns (q: seq<nat>)
    requires i < j < |AddNew([], All(libs, names))|
    ensures var result := AddNew([], All(libs, names));
      Leads(libs, names, q, result[i]) && forall p | Leads(libs, names, p, result[j]) :: Before(q, p)
  {
    var fs := All(libs, names);
    var result := AddNew([], fs);
    var k := FirstFoundFirst(fs, i, j);
    AllIsExact(libs, names, fs[k]);
    q := fs[k].path;
    forall p | Leads(libs, names, p, result[j]) ensures Before(q, p) {
      AllIsExact(libs, names, Found(p, result[j]));
      var m :| 0 <= m < |fs| && fs[m] == Found(p, result[j]);
    }
  }

  /** Some path leads to `x` that is smaller than every path that leads to `y`. */
  ghost predicate Earlier(libs: Table, names: seq<string>, x: string, y: string) {
    exists q :: Leads(libs, names, q, x) && forall p | Leads(libs, names, p, y) :: Before(q, p)
  }

  ghost predicate InPathOrder(libs: Table, names: seq<string>, result: seq<string>) {
    forall i, j | 0 <= i < j < |result| :: Earlier(libs, names, result[i], result[j])
  }

  lemma ExpansionInOrder(libs: Table, names: seq<string>)
    ensures InPathOrder(libs, names, AddNew([], All(libs, names)))
  {
    var result := AddNew([], All(libs, names));
    forall i, j | 0 <= i < j < |result| ensures Earlier(libs, names, result[i], result[j]) {
      var q := FirstPathFirst(libs, names, i, j);
    }
  }

  // ---------------------------------------------------------------- The walk

  ghost predicate NoRepeats(s: seq<string>) {
    forall i, j | 0 <= i < j < |s| :: s[i] != s[j]
  }

  /** What the walk has to do for one name in the list of an alias. */
  predicate Handled(libs: Table, a: string, b: string, done: set<string>, result: seq<string>) {
    if b == a || b !in libs then b in result else b in done
  }

  ghost predicate HandledUpTo(libs: Table, a: string, names: seq<string>, i: nat, done: set<string>, result: seq<string>) {
    i <= |names| && forall j | 0 <= j < i :: Handled(libs, a, names[j], done, result)
  }

  lemma HandledNext(libs: Table, a: string, names: seq<string>, i: nat, done: set<string>, result: seq<string>,
                    done': set<string>, result': seq<string>)
    requires i < |names| && HandledUpTo(libs, a, names, i, done, result) && Handled(libs, a, names[i], done', result')
    requires done <= done' && result <= result'
    ensures HandledUpTo(libs, a, names, i + 1, done', result')
  {
    forall j | 0 <= j < i ensures Handled(libs, a, names[j], done', result') {
      assert Handled(libs, a, names[j], done, result);
    }
  }

  /** Every finished alias has its whole list handled; `open` holds the aliases being walked. */
  ghost predicate Progress(libs: Table, open: set<string>, done: set<string>, result: seq<string>) {
    && open <= done
    && (forall a, b {:trigger Lists(libs, a, b)} | a in done - open && Lists(libs, a, b) :: Handled(libs, a, b, done, result))
    && (forall x | x in done && x !in libs :: x in result)
  }

  ghost predicate Sound(libs: Table, roots: set<string>, done: set<string>, result: seq<string>) {
    && NoRepeats(result)
    && (forall x | x in done :: Reachable(libs, roots, x))
    && (forall x | x in result :: Belongs(libs, roots, x) && (x in libs ==> x in done))
  }

  lemma ResultGrows(libs: Table, roots: set<string>, open: set<string>, done: set<string>, result: seq<string>, x: string)
    requires Progress(libs, open, done, result) && Sound(libs, roots, done, result)
    requires x !in result && Belongs(libs, roots, x) && (x in libs ==> x in done)
    ensures Progress(libs, open, done, result + [x]) && Sound(libs, roots, done, result + [x])
  {
  }

  lemma MoreRoots(libs: Table, roots: set<string>, more: set<string>, done: set<string>, result: seq<string>)
    requires roots <= more && Sound(libs, roots, done, result)
    ensures Sound(libs, more, done, result)
  {
    forall x | Reachable(libs, roots, x) ensures Reachable(libs, more, x) {
    }
  }

  /** The walk has finished the names `seen` and is in the middle of nothing. */
  ghost predicate Expanded(libs: Table, seen: seq<string>, done: set<string>, result: seq<string>) {
    && Progress(libs, {}, done, result)
    && Sound(libs, Names(seen), done, result)
    && Names(seen) <= done
    && InStages(libs, seen, result)
    && result == AddNew([], All(libs, seen))
  }

  lemma StartNext(libs: Table, seen: seq<string>, name: string, done: set<string>, result: seq<string>)
    requires Expanded(libs, seen, done, result) && name != ""
    ensures Sound(libs, Names(seen + [name]), done, result) && Reachable(libs, Names(seen + [name]), name)
  {
    MoreRoots(libs, Names(seen), Names(seen + [name]), done, result);
    RootReachable(libs, Names(seen + [name]), name);
  }

  lemma FinishNext(libs: Table, seen: seq<string>, name: string, before: set<string>, was: seq<string>,
                   done: set<string>, result: seq<string>)
    requires Progress(libs, {}, done, result) && Sound(libs, Names(seen + [name]), done, result)
    requires Names(seen) <= before <= done && name in done
    requires InStages(libs, seen, was) && was <= result
    requires was == AddNew([], All(libs, seen)) && result == AddNew(was, From(libs, name, {}))
    ensures Expanded(libs, seen + [name], done, result)
  {
    NextOfAll(libs, seen, name);
    assert Names(seen + [name]) <= Names(seen) + {name};
    WalkIsComplete(libs, Names(seen + [name]), done, result);
    NextStage(libs, seen, name, was, result);
  }

  lemma NothingExpanded(libs: Table)
    ensures Expanded(libs, [], {}, [])
  {
    NothingReachable(libs);
    assert Exactly(libs, Names([][..0]), [][..0]);
  }

  /** Once nothing is open, the result is exactly what the expansion should contain. */
  lemma WalkIsComplete(libs: Table, roots: set<string>, done: set<string>, result: seq<string>)
    requires Progress(libs, {}, done, result) && Sound(libs, roots, done, result) && roots <= done
    ensures Exactly(libs, roots, result)
  {
    var s := done + set x | x in result;
    assert Closed(libs, s) by {
      forall a, b | a in s && Lists(libs, a, b) ensures b in s {
        assert a in done;
        assert Handled(libs, a, b, done, result);
      }
    }
    forall x | Belongs(libs, roots, x) ensures x in result {
      var path :| IsPath(libs, path) && path[0] in roots && path[|path| - 1] == x;
      PathStays(libs, path, s);
      if x in done && x in libs {
        assert Lists(libs, x, x);
      }
    }
  }

  /** A finished alias leads to nothing that is not in the result, as long as no open alias is entered. */
  lemma {:induction false} DoneLeadsNowhere(libs: Table, open: set<string>, done: set<string>, result: seq<string>,
                                            b: string, cut: set<string>, q: seq<nat>, x: string)
    requires Progress(libs, open, done, result) && b in done && open <= cut && LeadsFrom(libs, b, cut, q, x)
    ensures x in result
    decreases |q|
  {
    if b in libs {
      assert LeadsThrough(libs, b, libs[b], cut + {b}, q, x);
      var c := libs[b][q[0]];
      assert Lists(libs, b, c);
      assert Handled(libs, b, c, done, result);
      assert c != b ==> LeadsFrom(libs, c, cut + {b}, q[1..], x);
      if c != b && c in libs {
        DoneLeadsNowhere(libs, open, done, result, c, cut + {b}, q[1..], x);
      }
    }
  }

  lemma DoneAddsNothing(libs: Table, open: set<string>, done: set<string>, result: seq<string>, b: string)
    requires Progress(libs, open, done, result) && b in done
    ensures AddNew(result, From(libs, b, open)) == result
  {
    forall f | f in From(libs, b, open) ensures f.name in result {
      FromIsExact(libs, b, open, f);
      DoneLeadsNowhere(libs, open, done, result, b, open, f.path, f.name);
    }
    AddNothing(result, From(libs, b, open));
  }

  lemma AddOneName(result: seq<string>, x: string)
    ensures AddNew(result, [Found([], x)]) == AddName(result, x)
  {
    var fs := [Found([], x)];
    assert fs[..|fs| - 1] == [];
  }

  /** The walk has added what the first `i` names listed for `a` lead to. */
  ghost predicate Added(libs: Table, result: seq<string>, a: string, names: seq<string>, i: nat, open: set<string>, result': seq<string>) {
    i <= |names| && result' == AddNew(result, Through(libs, a, names[..i], open))
  }

  lemma NothingAdded(libs: Table, result: seq<string>, a: string, names: seq<string>, open: set<string>)
    ensures Added(libs, result, a, names, 0, open, result)
  {
  }

  lemma NextListed(libs: Table, result: seq<string>, a: string, names: seq<string>, i: nat, open: set<string>, was: seq<string>, now: seq<string>)
    requires i < |names| && Added(libs, result, a, names, i, open, was) && now == AddNew(was, Listed(libs, a, names[i], open))
    ensures Added(libs, result, a, names, i + 1, open, now)
  {
    assert names[..i + 1][..i] == names[..i];
    var before, own := Through(libs, a, names[..i], open), Listed(libs, a, names[i], open);
    AddNewMore(result, before, Under(i, own));
    AddNewUnder(AddNew(result, before), i, own);
  }

  lemma NextOfAll(libs: Table, names: seq<string>, name: string)
    ensures AddNew([], All(libs, names + [name])) == AddNew(AddNew([], All(libs, names)), From(libs, name, {}))
  {
    var all := names + [name];
    assert all[..|names|] == names;
    AddNewMore([], All(libs, names), Under(|names|, From(libs, name, {})));
    AddNewUnder(AddNew([], All(libs, names)), |names|, From(libs, name, {}));
  }

  lemma Opening(libs: Table, roots: set<string>, open: set<string>, done: set<string>, result: seq<string>, a: string)
    requires Progress(libs, open, done, result) && Sound(libs, roots, done, result)
    requires a !in done && a in libs && Reachable(libs, roots, a)
    ensures Progress(libs, open + {a}, done + {a}, result) && Sound(libs, roots, done + {a}, result)
  {
    forall c, b {:trigger Lists(libs, c, b)} | c in done - open && Lists(libs, c, b)
      ensures Handled(libs, c, b, done + {a}, result)
    {
      assert Handled(libs, c, b, done, result);
    }
  }

  lemma Closing(libs: Table, open: set<string>, done: set<string>, result: seq<string>, a: string)
    requires Progress(libs, open + {a}, done, result) && a !in open
    requires a in libs && HandledUpTo(libs, a, libs[a], |libs[a]|, done, result)
    ensures Progress(libs, open, done, result)
  {
  }

  /** The set and the list that one expansion shares among all its calls. */
  class Walk {
    var done: set<string>
    var result: seq<string>

    constructor ()
      ensures done == {} && result == []
    {
      done, result := {}, [];
    }
  }

  class BuildManager {
    var libs: Table

    constructor ()
      ensures libs == map[]
    {
      libs := map[];
    }

    /** A name can be defined once, unless the check is turned off. */
    method SetLibAlias(name: string, names: seq<string>, checkOverride: bool) returns (ok: bool)
      modifies this
      ensures ok <==> !checkOverride || name !in old(libs)
      ensures libs == if ok then old(libs)[name := MakeList(names)] else old(libs)
    {
      if checkOverride {
        if name in libs {
          return false;
        }
      }
      libs := libs[name := MakeList(names)];
      return true;
    }

    /** The walk from one name; it ends on every table, cyclic ones included. */
    method Expand(value: string, w: Walk, ghost roots: set<string>, ghost open: set<string>)
      requires Progress(libs, open, w.done, w.result) && Sound(libs, roots, w.done, w.result)
      requires Reachable(libs, roots, value)
      modifies w
      ensures Progress(libs, open, w.done, w.result) && Sound(libs, roots, w.done, w.result)
      ensures value in w.done && old(w.done) <= w.done && old(w.result) <= w.result
      ensures w.result == AddNew(old(w.result), From(libs, value, open))
      decreases |libs.Keys - w.done|, 0
    {
      if value in w.done {
        DoneAddsNothing(libs, open, w.done, w.result, value);
        return;
      }
      if value !in libs {
        AddOneName(w.result, value);
        w.done := w.done + {value};
        if value !in w.result {
          w.result := w.result + [value];
        }
        return;
      }
      Opening(libs, roots, open, w.done, w.result, value);
      Smaller(libs.Keys, w.done, w.done + {value}, value);
      w.done := w.done + {value};
      ExpandList(value, w, roots, open + {value});
      Closing(libs, open, w.done, w.result, value);
    }

    /** Everything that one alias lists. */
    method ExpandList(value: string, w: Walk, ghost roots: set<string>, ghost open: set<string>)
      requires Progress(libs, open, w.done, w.result) && Sound(libs, roots, w.done, w.result)
      requires value in libs && value in w.done && Reachable(libs, roots, value)
      modifies w
      ensures Progress(libs, open, w.done, w.result) && Sound(libs, roots, w.done, w.result)
      ensures old(w.done) <= w.done && old(w.result) <= w.result
      ensures HandledUpTo(libs, value, libs[value], |libs[value]|, w.done, w.result)
      ensures w.result == AddNew(old(w.result), Through(libs, value, libs[value], open))
      decreases |libs.Keys - w.done|, 2
    {
      var names := libs[value];
      assert names[..|names|] == names;
      NothingAdded(libs, w.result, value, names, open);
      for i := 0 to |names|
        invariant Progress(libs, open, w.done, w.result) && Sound(libs, roots, w.done, w.result)
        invariant old(w.done) <= w.done && old(w.result) <= w.result
        invariant HandledUpTo(libs, value, names, i, w.done, w.result)
        invariant Added(libs, old(w.result), value, names, i, open, w.result)
      {
        NoLarger(libs.Keys, old(w.done), w.done);
        ghost var before, was := w.done, w.result;
        ExpandListed(value, names[i], w, roots, open);
        HandledNext(libs, value, names, i, before, was, w.done, w.result);
        NextListed(libs, old(w.result), value, names, i, open, was, w.result);
      }
    }

    /** One name in the list of an alias: itself, another alias, or a library. */
    method ExpandListed(value: string, newLib: string, w: Walk, ghost roots: set<string>, ghost open: set<string>)
      requires Progress(libs, open, w.done, w.result) && Sound(libs, roots, w.done, w.result)
      requires Lists(libs, value, newLib) && value in w.done && Reachable(libs, roots, value)
      modifies w
      ensures Progress(libs, open, w.done, w.result) && Sound(libs, roots, w.done, w.result)
      ensures old(w.done) <= w.done && old(w.result) <= w.result
      ensures Handled(libs, value, newLib, w.done, w.result)
      ensures w.result == AddNew(old(w.result), Listed(libs, value, newLib, open))
      decreases |libs.Keys - w.done|, 1
    {
      AddOneName(w.result, newLib);
      ListedReachable(libs, roots, value, newLib);
      if newLib != value {
        if newLib in libs {
          Expand(newLib, w, roots, open);
          return;
        } else if newLib in w.done {
          return;
        }
      }
      if newLib !in w.result {
        ResultGrows(libs, roots, open, w.done, w.result, newLib);
        w.result := w.result + [newLib];
      }
    }

    /**
      The expansion of the default libraries followed by the wanted ones: every name that belongs to
      it, each exactly once, and nothing else. Of two names, the one comes first that the smaller listed
      path leads to.
      */
    method ExpandLibAliases(defaults: seq<string>, wanted: seq<string>) returns (result: seq<string>)
      ensures NoRepeats(result)
      ensures Exactly(libs, Names(defaults) + Names(wanted), result)
      ensures InStages(libs, MakeList(defaults) + MakeList(wanted), result)
      ensures InPathOrder(libs, MakeList(defaults) + MakeList(wanted), result)
    {
      var w := new Walk();
      NothingExpanded(libs);
      ExpandAll(MakeList(defaults), w, []);
      assert [] + MakeList(defaults) == MakeList(defaults);
      ExpandAll(MakeList(wanted), w, MakeList(defaults));
      assert Names(MakeList(defaults) + MakeList(wanted)) == Names(defaults) + Names(wanted);
      WalkIsComplete(libs, Names(defaults) + Names(wanted), w.done, w.result);
      result := w.result;
      ExpansionInOrder(libs, MakeList(defaults) + MakeList(wanted));
    }

    /** Goes on from the names `seen` with one more. */
    method ExpandNext(name: string, w: Walk, ghost seen: seq<string>)
      requires Expanded(libs, seen, w.done, w.result) && name != ""
      modifies w
      ensures Expanded(libs, seen + [name], w.done, w.result)
    {
      ghost var before, was := w.done, w.result;
      StartNext(libs, seen, name, w.done, w.result);
      Expand(name, w, Names(seen + [name]), {});
      FinishNext(libs, seen, name, before, was, w.done, w.result);
    }

    method ExpandAll(names: seq<string>, w: Walk, ghost seen: seq<string>)
      requires Expanded(libs, seen, w.done, w.result) && "" !in names
      modifies w
      ensures Expanded(libs, seen + names, w.done, w.result)
    {
      OneMoreName(seen, names, 0);
      for i := 0 to |names|
        invariant Expanded(libs, seen + names[..i], w.done, w.result)
      {
        OneMoreName(seen, names, i);
        ExpandNext(names[i], w, seen + names[..i]);
      }
      OneMoreName(seen, names, |names|);
    }
  }

  lemma OneMoreName(seen: seq<string>, names: seq<string>, i: nat)
    requires i <= |names|
    ensures seen + names[..0] == seen && names[..|names|] == names
    ensures i < |names| ==> seen + names[..i + 1] == seen + names[..i] + [names[i]]
  {
  }

  lemma NoLarger(keys: set<string>, before: set<string>, after: set<string>)
    requires before <= after
    ensures |keys - after| <= |keys - before|
  {
    if keys - after != keys - before {
      SubsetSize(keys - after, keys - before);
    }
  }

  lemma Smaller(keys: set<string>, before: set<string>, after: set<string>, x: string)
    requires x in keys && x !in before && before + {x} <= after
    ensures |keys - after| < |keys - before|
  {
    assert keys - after < keys - before by {
      assert x in keys - before;
    }
    SubsetSize(keys - after, keys - before);
  }

  lemma SubsetSize(a: set<string>, b: set<string>)
    requires a < b
    ensures |a| < |b|
  {
    assert b == a + (b - a);
    assert b - a != {};
  }
}