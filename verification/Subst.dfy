/**
  Expansion of construction variables: one expander builds a string, the other a list of lines
  of words. Both work on strings that have been split into tokens.
  */
module Subst {
  import opened Wrappers

  /** A word has no white space and no variable in it; a lone dollar sign is a word. */
  datatype Token =
    | Space(text: string)
    | Word(text: string)
    | Dollar             // two dollar signs
    | OpenStrip          // dollar sign and opening parenthesis
    | CloseStrip         // dollar sign and closing parenthesis
    | Ref(name: string)  // a variable, with or without braces

  datatype Value = Str(tokens: seq<Token>) | List(items: seq<Value>) | Nothing

  type Vars = map<string, Value>

  const BLANK := Str([])

  /** Local variables hide global ones; an unknown name has no value. */
  function Lookup(lvars: Vars, gvars: Vars, name: string): Option<Value> {
    if name in lvars then Some(lvars[name])
    else if name in gvars then Some(gvars[name])
    else None
  }

  // ---------------------------------------------------------------- Termination

  /** The names that an expansion can still make something of. */
  ghost function Live(lvars: Vars, gvars: Vars): set<string> {
    set k | k in lvars.Keys + gvars.Keys && Lookup(lvars, gvars, k) != Some(BLANK)
  }

  ghost function Size(v: Value): nat
    decreases v, 0
  {
    match v
    case Str(tokens) => 2 * |tokens| + 1
    case List(items) => 1 + SizeAll(items)
    case Nothing => 1
  }

  ghost function SizeAll(items: seq<Value>): nat
    decreases items, 1
  {
    if items == [] then 0 else 1 + Size(items[0]) + SizeAll(items[1..])
  }

  /**
    Blanking the name that is being expanded takes it out of the live names; if it was blank
    before, its value is smaller than any string that refers to it.
    */
  lemma BlankingDecreases(lvars: Vars, gvars: Vars, name: string)
    requires Lookup(lvars, gvars, name).Some?
    ensures var live' := Live(lvars[name := BLANK], gvars);
            || live' < Live(lvars, gvars)
            || (live' == Live(lvars, gvars) && Lookup(lvars, gvars, name) == Some(BLANK))
  {
    var lvars' := lvars[name := BLANK];
    forall k ensures Lookup(lvars', gvars, k) == if k == name then Some(BLANK) else Lookup(lvars, gvars, k) {
    }
    assert name !in Live(lvars', gvars);
    if Lookup(lvars, gvars, name) != Some(BLANK) {
      assert name in Live(lvars, gvars);
    }
  }

  // ---------------------------------------------------------------- The string expander

  /** What an expansion returns: a string, or a list of strings for a list. */
  datatype Text = One(s: string) | Many(ss: seq<string>)

  function Join(ss: seq<string>): string {
    if ss == [] then "" else if |ss| == 1 then ss[0] else ss[0] + " " + Join(ss[1..])
  }

  /** The conversion to a string: the members of a list are joined with blanks. */
  function Conv(t: Text): string {
    match t
    case One(s) => s
    case Many(ss) => Join(ss)
  }

  function SubstString(tokens: seq<Token>, lvars: Vars, gvars: Vars): string
    decreases Live(lvars, gvars), 2 * |tokens|
  {
    if tokens == [] then ""
    else SubstToken(tokens[0], lvars, gvars) + SubstString(tokens[1..], lvars, gvars)
  }

  function SubstToken(t: Token, lvars: Vars, gvars: Vars): string
    decreases Live(lvars, gvars), 2, 0
  {
    match t
    case Space(text) => text
    case Word(text) => text
    case Dollar => "$"
    case OpenStrip => "$("
    case CloseStrip => "$)"
    case Ref(name) =>
      match Lookup(lvars, gvars, name)
      case None => ""
      case Some(v) =>
        BlankingDecreases(lvars, gvars, name);
        Conv(SubstValue(v, lvars[name := BLANK], gvars))
  }

  function SubstValue(v: Value, lvars: Vars, gvars: Vars): Text
    decreases Live(lvars, gvars), Size(v)
  {
    match v
    case Str(tokens) => One(SubstString(tokens, lvars, gvars))
    case List(items) => Many(SubstItems(items, lvars, gvars))
    case Nothing => One("")
  }

  function SubstItems(items: seq<Value>, lvars: Vars, gvars: Vars): seq<string>
    decreases Live(lvars, gvars), SizeAll(items)
  {
    if items == [] then []
    else [Conv(SubstValue(items[0], lvars, gvars))] + SubstItems(items[1..], lvars, gvars)
  }

  // ---------------------------------------------------------------- The list expander

  datatype Mode = Cmd | Raw | Sig

  datatype Action = Append(text: string) | Open | Close | NextWord | ThisWord | NextLine

  predicate HasNewline(text: string) {
    '\n' in text
  }

  /** What the list expander does for one token that is not a variable. */
  function TokenAction(t: Token, withinList: bool): Action
    requires !t.Ref?
  {
    match t
    case Space(text) =>
      if HasNewline(text) then NextLine else if withinList then Append(text) else NextWord
    case Word(text) => Append(text)
    case Dollar => Append("$")
    case OpenStrip => Open
    case CloseStrip => Close
  }

  function StringActions(tokens: seq<Token>, lvars: Vars, gvars: Vars, withinList: bool): seq<Action>
    decreases Live(lvars, gvars), 2 * |tokens|
  {
    if tokens == [] then []
    else TokenActions(tokens[0], lvars, gvars, withinList) + StringActions(tokens[1..], lvars, gvars, withinList)
  }

  function TokenActions(t: Token, lvars: Vars, gvars: Vars, withinList: bool): seq<Action>
    decreases Live(lvars, gvars), 2, 0
  {
    if !t.Ref? then [TokenAction(t, withinList)]
    else
      match Lookup(lvars, gvars, t.name)
      case None => []
      case Some(v) =>
        BlankingDecreases(lvars, gvars, t.name);
        ValueActions(v, lvars[t.name := BLANK], gvars, false) + [ThisWord]
  }

  function ValueActions(v: Value, lvars: Vars, gvars: Vars, withinList: bool): seq<Action>
    decreases Live(lvars, gvars), Size(v)
  {
    match v
    case Str(tokens) => StringActions(tokens, lvars, gvars, withinList)
    case List(items) => ItemActions(items, lvars, gvars)
    case Nothing => [ThisWord]
  }

  function ItemActions(items: seq<Value>, lvars: Vars, gvars: Vars): seq<Action>
    decreases Live(lvars, gvars), SizeAll(items)
  {
    if items == [] then []
    else ValueActions(items[0], lvars, gvars, true) + [NextWord] + ItemActions(items[1..], lvars, gvars)
  }

  /** The lines of words gathered so far, and how the next text is to be added. */
  datatype State = State(lines: seq<seq<string>>, newWord: bool, inStrip: bool)

  const START := State([[]], true, false)

  function AddNewWord(mode: Mode, st: State, x: string): State
    requires st.lines != []
  {
    var last := |st.lines| - 1;
    if st.inStrip && mode == Sig then st.(newWord := false)
    else st.(lines := st.lines[last := st.lines[last] + [x]], newWord := false)
  }

  predicate Redirects(word: string) {
    word != "" && (word[|word| - 1] == '<' || word[|word| - 1] == '>' || word[|word| - 1] == '|')
  }

  function AddToCurrentWord(mode: Mode, st: State, x: string): State
    requires st.lines != []
  {
    if st.inStrip && mode == Sig then st
    else
      var last := |st.lines| - 1;
      var line := st.lines[last];
      if line == [] || Redirects(line[|line| - 1]) then AddNewWord(mode, st, x)
      else st.(lines := st.lines[last := line[|line| - 1 := line[|line| - 1] + x]])
  }

  function AppendText(mode: Mode, st: State, x: string): State
    requires st.lines != []
  {
    if st.newWord then AddNewWord(mode, st, x) else AddToCurrentWord(mode, st, x)
  }

  function Marker(mode: Mode, st: State, x: string): State
    requires st.lines != []
  {
    if mode == Raw then AppendText(mode, st, x) else st
  }

  function Apply(mode: Mode, st: State, a: Action): (st': State)
    requires st.lines != []
    ensures st'.lines != []
  {
    match a
    case Append(x) => AppendText(mode, st, x)
    case Open => Marker(mode, st, "$(").(inStrip := true)
    case Close => Marker(mode, st, "$)").(inStrip := false)
    case NextWord => st.(newWord := true)
    case ThisWord => st.(newWord := false)
    case NextLine => st.(lines := st.lines + [[]], newWord := true)
  }

  function ApplyAll(mode: Mode, st: State, actions: seq<Action>): (st': State)
    requires st.lines != []
    ensures st'.lines != []
    decreases actions
  {
    if actions == [] then st else ApplyAll(mode, Apply(mode, st, actions[0]), actions[1..])
  }

  lemma {:induction false} ApplyMore(mode: Mode, st: State, a: seq<Action>, b: seq<Action>)
    requires st.lines != []
    ensures ApplyAll(mode, st, a + b) == ApplyAll(mode, ApplyAll(mode, st, a), b)
    decreases a
  {
    if a == [] {
      assert a + b == b;
    } else {
      assert (a + b)[1..] == a[1..] + b;
      ApplyMore(mode, Apply(mode, st, a[0]), a[1..], b);
    }
  }

  // ---------------------------------------------------------------- No text is lost or reordered

  function Concat(words: seq<string>): string {
    if words == [] then "" else Concat(words[..|words| - 1]) + words[|words| - 1]
  }

  /** All words of all lines, one after the other. */
  function AllText(lines: seq<seq<string>>): string {
    if lines == [] then "" else AllText(lines[..|lines| - 1]) + Concat(lines[|lines| - 1])
  }

  /** What one action adds to the text, in a given mode and strip state. */
  function Adds(mode: Mode, inStrip: bool, a: Action): string {
    match a
    case Append(x) => if inStrip && mode == Sig then "" else x
    case Open => if mode == Raw then "$(" else ""
    case Close => if mode == Raw then "$)" else ""
    case _ => ""
  }

  function StripAfter(inStrip: bool, a: Action): bool {
    match a
    case Open => true
    case Close => false
    case _ => inStrip
  }

  function Kept(mode: Mode, inStrip: bool, actions: seq<Action>): string
    decreases actions
  {
    if actions == [] then ""
    else Adds(mode, inStrip, actions[0]) + Kept(mode, StripAfter(inStrip, actions[0]), actions[1..])
  }

  lemma KeptOne(mode: Mode, inStrip: bool, a: Action)
    ensures Kept(mode, inStrip, [a]) == Adds(mode, inStrip, a)
  {
    assert [a][1..] == [] && Adds(mode, inStrip, a) + "" == Adds(mode, inStrip, a);
  }

  lemma LastLine(lines: seq<seq<string>>, line: seq<string>)
    requires lines != []
    ensures AllText(lines[|lines| - 1 := line]) == AllText(lines[..|lines| - 1]) + Concat(line)
  {
    assert lines[|lines| - 1 := line][..|lines| - 1] == lines[..|lines| - 1];
  }

  lemma NewWordText(lines: seq<seq<string>>, x: string)
    requires lines != []
    ensures var last := |lines| - 1; AllText(lines[last := lines[last] + [x]]) == AllText(lines) + x
  {
    var last := |lines| - 1;
    var line, before := lines[last], AllText(lines[..last]);
    assert (line + [x])[..|line|] == line;
    LastLine(lines, line + [x]);
    assert before + (Concat(line) + x) == (before + Concat(line)) + x;
  }

  lemma LongerWordText(lines: seq<seq<string>>, x: string)
    requires lines != [] && lines[|lines| - 1] != []
    ensures var last := |lines| - 1; var line := lines[last]; var w := line[|line| - 1];
      AllText(lines[last := line[|line| - 1 := w + x]]) == AllText(lines) + x
  {
    var last := |lines| - 1;
    var line, before := lines[last], AllText(lines[..last]);
    var w := line[|line| - 1];
    var line' := line[|line| - 1 := w + x];
    assert line'[..|line| - 1] == line[..|line| - 1];
    LastLine(lines, line');
    var front := Concat(line[..|line| - 1]);
    assert before + (front + (w + x)) == (before + (front + w)) + x;
  }

  lemma NewKeepsText(mode: Mode, st: State, x: string)
    requires st.lines != [] && !(st.inStrip && mode == Sig)
    ensures AllText(AddNewWord(mode, st, x).lines) == AllText(st.lines) + x
  {
    NewWordText(st.lines, x);
  }

  lemma LongerKeepsText(mode: Mode, st: State, x: string)
    requires st.lines != [] && !(st.inStrip && mode == Sig)
    requires var line := st.lines[|st.lines| - 1]; line != [] && !Redirects(line[|line| - 1])
    ensures AllText(AddToCurrentWord(mode, st, x).lines) == AllText(st.lines) + x
  {
    LongerWordText(st.lines, x);
  }

  lemma AppendKeepsText(mode: Mode, st: State, x: string)
    requires st.lines != []
    ensures AppendText(mode, st, x).inStrip == st.inStrip
    ensures AllText(AppendText(mode, st, x).lines)
         == AllText(st.lines) + (if st.inStrip && mode == Sig then "" else x)
  {
    var line := st.lines[|st.lines| - 1];
    if st.inStrip && mode == Sig {
      assert AllText(st.lines) + "" == AllText(st.lines);
    } else if st.newWord || line == [] || Redirects(line[|line| - 1]) {
      NewKeepsText(mode, st, x);
    } else {
      LongerKeepsText(mode, st, x);
    }
  }

  lemma ApplyKeepsText(mode: Mode, st: State, a: Action)
    requires st.lines != []
    ensures AllText(Apply(mode, st, a).lines) == AllText(st.lines) + Adds(mode, st.inStrip, a)
    ensures Apply(mode, st, a).inStrip == StripAfter(st.inStrip, a)
  {
    match a
    case Append(x) => AppendKeepsText(mode, st, x);
    case Open => if mode == Raw { AppendKeepsText(mode, st, "$("); } else { assert AllText(st.lines) + "" == AllText(st.lines); }
    case Close => if mode == Raw { AppendKeepsText(mode, st, "$)"); } else { assert AllText(st.lines) + "" == AllText(st.lines); }
    case NextLine =>
      assert (st.lines + [[]])[..|st.lines|] == st.lines;
      assert AllText(st.lines) + Concat([]) == AllText(st.lines) + "" == AllText(st.lines);
    case _ => assert AllText(st.lines) + "" == AllText(st.lines);
  }

  /**
    In every mode and for every sequence of actions, the words gathered spell exactly the texts
    appended, in their order: breaking them into words and lines loses and moves nothing.
    */
  lemma {:induction false} WordsSpellTheText(mode: Mode, st: State, actions: seq<Action>)
    requires st.lines != []
    ensures AllText(ApplyAll(mode, st, actions).lines) == AllText(st.lines) + Kept(mode, st.inStrip, actions)
    decreases actions
  {
    if actions == [] {
      assert AllText(st.lines) + "" == AllText(st.lines);
    } else {
      var st' := Apply(mode, st, actions[0]);
      ApplyKeepsText(mode, st, actions[0]);
      WordsSpellTheText(mode, st', actions[1..]);
      assert AllText(st.lines) + (Adds(mode, st.inStrip, actions[0]) + Kept(mode, st'.inStrip, actions[1..]))
          == (AllText(st.lines) + Adds(mode, st.inStrip, actions[0])) + Kept(mode, st'.inStrip, actions[1..]);
    }
  }

  // ---------------------------------------------------------------- The two expanders agree

  predicate IsSpace(c: char) {
    c == ' ' || c == '\t' || c == '\n' || c == '\r' || c == 0x0C as char || c == 0x0B as char
  }

  /** The text without its white space. */
  function NonSpace(s: string): string {
    if s == "" then "" else (if IsSpace(s[0]) then "" else [s[0]]) + NonSpace(s[1..])
  }

  lemma {:induction false} NonSpaceMore(a: string, b: string)
    ensures NonSpace(a + b) == NonSpace(a) + NonSpace(b)
  {
    if a == "" {
      assert a + b == b;
    } else {
      assert (a + b)[1..] == a[1..] + b;
      NonSpaceMore(a[1..], b);
    }
  }

  lemma {:induction false} NonSpaceBlank(s: string)
    requires forall i | 0 <= i < |s| :: IsSpace(s[i])
    ensures NonSpace(s) == ""
  {
    if s != "" {
      NonSpaceBlank(s[1..]);
    }
  }

  lemma {:induction false} KeptMore(mode: Mode, inStrip: bool, a: seq<Action>, b: seq<Action>)
    ensures Kept(mode, inStrip, a + b) == Kept(mode, inStrip, a) + Kept(mode, StripState(inStrip, a), b)
    decreases a
  {
    if a == [] {
      assert a + b == b;
    } else {
      assert (a + b)[1..] == a[1..] + b;
      KeptMore(mode, StripAfter(inStrip, a[0]), a[1..], b);
    }
  }

  function StripState(inStrip: bool, actions: seq<Action>): bool
    decreases actions
  {
    if actions == [] then inStrip else StripState(StripAfter(inStrip, actions[0]), actions[1..])
  }

  /** BLANK tokens hold nothing but white space. */
  predicate ValidTokens(tokens: seq<Token>) {
    forall t | t in tokens && t.Space? :: forall i | 0 <= i < |t.text| :: IsSpace(t.text[i])
  }

  predicate ValidValue(v: Value) {
    match v
    case Str(tokens) => ValidTokens(tokens)
    case List(items) => forall i | 0 <= i < |items| :: ValidValue(items[i])
    case Nothing => true
  }

  predicate ValidVars(vars: Vars) {
    forall k | k in vars :: ValidValue(vars[k])
  }

  /** What the list expander appends in raw mode, whatever its strip state. */
  ghost function RawText(actions: seq<Action>): string {
    Kept(Raw, false, actions)
  }

  lemma {:induction false} RawAnyStrip(a: bool, b: bool, actions: seq<Action>)
    ensures Kept(Raw, a, actions) == Kept(Raw, b, actions)
    decreases actions
  {
    if actions != [] {
      RawAnyStrip(StripAfter(a, actions[0]), StripAfter(b, actions[0]), actions[1..]);
    }
  }

  lemma RawMore(a: seq<Action>, b: seq<Action>)
    ensures NonSpace(RawText(a + b)) == NonSpace(RawText(a)) + NonSpace(RawText(b))
  {
    KeptMore(Raw, false, a, b);
    RawAnyStrip(StripState(false, a), false, b);
    NonSpaceMore(RawText(a), RawText(b));
  }

  lemma JoinNonSpace(ss: seq<string>, s: string)
    ensures NonSpace(Join([s] + ss)) == NonSpace(s) + NonSpace(Join(ss))
  {
    assert ([s] + ss)[1..] == ss;
    if ss == [] {
      assert NonSpace(s) + NonSpace("") == NonSpace(s);
    } else {
      NonSpaceMore(s + " ", Join(ss));
      NonSpaceMore(s, " ");
      NonSpaceBlank(" ");
      assert s + " " + Join(ss) == (s + " ") + Join(ss);
    }
  }

  lemma AgreeOnValue(v: Value, lvars: Vars, gvars: Vars, withinList: bool)
    requires ValidValue(v) && ValidVars(lvars) && ValidVars(gvars)
    ensures NonSpace(Conv(SubstValue(v, lvars, gvars))) == NonSpace(RawText(ValueActions(v, lvars, gvars, withinList)))
    decreases Live(lvars, gvars), Size(v)
  {
    match v
    case Str(tokens) => AgreeOnString(tokens, lvars, gvars, withinList);
    case List(items) => AgreeOnItems(items, lvars, gvars);
    case Nothing => KeptOne(Raw, false, ThisWord);
  }

  lemma AgreeOnItems(items: seq<Value>, lvars: Vars, gvars: Vars)
    requires ValidValue(List(items)) && ValidVars(lvars) && ValidVars(gvars)
    ensures NonSpace(Join(SubstItems(items, lvars, gvars))) == NonSpace(RawText(ItemActions(items, lvars, gvars)))
    decreases Live(lvars, gvars), SizeAll(items)
  {
    if items == [] {
      assert SubstItems(items, lvars, gvars) == [] && ItemActions(items, lvars, gvars) == [];
    } else {
      var v, rest := items[0], items[1..];
      AgreeOnValue(v, lvars, gvars, true);
      AgreeOnItems(rest, lvars, gvars);
      JoinNonSpace(SubstItems(rest, lvars, gvars), Conv(SubstValue(v, lvars, gvars)));
      RawMore(ValueActions(v, lvars, gvars, true) + [NextWord], ItemActions(rest, lvars, gvars));
      RawSilent(ValueActions(v, lvars, gvars, true), NextWord);
      assert SubstItems(items, lvars, gvars) == [Conv(SubstValue(v, lvars, gvars))] + SubstItems(rest, lvars, gvars);
      assert ItemActions(items, lvars, gvars)
          == (ValueActions(v, lvars, gvars, true) + [NextWord]) + ItemActions(rest, lvars, gvars);
    }
  }

  /** Actions that only arrange for the next text add none themselves. */
  lemma RawSilent(a: seq<Action>, e: Action)
    requires e.NextWord? || e.ThisWord? || e.NextLine?
    ensures NonSpace(RawText(a + [e])) == NonSpace(RawText(a))
  {
    RawMore(a, [e]);
    KeptOne(Raw, false, e);
    assert NonSpace(RawText(a)) + "" == NonSpace(RawText(a));
  }

  lemma AgreeOnString(tokens: seq<Token>, lvars: Vars, gvars: Vars, withinList: bool)
    requires ValidTokens(tokens) && ValidVars(lvars) && ValidVars(gvars)
    ensures NonSpace(SubstString(tokens, lvars, gvars)) == NonSpace(RawText(StringActions(tokens, lvars, gvars, withinList)))
    decreases Live(lvars, gvars), 2 * |tokens|
  {
    if tokens != [] {
      AgreeOnToken(tokens[0], lvars, gvars, withinList);
      AgreeOnString(tokens[1..], lvars, gvars, withinList);
      NonSpaceMore(SubstToken(tokens[0], lvars, gvars), SubstString(tokens[1..], lvars, gvars));
      RawMore(TokenActions(tokens[0], lvars, gvars, withinList), StringActions(tokens[1..], lvars, gvars, withinList));
    }
  }

  lemma AgreeOnToken(t: Token, lvars: Vars, gvars: Vars, withinList: bool)
    requires ValidTokens([t]) && ValidVars(lvars) && ValidVars(gvars)
    ensures NonSpace(SubstToken(t, lvars, gvars)) == NonSpace(RawText(TokenActions(t, lvars, gvars, withinList)))
    decreases Live(lvars, gvars), 2, 0
  {
    if !t.Ref? {
      KeptOne(Raw, false, TokenAction(t, withinList));
      if t.Space? {
        assert t in [t];
        NonSpaceBlank(t.text);
      }
    } else if Lookup(lvars, gvars, t.name).Some? {
      var v, lvars' := Lookup(lvars, gvars, t.name).value, lvars[t.name := BLANK];
      BlankingDecreases(lvars, gvars, t.name);
      AgreeOnValue(v, lvars', gvars, false);
      RawSilent(ValueActions(v, lvars', gvars, false), ThisWord);
    }
  }

  /** The lines of words for a value. */
  function SubstList(mode: Mode, v: Value, lvars: Vars, gvars: Vars): seq<seq<string>> {
    ApplyAll(mode, START, ValueActions(v, lvars, gvars, false)).lines
  }

  lemma ListText(mode: Mode, v: Value, lvars: Vars, gvars: Vars)
    ensures AllText(SubstList(mode, v, lvars, gvars)) == Kept(mode, false, ValueActions(v, lvars, gvars, false))
  {
    WordsSpellTheText(mode, START, ValueActions(v, lvars, gvars, false));
    assert AllText(START.lines) == AllText([]) + Concat([]) == "";
  }

  /**
    In raw mode the two expanders spell the same text, white space aside, for every value and all
    variables: nested lists, nested references and self-references included.
    */
  lemma ExpandersAgree(v: Value, lvars: Vars, gvars: Vars)
    requires ValidValue(v) && ValidVars(lvars) && ValidVars(gvars)
    ensures NonSpace(Conv(SubstValue(v, lvars, gvars))) == NonSpace(AllText(SubstList(Raw, v, lvars, gvars)))
  {
    AgreeOnValue(v, lvars, gvars, false);
    ListText(Raw, v, lvars, gvars);
  }

  // ---------------------------------------------------------------- Signatures

  /** The position `i` lies after an opening marker that has not been closed. */
  ghost predicate Stripped(actions: seq<Action>, i: nat)
    requires i <= |actions|
  {
    exists j :: 0 <= j < i && actions[j].Open? && forall k | j < k < i :: !actions[k].Close?
  }

  /** The texts appended at the first `n` positions that are not stripped. */
  ghost function Unstripped(actions: seq<Action>, n: nat): string
    requires n <= |actions|
  {
    if n == 0 then ""
    else
      Unstripped(actions, n - 1)
      + if actions[n - 1].Append? && !Stripped(actions, n - 1) then actions[n - 1].text else ""
  }

  lemma StripStateMore(inStrip: bool, a: seq<Action>, e: Action)
    ensures StripState(inStrip, a + [e]) == StripAfter(StripState(inStrip, a), e)
    decreases a
  {
    if a != [] {
      assert (a + [e])[1..] == a[1..] + [e];
      StripStateMore(StripAfter(inStrip, a[0]), a[1..], e);
    }
  }

  lemma {:induction false} StrippedIsState(actions: seq<Action>, n: nat)
    requires n <= |actions|
    ensures StripState(false, actions[..n]) <==> Stripped(actions, n)
  {
    if n > 0 {
      StrippedIsState(actions, n - 1);
      assert actions[..n] == actions[..n - 1] + [actions[n - 1]];
      StripStateMore(false, actions[..n - 1], actions[n - 1]);
      if Stripped(actions, n) && !actions[n - 1].Open? {
        var j :| 0 <= j < n && actions[j].Open? && forall k | j < k < n :: !actions[k].Close?;
        assert j < n - 1;
      }
      if Stripped(actions, n - 1) && !actions[n - 1].Close? {
        var j :| 0 <= j < n - 1 && actions[j].Open? && forall k | j < k < n - 1 :: !actions[k].Close?;
        assert forall k | j < k < n :: !actions[k].Close?;
      }
      if actions[n - 1].Open? {
        assert Stripped(actions, n);
      }
    }
  }

  /** In signature mode exactly the text between strip markers is dropped. */
  lemma {:induction false} SignatureDropsStripped(actions: seq<Action>, n: nat)
    requires n <= |actions|
    ensures Kept(Sig, false, actions[..n]) == Unstripped(actions, n)
  {
    if n > 0 {
      SignatureDropsStripped(actions, n - 1);
      StrippedIsState(actions, n - 1);
      KeptPrefix(Sig, actions, n - 1);
    }
  }

  lemma KeptPrefix(mode: Mode, actions: seq<Action>, n: nat)
    requires n < |actions|
    ensures Kept(mode, false, actions[..n + 1])
         == Kept(mode, false, actions[..n]) + Adds(mode, StripState(false, actions[..n]), actions[n])
  {
    var before, e := actions[..n], actions[n];
    assert actions[..n + 1] == before + [e];
    KeptMore(mode, false, before, [e]);
    KeptOne(mode, StripState(false, before), e);
  }

  ghost predicate NoClose(actions: seq<Action>) {
    forall i | 0 <= i < |actions| :: !actions[i].Close?
  }

  lemma {:induction false} StrippedAway(m: seq<Action>)
    requires NoClose(m)
    ensures Kept(Sig, true, m) == "" && StripState(true, m)
    decreases m
  {
    if m != [] {
      StrippedAway(m[1..]);
    }
  }

  /** A stripped stretch contributes nothing, so that what it holds does not matter. */
  lemma StrippedStretch(inStrip: bool, a: seq<Action>, m: seq<Action>, b: seq<Action>)
    requires NoClose(m)
    ensures Kept(Sig, inStrip, a + [Open] + m + [Close] + b) == Kept(Sig, inStrip, a) + Kept(Sig, false, b)
  {
    KeptMore(Sig, inStrip, a + [Open] + m + [Close], b);
    KeptMore(Sig, inStrip, a + [Open] + m, [Close]);
    KeptMore(Sig, inStrip, a + [Open], m);
    KeptMore(Sig, inStrip, a, [Open]);
    StripStateMore(inStrip, a, Open);
    StripMore(inStrip, a + [Open], m);
    StrippedAway(m);
    StripStateMore(inStrip, a + [Open] + m, Close);
    KeptOne(Sig, StripState(inStrip, a), Open);
    KeptOne(Sig, true, Close);
    assert Kept(Sig, inStrip, a) + "" + "" + "" == Kept(Sig, inStrip, a);
  }

  lemma {:induction false} StripMore(inStrip: bool, a: seq<Action>, b: seq<Action>)
    ensures StripState(inStrip, a + b) == StripState(StripState(inStrip, a), b)
    decreases a
  {
    if a == [] {
      assert a + b == b;
    } else {
      assert (a + b)[1..] == a[1..] + b;
      StripMore(StripAfter(inStrip, a[0]), a[1..], b);
    }
  }

  lemma {:induction false} ActionsMore(a: seq<Token>, b: seq<Token>, lvars: Vars, gvars: Vars, withinList: bool)
    ensures StringActions(a + b, lvars, gvars, withinList)
         == StringActions(a, lvars, gvars, withinList) + StringActions(b, lvars, gvars, withinList)
    decreases a
  {
    if a == [] {
      assert a + b == b;
    } else {
      assert (a + b)[1..] == a[1..] + b;
      ActionsMore(a[1..], b, lvars, gvars, withinList);
    }
  }

  lemma OneMoreToken(tokens: seq<Token>, i: nat, lvars: Vars, gvars: Vars, withinList: bool)
    requires i < |tokens|
    ensures StringActions(tokens[..i + 1], lvars, gvars, withinList)
         == StringActions(tokens[..i], lvars, gvars, withinList) + TokenActions(tokens[i], lvars, gvars, withinList)
  {
    var t := tokens[i];
    assert tokens[..i + 1] == tokens[..i] + [t];
    ActionsMore(tokens[..i], [t], lvars, gvars, withinList);
    assert [t][1..] == [];
    assert StringActions([t], lvars, gvars, withinList) == TokenActions(t, lvars, gvars, withinList) + [];
  }

  lemma StripActions(a: seq<Token>, m: seq<Token>, b: seq<Token>, lvars: Vars, gvars: Vars)
    ensures StringActions(a + [OpenStrip] + m + [CloseStrip] + b, lvars, gvars, false)
         == StringActions(a, lvars, gvars, false) + [Open] + StringActions(m, lvars, gvars, false)
            + [Close] + StringActions(b, lvars, gvars, false)
  {
    var am := a + [OpenStrip] + m;
    ActionsMore(am + [CloseStrip], b, lvars, gvars, false);
    OneMoreToken(am + [CloseStrip], |am|, lvars, gvars, false);
    assert (am + [CloseStrip])[..|am|] == am && (am + [CloseStrip])[..|am| + 1] == am + [CloseStrip];
    ActionsMore(a + [OpenStrip], m, lvars, gvars, false);
    OneMoreToken(a + [OpenStrip], |a|, lvars, gvars, false);
    assert (a + [OpenStrip])[..|a|] == a && (a + [OpenStrip])[..|a| + 1] == a + [OpenStrip];
  }

  /**
    Changing only what stands between the strip markers of a command line leaves the text of its
    signature unchanged.
    */
  lemma SignatureIgnoresStripped(a: seq<Token>, m: seq<Token>, m': seq<Token>, b: seq<Token>, lvars: Vars, gvars: Vars)
    requires NoClose(StringActions(m, lvars, gvars, false)) && NoClose(StringActions(m', lvars, gvars, false))
    ensures AllText(SubstList(Sig, Str(a + [OpenStrip] + m + [CloseStrip] + b), lvars, gvars))
         == AllText(SubstList(Sig, Str(a + [OpenStrip] + m' + [CloseStrip] + b), lvars, gvars))
  {
    StripActions(a, m, b, lvars, gvars);
    StripActions(a, m', b, lvars, gvars);
    var before, after := StringActions(a, lvars, gvars, false), StringActions(b, lvars, gvars, false);
    StrippedStretch(false, before, StringActions(m, lvars, gvars, false), after);
    StrippedStretch(false, before, StringActions(m', lvars, gvars, false), after);
    ListText(Sig, Str(a + [OpenStrip] + m + [CloseStrip] + b), lvars, gvars);
    ListText(Sig, Str(a + [OpenStrip] + m' + [CloseStrip] + b), lvars, gvars);
  }

  // ---------------------------------------------------------------- Where words and lines begin

  predicate IsText(t: Token) {
    t.Word? || t.Dollar?
  }

  function TextOf(t: Token): string
    requires IsText(t)
  {
    if t.Dollar? then "$" else t.text
  }

  predicate Plain(t: Token) {
    t.Space? || IsText(t)
  }

  /** No white space comes after the last text. */
  predicate Continues(tokens: seq<Token>) {
    tokens != [] && !tokens[|tokens| - 1].Space?
  }

  /**
    The lines of words of a plain string: a text goes on with the word before it exactly if no white
    space comes between, and that word does not end with a redirection sign.
    */
  function Split(tokens: seq<Token>): (lines: seq<seq<string>>)
    requires forall t | t in tokens :: Plain(t)
    ensures lines != []
    ensures Continues(tokens) ==> lines[|lines| - 1] != []
  {
    if tokens == [] then [[]]
    else
      var before, t := tokens[..|tokens| - 1], tokens[|tokens| - 1];
      assert t in tokens && Plain(t);
      assert forall u | u in before :: u in tokens;
      var lines := Split(before);
      var line := lines[|lines| - 1];
      if t.Space? then (if HasNewline(t.text) then lines + [[]] else lines)
      else if Continues(before) && !Redirects(line[|line| - 1])
      then lines[|lines| - 1 := line[|line| - 1 := line[|line| - 1] + TextOf(t)]]
      else lines[|lines| - 1 := line + [TextOf(t)]]
  }

  ghost predicate EndsPlain(st: State, tokens: seq<Token>)
    requires forall t | t in tokens :: Plain(t)
  {
    st.lines == Split(tokens) && !st.inStrip && st.newWord == !Continues(tokens)
  }

  lemma OnePlainToken(mode: Mode, st: State, tokens: seq<Token>, t: Token)
    requires (forall u | u in tokens :: Plain(u)) && Plain(t) && (forall u | u in tokens + [t] :: Plain(u))
    requires EndsPlain(st, tokens)
    ensures EndsPlain(Apply(mode, st, TokenAction(t, false)), tokens + [t])
  {
    assert (tokens + [t])[..|tokens|] == tokens;
  }

  lemma {:induction false} PlainPrefix(mode: Mode, tokens: seq<Token>, n: nat, lvars: Vars, gvars: Vars)
    requires (forall t | t in tokens :: Plain(t)) && n <= |tokens| && forall t | t in tokens[..n] :: Plain(t)
    ensures EndsPlain(ApplyAll(mode, START, StringActions(tokens[..n], lvars, gvars, false)), tokens[..n])
  {
    if n > 0 {
      var before, t := tokens[..n - 1], tokens[n - 1];
      assert tokens[..n] == before + [t] && t in tokens[..n];
      forall u | u in before ensures Plain(u) {
        assert u in tokens[..n];
      }
      PlainPrefix(mode, tokens, n - 1, lvars, gvars);
      OneMoreToken(tokens, n - 1, lvars, gvars, false);
      var actions := StringActions(before, lvars, gvars, false);
      ApplyMore(mode, START, actions, [TokenAction(t, false)]);
      assert [TokenAction(t, false)][1..] == [];
      OnePlainToken(mode, ApplyAll(mode, START, actions), before, t);
    }
  }

  /** In a string without variables and markers, words and lines are exactly those of `Split`. */
  lemma PlainTokensSplit(mode: Mode, tokens: seq<Token>, lvars: Vars, gvars: Vars)
    requires forall t | t in tokens :: Plain(t)
    ensures SubstList(mode, Str(tokens), lvars, gvars) == Split(tokens)
  {
    assert tokens[..|tokens|] == tokens;
    PlainPrefix(mode, tokens, |tokens|, lvars, gvars);
  }

  // The items of a list.

  predicate PlainItem(tokens: seq<Token>) {
    forall t | t in tokens :: Plain(t)
  }

  predicate PlainItems(items: seq<seq<Token>>) {
    forall i | 0 <= i < |items| :: PlainItem(items[i])
  }

  /** An item with something in it and no newline. */
  predicate SolidItem(tokens: seq<Token>) {
    tokens != [] && PlainItem(tokens) && forall t | t in tokens :: !BreaksLine(t)
  }

  function Spelled(t: Token): string
    requires Plain(t)
  {
    if t.Space? then t.text else TextOf(t)
  }

  /** The text of plain tokens, white space included. */
  function TextOfAll(tokens: seq<Token>): string
    requires forall t | t in tokens :: Plain(t)
  {
    if tokens == [] then ""
    else
      assert tokens[|tokens| - 1] in tokens;
      assert forall u | u in tokens[..|tokens| - 1] :: u in tokens;
      TextOfAll(tokens[..|tokens| - 1]) + Spelled(tokens[|tokens| - 1])
  }

  predicate BreaksLine(t: Token) {
    t.Space? && HasNewline(t.text)
  }

  /**
    The lines of words of a plain item of a list: white space without a newline is text like any other, and
    a text goes on with the last word of the line unless that word ends with a redirection sign.
    */
  function ItemLines(tokens: seq<Token>): (lines: seq<seq<string>>)
    requires forall t | t in tokens :: Plain(t)
    ensures lines != []
  {
    if tokens == [] then [[]]
    else
      var before, t := tokens[..|tokens| - 1], tokens[|tokens| - 1];
      assert t in tokens && Plain(t);
      assert forall u | u in before :: u in tokens;
      WithToken(ItemLines(before), t)
  }

  function WithToken(lines: seq<seq<string>>, t: Token): (lines': seq<seq<string>>)
    requires lines != [] && Plain(t)
    ensures lines' != []
  {
    if BreaksLine(t) then lines + [[]]
    else lines[|lines| - 1 := WithText(lines[|lines| - 1], Spelled(t))]
  }

  function WithText(line: seq<string>, x: string): seq<string> {
    if line == [] || Redirects(line[|line| - 1]) then line + [x]
    else line[|line| - 1 := line[|line| - 1] + x]
  }

  /** The first line of `b` goes on with the last line of `a`. */
  function Glue(a: seq<seq<string>>, b: seq<seq<string>>): (lines: seq<seq<string>>)
    requires a != [] && b != []
    ensures |lines| == |a| + |b| - 1
  {
    a[..|a| - 1] + [a[|a| - 1] + b[0]] + b[1..]
  }

  /** The lines of words of a list: every item begins a new word on the line on which the item before it ended. */
  function ListLines(items: seq<seq<Token>>): (lines: seq<seq<string>>)
    requires PlainItems(items)
    ensures lines != []
  {
    if items == [] then [[]]
    else
      Glue(ListLines(items[..|items| - 1]), ItemLines(items[|items| - 1]))
  }

  function Texts(items: seq<seq<Token>>): seq<string>
    requires PlainItems(items)
  {
    seq(|items|, i requires 0 <= i < |items| => TextOfAll(items[i]))
  }

  function Strs(items: seq<seq<Token>>): seq<Value> {
    seq(|items|, i requires 0 <= i < |items| => Str(items[i]))
  }

  lemma GlueEmpty(b: seq<seq<string>>)
    requires b != []
    ensures Glue([[]], b) == b
  {
    var none: seq<string> := [];
    assert none + b[0] == b[0];
    assert b == [b[0]] + b[1..];
  }

  lemma GlueOne(line: seq<string>, x: string)
    ensures Glue([line], [[x]]) == [line + [x]]
  {
  }

  lemma GlueLine(a: seq<seq<string>>, b: seq<seq<string>>)
    requires a != [] && b != []
    ensures Glue(a, b + [[]]) == Glue(a, b) + [[]]
  {
    assert (b + [[]])[1..] == b[1..] + [[]];
  }

  lemma GlueWord(a: seq<seq<string>>, b: seq<seq<string>>, line: seq<string>)
    requires a != [] && b != []
    ensures Glue(a, b[|b| - 1 := line])
         == var g := Glue(a, b); g[|g| - 1 := if |b| == 1 then a[|a| - 1] + line else line]
  {
    var g := Glue(a, b);
    var last := if |b| == 1 then a[|a| - 1] + line else line;
    if |b| > 1 {
      assert b[|b| - 1 := line][1..] == b[1..][|b| - 2 := line];
    }
    assert Glue(a, b[|b| - 1 := line]) == g[|g| - 1 := last];
  }

  /** How the expander stands after these tokens of an item. */
  ghost predicate EndsItem(st: State, lines: seq<seq<string>>, tokens: seq<Token>)
    requires lines != [] && forall t | t in tokens :: Plain(t)
  {
    var own := ItemLines(tokens);
    st.lines == Glue(lines, own) && !st.inStrip && st.newWord == (own[|own| - 1] == [])
  }

  lemma OneItemText(mode: Mode, st: State, lines: seq<seq<string>>, own: seq<seq<string>>, x: string)
    requires lines != [] && own != []
    requires st.lines == Glue(lines, own) && !st.inStrip && st.newWord == (own[|own| - 1] == [])
    ensures AppendText(mode, st, x) == State(Glue(lines, own[|own| - 1 := WithText(own[|own| - 1], x)]), false, false)
  {
    var line := own[|own| - 1];
    var line' := WithText(line, x);
    GlueWord(lines, own, line');
    var base := if |own| == 1 then lines[|lines| - 1] else [];
    var current := st.lines[|st.lines| - 1];
    assert current == base + line;
    if line == [] || Redirects(line[|line| - 1]) {
      assert current + [x] == base + line';
    } else {
      assert current[|current| - 1] == line[|line| - 1];
      assert current[|current| - 1 := line[|line| - 1] + x] == base + line';
    }
    assert base + line' == if |own| == 1 then lines[|lines| - 1] + line' else line';
  }

  lemma OneItemToken(mode: Mode, st: State, lines: seq<seq<string>>, tokens: seq<Token>, t: Token)
    requires lines != []
    requires (forall u | u in tokens :: Plain(u)) && Plain(t) && (forall u | u in tokens + [t] :: Plain(u))
    requires EndsItem(st, lines, tokens)
    ensures EndsItem(Apply(mode, st, TokenAction(t, true)), lines, tokens + [t])
  {
    assert (tokens + [t])[..|tokens|] == tokens;
    if BreaksLine(t) {
      GlueLine(lines, ItemLines(tokens));
    } else {
      OneItemText(mode, st, lines, ItemLines(tokens), Spelled(t));
    }
  }

  lemma {:induction false} ItemPrefix(mode: Mode, st: State, tokens: seq<Token>, n: nat, lvars: Vars, gvars: Vars)
    requires (forall t | t in tokens :: Plain(t)) && n <= |tokens| && forall t | t in tokens[..n] :: Plain(t)
    requires st.lines != [] && st.newWord && !st.inStrip
    ensures EndsItem(ApplyAll(mode, st, StringActions(tokens[..n], lvars, gvars, true)), st.lines, tokens[..n])
  {
    if n == 0 {
      assert st.lines[|st.lines| - 1] + [] == st.lines[|st.lines| - 1];
      assert Glue(st.lines, [[]]) == st.lines;
    } else {
      var before, t := tokens[..n - 1], tokens[n - 1];
      assert tokens[..n] == before + [t] && t in tokens[..n];
      forall u | u in before ensures Plain(u) {
        assert u in tokens[..n];
      }
      ItemPrefix(mode, st, tokens, n - 1, lvars, gvars);
      OneMoreToken(tokens, n - 1, lvars, gvars, true);
      var actions := StringActions(before, lvars, gvars, true);
      ApplyMore(mode, st, actions, [TokenAction(t, true)]);
      assert [TokenAction(t, true)][1..] == [];
      OneItemToken(mode, ApplyAll(mode, st, actions), st.lines, before, t);
    }
  }

  /** One item of a list, and the new word after it. */
  lemma ItemSplits(mode: Mode, st: State, tokens: seq<Token>, lvars: Vars, gvars: Vars)
    requires (forall t | t in tokens :: Plain(t)) && st.lines != [] && st.newWord && !st.inStrip
    ensures ApplyAll(mode, st, ValueActions(Str(tokens), lvars, gvars, true) + [NextWord])
         == State(Glue(st.lines, ItemLines(tokens)), true, false)
  {
    assert tokens[..|tokens|] == tokens;
    ItemPrefix(mode, st, tokens, |tokens|, lvars, gvars);
    ApplyMore(mode, st, ValueActions(Str(tokens), lvars, gvars, true), [NextWord]);
    assert [NextWord][1..] == [];
  }

  lemma {:induction false} GlueTwice(a: seq<seq<string>>, b: seq<seq<string>>, c: seq<seq<string>>)
    requires a != [] && b != [] && c != []
    ensures Glue(Glue(a, b), c) == Glue(a, Glue(b, c))
  {
    if |b| == 1 {
      assert a[|a| - 1] + (b[0] + c[0]) == a[|a| - 1] + b[0] + c[0];
    }
  }

  /** The lines of words of a list of plain items, from wherever the list begins a new word. */
  lemma {:induction false} ListItemsSplit(mode: Mode, items: seq<seq<Token>>, st: State, lvars: Vars, gvars: Vars)
    requires PlainItems(items) && st.lines != [] && st.newWord && !st.inStrip
    ensures ApplyAll(mode, st, ItemActions(Strs(items), lvars, gvars)) == State(Glue(st.lines, ListLines(items)), true, false)
    decreases |items|
  {
    if items == [] {
      assert st.lines[|st.lines| - 1] + [] == st.lines[|st.lines| - 1];
      assert Glue(st.lines, [[]]) == st.lines;
    } else {
      var before, item := items[..|items| - 1], items[|items| - 1];
      ListItemsSplit(mode, before, st, lvars, gvars);
      assert Strs(items) == Strs(before) + [Str(item)];
      ItemsMore(Strs(before), Str(item), lvars, gvars);
      ApplyMore(mode, st, ItemActions(Strs(before), lvars, gvars), ValueActions(Str(item), lvars, gvars, true) + [NextWord]);
      ItemSplits(mode, State(Glue(st.lines, ListLines(before)), true, false), item, lvars, gvars);
      GlueTwice(st.lines, ListLines(before), ItemLines(item));
    }
  }

  /** White space with a newline ends the line inside an item too: what comes after it is split by itself. */
  lemma {:induction false} NewlineEndsLine(a: seq<Token>, t: Token, b: seq<Token>)
    requires PlainItem(a) && BreaksLine(t) && PlainItem(b)
    ensures ItemLines(a + [t] + b) == ItemLines(a) + ItemLines(b)
    decreases |b|
  {
    if b == [] {
      assert a + [t] + b == a + [t];
      ItemMore(a, t);
    } else {
      var before, u := b[..|b| - 1], b[|b| - 1];
      assert a + [t] + b == (a + [t] + before) + [u] && b == before + [u];
      assert forall v | v in before :: v in b;
      NewlineEndsLine(a, t, before);
      TokenAfter(ItemLines(a), ItemLines(before), u);
      ItemMore(a + [t] + before, u);
      ItemMore(before, u);
    }
  }

  lemma ItemMore(tokens: seq<Token>, t: Token)
    requires PlainItem(tokens) && Plain(t)
    ensures ItemLines(tokens + [t]) == WithToken(ItemLines(tokens), t)
  {
    assert (tokens + [t])[..|tokens|] == tokens;
  }

  lemma TokenAfter(a: seq<seq<string>>, b: seq<seq<string>>, t: Token)
    requires b != [] && Plain(t)
    ensures WithToken(a + b, t) == a + WithToken(b, t)
  {
    if BreaksLine(t) {
      assert (a + b) + [[]] == a + (b + [[]]);
    } else {
      var line := WithText(b[|b| - 1], Spelled(t));
      assert (a + b)[|a + b| - 1 := line] == a + b[|b| - 1 := line];
    }
  }

  /** The lines of words of a list of plain items. */
  lemma ListSplits(mode: Mode, items: seq<seq<Token>>, lvars: Vars, gvars: Vars)
    requires PlainItems(items)
    ensures SubstList(mode, List(Strs(items)), lvars, gvars) == ListLines(items)
  {
    ListItemsSplit(mode, items, START, lvars, gvars);
    GlueEmpty(ListLines(items));
  }

  /** No text but the last ends with a redirection sign. */
  predicate RedirectsLast(item: seq<Token>)
    requires forall t | t in item :: Plain(t)
  {
    forall k | 0 < k < |item| :: !Redirects(TextOfPrefix(item, k))
  }

  function TextOfPrefix(tokens: seq<Token>, k: nat): string
    requires k <= |tokens| && forall t | t in tokens :: Plain(t)
  {
    assert forall u | u in tokens[..k] :: u in tokens;
    TextOfAll(tokens[..k])
  }

  lemma RedirectsMore(tokens: seq<Token>)
    requires PlainItem(tokens) && |tokens| > 1 && PlainItem(tokens[..|tokens| - 1])
    ensures RedirectsLast(tokens) <==> RedirectsLast(tokens[..|tokens| - 1]) && !Redirects(TextOfAll(tokens[..|tokens| - 1]))
  {
    var n := |tokens| - 1;
    var before := tokens[..n];
    forall k | 0 < k < n ensures TextOfPrefix(before, k) == TextOfPrefix(tokens, k) {
      assert before[..k] == tokens[..k];
    }
    assert TextOfPrefix(tokens, n) == TextOfAll(before);
  }

  lemma OneText(t: Token)
    requires Plain(t) && !BreaksLine(t)
    ensures ItemLines([t]) == [[Spelled(t)]] && TextOfAll([t]) == Spelled(t)
  {
    var none: seq<Token> := [t][..0];
    assert none == [];
    assert ItemLines(none) == [[]] && TextOfAll(none) == "";
    var own: seq<string> := [];
    assert own + [Spelled(t)] == [Spelled(t)];
    assert "" + Spelled(t) == Spelled(t);
  }

  /**
    An item without a newline is one word, its white space kept, exactly if no text in it but the last ends
    with a redirection sign; else it is more words than one.
    */
  lemma {:induction false} ItemIsOneWordIff(tokens: seq<Token>)
    requires SolidItem(tokens)
    ensures |ItemLines(tokens)| == 1 && |ItemLines(tokens)[0]| >= 1
    ensures |ItemLines(tokens)[0]| == 1 <==> RedirectsLast(tokens)
    ensures RedirectsLast(tokens) ==> ItemLines(tokens) == [[TextOfAll(tokens)]]
    decreases |tokens|
  {
    var n := |tokens| - 1;
    var before, t := tokens[..n], tokens[n];
    assert t in tokens && forall u | u in before :: u in tokens;
    if n == 0 {
      assert tokens == [t];
      OneText(t);
    } else {
      ItemIsOneWordIff(before);
      RedirectsMore(tokens);
      OneWordMore(ItemLines(before), ItemLines(tokens), TextOfAll(before), Spelled(t));
    }
  }

  lemma OneWordMore(lines: seq<seq<string>>, lines': seq<seq<string>>, text: string, x: string)
    requires |lines| == 1 && |lines[0]| >= 1 && (|lines[0]| == 1 ==> lines == [[text]])
    requires lines' == lines[0 := WithText(lines[0], x)]
    ensures |lines'| == 1 && |lines'[0]| >= 1
    ensures |lines'[0]| == 1 <==> |lines[0]| == 1 && !Redirects(text)
    ensures |lines'[0]| == 1 ==> lines' == [[text + x]]
  {
    if |lines[0]| == 1 {
      assert lines[0] == [text];
      assert [text][0 := text + x] == [text + x];
    }
    assert lines' == [WithText(lines[0], x)];
  }

  /**
    The items of a list become words of their own, whatever texts and white space they are made of: an item
    is not broken into words at its white space.
    */
  lemma ListItemsAreWords(mode: Mode, items: seq<seq<Token>>, lvars: Vars, gvars: Vars)
    requires PlainItems(items) && forall i | 0 <= i < |items| :: SolidItem(items[i]) && RedirectsLast(items[i])
    ensures SubstList(mode, List(Strs(items)), lvars, gvars) == [Texts(items)]
  {
    ListSplits(mode, items, lvars, gvars);
    WordsOfItems(items);
  }

  lemma {:induction false} WordsOfItems(items: seq<seq<Token>>)
    requires PlainItems(items) && forall i | 0 <= i < |items| :: SolidItem(items[i]) && RedirectsLast(items[i])
    ensures ListLines(items) == [Texts(items)]
    decreases |items|
  {
    if items != [] {
      var before, item := items[..|items| - 1], items[|items| - 1];
      WordsOfItems(before);
      ItemIsOneWordIff(item);
      TextsMore(before, item);
      assert items == before + [item];
      GlueOne(Texts(before), TextOfAll(item));
    } else {
      assert Texts(items) == [];
    }
  }

  lemma TextsMore(items: seq<seq<Token>>, item: seq<Token>)
    requires PlainItems(items) && PlainItem(item)
    ensures Texts(items + [item]) == Texts(items) + [TextOfAll(item)]
  {
  }

  /** In the string, the items of the same list are separated by single blanks. */
  function Blanks(texts: seq<string>): string {
    if texts == [] then ""
    else if |texts| == 1 then texts[0]
    else Blanks(texts[..|texts| - 1]) + " " + texts[|texts| - 1]
  }

  lemma {:induction false} JoinMore(a: seq<string>, x: string)
    requires a != []
    ensures Join(a + [x]) == Join(a) + " " + x
    decreases |a|
  {
    assert (a + [x])[1..] == a[1..] + [x];
    if |a| == 1 {
      assert a[1..] + [x] == [x];
    } else {
      JoinMore(a[1..], x);
    }
  }

  lemma {:induction false} JoinIsBlanks(texts: seq<string>)
    ensures Join(texts) == Blanks(texts)
    decreases |texts|
  {
    if |texts| > 1 {
      var before := texts[..|texts| - 1];
      assert texts == before + [texts[|texts| - 1]];
      JoinMore(before, texts[|texts| - 1]);
      JoinIsBlanks(before);
    }
  }

  lemma {:induction false} PlainText(tokens: seq<Token>, lvars: Vars, gvars: Vars)
    requires forall t | t in tokens :: Plain(t)
    ensures SubstString(tokens, lvars, gvars) == TextOfAll(tokens)
    decreases |tokens|
  {
    if tokens != [] {
      var before, t := tokens[..|tokens| - 1], tokens[|tokens| - 1];
      assert t in tokens && forall u | u in before :: u in tokens;
      PlainText(before, lvars, gvars);
      assert tokens == before + [t];
      StringMore(before, t, lvars, gvars);
    }
  }

  lemma {:induction false} StringMore(tokens: seq<Token>, t: Token, lvars: Vars, gvars: Vars)
    ensures SubstString(tokens + [t], lvars, gvars) == SubstString(tokens, lvars, gvars) + SubstToken(t, lvars, gvars)
    decreases |tokens|
  {
    var all := tokens + [t];
    if tokens == [] {
      assert all[1..] == [];
    } else {
      assert all[1..] == tokens[1..] + [t];
      StringMore(tokens[1..], t, lvars, gvars);
    }
  }

  /** The string of a list of plain items: their texts, with one blank between any two. */
  lemma ListStringIs(items: seq<seq<Token>>, lvars: Vars, gvars: Vars)
    requires PlainItems(items)
    ensures Conv(SubstValue(List(Strs(items)), lvars, gvars))
         == Blanks(Texts(items))
  {
    TextsOfItems(items, lvars, gvars);
    JoinIsBlanks(Texts(items));
  }

  lemma {:induction false} TextsOfItems(items: seq<seq<Token>>, lvars: Vars, gvars: Vars)
    requires PlainItems(items)
    ensures SubstItems(Strs(items), lvars, gvars)
         == Texts(items)
    decreases |items|
  {
    if items != [] {
      assert Strs(items)[1..] == Strs(items[1..]);
      PlainText(items[0], lvars, gvars);
      TextsOfItems(items[1..], lvars, gvars);
    }
  }

  // Variables in the items of a list, and strings without any.

  /** The value of a variable in an item of a list is split at its own white space, as anywhere else. */
  lemma VariableInItemSplits(mode: Mode, name: string, tokens: seq<Token>, lvars: Vars, gvars: Vars)
    requires PlainItem(tokens) && Lookup(lvars, gvars, name) == Some(Str(tokens))
    ensures SubstList(mode, List([Str([Ref(name)])]), lvars, gvars) == Split(tokens)
    ensures SubstList(mode, Str([Ref(name)]), lvars, gvars) == Split(tokens)
  {
    BlankingDecreases(lvars, gvars, name);
    var inner := StringActions(tokens, lvars[name := BLANK], gvars, false);
    PlainTokensSplit(mode, tokens, lvars[name := BLANK], gvars);
    assert ApplyAll(mode, START, inner).lines == Split(tokens);
    var one := [Ref(name)];
    assert one[1..] == [];
    assert TokenActions(Ref(name), lvars, gvars, true) == inner + [ThisWord] == TokenActions(Ref(name), lvars, gvars, false);
    assert StringActions(one, lvars, gvars, true) == inner + [ThisWord] + [] == inner + [ThisWord];
    assert StringActions(one, lvars, gvars, false) == inner + [ThisWord] + [] == inner + [ThisWord];
    var items := [Str(one)];
    assert items[1..] == [];
    assert ItemActions(items, lvars, gvars) == inner + [ThisWord] + [NextWord] + [];
    assert inner + [ThisWord] + [NextWord] + [] == inner + [ThisWord, NextWord];
    ApplyMore(mode, START, inner, [ThisWord]);
    ApplyMore(mode, START, inner, [ThisWord, NextWord]);
    SilentKeepsLines(mode, ApplyAll(mode, START, inner), [ThisWord]);
    SilentKeepsLines(mode, ApplyAll(mode, START, inner), [ThisWord, NextWord]);
  }

  /** How a token without a variable is written, two dollar signs standing for one. */
  function Written(t: Token): string
    requires !t.Ref?
  {
    match t
    case Space(text) => text
    case Word(text) => text
    case Dollar => "$"
    case OpenStrip => "$("
    case CloseStrip => "$)"
  }

  predicate NoVariables(tokens: seq<Token>) {
    forall t | t in tokens :: !t.Ref?
  }

  /** What is written, with or without the white space and the strip markers. */
  function WrittenAll(tokens: seq<Token>, spaces: bool, markers: bool): string
    requires NoVariables(tokens)
  {
    if tokens == [] then ""
    else
      assert tokens[0] in tokens;
      assert forall u | u in tokens[1..] :: u in tokens;
      Shown(tokens[0], spaces, markers) + WrittenAll(tokens[1..], spaces, markers)
  }

  function Shown(t: Token, spaces: bool, markers: bool): string
    requires !t.Ref?
  {
    if (t.Space? && !spaces) || ((t.OpenStrip? || t.CloseStrip?) && !markers) then "" else Written(t)
  }

  /** A string without variables expands to itself. */
  lemma {:induction false} NoVariablesUnchanged(tokens: seq<Token>, lvars: Vars, gvars: Vars)
    requires NoVariables(tokens)
    ensures SubstString(tokens, lvars, gvars) == WrittenAll(tokens, true, true)
    decreases |tokens|
  {
    if tokens != [] {
      assert tokens[0] in tokens && forall u | u in tokens[1..] :: u in tokens;
      NoVariablesUnchanged(tokens[1..], lvars, gvars);
    }
  }

  /** Outside signature mode the words spell what is written, without white space, and in command mode without markers. */
  lemma WordsOfNoVariables(mode: Mode, tokens: seq<Token>, lvars: Vars, gvars: Vars)
    requires NoVariables(tokens) && !mode.Sig?
    ensures AllText(SubstList(mode, Str(tokens), lvars, gvars)) == WrittenAll(tokens, false, mode.Raw?)
  {
    ListText(mode, Str(tokens), lvars, gvars);
    KeptOfNoVariables(mode, false, tokens, lvars, gvars);
  }

  lemma AddsShown(mode: Mode, inStrip: bool, t: Token)
    requires !t.Ref? && !mode.Sig?
    ensures Kept(mode, inStrip, [TokenAction(t, false)]) == Shown(t, false, mode.Raw?)
  {
    KeptOne(mode, inStrip, TokenAction(t, false));
  }

  lemma {:induction false} KeptOfNoVariables(mode: Mode, inStrip: bool, tokens: seq<Token>, lvars: Vars, gvars: Vars)
    requires NoVariables(tokens) && !mode.Sig?
    ensures Kept(mode, inStrip, StringActions(tokens, lvars, gvars, false)) == WrittenAll(tokens, false, mode.Raw?)
    decreases |tokens|
  {
    if tokens != [] {
      assert tokens[0] in tokens && forall u | u in tokens[1..] :: u in tokens;
      var first := [TokenAction(tokens[0], false)];
      KeptMore(mode, inStrip, first, StringActions(tokens[1..], lvars, gvars, false));
      AddsShown(mode, inStrip, tokens[0]);
      KeptOfNoVariables(mode, StripState(inStrip, first), tokens[1..], lvars, gvars);
    }
  }

  /** What follows a variable goes on with the word that the variable ended with. */
  lemma VariableContinuesWord(mode: Mode, st: State, name: string, lvars: Vars, gvars: Vars, withinList: bool)
    requires st.lines != [] && Lookup(lvars, gvars, name).Some?
    ensures !ApplyAll(mode, st, TokenActions(Ref(name), lvars, gvars, withinList)).newWord
  {
    BlankingDecreases(lvars, gvars, name);
    var actions := ValueActions(Lookup(lvars, gvars, name).value, lvars[name := BLANK], gvars, false);
    ApplyMore(mode, st, actions, [ThisWord]);
    assert [ThisWord][1..] == [];
  }

  // Variables after white space.

  /** No word and no line has begun between `a` and `b`. */
  predicate SameShape(a: seq<seq<string>>, b: seq<seq<string>>) {
    |a| == |b| && forall i | 0 <= i < |a| :: |a[i]| == |b[i]|
  }

  /** Between `a` and `b` texts were added at the end: the last word of `a` may have grown, the others are the same. */
  ghost predicate Grows(a: seq<seq<string>>, b: seq<seq<string>>) {
    && 0 < |a| <= |b|
    && (forall i | 0 <= i < |a| - 1 :: a[i] == b[i])
    && GrowsLine(a[|a| - 1], b[|a| - 1])
  }

  ghost predicate GrowsLine(a: seq<string>, b: seq<string>) {
    && |a| <= |b|
    && (forall j | 0 <= j < |a| - 1 :: a[j] == b[j])
    && (a != [] ==> a[|a| - 1] <= b[|a| - 1])
  }

  lemma GrowsTwice(a: seq<seq<string>>, b: seq<seq<string>>, c: seq<seq<string>>)
    requires Grows(a, b) && Grows(b, c)
    ensures Grows(a, c)
  {
  }

  lemma AppendGrows(mode: Mode, st: State, x: string)
    requires st.lines != []
    ensures Grows(st.lines, AppendText(mode, st, x).lines)
  {
  }

  lemma ApplyGrows(mode: Mode, st: State, a: Action)
    requires st.lines != []
    ensures Grows(st.lines, Apply(mode, st, a).lines)
  {
    match a
    case Append(x) => AppendGrows(mode, st, x);
    case Open => AppendGrows(mode, st, "$(");
    case Close => AppendGrows(mode, st, "$)");
    case _ =>
  }

  lemma {:induction false} ApplyAllGrows(mode: Mode, st: State, actions: seq<Action>)
    requires st.lines != []
    ensures Grows(st.lines, ApplyAll(mode, st, actions).lines)
    decreases actions
  {
    if actions != [] {
      var st1 := Apply(mode, st, actions[0]);
      ApplyGrows(mode, st, actions[0]);
      ApplyAllGrows(mode, st1, actions[1..]);
      GrowsTwice(st.lines, st1.lines, ApplyAll(mode, st1, actions[1..]).lines);
    }
  }

  /**
    A text that follows a variable goes on with the word before the variable, white space between them
    or not, exactly if the variable has begun no word and no line and that word does not end with a
    redirection sign now. In all other cases the word before the variable stays as the variable left it.
    */
  lemma JoinsWordBeforeIff(mode: Mode, st: State, name: string, lvars: Vars, gvars: Vars, withinList: bool, x: string)
    requires st.lines != [] && st.lines[|st.lines| - 1] != [] && Lookup(lvars, gvars, name).Some? && x != ""
    requires var st' := ApplyAll(mode, st, TokenActions(Ref(name), lvars, gvars, withinList)); !(st'.inStrip && mode == Sig)
    ensures var st' := ApplyAll(mode, st, TokenActions(Ref(name), lvars, gvars, withinList));
      var p := |st.lines| - 1;
      var k := |st.lines[p]| - 1;
      var lines := AppendText(mode, st', x).lines;
      && Grows(st.lines, st'.lines) && Grows(st'.lines, lines)
      && lines[p][k] == (if SameShape(st.lines, st'.lines) && !Redirects(st'.lines[p][k]) then st'.lines[p][k] + x else st'.lines[p][k])
      && (SameShape(st.lines, lines) <==> SameShape(st.lines, st'.lines) && !Redirects(st'.lines[p][k]))
  {
    var actions := TokenActions(Ref(name), lvars, gvars, withinList);
    var st' := ApplyAll(mode, st, actions);
    ApplyAllGrows(mode, st, actions);
    VariableContinuesWord(mode, st, name, lvars, gvars, withinList);
    AppendGrows(mode, st', x);
    ContinuedWord(mode, st', x);
    ShapeOfGrown(st.lines, st'.lines);
  }

  /** Where a text goes if the current word is to be continued. */
  lemma ContinuedWord(mode: Mode, st: State, x: string)
    requires st.lines != [] && !st.newWord && !(st.inStrip && mode == Sig)
    ensures var q := |st.lines| - 1;
      var lines := AppendText(mode, st, x).lines;
      && |lines| == |st.lines| && (forall i | 0 <= i < q :: lines[i] == st.lines[i])
      && if st.lines[q] == [] || Redirects(st.lines[q][|st.lines[q]| - 1])
         then lines[q] == st.lines[q] + [x]
         else var j := |st.lines[q]| - 1; lines[q] == st.lines[q][j := st.lines[q][j] + x]
  {
  }

  lemma ShapeOfGrown(a: seq<seq<string>>, b: seq<seq<string>>)
    requires Grows(a, b)
    ensures SameShape(a, b) <==> |a| == |b| && |a[|a| - 1]| == |b[|a| - 1]|
  {
  }

  /** Actions that only arrange for the next text leave the lines as they are. */
  predicate Silent(actions: seq<Action>) {
    forall i | 0 <= i < |actions| :: actions[i].NextWord? || actions[i].ThisWord?
  }

  lemma {:induction false} SilentKeepsLines(mode: Mode, st: State, actions: seq<Action>)
    requires st.lines != [] && Silent(actions)
    ensures ApplyAll(mode, st, actions).lines == st.lines && ApplyAll(mode, st, actions).inStrip == st.inStrip
    decreases actions
  {
    if actions != [] {
      SilentKeepsLines(mode, Apply(mode, st, actions[0]), actions[1..]);
    }
  }

  /** So a variable without text joins the words around it whatever white space there is. */
  lemma SilentVariableJoins(mode: Mode, st: State, name: string, lvars: Vars, gvars: Vars, withinList: bool, x: string)
    requires st.lines != [] && st.lines[|st.lines| - 1] != [] && Lookup(lvars, gvars, name).Some? && x != ""
    requires !(st.inStrip && mode == Sig)
    requires Silent(TokenActions(Ref(name), lvars, gvars, withinList))
    requires var line := st.lines[|st.lines| - 1]; !Redirects(line[|line| - 1])
    ensures var p := |st.lines| - 1;
      var k := |st.lines[p]| - 1;
      var st' := ApplyAll(mode, st, TokenActions(Ref(name), lvars, gvars, withinList));
      AppendText(mode, st', x).lines == st.lines[p := st.lines[p][k := st.lines[p][k] + x]]
  {
    var actions := TokenActions(Ref(name), lvars, gvars, withinList);
    SilentKeepsLines(mode, st, actions);
    VariableContinuesWord(mode, st, name, lvars, gvars, withinList);
  }

  /** The four tokens of a word, white space, a variable and another word. */
  function AroundVariable(w: string, space: string, name: string, x: string): seq<Token> {
    [Word(w), Space(space), Ref(name), Word(x)]
  }

  lemma AroundVariableActions(w: string, space: string, name: string, x: string, lvars: Vars, gvars: Vars)
    requires !HasNewline(space)
    ensures var tokens := AroundVariable(w, space, name, x);
      && StringActions(tokens, lvars, gvars, false)
         == [Append(w), NextWord] + TokenActions(Ref(name), lvars, gvars, false) + [Append(x)]
      && SubstString(tokens, lvars, gvars) == w + space + SubstToken(Ref(name), lvars, gvars) + x
  {
    var tokens := AroundVariable(w, space, name, x);
    var t1, t2, t3 := tokens[1..], tokens[2..], tokens[3..];
    assert t1[1..] == t2 && t2[1..] == t3 && t3[1..] == [];
    var actions, text := TokenActions(Ref(name), lvars, gvars, false), SubstToken(Ref(name), lvars, gvars);
    assert StringActions(t3, lvars, gvars, false) == [Append(x)] + [];
    assert StringActions(t2, lvars, gvars, false) == actions + [Append(x)];
    assert StringActions(t1, lvars, gvars, false) == [NextWord] + (actions + [Append(x)]);
    assert StringActions(tokens, lvars, gvars, false) == [Append(w)] + ([NextWord] + (actions + [Append(x)]));
    assert SubstString(t3, lvars, gvars) == x + "";
    assert SubstString(t2, lvars, gvars) == text + x;
    assert SubstString(t1, lvars, gvars) == space + (text + x);
    assert SubstString(tokens, lvars, gvars) == w + (space + (text + x));
  }

  /** The state in which the variable is met. */
  function AfterWord(w: string): State {
    State([[w]], true, false)
  }

  lemma AroundVariableLines(mode: Mode, w: string, space: string, name: string, x: string, lvars: Vars, gvars: Vars)
    requires !HasNewline(space)
    ensures SubstList(mode, Str(AroundVariable(w, space, name, x)), lvars, gvars)
         == AppendText(mode, ApplyAll(mode, AfterWord(w), TokenActions(Ref(name), lvars, gvars, false)), x).lines
  {
    var actions := TokenActions(Ref(name), lvars, gvars, false);
    AroundVariableActions(w, space, name, x, lvars, gvars);
    ApplyMore(mode, START, [Append(w), NextWord] + actions, [Append(x)]);
    ApplyMore(mode, START, [Append(w), NextWord], actions);
    var begin := [Append(w), NextWord];
    assert begin[1..] == [NextWord] && begin[1..][1..] == [] && [Append(x)][1..] == [];
    assert START.lines[0] + [w] == [w] && START.lines[0 := [w]] == [[w]];
    assert Apply(mode, START, Append(w)) == State([[w]], false, false);
  }

  /**
    Where words begin, the two expanders can differ. The string always has white space after the first
    word; the list has all of it as one word exactly if the variable, met after that word and white space,
    begins no word and no line and leaves no redirection sign at its end.
    */
  lemma WordsJoinedIff(mode: Mode, w: string, space: string, name: string, x: string, lvars: Vars, gvars: Vars)
    requires !HasNewline(space) && x != "" && Lookup(lvars, gvars, name).Some?
    requires var st := ApplyAll(mode, AfterWord(w), TokenActions(Ref(name), lvars, gvars, false)); !(st.inStrip && mode == Sig)
    ensures var tokens := AroundVariable(w, space, name, x);
      var lines := SubstList(mode, Str(tokens), lvars, gvars);
      var before := ApplyAll(mode, AfterWord(w), TokenActions(Ref(name), lvars, gvars, false)).lines;
      && (SameShape([[w]], lines) <==> SameShape([[w]], before) && !Redirects(before[0][0]))
      && SubstString(tokens, lvars, gvars) == w + space + SubstToken(Ref(name), lvars, gvars) + x
  {
    AroundVariableLines(mode, w, space, name, x, lvars, gvars);
    AroundVariableActions(w, space, name, x, lvars, gvars);
    JoinsWordBeforeIff(mode, AfterWord(w), name, lvars, gvars, false, x);
  }

  /** In particular a variable without text joins the words around it, unlike in the string. */
  lemma EmptyVariableJoinsWords(mode: Mode, w: string, space: string, name: string, x: string, lvars: Vars, gvars: Vars)
    requires !HasNewline(space) && x != "" && !Redirects(w) && Lookup(lvars, gvars, name) == Some(BLANK)
    ensures var tokens := AroundVariable(w, space, name, x);
      && SubstList(mode, Str(tokens), lvars, gvars) == [[w + x]]
      && SubstString(tokens, lvars, gvars) == w + space + "" + x
  {
    AroundVariableLines(mode, w, space, name, x, lvars, gvars);
    AroundVariableActions(w, space, name, x, lvars, gvars);
    EmptyVariable(Ref(name), lvars, gvars);
    SilentVariableJoins(mode, AfterWord(w), name, lvars, gvars, false, x);
    var joined := w + x;
    assert [w][0 := joined] == [joined];
    assert [[w]][0 := [joined]] == [[joined]];
  }

  lemma EmptyVariable(t: Token, lvars: Vars, gvars: Vars)
    requires t.Ref? && Lookup(lvars, gvars, t.name) == Some(BLANK)
    ensures TokenActions(t, lvars, gvars, false) == [ThisWord]
    ensures SubstToken(t, lvars, gvars) == ""
  {
    BlankingDecreases(lvars, gvars, t.name);
    var lvars' := lvars[t.name := BLANK];
    assert StringActions([], lvars', gvars, false) == [];
    assert ValueActions(BLANK, lvars', gvars, false) == [];
    assert SubstValue(BLANK, lvars', gvars) == One("");
  }

  lemma EmptyThenText(t: Token, inner: string, text: string, lvars: Vars, gvars: Vars)
    requires t.Ref? && t.name != inner && Lookup(lvars, gvars, inner) == Some(BLANK)
    requires Lookup(lvars, gvars, t.name) == Some(Str([Ref(inner), Word(text)]))
    ensures TokenActions(t, lvars, gvars, false) == [ThisWord, Append(text), ThisWord]
  {
    BlankingDecreases(lvars, gvars, t.name);
    var lvars' := lvars[t.name := BLANK];
    assert Lookup(lvars', gvars, inner) == Some(BLANK);
    EmptyVariable(Ref(inner), lvars', gvars);
    var tokens := [Ref(inner), Word(text)];
    assert tokens[1..] == [Word(text)] && [Word(text)][1..] == [];
    assert StringActions([Word(text)], lvars', gvars, false) == [Append(text)] + [];
    assert StringActions(tokens, lvars', gvars, false)
        == TokenActions(Ref(inner), lvars', gvars, false) + StringActions([Word(text)], lvars', gvars, false)
        == [ThisWord, Append(text)];
    assert TokenActions(t, lvars, gvars, false) == ValueActions(Str(tokens), lvars', gvars, false) + [ThisWord];
  }

  /** A variable can lengthen the word before it without beginning one: if it starts with an empty one itself. */
  lemma VariableLengthensWord(mode: Mode, w: string, name: string, inner: string, text: string, lvars: Vars, gvars: Vars)
    requires name != inner && !Redirects(w) && Lookup(lvars, gvars, inner) == Some(BLANK)
    requires Lookup(lvars, gvars, name) == Some(Str([Ref(inner), Word(text)]))
    ensures ApplyAll(mode, AfterWord(w), TokenActions(Ref(name), lvars, gvars, false)).lines == [[w + text]]
  {
    EmptyThenText(Ref(name), inner, text, lvars, gvars);
    LengthensWord(mode, w, text);
  }

  lemma LengthensWord(mode: Mode, w: string, text: string)
    requires !Redirects(w)
    ensures ApplyAll(mode, AfterWord(w), [ThisWord, Append(text), ThisWord]).lines == [[w + text]]
  {
    var actions := [ThisWord, Append(text), ThisWord];
    assert actions[1..] == [Append(text), ThisWord] && actions[1..][1..] == [ThisWord] && actions[1..][1..][1..] == [];
    var longer := w + text;
    assert [w][0 := longer] == [longer];
    assert [[w]][0 := [longer]] == [[longer]];
    var s1, s2 := State([[w]], false, false), State([[longer]], false, false);
    assert Apply(mode, s1, Append(text)) == s2;
    assert ApplyAll(mode, s2, [ThisWord]) == ApplyAll(mode, s2, []) == s2;
    assert ApplyAll(mode, s1, actions[1..]) == ApplyAll(mode, s2, [ThisWord]);
  }

  // ---------------------------------------------------------------- The list expander's own state

  lemma {:induction false} ItemsMore(items: seq<Value>, last: Value, lvars: Vars, gvars: Vars)
    ensures ItemActions(items + [last], lvars, gvars)
         == ItemActions(items, lvars, gvars) + (ValueActions(last, lvars, gvars, true) + [NextWord])
    decreases |items|
  {
    var all := items + [last];
    var own := ValueActions(last, lvars, gvars, true) + [NextWord];
    if items == [] {
      assert all[1..] == [];
      assert ItemActions(all, lvars, gvars) == own + [] == [] + own;
    } else {
      assert all[1..] == items[1..] + [last];
      ItemsMore(items[1..], last, lvars, gvars);
      var first := ValueActions(items[0], lvars, gvars, true) + [NextWord];
      var rest := ItemActions(items[1..], lvars, gvars);
      assert ItemActions(all, lvars, gvars) == first + ItemActions(all[1..], lvars, gvars);
      assert ItemActions(items, lvars, gvars) == first + rest;
      assert first + (rest + own) == (first + rest) + own;
    }
  }

  lemma NextItem(mode: Mode, st: State, items: seq<Value>, i: nat, lvars: Vars, gvars: Vars)
    requires i < |items| && st.lines != []
    ensures ApplyAll(mode, st, ItemActions(items[..i + 1], lvars, gvars))
         == var st' := ApplyAll(mode, st, ItemActions(items[..i], lvars, gvars));
            Apply(mode, ApplyAll(mode, st', ValueActions(items[i], lvars, gvars, true)), NextWord)
  {
    var done, more := ItemActions(items[..i], lvars, gvars), ValueActions(items[i], lvars, gvars, true);
    assert items[..i + 1] == items[..i] + [items[i]];
    ItemsMore(items[..i], items[i], lvars, gvars);
    ApplyMore(mode, st, done, more + [NextWord]);
    ApplyMore(mode, ApplyAll(mode, st, done), more, [NextWord]);
    assert [NextWord][1..] == [];
  }

  lemma {:induction false} SizeOfItem(items: seq<Value>, i: nat)
    requires i < |items|
    ensures Size(items[i]) < SizeAll(items)
  {
    if i > 0 {
      SizeOfItem(items[1..], i - 1);
    }
  }

  class ListSubber {
    const mode: Mode
    const gvars: Vars
    var data: seq<seq<string>>
    var newWord: bool
    var inStrip: bool

    ghost predicate Valid()
      reads this
    {
      data != []
    }

    ghost function Snapshot(): State
      reads this
    {
      State(data, newWord, inStrip)
    }

    constructor (mode: Mode, gvars: Vars)
      ensures this.mode == mode && this.gvars == gvars
      ensures Snapshot() == START
    {
      this.mode := mode;
      this.gvars := gvars;
      data := [];
      newWord := true;
      inStrip := false;
      new;
      StartLine();
    }

    method StartLine()
      modifies this
      ensures Snapshot() == State(old(data) + [[]], true, old(inStrip))
    {
      data := data + [[]];
      StartWord();
    }

    method ContinueWord()
      modifies `newWord
      ensures !newWord
    {
      newWord := false;
    }

    method StartWord()
      modifies `newWord
      ensures newWord
    {
      newWord := true;
    }

    method Add(x: string)
      requires Valid()
      modifies this
      ensures Snapshot() == Apply(mode, old(Snapshot()), Append(x))
    {
      if newWord {
        AddWord(x);
      } else {
        AddToWord(x);
      }
    }

    method AddWord(x: string)
      requires Valid()
      modifies this
      ensures Snapshot() == AddNewWord(mode, old(Snapshot()), x)
    {
      if !inStrip || mode != Sig {
        var last := |data| - 1;
        data := data[last := data[last] + [x]];
      }
      newWord := false;
    }

    method AddToWord(x: string)
      requires Valid()
      modifies this
      ensures Snapshot() == AddToCurrentWord(mode, old(Snapshot()), x)
    {
      if !inStrip || mode != Sig {
        var last := |data| - 1;
        var line := data[last];
        if line == [] {
          AddWord(x);
        } else {
          var word := line[|line| - 1];
          if Redirects(word) {
            AddWord(x);
          } else {
            data := data[last := line[|line| - 1 := word + x]];
          }
        }
      }
    }

    method AddStrip(x: string)
      requires Valid()
      modifies this
      ensures Snapshot() == Marker(mode, old(Snapshot()), x)
    {
      if mode == Raw {
        Add(x);
      }
    }

    method BeginStrip()
      requires Valid()
      modifies this
      ensures Snapshot() == Apply(mode, old(Snapshot()), Open)
    {
      AddStrip("$(");
      inStrip := true;
    }

    method EndStrip()
      requires Valid()
      modifies this
      ensures Snapshot() == Apply(mode, old(Snapshot()), Close)
    {
      AddStrip("$)");
      inStrip := false;
    }

    /** One token of a string: what the list does is what the token calls for. */
    method ExpandToken(t: Token, lvars: Vars, withinList: bool)
      requires Valid()
      modifies this
      ensures Valid()
      ensures Snapshot() == ApplyAll(mode, old(Snapshot()), TokenActions(t, lvars, gvars, withinList))
      decreases Live(lvars, gvars), 2, 0
    {
      match t {
        case Space(text) =>
          if HasNewline(text) {
            StartLine();
          } else if withinList {
            Add(text);
          } else {
            StartWord();
          }
        case Word(text) => Add(text);
        case Dollar => Add("$");
        case OpenStrip => BeginStrip();
        case CloseStrip => EndStrip();
        case Ref(name) =>
          var v: Value;
          if name in lvars {
            v := lvars[name];
          } else if name in gvars {
            v := gvars[name];
          } else {
            return;
          }
          BlankingDecreases(lvars, gvars, name);
          ghost var actions := ValueActions(v, lvars[name := BLANK], gvars, false);
          Substitute(v, lvars[name := BLANK], false);
          ApplyMore(mode, old(Snapshot()), actions, [ThisWord]);
          ContinueWord();
      }
    }

    /** The list expander does to its lines and words exactly what the text calls for, in that order. */
    method Substitute(v: Value, lvars: Vars, withinList: bool)
      requires Valid()
      modifies this
      ensures Valid()
      ensures Snapshot() == ApplyAll(mode, old(Snapshot()), ValueActions(v, lvars, gvars, withinList))
      decreases Live(lvars, gvars), Size(v)
    {
      match v {
        case Str(tokens) => SubstituteTokens(tokens, lvars, withinList);
        case List(items) => SubstituteItems(items, lvars);
        case Nothing => ContinueWord();
      }
    }

    method SubstituteTokens(tokens: seq<Token>, lvars: Vars, withinList: bool)
      requires Valid()
      modifies this
      ensures Valid()
      ensures Snapshot() == ApplyAll(mode, old(Snapshot()), StringActions(tokens, lvars, gvars, withinList))
      decreases Live(lvars, gvars), 2 * |tokens|
    {
      for i := 0 to |tokens|
        invariant Valid()
        invariant Snapshot() == ApplyAll(mode, old(Snapshot()), StringActions(tokens[..i], lvars, gvars, withinList))
      {
        ExpandToken(tokens[i], lvars, withinList);
        OneMoreToken(tokens, i, lvars, gvars, withinList);
        ApplyMore(mode, old(Snapshot()), StringActions(tokens[..i], lvars, gvars, withinList),
                  TokenActions(tokens[i], lvars, gvars, withinList));
      }
      assert tokens[..|tokens|] == tokens;
    }

    method SubstituteItems(items: seq<Value>, lvars: Vars)
      requires Valid()
      modifies this
      ensures Valid()
      ensures Snapshot() == ApplyAll(mode, old(Snapshot()), ItemActions(items, lvars, gvars))
      decreases Live(lvars, gvars), SizeAll(items)
    {
      for i := 0 to |items|
        invariant Valid()
        invariant Snapshot() == ApplyAll(mode, old(Snapshot()), ItemActions(items[..i], lvars, gvars))
      {
        SizeOfItem(items, i);
        NextItem(mode, old(Snapshot()), items, i, lvars, gvars);
        Substitute(items[i], lvars, true);
        StartWord();
      }
      assert items[..|items|] == items;
    }
  }

  /** The lines of words that a command line stands for. */
  method SubstitutedLines(mode: Mode, v: Value, lvars: Vars, gvars: Vars) returns (lines: seq<seq<string>>)
    ensures lines == SubstList(mode, v, lvars, gvars)
    ensures AllText(lines) == Kept(mode, false, ValueActions(v, lvars, gvars, false))
  {
    var ls := new ListSubber(mode, gvars);
    ls.Substitute(v, lvars, false);
    lines := ls.data;
    ListText(mode, v, lvars, gvars);
  }
}
