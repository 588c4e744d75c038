/**
  The decision on a request: decisions for URL rules and for category groups, and how they combine
  into one verdict.
  */
module Filtering {
  import opened UrlRules
  import opened Wrappers

  datatype Decision = Invalid | Blocked | Allowed

  /** The comparison of decisions asserts that both are valid. */
  function SameDecision(a: Decision, b: Decision): Option<bool> {
    if a.Invalid? || b.Invalid? then None else Some(a == b)
  }

  class Decisions<Id(==)> {
    var decisionMap: map<Id, Decision>

    constructor ()
      ensures decisionMap == map[]
    {
      decisionMap := map[];
    }

    method SetElementDecision(id: Id, decision: Decision)
      modifies this
      ensures decisionMap == old(decisionMap)[id := decision]
    {
      decisionMap := decisionMap[id := decision];
    }

    /** The identifiers, each once. */
    method GetIds() returns (ids: seq<Id>)
      ensures multiset(ids) == multiset(decisionMap.Keys)
    {
      ids := [];
      var rest := decisionMap.Keys;
      while rest != {}
        invariant rest <= decisionMap.Keys
        invariant multiset(ids) + multiset(rest) == multiset(decisionMap.Keys)
        decreases |rest|
      {
        var id :| id in rest;
        assert multiset(rest) == multiset(rest - {id}) + multiset{id};
        ids := ids + [id];
        rest := rest - {id};
      }
    }

    /** Takes over every decision of the other table, in place of its own. */
    method ApplyOverrides(other: map<Id, Decision>)
      modifies this
      ensures decisionMap == old(decisionMap) + other
    {
      var rest := other.Keys;
      while rest != {}
        invariant rest <= other.Keys
        invariant forall id | id in decisionMap :: id in old(decisionMap) || id in other
        invariant forall id | id in old(decisionMap) && id !in other :: id in decisionMap && decisionMap[id] == old(decisionMap)[id]
        invariant forall id | id in other && id !in rest :: id in decisionMap && decisionMap[id] == other[id]
        decreases |rest|
      {
        var id :| id in rest;
        SetElementDecision(id, other[id]);
        rest := rest - {id};
      }
    }
  }

  datatype Search<+Id> = Found(id: Id) | Absent | SearchFailed

  /** The first of the elements that has the decision. */
  function AnyElementContains<Id(==)>(decisions: map<Id, Decision>, elements: seq<Id>, decision: Decision): Search<Id> {
    if elements == [] then Absent
    else if elements[0] in decisions then
      match SameDecision(decisions[elements[0]], decision)
      case None => SearchFailed
      case Some(same) => if same then Found(elements[0]) else AnyElementContains(decisions, elements[1..], decision)
    else AnyElementContains(decisions, elements[1..], decision)
  }

  predicate AllValid<Id(!new)>(decisions: map<Id, Decision>) {
    forall id | id in decisions :: !decisions[id].Invalid?
  }

  predicate Has<Id(==)>(decisions: map<Id, Decision>, id: Id, decision: Decision) {
    id in decisions && decisions[id] == decision
  }

  lemma {:induction false} AnyElementIff<Id(!new)>(decisions: map<Id, Decision>, elements: seq<Id>, decision: Decision)
    requires AllValid(decisions) && !decision.Invalid?
    ensures var r := AnyElementContains(decisions, elements, decision);
      && !r.SearchFailed?
      && (r.Found? ==> r.id in elements && Has(decisions, r.id, decision))
      && (r.Found? <==> exists e | e in elements :: Has(decisions, e, decision))
  {
    if elements != [] {
      AnyElementIff(decisions, elements[1..], decision);
      assert elements == [elements[0]] + elements[1..];
      if Has(decisions, elements[0], decision) {
        assert elements[0] in elements;
      }
    }
  }

  /** The element at `k` is the first with this decision. */
  predicate FirstAt<Id(==)>(decisions: map<Id, Decision>, elements: seq<Id>, decision: Decision, k: nat) {
    && k < |elements| && Has(decisions, elements[k], decision)
    && forall j | 0 <= j < k :: !Has(decisions, elements[j], decision)
  }

  lemma {:induction false} AnyElementFirst<Id(!new)>(decisions: map<Id, Decision>, elements: seq<Id>, decision: Decision) returns (k: nat)
    requires AnyElementContains(decisions, elements, decision).Found?
    ensures FirstAt(decisions, elements, decision, k) && AnyElementContains(decisions, elements, decision).id == elements[k]
  {
    if elements[0] in decisions && SameDecision(decisions[elements[0]], decision) == Some(true) {
      k := 0;
    } else {
      k := AnyElementFirst(decisions, elements[1..], decision);
      k := k + 1;
      assert forall j | 1 <= j < k :: elements[j] == elements[1..][j - 1];
    }
  }

  // ---------------------------------------------------------------- The verdict

  const UNCATEGORIZED_GROUP := 27

  datatype Profile = Profile(id: int, name: string, urls: map<string, Decision>, groups: map<int, Decision>)

  /**
    What the database and the categorization say about one request. Nothing stands for a failed
    query; `groupNames` holds the category groups that can be fetched.
    */
  datatype Input = Input(internetAccess: bool, temporaryAccess: bool, profile: Option<Profile>,
                         groups: Option<seq<int>>, groupNames: map<int, string>, url: string)

  datatype Code = ResOk | AccessForbidden | UrlBlocked | CategoryBlocked

  datatype QueryResult = QueryResult(code: Code, profileInfo: Option<(int, string)>, groupInfo: Option<(int, string)>)

  datatype Outcome = Done(result: QueryResult) | AssertionFailed

  function MatchingGroups(groups: seq<int>): (r: seq<int>)
    ensures r != []
    ensures forall g :: g in r <==> g in groups || (groups == [] && g == UNCATEGORIZED_GROUP)
  {
    if groups == [] then [UNCATEGORIZED_GROUP] else groups
  }

  /** The group that is looked up and shown: the blocked one, else the first. */
  function Shown(blocked: Search<int>, candidates: seq<int>): int
    requires candidates != []
  {
    if blocked.Found? then blocked.id else candidates[0]
  }

  /** The last part of the query: URL rules first, then the category. */
  function Combine(urls: map<string, Decision>, matching: seq<string>, categoryBlocked: bool): Option<Code> {
    match AnyElementContains(urls, matching, Blocked)
    case SearchFailed => None
    case Found(_) => Some(UrlBlocked)
    case Absent =>
      match AnyElementContains(urls, matching, Allowed)
      case SearchFailed => None
      case Found(_) => Some(ResOk)
      case Absent => Some(if categoryBlocked then CategoryBlocked else ResOk)
  }

  /** The whole query, given the rules that were selected for the URL. */
  function Query(i: Input, matching: seq<string>): Outcome {
    if !i.internetAccess && !i.temporaryAccess then Done(QueryResult(AccessForbidden, None, None))
    else
      match i.profile
      case None => Done(QueryResult(ResOk, None, None))
      case Some(p) =>
        match i.groups
        case None => Done(QueryResult(ResOk, Some((p.id, p.name)), None))
        case Some(groups) =>
          var candidates := MatchingGroups(groups);
          var blocked := AnyElementContains(p.groups, candidates, Blocked);
          if blocked.SearchFailed? then AssertionFailed
          else
            var selected := Shown(blocked, candidates);
            if selected !in i.groupNames then Done(QueryResult(ResOk, Some((p.id, p.name)), None))
            else
              match Combine(p.urls, matching, blocked.Found?)
              case None => AssertionFailed
              case Some(code) => Done(QueryResult(code, Some((p.id, p.name)), Some((selected, i.groupNames[selected]))))
  }

  ghost function RulePatterns(ids: set<string>): set<Pattern> {
    set id | id in ids :: FromAddress(id)
  }

  /** The rule that is more specific than every other rule matching the URL. */
  ghost function BestRule(ids: set<string>, url: string): (best: Option<string>)
    requires '/' in url
    ensures best.Some? ==> best.value in ids
  {
    RulesWellFormed(ids);
    SomeChoice(RulePatterns(ids), url);
    var best :| Chosen(best, RulePatterns(ids), url);
    match best
    case None => None
    case Some(p) => Some(p.id)
  }

  lemma RulesWellFormed(ids: set<string>)
    ensures forall p | p in RulePatterns(ids) :: WellFormed(p) && p.id in ids
  {
    forall p | p in RulePatterns(ids) ensures WellFormed(p) && p.id in ids {
      var id :| id in ids && p == FromAddress(id);
      AddressIsWellFormed(id);
    }
  }

  lemma SomeChoice(patterns: set<Pattern>, url: string)
    requires '/' in url && forall p | p in patterns :: WellFormed(p)
    ensures exists best :: Chosen(best, patterns, url)
  {
    var best := ChoiceExists(patterns, url);
  }

  lemma BestRuleIs(ids: set<string>, url: string, best: Option<Pattern>)
    requires '/' in url && Chosen(best, RulePatterns(ids), url)
    ensures BestRule(ids, url) == match best case None => None case Some(p) => Some(p.id)
  {
    RulesWellFormed(ids);
    SomeChoice(RulePatterns(ids), url);
    var other :| Chosen(other, RulePatterns(ids), url)
      && BestRule(ids, url) == match other case None => None case Some(p) => Some(p.id);
    ChosenIsUnique(best, other, RulePatterns(ids), url);
  }

  function Selected(best: Option<string>): seq<string> {
    if best.Some? then [best.value] else []
  }

  /** Access is granted and no database query fails; only the group that is shown needs to be fetched. */
  predicate Granted(i: Input) {
    && (i.internetAccess || i.temporaryAccess)
    && i.profile.Some? && i.groups.Some?
    && var candidates := MatchingGroups(i.groups.value);
      Shown(AnyElementContains(i.profile.value.groups, candidates, Blocked), candidates) in i.groupNames
  }

  predicate DecisionsValid(i: Input)
    requires i.profile.Some?
  {
    AllValid(i.profile.value.urls) && AllValid(i.profile.value.groups)
  }

  ghost predicate GroupBlocked(i: Input)
    requires i.profile.Some? && i.groups.Some?
  {
    exists g | g in MatchingGroups(i.groups.value) :: Has(i.profile.value.groups, g, Blocked)
  }

  /** What the verdict ought to be: the most specific rule decides, and without one the category groups do. */
  ghost function Verdict(i: Input): Code
    requires i.profile.Some? && i.groups.Some? && '/' in i.url
  {
    match BestRule(i.profile.value.urls.Keys, i.url)
    case Some(id) => if i.profile.value.urls[id].Blocked? then UrlBlocked else ResOk
    case None => if GroupBlocked(i) then CategoryBlocked else ResOk
  }

  lemma OnlyElement(urls: map<string, Decision>, id: string, d: Decision)
    requires id in urls && !urls[id].Invalid? && !d.Invalid?
    ensures AnyElementContains(urls, [id], d) == if urls[id] == d then Found(id) else Absent
  {
    assert [id][1..] == [];
  }

  lemma CombineDecides(urls: map<string, Decision>, best: Option<string>, categoryBlocked: bool)
    requires AllValid(urls) && (best.Some? ==> best.value in urls)
    ensures Combine(urls, Selected(best), categoryBlocked) == Some(
      if best.Some? then (if urls[best.value].Blocked? then UrlBlocked else ResOk)
      else if categoryBlocked then CategoryBlocked else ResOk)
  {
    if best.Some? {
      OnlyElement(urls, best.value, Blocked);
      OnlyElement(urls, best.value, Allowed);
    }
  }

  predicate HasAccess(i: Input) {
    i.internetAccess || i.temporaryAccess
  }

  /** The group `g` is the first of the matching ones that is blocked, or the first of all if none is. */
  ghost predicate FirstBlocked(i: Input, g: int)
    requires i.profile.Some? && i.groups.Some?
  {
    var candidates, groups := MatchingGroups(i.groups.value), i.profile.value.groups;
    || (exists k: nat :: FirstAt(groups, candidates, Blocked, k) && g == candidates[k])
    || (g == candidates[0] && forall c | c in candidates :: !Has(groups, c, Blocked))
  }

  /**
    Some query of the database fails that the answer needs: the one for the profile, for the groups of the
    categories, or for the group that is shown.
    */
  ghost predicate QueryFails(i: Input) {
    i.profile.None? || i.groups.None? || forall g | g in i.groupNames :: !FirstBlocked(i, g)
  }

  /**
    Access decides first, and nothing else forbids it. With access, a failed query of the database lets the
    request through whatever the rules say. The profile and the group returned are the child's own profile,
    and the first blocked group or the first of all.
    */
  ghost predicate Answers(i: Input, out: Outcome) {
    && (out.Done? && out.result.code == AccessForbidden <==> !HasAccess(i))
    && (out.AssertionFailed? ==> HasAccess(i) && i.profile.Some? && !DecisionsValid(i))
    && (HasAccess(i) && out.Done? && QueryFails(i) ==> out.result.code == ResOk)
    && (out.Done? && HasAccess(i) && i.profile.Some? ==> out.result.profileInfo == Some((i.profile.value.id, i.profile.value.name)))
    && (out.Done? && out.result.profileInfo.Some? ==> HasAccess(i) && i.profile.Some?)
    && (out.Done? && HasAccess(i) ==> (out.result.groupInfo.Some? <==> !QueryFails(i)))
    && (out.Done? && out.result.groupInfo.Some? ==>
        && HasAccess(i) && i.profile.Some? && i.groups.Some?
        && var (g, name) := out.result.groupInfo.value; FirstBlocked(i, g) && g in i.groupNames && name == i.groupNames[g])
  }

  lemma FirstBlockedIsOne(i: Input, g: int, h: int)
    requires i.profile.Some? && i.groups.Some? && FirstBlocked(i, g) && FirstBlocked(i, h)
    ensures g == h
  {
  }

  /** Only an invalid decision makes the search for an element fail. */
  lemma {:induction false} SearchFailsIf<Id(!new)>(decisions: map<Id, Decision>, elements: seq<Id>, decision: Decision)
    requires AnyElementContains(decisions, elements, decision).SearchFailed? && !decision.Invalid?
    ensures !AllValid(decisions)
  {
    if AllValid(decisions) {
      AnyElementIff(decisions, elements, decision);
    }
  }

  /** A search that finds nothing means that no element has the decision. */
  lemma {:induction false} AbsentMeansNone<Id(!new)>(decisions: map<Id, Decision>, elements: seq<Id>, decision: Decision)
    requires AnyElementContains(decisions, elements, decision).Absent?
    ensures forall e | e in elements :: !Has(decisions, e, decision)
  {
    if elements != [] {
      AbsentMeansNone(decisions, elements[1..], decision);
      assert elements == [elements[0]] + elements[1..];
    }
  }

  lemma ShownIsFirstBlocked(i: Input)
    requires i.profile.Some? && i.groups.Some?
    requires var candidates := MatchingGroups(i.groups.value);
      !AnyElementContains(i.profile.value.groups, candidates, Blocked).SearchFailed?
    ensures var candidates := MatchingGroups(i.groups.value);
      FirstBlocked(i, Shown(AnyElementContains(i.profile.value.groups, candidates, Blocked), candidates))
  {
    var candidates, groups := MatchingGroups(i.groups.value), i.profile.value.groups;
    if AnyElementContains(groups, candidates, Blocked).Found? {
      var k := AnyElementFirst(groups, candidates, Blocked);
    } else {
      AbsentMeansNone(groups, candidates, Blocked);
    }
  }

  lemma CombineFailsIf(urls: map<string, Decision>, matching: seq<string>, categoryBlocked: bool)
    requires Combine(urls, matching, categoryBlocked).None?
    ensures !AllValid(urls)
  {
    if AnyElementContains(urls, matching, Blocked).SearchFailed? {
      SearchFailsIf(urls, matching, Blocked);
    } else {
      SearchFailsIf(urls, matching, Allowed);
    }
  }

  /** How every query is answered, granted or not, whatever rules were selected. */
  lemma QueryAnswers(i: Input, matching: seq<string>)
    ensures Answers(i, Query(i, matching))
  {
    if HasAccess(i) && i.profile.Some? && i.groups.Some? {
      var p, candidates := i.profile.value, MatchingGroups(i.groups.value);
      var blocked := AnyElementContains(p.groups, candidates, Blocked);
      if blocked.SearchFailed? {
        SearchFailsIf(p.groups, candidates, Blocked);
      } else {
        ShownIsFirstBlocked(i);
        var shown := Shown(blocked, candidates);
        forall g | g in i.groupNames && FirstBlocked(i, g) ensures g == shown {
          FirstBlockedIsOne(i, g, shown);
        }
        if Combine(p.urls, matching, blocked.Found?).None? {
          CombineFailsIf(p.urls, matching, blocked.Found?);
        }
      }
    }
  }

  /** With access granted and no database error, the query gives this verdict, and fails no assertion. */
  lemma QueryGivesVerdict(i: Input)
    requires '/' in i.url && Granted(i) && DecisionsValid(i)
    ensures var out := Query(i, Selected(BestRule(i.profile.value.urls.Keys, i.url)));
      && out.Done? && out.result.code == Verdict(i)
      && out.result.profileInfo.Some?
      && out.result.groupInfo.Some? && out.result.groupInfo.value.0 in MatchingGroups(i.groups.value)
      && (GroupBlocked(i) ==> Has(i.profile.value.groups, out.result.groupInfo.value.0, Blocked))
  {
    var p, candidates := i.profile.value, MatchingGroups(i.groups.value);
    var best := BestRule(p.urls.Keys, i.url);
    AnyElementIff(p.groups, candidates, Blocked);
    assert candidates[0] in candidates;
    CombineDecides(p.urls, best, AnyElementContains(p.groups, candidates, Blocked).Found?);
  }

  /** The verdict does not depend on the order in which the categories were listed. */
  lemma CategoryOrderIsIrrelevant(i: Input, groups: seq<int>)
    requires '/' in i.url && i.profile.Some? && i.groups.Some? && multiset(groups) == multiset(i.groups.value)
    ensures Verdict(i.(groups := Some(groups))) == Verdict(i)
  {
    var i' := i.(groups := Some(groups));
    assert |groups| == |multiset(groups)| == |i.groups.value|;
    forall g ensures g in MatchingGroups(groups) <==> g in MatchingGroups(i.groups.value) {
      assert g in groups <==> g in multiset(groups);
      assert g in i.groups.value <==> g in multiset(i.groups.value);
    }
    assert GroupBlocked(i') <==> GroupBlocked(i);
  }

  lemma OneMoreRule(ids: set<string>, id: string)
    requires id !in ids
    ensures RulePatterns(ids + {id}) == RulePatterns(ids) + {FromAddress(id)}
    ensures FromAddress(id) !in RulePatterns(ids)
  {
    var all := ids + {id};
    forall p ensures p in RulePatterns(all) <==> p in RulePatterns(ids) + {FromAddress(id)} {
      if p in RulePatterns(all) {
        var k :| k in all && p == FromAddress(k);
        assert k in ids || k == id;
      }
    }
    if FromAddress(id) in RulePatterns(ids) {
      RulesWellFormed(ids);
      AddressIsWellFormed(id);
    }
  }

  lemma BestPattern(ids: set<string>, url: string) returns (best: Option<Pattern>)
    requires '/' in url
    ensures Chosen(best, RulePatterns(ids), url)
    ensures BestRule(ids, url) == match best case None => None case Some(p) => Some(p.id)
  {
    RulesWellFormed(ids);
    best := ChoiceExists(RulePatterns(ids), url);
    BestRuleIs(ids, url, best);
  }

  lemma BestRuleIgnoresOthers(ids: set<string>, id: string, url: string)
    requires '/' in url && id !in ids && BestRule(ids + {id}, url) != Some(id)
    ensures BestRule(ids + {id}, url) == BestRule(ids, url)
  {
    var best := BestPattern(ids + {id}, url);
    OneMoreRule(ids, id);
    AddressIsWellFormed(id);
    ChosenIgnoresOthers(best, FromAddress(id), RulePatterns(ids), url);
    BestRuleIs(ids, url, best);
  }

  /** Adding or removing a rule that is not the most specific match does not change the verdict. */
  lemma OtherRulesAreIrrelevant(i: Input, id: string, d: Decision)
    requires '/' in i.url && i.profile.Some? && i.groups.Some? && id !in i.profile.value.urls
    requires BestRule(i.profile.value.urls.Keys + {id}, i.url) != Some(id)
    ensures Verdict(i.(profile := Some(i.profile.value.(urls := i.profile.value.urls[id := d])))) == Verdict(i)
  {
    var p := i.profile.value;
    var i' := i.(profile := Some(p.(urls := p.urls[id := d])));
    assert p.urls[id := d].Keys == p.urls.Keys + {id};
    BestRuleIgnoresOthers(p.urls.Keys, id, i.url);
    assert GroupBlocked(i') <==> GroupBlocked(i);
  }

  lemma PatternsOfIds(ids: seq<string>, patterns: seq<Pattern>, keys: set<string>)
    requires multiset(ids) == multiset(keys) && |patterns| == |ids|
    requires forall k | 0 <= k < |ids| :: patterns[k] == FromAddress(ids[k])
    ensures AllWellFormed(patterns) && Patterns(patterns) == RulePatterns(keys)
  {
    forall k | 0 <= k < |patterns| ensures WellFormed(patterns[k]) {
      AddressIsWellFormed(ids[k]);
    }
    forall p ensures p in Patterns(patterns) <==> p in RulePatterns(keys) {
      if p in Patterns(patterns) {
        var k :| 0 <= k < |patterns| && patterns[k] == p;
        assert ids[k] in multiset(ids);
      }
      if p in RulePatterns(keys) {
        var id :| id in keys && p == FromAddress(id);
        assert id in multiset(keys);
        var k :| 0 <= k < |ids| && ids[k] == id;
        assert patterns[k] == p;
      }
    }
  }

  /** The rules selected for a URL, whatever the order in which the table lists them. */
  method SelectRules(decisions: Decisions<string>, url: string) returns (matching: seq<string>)
    requires '/' in url
    ensures matching == Selected(BestRule(decisions.decisionMap.Keys, url))
  {
    var ids := decisions.GetIds();
    var patterns := CreateFromIds(ids);
    PatternsOfIds(ids, patterns, decisions.decisionMap.Keys);
    matching := SelectBestMatching(patterns, url);
    ghost var best: Option<Pattern> := None;
    if matching != [] {
      ghost var p :| IsBest(p, Patterns(patterns), url) && matching == [p.id];
      best := Some(p);
    }
    BestRuleIs(decisions.decisionMap.Keys, url, best);
  }

  /** The query as it runs: effective decisions are built up, rules are selected, and a code is found. */
  method QueryDatabase(i: Input) returns (out: Outcome)
    requires '/' in i.url
    ensures i.profile.Some? ==> out == Query(i, Selected(BestRule(i.profile.value.urls.Keys, i.url)))
    ensures i.profile.None? ==> out == Query(i, [])
    ensures Answers(i, out)
    ensures Granted(i) && DecisionsValid(i) ==> out.Done? && out.result.code == Verdict(i)
  {
    QueryAnswers(i, if i.profile.Some? then Selected(BestRule(i.profile.value.urls.Keys, i.url)) else []);
    if Granted(i) && DecisionsValid(i) {
      QueryGivesVerdict(i);
    }
    if !i.internetAccess {
      if !i.temporaryAccess {
        return Done(QueryResult(AccessForbidden, None, None));
      }
    }
    if i.profile.None? {
      return Done(QueryResult(ResOk, None, None));
    }
    var p := i.profile.value;
    var profileInfo := Some((p.id, p.name));
    var forUrls := new Decisions<string>();
    forUrls.ApplyOverrides(p.urls);
    assert forUrls.decisionMap == p.urls;
    var forGroups := new Decisions<int>();
    forGroups.ApplyOverrides(p.groups);
    assert forGroups.decisionMap == p.groups;
    if i.groups.None? {
      return Done(QueryResult(ResOk, profileInfo, None));
    }
    var matchingGroups := i.groups.value;
    if matchingGroups == [] {
      matchingGroups := [UNCATEGORIZED_GROUP];
    }
    var blocked := AnyElementContains(forGroups.decisionMap, matchingGroups, Blocked);
    if blocked.SearchFailed? {
      return AssertionFailed;
    }
    var selected := Shown(blocked, matchingGroups);
    if selected !in i.groupNames {
      return Done(QueryResult(ResOk, profileInfo, None));
    }
    var groupInfo := Some((selected, i.groupNames[selected]));
    var matching := SelectRules(forUrls, i.url);
    var code := Combine(forUrls.decisionMap, matching, blocked.Found?);
    if code.None? {
      return AssertionFailed;
    }
    return Done(QueryResult(code.value, profileInfo, groupInfo));
  }
}