/** Rule-based recommendations (internal/engine/recommend.go). */
module Recommend {
  import opened Models
  import opened Dedup

  datatype Rule = Rule(service: string, severity: string, selectorContains: seq<string>,
                       recommendations: seq<string>)

  /** What a rule is matched against. `fold` decides case-insensitive equality; `lower` is
      `strings.ToLower`. */
  datatype Evidence = Evidence(fold: string -> string, lower: string -> string, services: seq<string>,
                               anchors: seq<RedAnchor>, timeline: seq<TimelineEvent>)

  function SeverityName(severity: Severity): string {
    match severity
    case Low => "low"
    case Medium => "medium"
    case High => "high"
    case Critical => "critical"
  }

  predicate Contains(text: string, part: string) {
    exists i :: 0 <= i <= |text| && part <= text[i..]
  }

  predicate ServiceMatches(service: string, ev: Evidence) {
    || (exists s <- ev.services :: EqualFold(ev.fold, service, s))
    || (exists anchor <- ev.anchors :: EqualFold(ev.fold, service, anchor.service))
  }

  predicate TimelineHasSeverity(severity: string, ev: Evidence) {
    exists event <- ev.timeline :: EqualFold(ev.fold, severity, SeverityName(event.severity))
  }

  predicate SelectorHasKeyword(selector: string, keywords: seq<string>, lower: string -> string) {
    exists kw <- keywords :: kw != "" && Contains(lower(selector), lower(kw))
  }

  predicate AnchorsContain(keywords: seq<string>, ev: Evidence) {
    exists anchor <- ev.anchors :: SelectorHasKeyword(anchor.selector, keywords, ev.lower)
  }

  /** Every criterion the rule gives is met. */
  predicate Matches(rule: Rule, ev: Evidence) {
    && (rule.service == "" || ServiceMatches(rule.service, ev))
    && (rule.severity == "" || TimelineHasSeverity(rule.severity, ev))
    && (rule.selectorContains == [] || AnchorsContain(rule.selectorContains, ev))
  }

  /** The recommendations of all matching rules, in rule order. */
  function AllMatched(rules: seq<Rule>, ev: Evidence): seq<string> {
    if rules == [] then [] else
      var last := rules[|rules| - 1];
      AllMatched(rules[..|rules| - 1], ev) + if Matches(last, ev) then last.recommendations else []
  }

  method CheckService(service: string, ev: Evidence) returns (found: bool)
    ensures found == ServiceMatches(service, ev)
  {
    for i := 0 to |ev.services|
      invariant forall j :: 0 <= j < i ==> !EqualFold(ev.fold, service, ev.services[j])
    {
      if EqualFold(ev.fold, service, ev.services[i]) {
        return true;
      }
    }
    for i := 0 to |ev.anchors|
      invariant forall j :: 0 <= j < i ==> !EqualFold(ev.fold, service, ev.anchors[j].service)
    {
      if EqualFold(ev.fold, service, ev.anchors[i].service) {
        return true;
      }
    }
    return false;
  }

  method CheckSeverity(severity: string, ev: Evidence) returns (found: bool)
    ensures found == (severity == "" || TimelineHasSeverity(severity, ev))
  {
    if severity == "" {
      return true;
    }
    for i := 0 to |ev.timeline|
      invariant forall j :: 0 <= j < i ==> !EqualFold(ev.fold, severity, SeverityName(ev.timeline[j].severity))
    {
      if EqualFold(ev.fold, severity, SeverityName(ev.timeline[i].severity)) {
        return true;
      }
    }
    return false;
  }

  method CheckAnchors(keywords: seq<string>, ev: Evidence) returns (found: bool)
    ensures found == (keywords == [] || AnchorsContain(keywords, ev))
  {
    if keywords == [] {
      return true;
    }
    for i := 0 to |ev.anchors|
      invariant forall j :: 0 <= j < i ==> !SelectorHasKeyword(ev.anchors[j].selector, keywords, ev.lower)
    {
      for k := 0 to |keywords|
        invariant forall j :: 0 <= j < k ==>
                    !(keywords[j] != "" && Contains(ev.lower(ev.anchors[i].selector), ev.lower(keywords[j])))
      {
        if keywords[k] != "" && Contains(ev.lower(ev.anchors[i].selector), ev.lower(keywords[k])) {
          assert SelectorHasKeyword(ev.anchors[i].selector, keywords, ev.lower);
          return true;
        }
      }
    }
    return false;
  }

  method Recommend(rules: seq<Rule>, ev: Evidence) returns (matched: seq<string>)
    ensures matched == FirstOccurrences(AllMatched(rules, ev))
  {
    matched := [];
    for i := 0 to |rules|
      invariant matched == FirstOccurrences(AllMatched(rules[..i], ev))
    {
      assert rules[..i + 1][..i] == rules[..i];
      var rule := rules[i];
      if rule.service != "" {
        var found := CheckService(rule.service, ev);
        if !found {
          assert AllMatched(rules[..i], ev) + [] == AllMatched(rules[..i], ev);
          continue;
        }
      }
      if rule.severity != "" {
        var found := CheckSeverity(rule.severity, ev);
        if !found {
          assert AllMatched(rules[..i], ev) + [] == AllMatched(rules[..i], ev);
          continue;
        }
      }
      if rule.selectorContains != [] {
        var found := CheckAnchors(rule.selectorContains, ev);
        if !found {
          assert AllMatched(rules[..i], ev) + [] == AllMatched(rules[..i], ev);
          continue;
        }
      }
      matched := AppendUnique(matched, rule.recommendations);
      AppendedIsUnique(AllMatched(rules[..i], ev), rule.recommendations);
    }
    assert rules[..|rules|] == rules;
  }

  /** Every recommendation of every matching rule is given, and no others. */
  lemma {:induction false} GivesAllMatches(rules: seq<Rule>, ev: Evidence, text: string)
    ensures text in FirstOccurrences(AllMatched(rules, ev)) <==>
            text != "" && exists rule <- rules :: Matches(rule, ev) && text in rule.recommendations
  {
    KeepsEachOnce(AllMatched(rules, ev));
    if rules != [] {
      var front, last := rules[..|rules| - 1], rules[|rules| - 1];
      assert rules == front + [last];
      GivesAllMatches(front, ev, text);
      KeepsEachOnce(AllMatched(front, ev));
    }
  }

  // ---------------------------------------------------------------- what a rule asks for

  predicate HasService(rule: Rule, ev: Evidence) {
    rule.service != "" ==>
      || (exists i :: 0 <= i < |ev.services| && ev.fold(ev.services[i]) == ev.fold(rule.service))
      || (exists i :: 0 <= i < |ev.anchors| && ev.fold(ev.anchors[i].service) == ev.fold(rule.service))
  }

  predicate HasSeverity(rule: Rule, ev: Evidence) {
    rule.severity != "" ==>
      (exists i :: 0 <= i < |ev.timeline| && IsNamed(ev.timeline[i].severity, rule.severity, ev.fold))
  }

  predicate IsNamed(severity: Severity, name: string, fold: string -> string) {
    || (severity == Critical && fold(name) == fold("critical"))
    || (severity == High && fold(name) == fold("high"))
    || (severity == Medium && fold(name) == fold("medium"))
    || (severity == Low && fold(name) == fold("low"))
  }

  /** `text` is `part` with something before and after it. */
  ghost predicate IsAround(text: string, part: string) {
    exists before: string, after: string :: text == before + part + after
  }

  ghost predicate HasSelector(rule: Rule, ev: Evidence) {
    rule.selectorContains != [] ==>
      (exists i, k :: 0 <= i < |ev.anchors| && 0 <= k < |rule.selectorContains| && rule.selectorContains[k] != ""
                      && IsAround(ev.lower(ev.anchors[i].selector), ev.lower(rule.selectorContains[k])))
  }

  ghost predicate AllItAsksForIsMet(rule: Rule, ev: Evidence) {
    HasService(rule, ev) && HasSeverity(rule, ev) && HasSelector(rule, ev)
  }

  lemma ServiceMeans(rule: Rule, ev: Evidence)
    ensures (rule.service == "" || ServiceMatches(rule.service, ev)) <==> HasService(rule, ev)
  {
    assert forall i :: 0 <= i < |ev.services| ==> ev.services[i] in ev.services;
    assert forall i :: 0 <= i < |ev.anchors| ==> ev.anchors[i] in ev.anchors;
  }

  lemma SeverityMeans(rule: Rule, ev: Evidence)
    ensures (rule.severity == "" || TimelineHasSeverity(rule.severity, ev)) <==> HasSeverity(rule, ev)
  {
    assert forall i :: 0 <= i < |ev.timeline| ==> ev.timeline[i] in ev.timeline;
    forall severity: Severity
      ensures EqualFold(ev.fold, rule.severity, SeverityName(severity)) <==> IsNamed(severity, rule.severity, ev.fold)
    {
    }
    hide EqualFold, SeverityName, IsNamed;
  }

  lemma ContainsMeans(text: string, part: string)
    ensures Contains(text, part) <==> IsAround(text, part)
  {
    if Contains(text, part) {
      var i :| 0 <= i <= |text| && part <= text[i..];
      SplitAround(text, part, i);
    }
    if IsAround(text, part) {
      var before: string, after: string :| text == before + part + after;
      FoundAfter(before, part, after);
    }
  }

  lemma SplitAround(text: string, part: string, i: nat)
    requires i <= |text| && part <= text[i..]
    ensures IsAround(text, part)
  {
    var tail := text[i..];
    assert tail == part + tail[|part|..];
    assert text == text[..i] + tail;
    assert text == text[..i] + part + tail[|part|..];
  }

  lemma FoundAfter(before: string, part: string, after: string)
    ensures Contains(before + part + after, part)
  {
    var text := before + part + after;
    assert text[|before|..] == part + after;
  }

  lemma SelectorMeans(rule: Rule, ev: Evidence)
    ensures (rule.selectorContains == [] || AnchorsContain(rule.selectorContains, ev)) <==> HasSelector(rule, ev)
  {
    hide Contains, IsAround;
    forall text, part
      ensures Contains(text, part) <==> IsAround(text, part)
    {
      ContainsMeans(text, part);
    }
  }

  /** A text is recommended exactly when it is not empty and some rule that has it is met in all it asks
      for. What a rule leaves open it does not ask for. */
  lemma RecommendedMeans(rules: seq<Rule>, ev: Evidence, text: string)
    ensures text in FirstOccurrences(AllMatched(rules, ev)) <==>
            text != "" && (exists rule <- rules :: text in rule.recommendations && AllItAsksForIsMet(rule, ev))
  {
    GivesAllMatches(rules, ev, text);
    hide AllMatched, FirstOccurrences;
    forall rule
      ensures Matches(rule, ev) <==> AllItAsksForIsMet(rule, ev)
    {
      MatchMeans(rule, ev);
    }
    hide Matches, AllItAsksForIsMet;
  }

  lemma MatchMeans(rule: Rule, ev: Evidence)
    ensures Matches(rule, ev) <==> AllItAsksForIsMet(rule, ev)
  {
    ServiceMeans(rule, ev);
    SeverityMeans(rule, ev);
    SelectorMeans(rule, ev);
    hide ServiceMatches, TimelineHasSeverity, AnchorsContain, HasService, HasSeverity, HasSelector;
  }

  // ---------------------------------------------------------------- "the first matching rule"

  /** What docs/rules.md describes: the recommendations of the first matching rule only. */
  function FirstMatched(rules: seq<Rule>, ev: Evidence): seq<string> {
    if rules == [] then []
    else if Matches(rules[0], ev) then rules[0].recommendations
    else FirstMatched(rules[1..], ev)
  }

  lemma {:induction false} SkipUnmatched(rules: seq<Rule>, ev: Evidence)
    requires rules != []
    ensures AllMatched(rules, ev) ==
            (if Matches(rules[0], ev) then rules[0].recommendations else []) + AllMatched(rules[1..], ev)
  {
    hide Matches;
    if |rules| == 1 {
      assert rules[..0] == [] && rules[1..] == [];
    } else {
      SkipUnmatched(rules[..|rules| - 1], ev);
      assert rules[..|rules| - 1][1..] == rules[1..][..|rules| - 2];
    }
  }

  lemma {:induction false} FirstMatchedIsPrefix(rules: seq<Rule>, ev: Evidence)
    ensures FirstMatched(rules, ev) <= AllMatched(rules, ev)
  {
    if rules != [] {
      SkipUnmatched(rules, ev);
      if !Matches(rules[0], ev) {
        FirstMatchedIsPrefix(rules[1..], ev);
      }
    }
  }

  lemma {:induction false} SameUnique(a: seq<string>, b: seq<string>)
    ensures FirstOccurrences(a + b) == FirstOccurrences(a) <==> forall text <- b :: text == "" || text in a
  {
    if b == [] {
      assert a + b == a;
    } else {
      var front, last := b[..|b| - 1], b[|b| - 1];
      assert b == front + [last];
      SameUnique(a, front);
      assert (a + b)[..|a + b| - 1] == a + front;
      UniquePrefix(a, front);
    }
  }

  lemma {:induction false} UniquePrefix(a: seq<string>, b: seq<string>)
    ensures FirstOccurrences(a) <= FirstOccurrences(a + b)
  {
    if b == [] {
      assert a + b == a;
    } else {
      assert (a + b)[..|a + b| - 1] == a + b[..|b| - 1];
      UniquePrefix(a, b[..|b| - 1]);
    }
  }

  /** Every recommendation of the rule is already in `first`. */
  predicate AddsNothing(rule: Rule, first: seq<string>) {
    forall text <- rule.recommendations :: text == "" || text in first
  }

  lemma {:induction false} RedundantRules(rules: seq<Rule>, ev: Evidence, first: seq<string>)
    ensures (forall text <- AllMatched(rules, ev) :: text == "" || text in first) <==>
            forall rule <- rules :: Matches(rule, ev) ==> AddsNothing(rule, first)
  {
    hide Matches;
    if rules != [] {
      var front, last := rules[..|rules| - 1], rules[|rules| - 1];
      RedundantRules(front, ev, first);
      assert rules == front + [last];
      assert forall text <- AllMatched(front, ev) :: text in AllMatched(rules, ev);
      if Matches(last, ev) {
        assert forall text <- last.recommendations :: text in AllMatched(rules, ev);
      }
    }
  }

  /** The documented reading agrees with the code exactly when no later matching rule adds a
      recommendation that the first one lacks. */
  lemma FirstRuleOnlyWhenRestIsRedundant(rules: seq<Rule>, ev: Evidence)
    ensures FirstOccurrences(AllMatched(rules, ev)) == FirstOccurrences(FirstMatched(rules, ev)) <==>
            forall rule <- rules :: Matches(rule, ev) ==> AddsNothing(rule, FirstMatched(rules, ev))
  {
    hide Matches;
    var first, all := FirstMatched(rules, ev), AllMatched(rules, ev);
    FirstMatchedIsPrefix(rules, ev);
    var rest := all[|first|..];
    assert all == first + rest;
    SameUnique(first, rest);
    assert (forall text <- rest :: text == "" || text in first) <==>
           (forall text <- all :: text == "" || text in first);
    RedundantRules(rules, ev, first);
  }
}
