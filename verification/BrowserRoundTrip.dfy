/** Saving a draft and loading it again: what comes back, when it stays valid, when a second save changes nothing. */
module BrowserRoundTrip {
  import opened Options
  import opened JsText
  import opened BrowserPlan

  function NonEmptyOr(s: string, fallback: string): string {
    if s == "" then fallback else s
  }

  /** What one save and load makes of an action. */
  function NormalAction(a: Action, fallbackId: string): Action {
    Action(
      NonEmptyOr(a.actionId, fallbackId),
      a.kind,
      if a.kind == Navigate then Trim(a.url) else "",
      NonEmptyOr(Trim(a.role), "button"),
      Trim(a.name), Trim(a.selector), Trim(a.testId),
      if a.kind == AssertText then a.expectedText else "",
      a.kind == AssertText && a.exact,
      if a.kind == Fill then Trim(a.valueRef) else "",
      if a.kind == Fill then Trim(a.secretRef) else "",
      a.sourceRefs, a.confidence, NonEmpty(a.limitations), a.origin)
  }

  function NormalActions(actions: seq<Action>, prefix: string): (r: seq<Action>)
    ensures |r| == |actions|
    ensures forall i :: 0 <= i < |r| ==> r[i] == NormalAction(actions[i], prefix + Digits(i + 1, false))
  {
    seq(|actions|, i requires 0 <= i < |actions| => NormalAction(actions[i], prefix + Digits(i + 1, false)))
  }

  function NormalScenario(s: Scenario, index: nat, fallbackUrl: string): Scenario {
    var id := NonEmptyOr(s.scenarioId, "scenario-" + Digits(index + 1, false));
    Scenario(
      id,
      NonEmptyOr(Trim(s.name), "Scenario " + Digits(index + 1, false)),
      Trim(s.goal),
      NonEmptyOr(Trim(s.targetUrl), fallbackUrl),
      NonEmpty(s.preconditions),
      NormalActions(s.actions, id + "-action-"),
      s.sourceRefs, s.confidence, NonEmpty(s.limitations), s.status, s.selected, s.origin)
  }

  function NormalScenarios(scenarios: seq<Scenario>, fallbackUrl: string): (r: seq<Scenario>)
    ensures |r| == |scenarios|
    ensures forall i :: 0 <= i < |r| ==> r[i] == NormalScenario(scenarios[i], i, fallbackUrl)
  {
    seq(|scenarios|, i requires 0 <= i < |scenarios| => NormalScenario(scenarios[i], i, fallbackUrl))
  }

  /** The normal form of a draft: the next revision, the acceptance withdrawn, every scenario normalised. */
  function NormalPlan(d: Plan, fallbackUrl: string): Plan {
    d.(revision := PlusOne(d.revision), acceptCurrentSource := false,
       scenarios := NormalScenarios(d.scenarios, fallbackUrl))
  }

  function FallbackUrl(p: Platform, c: Config): string {
    TextOr(p, Get(Functional(c), TargetUrl), "")
  }

  // ---------------------------------------------------------------- reading what was built

  lemma {:induction false} ReadTextList(p: Platform, texts: seq<string>)
    ensures Texts(p, TextList(texts)) == texts
  {
    if texts != [] {
      ReadTextList(p, texts[1..]);
    }
  }

  lemma {:induction false} ReadRecordList(records: seq<Fields>)
    ensures Records(RecordList(records)) == records
  {
    if records != [] {
      ReadRecordList(records[1..]);
    }
  }

  lemma ReadKindText(k: ActionKind)
    ensures KindOf(KindText(k)) == Some(k)
  {
  }

  lemma ReadStatusText(s: ScenarioStatus)
    ensures StatusOf(StatusText(s)) == s
  {
  }

  lemma ReadAuthorText(o: Author)
    ensures ReadAuthor(Some(Text(AuthorText(o)))) == o
  {
  }

  lemma ReadTarget(p: Platform, a: Action)
    ensures TextOr(p, Get(BuiltTarget(a), Url), "") == if a.kind == Navigate then Trim(a.url) else ""
    ensures Get(BuiltTarget(a), Url) != Some(Null)
    ensures TextOr(p, Get(BuiltTarget(a), Role), "button") == NonEmptyOr(Trim(a.role), "button")
    ensures TextOr(p, Get(BuiltTarget(a), Name), "") == Trim(a.name)
  {
  }

  lemma ReadHints(p: Platform, a: Action)
    ensures Get(BuiltHints(a), Url).None? && Get(BuiltHints(a), Css).None?
    ensures TextOr(p, Get(BuiltHints(a), Selector), "") == Trim(a.selector)
    ensures Get(BuiltHints(a), Selector) != Some(Null)
    ensures TextOr(p, Get(BuiltHints(a), TestId), "") == Trim(a.testId)
  {
  }

  lemma ReadAssertion(p: Platform, a: Action)
    ensures var m := BuiltAssertion(a);
            && TextOr(p, OrElse(Get(m, ExpectedText), OrElse(Get(m, TextField), Get(m, Expected))), "") ==
               (if a.kind == AssertText then a.expectedText else "")
            && ((Get(m, Match) == Some(Text("exact"))) <==> (a.kind == AssertText && a.exact))
  {
    assert "exact" != "contains" by {
      assert |"exact"| != |"contains"|;
    }
  }

  lemma BaseFields(a: Action, target: Fields, hints: Fields, riskLevel: string)
    ensures var m := BuiltBase(a, target, hints, riskLevel);
            && Get(m, ActionId) == Some(Text(a.actionId))
            && Get(m, ActionType) == Some(Text(KindText(a.kind)))
            && Get(m, SemanticTarget) == Some(Rec(target))
            && Get(m, TargetHints) == Some(Rec(hints))
            && Get(m, AssertionIntent) == Some(Rec(BuiltAssertion(a)))
            && ActionTail(m, a)
            && Get(m, ValueRef).None? && Get(m, SecretRef).None?
  {
  }

  predicate ActionTail(m: Fields, a: Action) {
    && Get(m, SourceRefs) == Some(List(RecordList(a.sourceRefs)))
    && Get(m, Confidence) == Some(Num(a.confidence))
    && Get(m, Limitations) == Some(List(TextList(a.limitations)))
    && Get(m, Origin) == Some(Text(AuthorText(a.origin)))
  }

  lemma PutKeepsOthers(m: Fields, f: Field, s: string, g: Field)
    ensures g != f ==> Get(PutTrimmed(m, f, s), g) == Get(m, g)
    ensures Get(m, f).None? ==> Get(PutTrimmed(m, f, s), f) == if Trim(s) == "" then None else Some(Text(Trim(s)))
  {
  }

  /** What the two optional references leave of the other fields. */
  lemma FieldsOfFill(base: Fields, a: Action, g: Field)
    requires Get(base, ValueRef).None? && Get(base, SecretRef).None?
    ensures var m := PutTrimmed(PutTrimmed(base, ValueRef, a.valueRef), SecretRef, a.secretRef);
            && (g != ValueRef && g != SecretRef ==> Get(m, g) == Get(base, g))
            && Get(m, ValueRef) == (if Trim(a.valueRef) == "" then None else Some(Text(Trim(a.valueRef))))
            && Get(m, SecretRef) == (if Trim(a.secretRef) == "" then None else Some(Text(Trim(a.secretRef))))
  {
    var middle := PutTrimmed(base, ValueRef, a.valueRef);
    PutKeepsOthers(base, ValueRef, a.valueRef, g);
    PutKeepsOthers(base, ValueRef, a.valueRef, SecretRef);
    PutKeepsOthers(middle, SecretRef, a.secretRef, g);
    PutKeepsOthers(middle, SecretRef, a.secretRef, ValueRef);
  }

  /** The fields of a built action, one by one. */
  lemma BuiltFields(a: Action, riskLevel: string, m: Fields)
    requires Rec(m) == BuildAction(a, riskLevel)
    ensures Get(m, ActionId) == Some(Text(a.actionId))
    ensures Get(m, ActionType) == Some(Text(KindText(a.kind)))
    ensures Get(m, SemanticTarget) == Some(Rec(BuiltTarget(a)))
    ensures Get(m, TargetHints) == Some(Rec(BuiltHints(a)))
    ensures Get(m, AssertionIntent) == Some(Rec(BuiltAssertion(a)))
    ensures ActionTail(m, a)
    ensures Get(m, ValueRef) == if a.kind != Fill || Trim(a.valueRef) == "" then None else Some(Text(Trim(a.valueRef)))
    ensures Get(m, SecretRef) ==
            if a.kind != Fill || Trim(a.secretRef) == "" then None else Some(Text(Trim(a.secretRef)))
  {
    var base := BuiltBase(a, BuiltTarget(a), BuiltHints(a), riskLevel);
    BaseFields(a, BuiltTarget(a), BuiltHints(a), riskLevel);
    if a.kind == Fill {
      FieldsOfFill(base, a, ActionId);
      FieldsOfFill(base, a, ActionType);
      FieldsOfFill(base, a, SemanticTarget);
      FieldsOfFill(base, a, TargetHints);
      FieldsOfFill(base, a, AssertionIntent);
      FieldsOfFill(base, a, SourceRefs);
      FieldsOfFill(base, a, Confidence);
      FieldsOfFill(base, a, Limitations);
      FieldsOfFill(base, a, Origin);
    }
  }

  lemma ReadBuiltAction(p: Platform, a: Action, riskLevel: string, fallbackId: string)
    ensures ReadAction(p, BuildAction(a, riskLevel), fallbackId) == NormalAction(a, fallbackId)
  {
    var m := BuildAction(a, riskLevel).fields;
    BuiltFields(a, riskLevel, m);
    ReadFields(p, a, fallbackId, m, BuiltTarget(a), BuiltHints(a), BuiltAssertion(a));
  }

  lemma ReadFields(p: Platform, a: Action, fallbackId: string, m: Fields, target: Fields, hints: Fields,
                   assertion: Fields)
    requires Get(m, ActionId) == Some(Text(a.actionId)) && Get(m, ActionType) == Some(Text(KindText(a.kind)))
    requires Get(m, SemanticTarget) == Some(Rec(target)) && target == BuiltTarget(a)
    requires Get(m, TargetHints) == Some(Rec(hints)) && hints == BuiltHints(a)
    requires Get(m, AssertionIntent) == Some(Rec(assertion)) && assertion == BuiltAssertion(a)
    requires ActionTail(m, a)
    requires Get(m, ValueRef) == if a.kind != Fill || Trim(a.valueRef) == "" then None else Some(Text(Trim(a.valueRef)))
    requires Get(m, SecretRef) ==
             if a.kind != Fill || Trim(a.secretRef) == "" then None else Some(Text(Trim(a.secretRef)))
    ensures ReadAction(p, Rec(m), fallbackId) == NormalAction(a, fallbackId)
  {
    hide ReadAction, NormalAction, ActionTail, BuiltTarget, BuiltHints, BuiltAssertion, Trim;
    ReadOwnFields(p, a, fallbackId, m);
    ReadTargetFields(p, a, fallbackId, m);
    ReadAssertionFields(p, a, fallbackId, m);
    ReadTailFields(p, a, fallbackId, m);
  }

  lemma ReadOwnFields(p: Platform, a: Action, fallbackId: string, m: Fields)
    requires Get(m, ActionId) == Some(Text(a.actionId)) && Get(m, ActionType) == Some(Text(KindText(a.kind)))
    requires Get(m, ValueRef) == if a.kind != Fill || Trim(a.valueRef) == "" then None else Some(Text(Trim(a.valueRef)))
    requires Get(m, SecretRef) ==
             if a.kind != Fill || Trim(a.secretRef) == "" then None else Some(Text(Trim(a.secretRef)))
    ensures var r, n := ReadAction(p, Rec(m), fallbackId), NormalAction(a, fallbackId);
            r.actionId == n.actionId && r.kind == n.kind && r.valueRef == n.valueRef && r.secretRef == n.secretRef
  {
    hide Trim;
    ReadKindText(a.kind);
  }

  lemma ReadTargetFields(p: Platform, a: Action, fallbackId: string, m: Fields)
    requires Get(m, SemanticTarget) == Some(Rec(BuiltTarget(a))) && Get(m, TargetHints) == Some(Rec(BuiltHints(a)))
    ensures var r, n := ReadAction(p, Rec(m), fallbackId), NormalAction(a, fallbackId);
            && r.url == n.url && r.role == n.role && r.name == n.name
            && r.selector == n.selector && r.testId == n.testId
  {
    hide Trim, BuiltTarget, BuiltHints;
    ReadTarget(p, a);
    ReadHints(p, a);
  }

  lemma ReadAssertionFields(p: Platform, a: Action, fallbackId: string, m: Fields)
    requires Get(m, AssertionIntent) == Some(Rec(BuiltAssertion(a)))
    ensures var r, n := ReadAction(p, Rec(m), fallbackId), NormalAction(a, fallbackId);
            r.expectedText == n.expectedText && r.exact == n.exact
  {
    hide Trim, BuiltAssertion;
    ReadAssertion(p, a);
  }

  lemma ReadTailFields(p: Platform, a: Action, fallbackId: string, m: Fields)
    requires ActionTail(m, a)
    ensures var r, n := ReadAction(p, Rec(m), fallbackId), NormalAction(a, fallbackId);
            && r.sourceRefs == n.sourceRefs && r.confidence == n.confidence
            && r.limitations == n.limitations && r.origin == n.origin
  {
    hide Trim;
    ReadRecordList(a.sourceRefs);
    ReadTextList(p, a.limitations);
    ReadAuthorText(a.origin);
  }

  lemma FieldsOfScenario(s: Scenario, actions: seq<Value>)
    ensures var m := ScenarioFields(s, actions);
            && Get(m, ScenarioId) == Some(Text(s.scenarioId))
            && Get(m, Name) == Some(Text(Trim(s.name)))
            && Get(m, Goal) == Some(Text(Trim(s.goal)))
            && Get(m, TargetUrl) == Some(Text(Trim(s.targetUrl)))
            && Get(m, Preconditions) == Some(List(TextList(s.preconditions)))
            && Get(m, Actions) == Some(List(actions))
            && ScenarioTail(m, s)
  {
    hide TextList, RecordList, Trim, StatusText, AuthorText;
  }

  predicate ScenarioTail(m: Fields, s: Scenario) {
    && Get(m, SourceRefs) == Some(List(RecordList(s.sourceRefs)))
    && Get(m, Confidence) == Some(Num(s.confidence))
    && Get(m, Limitations) == Some(List(TextList(s.limitations)))
    && Get(m, Status) == Some(Text(StatusText(s.status)))
    && Get(m, Selected) == Some(Bool(s.selected))
    && Get(m, Origin) == Some(Text(AuthorText(s.origin)))
  }

  lemma ReadBuiltScenario(p: Platform, s: Scenario, riskLevel: string, index: nat, fallbackUrl: string)
    ensures ReadScenario(p, BuildScenario(s, riskLevel), index, fallbackUrl) == NormalScenario(s, index, fallbackUrl)
  {
    var actions := BuildActions(s.actions, riskLevel);
    FieldsOfScenario(s, actions);
    ReadScenarioFields(p, s, riskLevel, index, fallbackUrl, ScenarioFields(s, actions));
  }

  lemma ReadScenarioFields(p: Platform, s: Scenario, riskLevel: string, index: nat, fallbackUrl: string, m: Fields)
    requires Get(m, ScenarioId) == Some(Text(s.scenarioId)) && Get(m, Name) == Some(Text(Trim(s.name)))
    requires Get(m, Goal) == Some(Text(Trim(s.goal))) && Get(m, TargetUrl) == Some(Text(Trim(s.targetUrl)))
    requires Get(m, Preconditions) == Some(List(TextList(s.preconditions)))
    requires Get(m, Actions) == Some(List(BuildActions(s.actions, riskLevel))) && ScenarioTail(m, s)
    ensures ReadScenario(p, Rec(m), index, fallbackUrl) == NormalScenario(s, index, fallbackUrl)
  {
    hide Trim, TextList, RecordList, BuildActions, ReadActions, NormalActions, Digits;
    var r, n := ReadScenario(p, Rec(m), index, fallbackUrl), NormalScenario(s, index, fallbackUrl);
    assert r.scenarioId == n.scenarioId && r.name == n.name && r.goal == n.goal && r.targetUrl == n.targetUrl;
    assert r.preconditions == n.preconditions by {
      ReadTextList(p, s.preconditions);
    }
    assert r.actions == n.actions by {
      ReadBuiltActions(p, s.actions, riskLevel, n.scenarioId + "-action-");
    }
    assert r.sourceRefs == n.sourceRefs && r.confidence == n.confidence by {
      ReadRecordList(s.sourceRefs);
    }
    assert r.limitations == n.limitations by {
      ReadTextList(p, s.limitations);
    }
    assert r.status == n.status && r.selected == n.selected && r.origin == n.origin by {
      ReadStatusText(s.status);
      ReadAuthorText(s.origin);
    }
  }

  lemma ReadBuiltActions(p: Platform, actions: seq<Action>, riskLevel: string, prefix: string)
    ensures ReadActions(p, BuildActions(actions, riskLevel), prefix) == NormalActions(actions, prefix)
  {
    hide ReadAction, BuildAction, NormalAction;
    forall i | 0 <= i < |actions|
      ensures ReadActions(p, BuildActions(actions, riskLevel), prefix)[i] == NormalActions(actions, prefix)[i]
    {
      ReadBuiltAction(p, actions[i], riskLevel, prefix + Digits(i + 1, false));
    }
  }

  lemma ReadBuiltScenarios(p: Platform, scenarios: seq<Scenario>, riskLevel: string, fallbackUrl: string)
    ensures ReadScenarios(p, BuildScenarios(scenarios, riskLevel), fallbackUrl) ==
            NormalScenarios(scenarios, fallbackUrl)
  {
    hide ReadScenario, BuildScenario, NormalScenario;
    forall i | 0 <= i < |scenarios|
      ensures ReadScenarios(p, BuildScenarios(scenarios, riskLevel), fallbackUrl)[i] ==
              NormalScenarios(scenarios, fallbackUrl)[i]
    {
      ReadBuiltScenario(p, scenarios[i], riskLevel, i, fallbackUrl);
    }
  }

  /** Loading what a valid draft was saved as gives the draft's normal form. */
  lemma SaveThenLoad(p: Platform, c: Config, d: Plan, riskLevel: string)
    requires d.mode == ScenarioMode && d.scenarios != [] && BuildPlan(p, c, d, riskLevel).Ok?
    ensures ReadPlan(p, BuildPlan(p, c, d, riskLevel).value) == NormalPlan(d, FallbackUrl(p, c))
    ensures FallbackUrl(p, BuildPlan(p, c, d, riskLevel).value) == FallbackUrl(p, c)
  {
    var scenarios := BuildScenarios(d.scenarios, riskLevel);
    var saved := BuildPlan(p, c, d, riskLevel).value;
    WhatIsSaved(p, c, d, riskLevel);
    FieldsOfFunctional(Functional(c), d, scenarios);
    FieldsOfCollection(d, scenarios);
    LoadSaved(p, c, saved, Collection(d, scenarios), d, riskLevel);
  }

  lemma WhatIsSaved(p: Platform, c: Config, d: Plan, riskLevel: string)
    requires d.mode == ScenarioMode && BuildPlan(p, c, d, riskLevel).Ok?
    ensures Functional(BuildPlan(p, c, d, riskLevel).value) ==
            WithScenarios(Functional(c), d, BuildScenarios(d.scenarios, riskLevel))
  {
  }

  lemma LoadSaved(p: Platform, c: Config, saved: Config, m: Fields, d: Plan, riskLevel: string)
    requires d.mode == ScenarioMode && d.scenarios != []
    requires Get(Functional(saved), ExecutableScenarios) == Some(Rec(m))
    requires Get(Functional(saved), TargetUrl) == Get(Functional(c), TargetUrl)
    requires Get(m, Revision) == Some(Num(PlusOne(d.revision)))
    requires Get(m, SourceFingerprint) == Some(Text(d.sourceFingerprint))
    requires Get(m, SourceChanged) == Some(Bool(d.sourceChanged))
    requires Get(m, ChangeSummary) == Some(Rec(d.changeSummary))
    requires Get(m, Scenarios) == Some(List(BuildScenarios(d.scenarios, riskLevel)))
    ensures ReadPlan(p, saved) == NormalPlan(d, FallbackUrl(p, c)) && FallbackUrl(p, saved) == FallbackUrl(p, c)
  {
    ReadCollection(p, saved, m, d, BuildScenarios(d.scenarios, riskLevel));
    ReadBuiltScenarios(p, d.scenarios, riskLevel, FallbackUrl(p, c));
  }

  lemma FieldsOfFunctional(functional: Fields, d: Plan, scenarios: seq<Value>)
    ensures var m := WithScenarios(functional, d, scenarios);
            && Get(m, ExecutableScenarios) == Some(Rec(Collection(d, scenarios)))
            && Get(m, TargetUrl) == Get(functional, TargetUrl)
  {
  }

  lemma ReadCollection(p: Platform, c: Config, m: Fields, d: Plan, scenarios: seq<Value>)
    requires Get(Functional(c), ExecutableScenarios) == Some(Rec(m)) && scenarios != []
    requires Get(m, Revision) == Some(Num(PlusOne(d.revision)))
    requires Get(m, SourceFingerprint) == Some(Text(d.sourceFingerprint))
    requires Get(m, SourceChanged) == Some(Bool(d.sourceChanged))
    requires Get(m, ChangeSummary) == Some(Rec(d.changeSummary))
    requires Get(m, Scenarios) == Some(List(scenarios))
    ensures ReadPlan(p, c) == Plan(ScenarioMode, PlusOne(d.revision), d.sourceFingerprint, d.sourceChanged, false,
                                   d.changeSummary, ReadScenarios(p, scenarios, FallbackUrl(p, c)))
  {
    assert RawScenarios(c) == scenarios;
  }

  lemma FieldsOfCollection(d: Plan, scenarios: seq<Value>)
    ensures var m := Collection(d, scenarios);
            && Get(m, Revision) == Some(Num(PlusOne(d.revision)))
            && Get(m, SourceFingerprint) == Some(Text(d.sourceFingerprint))
            && Get(m, SourceChanged) == Some(Bool(d.sourceChanged))
            && Get(m, ChangeSummary) == Some(Rec(d.changeSummary))
            && Get(m, Scenarios) == Some(List(scenarios))
  {
  }

  // ---------------------------------------------------------------- validity of what is loaded

  /** Trimming never breaks a URL, and the empty text is none. */
  ghost predicate TrimmedUrls(p: Platform) {
    !p.validUrl("") && forall u :: p.validUrl(u) ==> p.validUrl(Trim(u))
  }

  lemma {:induction false} NormalActionsValid(actions: seq<Action>, normal: seq<Action>, ids: seq<string>)
    requires |actions| == |normal| == |ids|
    requires forall i :: 0 <= i < |actions| ==> normal[i] == NormalAction(actions[i], ids[i])
    ensures ActionsError(actions) == ActionsError(normal)
  {
    if actions != [] {
      NormalActionsValid(actions[1..], normal[1..], ids[1..]);
      NormalActionValid(actions[0], ids[0]);
    }
  }

  lemma NormalActionValid(a: Action, id: string)
    ensures ActionError(a) == ActionError(NormalAction(a, id))
  {
    TrimTwice(a.selector);
    TrimTwice(a.testId);
    TrimTwice(a.name);
    TrimTwice(a.valueRef);
    TrimTwice(a.secretRef);
  }

  lemma NormalScenarioValid(p: Platform, s: Scenario, index: nat, fallbackUrl: string)
    requires TrimmedUrls(p) && ScenarioError(p, s).None?
    ensures ScenarioError(p, NormalScenario(s, index, fallbackUrl)).None?
  {
    var n := NormalScenario(s, index, fallbackUrl);
    var prefix := n.scenarioId + "-action-";
    NormalActionsValid(s.actions, n.actions,
                       seq(|s.actions|, i requires 0 <= i < |s.actions| => prefix + Digits(i + 1, false)));
    assert p.validUrl(Trim(s.targetUrl));
  }

  /** The error of the scan, as a property of the confirmed scenarios alone. */
  lemma {:induction false} NoErrorMeaning(p: Platform, scenarios: seq<Scenario>)
    ensures FirstError(p, ConfirmedOnes(scenarios)).None? <==>
            forall i :: 0 <= i < |scenarios| && scenarios[i].status == Confirmed ==>
                          ScenarioError(p, scenarios[i]).None?
    ensures ConfirmedOnes(scenarios) != [] <==> exists i :: 0 <= i < |scenarios| && scenarios[i].status == Confirmed
  {
    if scenarios != [] {
      NoErrorMeaning(p, scenarios[1..]);
      assert scenarios == [scenarios[0]] + scenarios[1..];
      if scenarios[0].status == Confirmed {
        assert ConfirmedOnes(scenarios)[1..] == ConfirmedOnes(scenarios[1..]);
      } else {
        assert ConfirmedOnes(scenarios) == ConfirmedOnes(scenarios[1..]);
      }
    }
  }

  /**
   A valid draft loads as a valid one exactly unless it was saved with a changed source and a confirmed scenario: the
   load withdraws the acceptance but not the change.
   */
  lemma LoadedValidIff(p: Platform, d: Plan, fallbackUrl: string)
    requires TrimmedUrls(p) && d.mode == ScenarioMode && PlanErrorOf(p, d).None?
    ensures PlanErrorOf(p, NormalPlan(d, fallbackUrl)).None? <==>
            !(d.sourceChanged && exists i :: 0 <= i < |d.scenarios| && d.scenarios[i].status == Confirmed)
    ensures PlanErrorOf(p, NormalPlan(d, fallbackUrl)).Some? ==>
              PlanErrorOf(p, NormalPlan(d, fallbackUrl)) == Some(SourceNotAccepted)
  {
    var n := NormalPlan(d, fallbackUrl);
    NoErrorMeaning(p, d.scenarios);
    NormalScenariosValid(p, d.scenarios, fallbackUrl);
  }

  lemma NormalScenariosValid(p: Platform, scenarios: seq<Scenario>, fallbackUrl: string)
    requires TrimmedUrls(p) && FirstError(p, ConfirmedOnes(scenarios)).None?
    ensures FirstError(p, ConfirmedOnes(NormalScenarios(scenarios, fallbackUrl))).None?
    ensures ConfirmedOnes(NormalScenarios(scenarios, fallbackUrl)) != [] <==> ConfirmedOnes(scenarios) != []
  {
    var normal := NormalScenarios(scenarios, fallbackUrl);
    NoErrorMeaning(p, scenarios);
    NoErrorMeaning(p, normal);
    forall i | 0 <= i < |normal|
      ensures normal[i].status == scenarios[i].status
      ensures normal[i].status == Confirmed ==> ScenarioError(p, normal[i]).None?
    {
      if normal[i].status == Confirmed {
        NormalScenarioValid(p, scenarios[i], i, fallbackUrl);
      }
    }
  }

  // ---------------------------------------------------------------- a second save

  /** Equal but for the revision. */
  predicate SameButRevision(a: Plan, b: Plan) {
    a.(revision := Finite(0.0)) == b.(revision := Finite(0.0))
  }

  lemma {:induction false} NonEmptyTwice(texts: seq<string>)
    ensures NonEmpty(NonEmpty(texts)) == NonEmpty(texts)
  {
    if texts != [] {
      NonEmptyTwice(texts[1..]);
      var rest := NonEmpty(texts[1..]);
      if texts[0] != "" {
        assert ([texts[0]] + rest)[1..] == rest;
        assert NonEmpty([texts[0]] + rest) == [texts[0]] + NonEmpty(rest);
      } else {
        assert NonEmpty(texts) == rest;
      }
    }
  }

  lemma NormalActionTwice(a: Action, id: string)
    requires id != ""
    ensures NormalAction(NormalAction(a, id), id) == NormalAction(a, id)
  {
    hide Trim, NonEmpty;
    TrimTwice(a.url);
    TrimTwice(a.role);
    TrimTwice(a.name);
    TrimTwice(a.selector);
    TrimTwice(a.testId);
    TrimTwice(a.valueRef);
    TrimTwice(a.secretRef);
    NonEmptyTwice(a.limitations);
    ButtonIsTrimmed();
  }

  lemma ButtonIsTrimmed()
    ensures Trim("button") == "button"
  {
  }

  lemma DefaultNameIsTrimmed(n: nat)
    ensures Trim("Scenario " + Digits(n, false)) == "Scenario " + Digits(n, false)
  {
    var s := "Scenario " + Digits(n, false);
    DigitsAreSolid(n);
    assert s[0] == 'S' && !IsBlank('S');
    assert s[|s| - 1] == Digits(n, false)[|Digits(n, false)| - 1];
  }

  lemma {:induction false} DigitsAreSolid(n: nat)
    ensures Digits(n, false) != [] && !IsBlank(Digits(n, false)[|Digits(n, false)| - 1])
  {
    assert forall d :: 0 <= d < 10 ==> !IsBlank(Digit(d));
  }

  /** A fallback URL that a further trim would not change, or would change back to the fallback. */
  predicate SettledUrl(u: string) {
    Trim(u) == u || Trim(u) == ""
  }

  lemma NormalScenarioTwice(s: Scenario, index: nat, fallbackUrl: string)
    requires SettledUrl(fallbackUrl)
    ensures NormalScenario(NormalScenario(s, index, fallbackUrl), index, fallbackUrl) ==
            NormalScenario(s, index, fallbackUrl)
  {
    hide Trim, NonEmpty, NormalAction, Digits;
    var n := NormalScenario(s, index, fallbackUrl);
    TrimTwice(s.name);
    TrimTwice(s.goal);
    TrimTwice(s.targetUrl);
    DefaultNameIsTrimmed(index + 1);
    NonEmptyTwice(s.preconditions);
    NonEmptyTwice(s.limitations);
    var again := NormalScenario(n, index, fallbackUrl);
    assert again.scenarioId == n.scenarioId;
    forall i | 0 <= i < |n.actions|
      ensures again.actions[i] == n.actions[i]
    {
      NormalActionTwice(s.actions[i], n.scenarioId + "-action-" + Digits(i + 1, false));
    }
    assert again.actions == n.actions;
  }

  lemma NormalPlanTwice(d: Plan, fallbackUrl: string)
    requires SettledUrl(fallbackUrl)
    ensures SameButRevision(NormalPlan(NormalPlan(d, fallbackUrl), fallbackUrl), NormalPlan(d, fallbackUrl))
  {
    var n := NormalPlan(d, fallbackUrl);
    var again := NormalPlan(n, fallbackUrl);
    forall i | 0 <= i < |n.scenarios|
      ensures again.scenarios[i] == n.scenarios[i]
    {
      NormalScenarioTwice(d.scenarios[i], i, fallbackUrl);
    }
    assert again.scenarios == n.scenarios;
  }

  /** Normalising is idempotent on every draft exactly when the configured fallback URL is settled. */
  lemma IdempotentIffSettled(fallbackUrl: string)
    ensures SettledUrl(fallbackUrl) <==>
            forall d: Plan :: SameButRevision(NormalPlan(NormalPlan(d, fallbackUrl), fallbackUrl),
                                              NormalPlan(d, fallbackUrl))
  {
    if SettledUrl(fallbackUrl) {
      forall d: Plan
        ensures SameButRevision(NormalPlan(NormalPlan(d, fallbackUrl), fallbackUrl), NormalPlan(d, fallbackUrl))
      {
        NormalPlanTwice(d, fallbackUrl);
      }
    } else {
      var s := Scenario("s", "", "", "", [], [], [], Finite(1.0), [], Draft, true, Manual);
      var d := EmptyPlan(ScenarioMode).(scenarios := [s]);
      var n := NormalPlan(d, fallbackUrl);
      var again := NormalPlan(n, fallbackUrl);
      assert n.scenarios[0].targetUrl == fallbackUrl;
      assert again.scenarios[0].targetUrl == Trim(fallbackUrl);
      assert !SameButRevision(again, n);
    }
  }

  /** With an unchanged source and a settled URL, saving and loading once more alters the revision alone. */
  lemma SecondSaveAltersRevisionOnly(p: Platform, c: Config, d: Plan, riskLevel: string)
    requires TrimmedUrls(p) && SettledUrl(FallbackUrl(p, c))
    requires d.mode == ScenarioMode && d.scenarios != [] && !d.sourceChanged && BuildPlan(p, c, d, riskLevel).Ok?
    ensures var saved := BuildPlan(p, c, d, riskLevel).value;
            var loaded := ReadPlan(p, saved);
            var again := BuildPlan(p, saved, loaded, riskLevel);
            && again.Ok?
            && SameButRevision(ReadPlan(p, again.value), loaded)
            && ReadPlan(p, again.value).revision == PlusOne(loaded.revision)
  {
    hide BuildPlan, ReadPlan, NormalPlan, TrimmedUrls, SettledUrl, SameButRevision, PlanErrorOf, FallbackUrl;
    var saved := BuildPlan(p, c, d, riskLevel).value;
    var loaded := NormalPlan(d, FallbackUrl(p, c));
    SaveThenLoad(p, c, d, riskLevel);
    OnlyValidSaves(p, c, d, riskLevel);
    LoadedValidIff(p, d, FallbackUrl(p, c));
    OnlyValidSaves(p, saved, loaded, riskLevel);
    NormalPlanKeeps(d, FallbackUrl(p, c));
    SaveThenLoad(p, saved, loaded, riskLevel);
    NormalPlanTwice(d, FallbackUrl(p, c));
    NormalPlanKeeps(loaded, FallbackUrl(p, c));
  }

  lemma OnlyValidSaves(p: Platform, c: Config, d: Plan, riskLevel: string)
    ensures BuildPlan(p, c, d, riskLevel).Ok? <==> PlanErrorOf(p, d).None?
  {
    hide PlanErrorOf, WithScenarios, WithoutExecution, BuildScenarios;
  }

  lemma NormalPlanKeeps(d: Plan, fallbackUrl: string)
    ensures var n := NormalPlan(d, fallbackUrl);
            n.mode == d.mode && |n.scenarios| == |d.scenarios| && n.revision == PlusOne(d.revision)
  {
  }
}
