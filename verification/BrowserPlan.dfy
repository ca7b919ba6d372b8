/**
 The browser plan of a domain configuration: reading it into a draft, checking a draft and building the configuration
 again. Configurations are untyped records, so the readers take whatever value stands in a field.
 */
module BrowserPlan {
  import opened Options
  import opened JsText

  datatype Field =
    | ActionId | ActionType | SemanticTarget | TargetHints | AssertionIntent | Url | Role | Name | Selector | Css
    | TestId | ExpectedText | TextField | Expected | Match | ValueRef | SecretRef | SourceRefs | Confidence
    | Limitations | Origin | ScenarioId | Goal | TargetUrl | Preconditions | Actions | Status | Selected
    | SchemaVersion | Revision | SourceFingerprint | SourceChanged | AcceptCurrentSource | ChangeSummary | Scenarios
    | ActualExecution | ExecutableScenarios | SemanticActions | SemanticAction | LocatorStrategy | FallbackPolicy
    | RiskLevel | PolicyRefs | Primary | Fallback | AllowCoordinateClick
    | Other(name: string)

  /** A double, without its rounding. */
  datatype Number = Finite(r: real) | Infinite(negative: bool) | NotANumber

  datatype Value = Null | Bool(b: bool) | Num(n: Number) | Text(s: string) | List(items: seq<Value>)
                 | Rec(fields: Fields)

  type Fields = map<Field, Value>

  /** What the platform decides: how numbers print, how texts read as numbers, and which texts are http(s) URLs
      without credentials. */
  datatype Platform = Platform(numeral: Number -> string, parse: string -> Number, validUrl: string -> bool)

  datatype ActionKind = Navigate | Fill | Click | AssertVisible | AssertText
  datatype ScenarioStatus = Draft | NeedsInput | Confirmed | Stale
  datatype Author = Generated | Manual | Legacy
  datatype Mode = NoExecution | Preserve | ScenarioMode

  datatype Action = Action(
    actionId: string, kind: ActionKind, url: string, role: string, name: string, selector: string, testId: string,
    expectedText: string, exact: bool, valueRef: string, secretRef: string, sourceRefs: seq<Fields>,
    confidence: Number, limitations: seq<string>, origin: Author)

  datatype Scenario = Scenario(
    scenarioId: string, name: string, goal: string, targetUrl: string, preconditions: seq<string>,
    actions: seq<Action>, sourceRefs: seq<Fields>, confidence: Number, limitations: seq<string>,
    status: ScenarioStatus, selected: bool, origin: Author)

  datatype Plan = Plan(
    mode: Mode, revision: Number, sourceFingerprint: string, sourceChanged: bool, acceptCurrentSource: bool,
    changeSummary: Fields, scenarios: seq<Scenario>)

  /** A domain configuration; only its functional record matters here. */
  datatype Config = Config(functional: Option<Fields>, others: map<string, Fields>)

  // ---------------------------------------------------------------- reading untyped values

  function Get(m: Fields, f: Field): Option<Value> {
    if f in m then Some(m[f]) else None
  }

  /** a ?? b */
  function OrElse(a: Option<Value>, b: Option<Value>): Option<Value> {
    if a.None? || a.value == Null then b else a
  }

  /** Whether a value counts as true. */
  predicate Truthy(v: Option<Value>) {
    match v
    case None => false
    case Some(Null) => false
    case Some(Bool(b)) => b
    case Some(Num(n)) => n != Finite(0.0) && n != NotANumber
    case Some(Text(s)) => s != ""
    case _ => true
  }

  /** String(value) */
  function AsText(p: Platform, v: Value): string
    decreases v
  {
    match v
    case Null => "null"
    case Bool(b) => if b then "true" else "false"
    case Num(n) => p.numeral(n)
    case Text(s) => s
    case List(items) => Joined(p, items)
    case Rec(_) => "[object Object]"
  }

  function Joined(p: Platform, items: seq<Value>): string
    decreases items
  {
    if items == [] then ""
    else
      var first := if items[0] == Null then "" else AsText(p, items[0]);
      if |items| == 1 then first else first + "," + Joined(p, items[1..])
  }

  /** Number(value) */
  function AsNumber(p: Platform, v: Value): Number {
    match v
    case Null => Finite(0.0)
    case Bool(b) => Finite(if b then 1.0 else 0.0)
    case Num(n) => n
    case Text(s) => p.parse(s)
    case List(_) => p.parse(AsText(p, v))
    case Rec(_) => NotANumber
  }

  function AsRecord(v: Option<Value>): Fields {
    if v.Some? && v.value.Rec? then v.value.fields else map[]
  }

  function AsList(v: Option<Value>): seq<Value> {
    if v.Some? && v.value.List? then v.value.items else []
  }

  /** String(a ?? b ?? ...), with a fallback text. */
  function TextOr(p: Platform, v: Option<Value>, fallback: string): string {
    if v.None? || v.value == Null then fallback else AsText(p, v.value)
  }

  /** String(a || fallback) */
  function TruthyTextOr(p: Platform, v: Option<Value>, fallback: string): string {
    if Truthy(v) then AsText(p, v.value) else fallback
  }

  function NumberOr(p: Platform, v: Option<Value>, fallback: Number): Number {
    if v.None? || v.value == Null then fallback else AsNumber(p, v.value)
  }

  function NonEmpty(texts: seq<string>): seq<string> {
    if texts == [] then [] else (if texts[0] == "" then [] else [texts[0]]) + NonEmpty(texts[1..])
  }

  function Texts(p: Platform, items: seq<Value>): seq<string> {
    if items == [] then [] else [AsText(p, items[0])] + Texts(p, items[1..])
  }

  function TextArray(p: Platform, v: Option<Value>): seq<string> {
    NonEmpty(Texts(p, AsList(v)))
  }

  function Records(items: seq<Value>): seq<Fields> {
    if items == [] then [] else (if items[0].Rec? then [items[0].fields] else []) + Records(items[1..])
  }

  function KindText(k: ActionKind): string {
    match k
    case Navigate => "navigate"
    case Fill => "fill"
    case Click => "click"
    case AssertVisible => "assert_visible"
    case AssertText => "assert_text"
  }

  function KindOf(s: string): Option<ActionKind> {
    if s == "navigate" then Some(Navigate)
    else if s == "fill" then Some(Fill)
    else if s == "click" then Some(Click)
    else if s == "assert_visible" then Some(AssertVisible)
    else if s == "assert_text" then Some(AssertText)
    else None
  }

  function ReadKind(p: Platform, v: Option<Value>): Option<ActionKind> {
    if v.None? then None else KindOf(AsText(p, v.value))
  }

  function StatusText(s: ScenarioStatus): string {
    match s
    case Draft => "draft"
    case NeedsInput => "needs_input"
    case Confirmed => "confirmed"
    case Stale => "stale"
  }

  function StatusOf(s: string): ScenarioStatus {
    if s == "needs_input" then NeedsInput
    else if s == "confirmed" then Confirmed
    else if s == "stale" then Stale
    else Draft
  }

  function ReadStatus(p: Platform, v: Option<Value>): ScenarioStatus {
    if v.None? then Draft else StatusOf(AsText(p, v.value))
  }

  function AuthorText(o: Author): string {
    match o
    case Generated => "generated"
    case Manual => "manual"
    case Legacy => "legacy"
  }

  function ReadAuthor(v: Option<Value>): Author {
    if v == Some(Text("generated")) then Generated
    else if v == Some(Text("legacy")) then Legacy
    else Manual
  }

  function ReadAction(p: Platform, v: Value, fallbackId: string): Action {
    var action := AsRecord(Some(v));
    var target := AsRecord(Get(action, SemanticTarget));
    var hints := AsRecord(Get(action, TargetHints));
    var assertion := AsRecord(Get(action, AssertionIntent));
    var kind := ReadKind(p, Get(action, ActionType));
    Action(
      TruthyTextOr(p, Get(action, ActionId), fallbackId),
      if kind.Some? then kind.value else AssertVisible,
      TextOr(p, OrElse(Get(target, Url), Get(hints, Url)), ""),
      TextOr(p, Get(target, Role), "button"),
      TextOr(p, Get(target, Name), ""),
      TextOr(p, OrElse(Get(hints, Selector), Get(hints, Css)), ""),
      TextOr(p, Get(hints, TestId), ""),
      TextOr(p, OrElse(Get(assertion, ExpectedText), OrElse(Get(assertion, TextField), Get(assertion, Expected))), ""),
      Get(assertion, Match) == Some(Text("exact")),
      TextOr(p, Get(action, ValueRef), ""),
      TextOr(p, Get(action, SecretRef), ""),
      Records(AsList(Get(action, SourceRefs))),
      NumberOr(p, Get(action, Confidence), Finite(1.0)),
      TextArray(p, Get(action, Limitations)),
      ReadAuthor(Get(action, Origin)))
  }

  function ReadActions(p: Platform, items: seq<Value>, prefix: string): seq<Action> {
    seq(|items|, i requires 0 <= i < |items| => ReadAction(p, items[i], prefix + Digits(i + 1, false)))
  }

  function ReadScenario(p: Platform, v: Value, index: nat, fallbackUrl: string): Scenario {
    var scenario := AsRecord(Some(v));
    var id := TruthyTextOr(p, Get(scenario, ScenarioId), "scenario-" + Digits(index + 1, false));
    Scenario(
      id,
      TruthyTextOr(p, Get(scenario, Name), "Scenario " + Digits(index + 1, false)),
      TruthyTextOr(p, Get(scenario, Goal), ""),
      TruthyTextOr(p, Get(scenario, TargetUrl), fallbackUrl),
      TextArray(p, Get(scenario, Preconditions)),
      ReadActions(p, AsList(Get(scenario, Actions)), id + "-action-"),
      Records(AsList(Get(scenario, SourceRefs))),
      NumberOr(p, Get(scenario, Confidence), Finite(1.0)),
      TextArray(p, Get(scenario, Limitations)),
      ReadStatus(p, Get(scenario, Status)),
      Get(scenario, Selected) != Some(Bool(false)),
      ReadAuthor(Get(scenario, Origin)))
  }

  function ReadScenarios(p: Platform, items: seq<Value>, fallbackUrl: string): seq<Scenario> {
    seq(|items|, i requires 0 <= i < |items| => ReadScenario(p, items[i], i, fallbackUrl))
  }

  function EmptyPlan(mode: Mode): Plan {
    Plan(mode, Finite(1.0), "", false, false, map[], [])
  }

  function Functional(c: Config): Fields {
    if c.functional.Some? then c.functional.value else map[]
  }

  /** The scenario records of a configuration, whatever they are. */
  function RawScenarios(c: Config): seq<Value> {
    AsList(Get(AsRecord(Get(Functional(c), ExecutableScenarios)), Scenarios))
  }

  function LegacyActions(functional: Fields): seq<Value> {
    var many := Get(functional, SemanticActions);
    var one := Get(functional, SemanticAction);
    if many.Some? && many.value.List? then many.value.items
    else if one.Some? && (one.value.Rec? || one.value.List?) then [one.value]
    else []
  }

  function LegacyScenario(p: Platform, functional: Fields): Scenario {
    Scenario(
      "legacy-browser-scenario", "Legacy browser scenario", "Preserved browser execution configuration",
      TextOr(p, OrElse(Get(functional, TargetUrl), Get(functional, Url)), ""),
      [], ReadActions(p, LegacyActions(functional), "legacy-browser-action-"), [], Finite(1.0), [], Confirmed, true,
      Legacy)
  }

  function ReadPlan(p: Platform, c: Config): Plan {
    var functional := Functional(c);
    var collection := AsRecord(Get(functional, ExecutableScenarios));
    if RawScenarios(c) != [] then
      Plan(ScenarioMode,
           NumberOr(p, Get(collection, Revision), Finite(1.0)),
           TextOr(p, Get(collection, SourceFingerprint), ""),
           Get(collection, SourceChanged) == Some(Bool(true)),
           false,
           AsRecord(Get(collection, ChangeSummary)),
           ReadScenarios(p, RawScenarios(c), TextOr(p, Get(functional, TargetUrl), "")))
    else if Get(functional, ActualExecution) == Some(Bool(true)) && LegacyActions(functional) != [] then
      if exists v :: v in LegacyActions(functional) && ReadKind(p, Get(AsRecord(Some(v)), ActionType)).None?
      then EmptyPlan(Preserve)
      else EmptyPlan(ScenarioMode).(scenarios := [LegacyScenario(p, functional)])
    else EmptyPlan(NoExecution)
  }

  // ---------------------------------------------------------------- checking a draft

  datatype PlanError = SourceNotAccepted | TargetUrlInvalid | ActionsRequired | TargetRequired | ExpectedTextRequired |
                       FillReferenceRequired

  function ActionError(a: Action): Option<PlanError> {
    if a.kind != Navigate && Trim(a.selector) == "" && Trim(a.testId) == "" && Trim(a.name) == "" then
      Some(TargetRequired)
    else if a.kind == AssertText && Trim(a.expectedText) == "" then Some(ExpectedTextRequired)
    else if a.kind == Fill && (Trim(a.valueRef) != "") == (Trim(a.secretRef) != "") then Some(FillReferenceRequired)
    else None
  }

  function ActionsError(actions: seq<Action>): Option<PlanError> {
    if actions == [] then None
    else if ActionError(actions[0]).Some? then ActionError(actions[0])
    else ActionsError(actions[1..])
  }

  function ScenarioError(p: Platform, s: Scenario): Option<PlanError> {
    if !p.validUrl(s.targetUrl) then Some(TargetUrlInvalid)
    else if s.actions == [] then Some(ActionsRequired)
    else ActionsError(s.actions)
  }

  function ConfirmedOnes(scenarios: seq<Scenario>): seq<Scenario> {
    if scenarios == [] then []
    else (if scenarios[0].status == Confirmed then [scenarios[0]] else []) + ConfirmedOnes(scenarios[1..])
  }

  function FirstError(p: Platform, scenarios: seq<Scenario>): Option<PlanError> {
    if scenarios == [] then None
    else if ScenarioError(p, scenarios[0]).Some? then ScenarioError(p, scenarios[0])
    else FirstError(p, scenarios[1..])
  }

  function PlanErrorOf(p: Platform, d: Plan): Option<PlanError> {
    if d.mode != ScenarioMode then None
    else
      var confirmed := ConfirmedOnes(d.scenarios);
      if d.sourceChanged && confirmed != [] && !d.acceptCurrentSource then Some(SourceNotAccepted)
      else FirstError(p, confirmed)
  }

  /** The scanning loops of the check. */
  method CheckActions(actions: seq<Action>) returns (error: Option<PlanError>)
    ensures error == ActionsError(actions)
  {
    var j := 0;
    assert actions[0..] == actions;
    while j < |actions|
      invariant 0 <= j <= |actions|
      invariant ActionsError(actions) == ActionsError(actions[j..])
    {
      assert actions[j..][1..] == actions[j + 1..];
      var wrong := ActionError(actions[j]);
      if wrong.Some? {
        return wrong;
      }
      j := j + 1;
    }
    return None;
  }

  method CheckPlan(p: Platform, d: Plan) returns (error: Option<PlanError>)
    ensures error == PlanErrorOf(p, d)
  {
    hide ActionsError, ConfirmedOnes;
    if d.mode != ScenarioMode {
      return None;
    }
    var confirmed := ConfirmedOnes(d.scenarios);
    if d.sourceChanged && |confirmed| > 0 && !d.acceptCurrentSource {
      return Some(SourceNotAccepted);
    }
    var i := 0;
    assert confirmed[0..] == confirmed;
    while i < |confirmed|
      invariant 0 <= i <= |confirmed|
      invariant FirstError(p, confirmed) == FirstError(p, confirmed[i..])
    {
      var scenario := confirmed[i];
      assert confirmed[i..][1..] == confirmed[i + 1..];
      if !p.validUrl(scenario.targetUrl) {
        return Some(TargetUrlInvalid);
      }
      if |scenario.actions| == 0 {
        return Some(ActionsRequired);
      }
      var wrong := CheckActions(scenario.actions);
      if wrong.Some? {
        return wrong;
      }
      i := i + 1;
    }
    return None;
  }

  // ---------------------------------------------------------------- building the configuration

  function TextList(texts: seq<string>): seq<Value> {
    if texts == [] then [] else [Text(texts[0])] + TextList(texts[1..])
  }

  function RecordList(records: seq<Fields>): seq<Value> {
    if records == [] then [] else [Rec(records[0])] + RecordList(records[1..])
  }

  /** record.field = text.trim(), unless nothing is left of it. */
  function PutTrimmed(m: Fields, f: Field, s: string): Fields {
    if Trim(s) == "" then m else m[f := Text(Trim(s))]
  }

  function BuiltTarget(a: Action): Fields {
    PutTrimmed(PutTrimmed(if a.kind == Navigate then PutTrimmed(map[], Url, a.url) else map[], Role, a.role),
               Name, a.name)
  }

  function BuiltHints(a: Action): Fields {
    PutTrimmed(PutTrimmed(map[], Selector, a.selector), TestId, a.testId)
  }

  function BuiltAssertion(a: Action): Fields {
    if a.kind == AssertText
    then map[ExpectedText := Text(a.expectedText), Match := Text(if a.exact then "exact" else "contains")]
    else map[]
  }

  function BuiltBase(a: Action, target: Fields, hints: Fields, riskLevel: string): Fields {
    map[
      SchemaVersion := Text("phase7.v1"),
      ActionId := Text(a.actionId),
      ActionType := Text(KindText(a.kind)),
      SemanticTarget := Rec(target),
      TargetHints := Rec(hints),
      LocatorStrategy := Rec(map[Primary := Text("dom"), Fallback := List([Text("accessibility")])]),
      FallbackPolicy := Rec(map[AllowCoordinateClick := Bool(false)]),
      AssertionIntent := Rec(BuiltAssertion(a)),
      RiskLevel := Text(riskLevel),
      PolicyRefs := List([]),
      SourceRefs := List(RecordList(a.sourceRefs)),
      Confidence := Num(a.confidence),
      Limitations := List(TextList(a.limitations)),
      Origin := Text(AuthorText(a.origin))
    ]
  }

  function BuildAction(a: Action, riskLevel: string): Value {
    var base := BuiltBase(a, BuiltTarget(a), BuiltHints(a), riskLevel);
    Rec(if a.kind == Fill then PutTrimmed(PutTrimmed(base, ValueRef, a.valueRef), SecretRef, a.secretRef) else base)
  }

  method AssembleTarget(a: Action) returns (semanticTarget: Fields, targetHints: Fields)
    ensures semanticTarget == BuiltTarget(a) && targetHints == BuiltHints(a)
  {
    hide Trim;
    semanticTarget, targetHints := map[], map[];
    if a.kind == Navigate && Trim(a.url) != "" {
      semanticTarget := semanticTarget[Url := Text(Trim(a.url))];
    }
    if Trim(a.role) != "" {
      semanticTarget := semanticTarget[Role := Text(Trim(a.role))];
    }
    if Trim(a.name) != "" {
      semanticTarget := semanticTarget[Name := Text(Trim(a.name))];
    }
    if Trim(a.selector) != "" {
      targetHints := targetHints[Selector := Text(Trim(a.selector))];
    }
    if Trim(a.testId) != "" {
      targetHints := targetHints[TestId := Text(Trim(a.testId))];
    }
  }

  /** The same record, filled field by field. */
  method AssembleAction(a: Action, riskLevel: string) returns (r: Value)
    ensures r == BuildAction(a, riskLevel)
  {
    hide Trim, BuiltBase, BuiltTarget, BuiltHints;
    var semanticTarget, targetHints := AssembleTarget(a);
    var built := BuiltBase(a, semanticTarget, targetHints, riskLevel);
    if a.kind == Fill && Trim(a.valueRef) != "" {
      built := built[ValueRef := Text(Trim(a.valueRef))];
    }
    if a.kind == Fill && Trim(a.secretRef) != "" {
      built := built[SecretRef := Text(Trim(a.secretRef))];
    }
    return Rec(built);
  }

  function BuildActions(actions: seq<Action>, riskLevel: string): seq<Value> {
    seq(|actions|, i requires 0 <= i < |actions| => BuildAction(actions[i], riskLevel))
  }

  function ScenarioFields(s: Scenario, actions: seq<Value>): Fields {
    map[
      ScenarioId := Text(s.scenarioId),
      Name := Text(Trim(s.name)),
      Goal := Text(Trim(s.goal)),
      TargetUrl := Text(Trim(s.targetUrl)),
      Preconditions := List(TextList(s.preconditions)),
      Actions := List(actions),
      SourceRefs := List(RecordList(s.sourceRefs)),
      Confidence := Num(s.confidence),
      Limitations := List(TextList(s.limitations)),
      Status := Text(StatusText(s.status)),
      Selected := Bool(s.selected),
      Origin := Text(AuthorText(s.origin))
    ]
  }

  function BuildScenario(s: Scenario, riskLevel: string): Value {
    Rec(ScenarioFields(s, BuildActions(s.actions, riskLevel)))
  }

  function BuildScenarios(scenarios: seq<Scenario>, riskLevel: string): seq<Value> {
    seq(|scenarios|, i requires 0 <= i < |scenarios| => BuildScenario(scenarios[i], riskLevel))
  }

  function PlusOne(n: Number): Number {
    if n.Finite? then Finite(n.r + 1.0) else n
  }

  predicate Executes(s: Scenario) {
    s.selected && s.status == Confirmed
  }

  function Collection(d: Plan, scenarios: seq<Value>): Fields {
    map[
      SchemaVersion := Text("community.executable-scenarios.v1"),
      Revision := Num(PlusOne(d.revision)),
      SourceFingerprint := Text(d.sourceFingerprint),
      SourceChanged := Bool(d.sourceChanged),
      AcceptCurrentSource := Bool(d.acceptCurrentSource),
      ChangeSummary := Rec(d.changeSummary),
      Scenarios := List(scenarios)
    ]
  }

  function WithoutExecution(functional: Fields): Fields {
    functional[ActualExecution := Bool(false)] - {ExecutableScenarios, SemanticAction, SemanticActions}
  }

  function WithScenarios(functional: Fields, d: Plan, scenarios: seq<Value>): Fields {
    functional[ActualExecution := Bool(exists s :: s in d.scenarios && Executes(s))]
              [ExecutableScenarios := Rec(Collection(d, scenarios))]
  }

  function BuildPlan(p: Platform, c: Config, d: Plan, riskLevel: string): Result<Config, PlanError> {
    var error := PlanErrorOf(p, d);
    if error.Some? then Err(error.value)
    else match d.mode
      case Preserve => Ok(c)
      case NoExecution => Ok(c.(functional := Some(WithoutExecution(Functional(c)))))
      case ScenarioMode =>
        Ok(c.(functional := Some(WithScenarios(Functional(c), d, BuildScenarios(d.scenarios, riskLevel)))))
  }

  // ---------------------------------------------------------------- what executes

  predicate ExecutesRaw(v: Value) {
    var scenario := AsRecord(Some(v));
    Get(scenario, Selected) != Some(Bool(false)) && Get(scenario, Status) == Some(Text("confirmed"))
  }

  function IdsOf(p: Platform, items: seq<Value>): seq<string> {
    if items == [] then []
    else
      (if ExecutesRaw(items[0]) && TruthyTextOr(p, Get(AsRecord(Some(items[0])), ScenarioId), "") != ""
       then [TruthyTextOr(p, Get(AsRecord(Some(items[0])), ScenarioId), "")] else [])
      + IdsOf(p, items[1..])
  }

  function ExecutableScenarioIds(p: Platform, c: Config): seq<string> {
    IdsOf(p, RawScenarios(c))
  }
}
