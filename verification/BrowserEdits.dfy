/**
 Editing a loaded browser plan. Beside the draft runs a record of what was reviewed: the content of every scenario when
 it was last confirmed, and whether that was after the latest acceptance of a changed source.
 */
module BrowserEdits {
  import opened Options
  import opened JsText
  import opened BrowserPlan

  datatype ActionUpdate =
    | SetKind(kind: ActionKind)
    | SetUrl(text: string)
    | SetRole(text: string)
    | SetElementName(text: string)
    | SetSelector(text: string)
    | SetTestId(text: string)
    | SetValueRef(text: string)
    | SetSecretRef(text: string)
    | SetExpectedText(text: string)
    | SetExact(exact: bool)
    | TakeHint(selector: string, testId: string, role: string, name: string)

  datatype Edit =
    | SetMode(mode: Mode, stamp: string, environmentUrl: string)
    | ApplySuggestion(environmentUrl: string)
    | AcceptSource(checked: bool)
    | Select(i: nat, checked: bool)
    | RemoveScenario(i: nat)
    | SetName(i: nat, text: string)
    | SetGoal(i: nat, text: string)
    | SetTargetUrl(i: nat, text: string)
    | SetPreconditions(i: nat, lines: seq<string>)
    | UpdateAction(i: nat, j: nat, update: ActionUpdate)
    | RemoveAction(i: nat, j: nat)
    | AddAction(i: nat)
    | Confirm(i: nat, checked: bool)
    | AddScenario(stamp: string, environmentUrl: string)
    | ApplyHint(hint: Fields)

  function NewAction(scenarioId: string, index: nat): Action {
    Action(scenarioId + "-action-" + Digits(index + 1, false), AssertVisible, "", "button", "", "", "", "", false, "",
           "", [], Finite(1.0), [], Manual)
  }

  /** stamp is the clock reading in the id. */
  function NewScenario(index: nat, stamp: string, targetUrl: string): Scenario {
    var id := "manual-scenario-" + stamp + "-" + Digits(index + 1, false);
    Scenario(id, "Scenario " + Digits(index + 1, false), "", targetUrl, [], [NewAction(id, 0)], [], Finite(1.0), [],
             Draft, true, Manual)
  }

  /** Replaces scenario i; without preserveStatus it falls back to a draft. */
  function UpdateScenario(d: Plan, i: nat, s: Scenario, preserveStatus: bool): Plan {
    if i >= |d.scenarios| then d
    else d.(scenarios := d.scenarios[i := if preserveStatus then s else s.(status := Draft)])
  }

  function UpdatedAction(a: Action, u: ActionUpdate): Action {
    match u
    case SetKind(kind) => a.(kind := kind)
    case SetUrl(text) => a.(url := text)
    case SetRole(text) => a.(role := text)
    case SetElementName(text) => a.(name := text)
    case SetSelector(text) => a.(selector := text)
    case SetTestId(text) => a.(testId := text)
    case SetValueRef(text) => a.(valueRef := text, secretRef := "")
    case SetSecretRef(text) => a.(secretRef := text, valueRef := "")
    case SetExpectedText(text) => a.(expectedText := text)
    case SetExact(exact) => a.(exact := exact)
    case TakeHint(selector, testId, role, name) =>
      a.(selector := selector, testId := testId, role := role, name := name)
  }

  function WithAction(d: Plan, i: nat, j: nat, u: ActionUpdate): Plan {
    if i >= |d.scenarios| then d
    else
      var s := d.scenarios[i];
      UpdateScenario(d, i, if j < |s.actions| then s.(actions := s.actions[j := UpdatedAction(s.actions[j], u)]) else s,
                     false)
  }

  function FindScenario(scenarios: seq<Scenario>, id: string): nat {
    if scenarios == [] || scenarios[0].scenarioId == id then 0 else 1 + FindScenario(scenarios[1..], id)
  }

  function FindAction(actions: seq<Action>, id: string): nat {
    if actions == [] || actions[0].actionId == id then 0 else 1 + FindAction(actions[1..], id)
  }

  /** A hint without a known scenario or action goes to the first one. */
  function HintApplied(p: Platform, d: Plan, hint: Fields): Plan {
    var found := FindScenario(d.scenarios, TextOr(p, Get(hint, ScenarioId), ""));
    var i := if found < |d.scenarios| then found else 0;
    if i >= |d.scenarios| || d.scenarios[i].actions == [] then d
    else
      var actions := d.scenarios[i].actions;
      var at := FindAction(actions, TextOr(p, Get(hint, ActionId), ""));
      var j := if at < |actions| then at else 0;
      WithAction(d, i, j, TakeHint(TextOr(p, Get(hint, Selector), ""), TextOr(p, Get(hint, TestId), ""),
                                   TextOr(p, Get(hint, Role), actions[j].role),
                                   TextOr(p, Get(hint, Name), actions[j].name)))
  }

  function Suggested(scenarios: seq<Scenario>, url: string): (r: seq<Scenario>)
    ensures |r| == |scenarios|
    ensures forall i :: 0 <= i < |r| ==>
              r[i] == if scenarios[i].targetUrl == "" then scenarios[i].(targetUrl := url, status := Draft)
                      else scenarios[i]
  {
    seq(|scenarios|, i requires 0 <= i < |scenarios| =>
      if scenarios[i].targetUrl == "" then scenarios[i].(targetUrl := url, status := Draft) else scenarios[i])
  }

  function AllDrafts(scenarios: seq<Scenario>): (r: seq<Scenario>)
    ensures |r| == |scenarios|
    ensures forall i :: 0 <= i < |r| ==> r[i] == scenarios[i].(status := Draft)
  {
    seq(|scenarios|, i requires 0 <= i < |scenarios| => scenarios[i].(status := Draft))
  }

  function TrimAll(lines: seq<string>): seq<string> {
    if lines == [] then [] else [Trim(lines[0])] + TrimAll(lines[1..])
  }

  /** What the form offers: most fields only in scenario mode, confirming not before a changed source is accepted. */
  predicate Offered(d: Plan, e: Edit) {
    match e
    case SetMode(mode, _, _) => mode != Preserve || d.mode == Preserve
    case ApplySuggestion(url) => d.mode == ScenarioMode && url != ""
    case AcceptSource(_) => d.mode == ScenarioMode && d.sourceChanged
    case Confirm(i, _) => d.mode == ScenarioMode && i < |d.scenarios| && !(d.sourceChanged && !d.acceptCurrentSource)
    case AddScenario(_, _) => d.mode == ScenarioMode
    case ApplyHint(_) => d.mode == ScenarioMode
    case _ => d.mode == ScenarioMode && e.i < |d.scenarios|
  }

  function Edited(p: Platform, d: Plan, e: Edit): Plan {
    if !Offered(d, e) then d
    else match e
      case SetMode(mode, stamp, url) =>
        d.(mode := mode, scenarios := if mode == ScenarioMode && d.scenarios == [] then [NewScenario(0, stamp, url)]
                                      else d.scenarios)
      case ApplySuggestion(url) => d.(scenarios := Suggested(d.scenarios, url))
      case AcceptSource(checked) =>
        d.(acceptCurrentSource := checked, scenarios := if checked then AllDrafts(d.scenarios) else d.scenarios)
      case Select(i, checked) => UpdateScenario(d, i, d.scenarios[i].(selected := checked), true)
      case RemoveScenario(i) => d.(scenarios := d.scenarios[..i] + d.scenarios[i + 1..])
      case SetName(i, text) => UpdateScenario(d, i, d.scenarios[i].(name := text), false)
      case SetGoal(i, text) => UpdateScenario(d, i, d.scenarios[i].(goal := text), false)
      case SetTargetUrl(i, text) => UpdateScenario(d, i, d.scenarios[i].(targetUrl := text), false)
      case SetPreconditions(i, lines) =>
        UpdateScenario(d, i, d.scenarios[i].(preconditions := NonEmpty(TrimAll(lines))), false)
      case UpdateAction(i, j, u) => WithAction(d, i, j, u)
      case RemoveAction(i, j) =>
        var s := d.scenarios[i];
        UpdateScenario(d, i, if j < |s.actions| then s.(actions := s.actions[..j] + s.actions[j + 1..]) else s, false)
      case AddAction(i) =>
        var s := d.scenarios[i];
        UpdateScenario(d, i, s.(actions := s.actions + [NewAction(s.scenarioId, |s.actions|)]), false)
      case Confirm(i, checked) =>
        UpdateScenario(d, i, d.scenarios[i].(status := if checked then Confirmed else Draft), true)
      case AddScenario(stamp, url) =>
        d.(mode := ScenarioMode, scenarios := d.scenarios + [NewScenario(|d.scenarios|, stamp, url)])
      case ApplyHint(hint) => HintApplied(p, d, hint)
  }

  // ---------------------------------------------------------------- what was reviewed

  /** Everything of a scenario but its status and its selection. */
  function Content(s: Scenario): Scenario {
    s.(status := Draft, selected := true)
  }

  datatype Review = Review(content: Option<Scenario>, sinceAcceptance: bool)

  datatype Session = Session(draft: Plan, reviews: seq<Review>)

  function Unaccepted(reviews: seq<Review>): (r: seq<Review>)
    ensures |r| == |reviews|
    ensures forall i :: 0 <= i < |r| ==> r[i] == reviews[i].(sinceAcceptance := false)
  {
    seq(|reviews|, i requires 0 <= i < |reviews| => reviews[i].(sinceAcceptance := false))
  }

  /** The review record moves with its scenario; confirming writes it and accepting a source dates it back. */
  function Reviewed(s: Session, e: Edit): seq<Review>
    requires |s.reviews| == |s.draft.scenarios|
  {
    if !Offered(s.draft, e) then s.reviews
    else match e
      case SetMode(mode, _, _) =>
        if mode == ScenarioMode && s.draft.scenarios == [] then [Review(None, false)] else s.reviews
      case AcceptSource(checked) => if checked then Unaccepted(s.reviews) else s.reviews
      case RemoveScenario(i) => s.reviews[..i] + s.reviews[i + 1..]
      case Confirm(i, checked) =>
        if checked then s.reviews[i := Review(Some(Content(s.draft.scenarios[i])), true)] else s.reviews
      case AddScenario(_, _) => s.reviews + [Review(None, false)]
      case _ => s.reviews
  }

  /** A plan loaded as confirmed counts as reviewed in the form it was loaded in. */
  function LoadedReviews(scenarios: seq<Scenario>): (r: seq<Review>)
    ensures |r| == |scenarios|
    ensures forall i :: 0 <= i < |r| ==>
              r[i] == Review(if scenarios[i].status == Confirmed then Some(Content(scenarios[i])) else None, false)
  {
    seq(|scenarios|, i requires 0 <= i < |scenarios| =>
      Review(if scenarios[i].status == Confirmed then Some(Content(scenarios[i])) else None, false))
  }

  function Load(p: Platform, c: Config): Session {
    var draft := ReadPlan(p, c);
    Session(draft, LoadedReviews(draft.scenarios))
  }

  ghost predicate ReviewedAt(d: Plan, s: Scenario, r: Review) {
    s.status == Confirmed ==>
      r.content == Some(Content(s)) && (d.sourceChanged && d.acceptCurrentSource ==> r.sinceAcceptance)
  }

  ghost predicate SessionInv(c: Config, s: Session) {
    && |s.reviews| == |s.draft.scenarios|
    && (forall i :: 0 <= i < |s.reviews| ==> ReviewedAt(s.draft, s.draft.scenarios[i], s.reviews[i]))
    && (s.draft.mode == Preserve ==> RawScenarios(c) == [])
  }

  function AfterEdits(p: Platform, c: Config, edits: seq<Edit>): (s: Session)
    ensures |s.reviews| == |s.draft.scenarios|
  {
    if edits == [] then Load(p, c)
    else
      var before := AfterEdits(p, c, edits[..|edits| - 1]);
      var e := edits[|edits| - 1];
      KeepsLength(p, before, e);
      Session(Edited(p, before.draft, e), Reviewed(before, e))
  }

  lemma KeepsLength(p: Platform, s: Session, e: Edit)
    requires |s.reviews| == |s.draft.scenarios|
    ensures |Reviewed(s, e)| == |Edited(p, s.draft, e).scenarios|
  {
  }

  /** An edit of one scenario that makes it a draft, or changes its selection alone, keeps all reviews good. */
  lemma OneScenario(c: Config, s: Session, i: nat, after: Scenario)
    requires SessionInv(c, s) && i < |s.draft.scenarios|
    requires after.status == Draft
             || (after.status == s.draft.scenarios[i].status && Content(after) == Content(s.draft.scenarios[i]))
    ensures SessionInv(c, s.(draft := s.draft.(scenarios := s.draft.scenarios[i := after])))
  {
    assert ReviewedAt(s.draft, s.draft.scenarios[i], s.reviews[i]);
    forall k | 0 <= k < |s.reviews|
      ensures ReviewedAt(s.draft, s.draft.scenarios[i := after][k], s.reviews[k])
    {
      assert ReviewedAt(s.draft, s.draft.scenarios[k], s.reviews[k]);
    }
  }

  lemma ContentEditKeepsInv(p: Platform, c: Config, s: Session, e: Edit)
    requires SessionInv(c, s) && Offered(s.draft, e)
    requires e.Select? || e.SetName? || e.SetGoal? || e.SetTargetUrl? || e.SetPreconditions? || e.UpdateAction?
             || e.RemoveAction? || e.AddAction?
    ensures SessionInv(c, Session(Edited(p, s.draft, e), Reviewed(s, e)))
  {
    OneScenario(c, s, e.i, Edited(p, s.draft, e).scenarios[e.i]);
  }

  lemma HintKeepsInv(p: Platform, c: Config, s: Session, hint: Fields)
    requires SessionInv(c, s)
    ensures SessionInv(c, s.(draft := HintApplied(p, s.draft, hint)))
  {
    var found := FindScenario(s.draft.scenarios, TextOr(p, Get(hint, ScenarioId), ""));
    var i := if found < |s.draft.scenarios| then found else 0;
    if i < |s.draft.scenarios| && s.draft.scenarios[i].actions != [] {
      OneScenario(c, s, i, HintApplied(p, s.draft, hint).scenarios[i]);
    }
  }

  lemma ConfirmKeepsInv(p: Platform, c: Config, s: Session, e: Edit)
    requires SessionInv(c, s) && Offered(s.draft, e) && e.Confirm?
    ensures SessionInv(c, Session(Edited(p, s.draft, e), Reviewed(s, e)))
  {
    var s' := Session(Edited(p, s.draft, e), Reviewed(s, e));
    forall k | 0 <= k < |s'.reviews|
      ensures ReviewedAt(s'.draft, s'.draft.scenarios[k], s'.reviews[k])
    {
      assert ReviewedAt(s.draft, s.draft.scenarios[k], s.reviews[k]);
    }
  }

  lemma ListEditKeepsInv(p: Platform, c: Config, s: Session, e: Edit)
    requires SessionInv(c, s) && Offered(s.draft, e)
    requires e.SetMode? || e.ApplySuggestion? || e.AcceptSource? || e.RemoveScenario? || e.AddScenario?
    ensures SessionInv(c, Session(Edited(p, s.draft, e), Reviewed(s, e)))
  {
    var s' := Session(Edited(p, s.draft, e), Reviewed(s, e));
    KeepsLength(p, s, e);
    forall k | 0 <= k < |s'.reviews|
      ensures ReviewedAt(s'.draft, s'.draft.scenarios[k], s'.reviews[k])
    {
      if e.RemoveScenario? {
        var from := if k < e.i then k else k + 1;
        assert ReviewedAt(s.draft, s.draft.scenarios[from], s.reviews[from]);
      } else if k < |s.reviews| {
        assert ReviewedAt(s.draft, s.draft.scenarios[k], s.reviews[k]);
      }
    }
  }

  lemma {:induction false} EveryEditIsReviewed(p: Platform, c: Config, edits: seq<Edit>)
    ensures SessionInv(c, AfterEdits(p, c, edits))
  {
    if edits != [] {
      var init, e := edits[..|edits| - 1], edits[|edits| - 1];
      var s := AfterEdits(p, c, init);
      EveryEditIsReviewed(p, c, init);
      if Offered(s.draft, e) {
        match e
        case Confirm(_, _) => ConfirmKeepsInv(p, c, s, e);
        case ApplyHint(hint) => HintKeepsInv(p, c, s, hint);
        case SetMode(_, _, _) => ListEditKeepsInv(p, c, s, e);
        case ApplySuggestion(_) => ListEditKeepsInv(p, c, s, e);
        case AcceptSource(_) => ListEditKeepsInv(p, c, s, e);
        case RemoveScenario(_) => ListEditKeepsInv(p, c, s, e);
        case AddScenario(_, _) => ListEditKeepsInv(p, c, s, e);
        case _ => ContentEditKeepsInv(p, c, s, e);
      }
    }
  }
}
