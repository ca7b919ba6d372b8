/**
 What a browser plan reader and writer mean for a configuration that was not written by them: which field wins, what is
 taken for unknown values, when an old configuration is kept unread, what is a fault and what a save leaves alone.
 */
module BrowserMeaning {
  import opened Options
  import opened JsText
  import opened BrowserPlan
  import opened BrowserRoundTrip

  // ---------------------------------------------------------------- which field wins

  /** A field that is there and not null. */
  predicate Present(m: Fields, f: Field) {
    f in m && m[f] != Null
  }

  /** The text of the first of the fields that is present. */
  function FirstPresent(p: Platform, places: seq<(Fields, Field)>, fallback: string): string {
    if places == [] then fallback
    else if Present(places[0].0, places[0].1) then AsText(p, places[0].0[places[0].1])
    else FirstPresent(p, places[1..], fallback)
  }

  /** A record in a field, or an empty one. */
  function RecordIn(m: Fields, f: Field): Fields {
    if f in m && m[f].Rec? then m[f].fields else map[]
  }

  lemma FirstOfOne(p: Platform, m: Fields, f: Field, fallback: string)
    ensures TextOr(p, Get(m, f), fallback) == FirstPresent(p, [(m, f)], fallback)
  {
    assert [(m, f)][1..] == [];
  }

  lemma FirstOfTwo(p: Platform, m: Fields, f: Field, n: Fields, g: Field, fallback: string)
    ensures TextOr(p, OrElse(Get(m, f), Get(n, g)), fallback) == FirstPresent(p, [(m, f), (n, g)], fallback)
  {
    assert [(m, f), (n, g)][1..] == [(n, g)];
    FirstOfOne(p, n, g, fallback);
  }

  lemma FirstOfThree(p: Platform, m: Fields, f: Field, g: Field, h: Field, fallback: string)
    ensures TextOr(p, OrElse(Get(m, f), OrElse(Get(m, g), Get(m, h))), fallback) ==
            FirstPresent(p, [(m, f), (m, g), (m, h)], fallback)
  {
    assert [(m, f), (m, g), (m, h)][1..] == [(m, g), (m, h)];
    FirstOfTwo(p, m, g, m, h, fallback);
  }

  /** An action of a foreign configuration: each text comes from the first of its fields that is there. */
  lemma ActionTexts(p: Platform, m: Fields, fallbackId: string)
    ensures var target, hints := RecordIn(m, SemanticTarget), RecordIn(m, TargetHints);
            var a, said := ReadAction(p, Rec(m), fallbackId), RecordIn(m, AssertionIntent);
            && a.url == FirstPresent(p, [(target, Url), (hints, Url)], "")
            && a.role == FirstPresent(p, [(target, Role)], "button")
            && a.name == FirstPresent(p, [(target, Name)], "")
            && a.selector == FirstPresent(p, [(hints, Selector), (hints, Css)], "")
            && a.testId == FirstPresent(p, [(hints, TestId)], "")
            && a.expectedText == FirstPresent(p, [(said, ExpectedText), (said, TextField), (said, Expected)], "")
            && a.valueRef == FirstPresent(p, [(m, ValueRef)], "")
            && a.secretRef == FirstPresent(p, [(m, SecretRef)], "")
            && (a.exact <==> Match in said && said[Match] == Text("exact"))
  {
    hide AsText;
    var target, hints := RecordIn(m, SemanticTarget), RecordIn(m, TargetHints);
    var said := RecordIn(m, AssertionIntent);
    FirstOfTwo(p, target, Url, hints, Url, "");
    FirstOfTwo(p, hints, Selector, hints, Css, "");
    FirstOfThree(p, said, ExpectedText, TextField, Expected, "");
    FirstOfOne(p, target, Role, "button");
    FirstOfOne(p, target, Name, "");
    FirstOfOne(p, hints, TestId, "");
    FirstOfOne(p, m, ValueRef, "");
    FirstOfOne(p, m, SecretRef, "");
  }

  const KINDS := ["navigate", "fill", "click", "assert_visible", "assert_text"]
  const STATUSES := ["draft", "needs_input", "confirmed", "stale"]

  /** An unknown kind is read as a visibility check, any other as the kind it names. */
  lemma KindIsRead(p: Platform, m: Fields, fallbackId: string)
    ensures var a := ReadAction(p, Rec(m), fallbackId);
            if ActionType in m && AsText(p, m[ActionType]) in KINDS then KindText(a.kind) == AsText(p, m[ActionType])
            else a.kind == AssertVisible
  {
    hide AsText;
  }

  /** An unknown status is a draft; a scenario is selected unless it says false; an unknown author is the user. */
  lemma StatusIsRead(p: Platform, m: Fields, index: nat, fallbackUrl: string)
    ensures var s := ReadScenario(p, Rec(m), index, fallbackUrl);
            && (if Status in m && AsText(p, m[Status]) in STATUSES then StatusText(s.status) == AsText(p, m[Status])
                else s.status == Draft)
            && (s.selected <==> !(Selected in m && m[Selected] == Bool(false)))
            && (if Origin in m && m[Origin] in [Text("generated"), Text("legacy")]
                then Text(AuthorText(s.origin)) == m[Origin] else s.origin == Manual)
  {
    hide AsText, ReadActions, TextArray;
  }

  /** Absent, null, false, zero, not a number or the empty text. */
  predicate Falsy(m: Fields, f: Field) {
    f !in m || m[f] in [Null, Bool(false), Num(Finite(0.0)), Num(NotANumber), Text("")]
  }

  function TruthyText(p: Platform, m: Fields, f: Field, fallback: string): string {
    if Falsy(m, f) then fallback else AsText(p, m[f])
  }

  /** The texts of a scenario; the ids of its actions are built from its own. */
  lemma ScenarioTexts(p: Platform, m: Fields, index: nat, fallbackUrl: string)
    ensures var s := ReadScenario(p, Rec(m), index, fallbackUrl);
            && s.scenarioId == TruthyText(p, m, ScenarioId, "scenario-" + Digits(index + 1, false))
            && s.name == TruthyText(p, m, Name, "Scenario " + Digits(index + 1, false))
            && s.goal == TruthyText(p, m, Goal, "")
            && s.targetUrl == TruthyText(p, m, TargetUrl, fallbackUrl)
            && (if Actions in m && m[Actions].List? then
                  && |s.actions| == |m[Actions].items|
                  && forall i :: 0 <= i < |s.actions| ==>
                       s.actions[i] == ReadAction(p, m[Actions].items[i],
                                                  s.scenarioId + "-action-" + Digits(i + 1, false))
                else s.actions == [])
  {
    hide AsText, ReadAction, TextArray;
  }

  lemma ActionIdIsRead(p: Platform, m: Fields, fallbackId: string)
    ensures ReadAction(p, Rec(m), fallbackId).actionId == TruthyText(p, m, ActionId, fallbackId)
  {
    hide AsText, TextArray;
  }

  /** Of a list of texts the non-empty ones are kept, in order. */
  lemma {:induction false} TextsAreKept(texts: seq<string>) returns (at: seq<nat>)
    ensures forall m, n :: 0 <= m < n < |at| ==> at[m] < at[n]
    ensures forall i :: 0 <= i < |texts| ==> (i in at <==> texts[i] != "")
    ensures |at| == |NonEmpty(texts)|
    ensures forall n :: 0 <= n < |at| ==> at[n] < |texts| && NonEmpty(texts)[n] == texts[at[n]]
  {
    if texts == [] {
      at := [];
    } else {
      var init, last := texts[..|texts| - 1], texts[|texts| - 1];
      at := TextsAreKept(init);
      assert texts == init + [last];
      NonEmptyConcat(init, [last]);
      assert [last][1..] == [];
      if last != "" {
        at := at + [|init|];
      }
    }
  }

  lemma {:induction false} NonEmptyConcat(a: seq<string>, b: seq<string>)
    ensures NonEmpty(a + b) == NonEmpty(a) + NonEmpty(b)
  {
    if a == [] {
      assert a + b == b;
    } else {
      assert (a + b)[1..] == a[1..] + b;
      NonEmptyConcat(a[1..], b);
    }
  }

  /** Of a list of references the records are kept, in order. */
  lemma {:induction false} RecordsAreKept(items: seq<Value>) returns (at: seq<nat>)
    ensures forall m, n :: 0 <= m < n < |at| ==> at[m] < at[n]
    ensures forall i :: 0 <= i < |items| ==> (i in at <==> items[i].Rec?)
    ensures |at| == |Records(items)|
    ensures forall n :: 0 <= n < |at| ==> at[n] < |items| && items[at[n]] == Rec(Records(items)[n])
  {
    if items == [] {
      at := [];
    } else {
      var init, last := items[..|items| - 1], items[|items| - 1];
      at := RecordsAreKept(init);
      assert items == init + [last];
      RecordsConcat(init, [last]);
      assert [last][1..] == [];
      if last.Rec? {
        at := at + [|init|];
      }
    }
  }

  lemma Associative<T>(x: seq<T>, y: seq<T>, z: seq<T>)
    ensures x + (y + z) == x + y + z
  {
  }

  lemma {:induction false} RecordsConcat(a: seq<Value>, b: seq<Value>)
    ensures Records(a + b) == Records(a) + Records(b)
  {
    if a == [] {
      assert a + b == b;
    } else {
      RecordsConcat(a[1..], b);
      var first := if a[0].Rec? then [a[0].fields] else [];
      assert (a + b)[0] == a[0] && (a + b)[1..] == a[1..] + b;
      assert Records(a + b) == first + Records(a[1..] + b);
      Associative(first, Records(a[1..]), Records(b));
    }
  }

  // ---------------------------------------------------------------- what a foreign configuration executes

  /** A record that is not deselected, confirmed and has an id. */
  ghost predicate NamesRun(v: Value) {
    && v.Rec? && !(Selected in v.fields && v.fields[Selected] == Bool(false))
    && Status in v.fields && v.fields[Status] == Text("confirmed") && !Falsy(v.fields, ScenarioId)
  }

  /** The ids to execute, in order: those of the confirmed records and no others, unless an id prints as nothing. */
  lemma {:induction false} IdsInOrder(p: Platform, items: seq<Value>) returns (at: seq<nat>)
    ensures forall m, n :: 0 <= m < n < |at| ==> at[m] < at[n]
    ensures forall i :: 0 <= i < |items| ==>
              (i in at <==> NamesRun(items[i]) && AsText(p, items[i].fields[ScenarioId]) != "")
    ensures |at| == |IdsOf(p, items)|
    ensures forall n :: 0 <= n < |at| ==>
              && at[n] < |items| && NamesRun(items[at[n]])
              && IdsOf(p, items)[n] == AsText(p, items[at[n]].fields[ScenarioId])
  {
    hide AsText, IdsOf;
    if items == [] {
      at := [];
      NoIds(p);
    } else {
      var init, last := items[..|items| - 1], items[|items| - 1];
      at := IdsInOrder(p, init);
      assert items == init + [last];
      IdsConcat(p, init, [last]);
      IdOfOne(p, last);
      if NamesRun(last) && AsText(p, last.fields[ScenarioId]) != "" {
        at := at + [|init|];
      }
    }
  }

  lemma NoIds(p: Platform)
    ensures IdsOf(p, []) == []
  {
  }

  lemma IdOfOne(p: Platform, v: Value)
    ensures IdsOf(p, [v]) == if NamesRun(v) && AsText(p, v.fields[ScenarioId]) != ""
                             then [AsText(p, v.fields[ScenarioId])] else []
  {
    hide AsText;
    assert [v][1..] == [];
  }

  lemma {:induction false} IdsConcat(p: Platform, a: seq<Value>, b: seq<Value>)
    ensures IdsOf(p, a + b) == IdsOf(p, a) + IdsOf(p, b)
  {
    hide AsText, ExecutesRaw, TruthyTextOr;
    if a == [] {
      assert a + b == b;
    } else {
      assert (a + b)[1..] == a[1..] + b;
      IdsConcat(p, a[1..], b);
    }
  }

  // ---------------------------------------------------------------- how a configuration is taken

  /** Scenario records in the collection of a configuration. */
  ghost predicate HasScenarios(c: Config) {
    && c.functional.Some? && ExecutableScenarios in c.functional.value
    && c.functional.value[ExecutableScenarios].Rec?
    && var collection := c.functional.value[ExecutableScenarios].fields;
       Scenarios in collection && collection[Scenarios].List? && collection[Scenarios].items != []
  }

  /** The action of an old configuration has one of the known kinds. */
  ghost predicate Supported(p: Platform, v: Value) {
    v.Rec? && ActionType in v.fields && AsText(p, v.fields[ActionType]) in KINDS
  }

  /** The actions of an old configuration: a list, or else one record (or list) on its own. */
  ghost predicate OldActions(functional: Fields, actions: seq<Value>) {
    if SemanticActions in functional && functional[SemanticActions].List?
    then actions == functional[SemanticActions].items
    else if SemanticAction in functional && (functional[SemanticAction].Rec? || functional[SemanticAction].List?)
    then actions == [functional[SemanticAction]]
    else actions == []
  }

  ghost predicate ActuallyExecutes(c: Config) {
    && c.functional.Some? && ActualExecution in c.functional.value
    && c.functional.value[ActualExecution] == Bool(true)
  }

  lemma UnsupportedIff(p: Platform, v: Value)
    ensures ReadKind(p, Get(AsRecord(Some(v)), ActionType)).None? <==> !Supported(p, v)
  {
    hide AsText;
  }

  lemma RawScenariosIff(c: Config)
    ensures RawScenarios(c) != [] <==> HasScenarios(c)
  {
  }

  /**
   Scenario records win. Without them an old configuration that executes is kept unread as soon as one of its actions
   has an unknown kind, else it becomes one confirmed scenario; everything else has no execution.
   */
  lemma HowAPlanIsTaken(p: Platform, c: Config, actions: seq<Value>)
    requires OldActions(if c.functional.Some? then c.functional.value else map[], actions)
    ensures var d := ReadPlan(p, c);
            && (HasScenarios(c) ==>
                  && d.mode == ScenarioMode && !d.acceptCurrentSource
                  && |d.scenarios| ==
                     |c.functional.value[ExecutableScenarios].fields[Scenarios].items|)
            && (!HasScenarios(c) ==>
                  && d == EmptyPlan(d.mode).(scenarios := d.scenarios)
                  && (d.mode == NoExecution <==> !ActuallyExecutes(c) || actions == [])
                  && (d.mode == Preserve <==>
                        ActuallyExecutes(c) && exists i :: 0 <= i < |actions| && !Supported(p, actions[i]))
                  && (d.mode == ScenarioMode <==>
                        ActuallyExecutes(c) && actions != []
                        && forall i :: 0 <= i < |actions| ==> Supported(p, actions[i]))
                  && |d.scenarios| == if d.mode == ScenarioMode then 1 else 0)
  {
    hide AsText, Supported, ReadScenarios, ReadKind, LegacyScenario;
    RawScenariosIff(c);
    var functional := Functional(c);
    assert LegacyActions(functional) == actions;
    forall v
      ensures ReadKind(p, Get(AsRecord(Some(v)), ActionType)).None? <==> !Supported(p, v)
    {
      UnsupportedIff(p, v);
    }
    assert forall i :: 0 <= i < |actions| ==> actions[i] in actions;
    ScenariosRead(p, RawScenarios(c), TextOr(p, Get(functional, TargetUrl), ""));
  }

  lemma ScenariosRead(p: Platform, items: seq<Value>, fallbackUrl: string)
    ensures |ReadScenarios(p, items, fallbackUrl)| == |items|
    ensures forall i :: 0 <= i < |items| ==>
              ReadScenarios(p, items, fallbackUrl)[i] == ReadScenario(p, items[i], i, fallbackUrl)
  {
    hide ReadScenario;
  }

  /** The one scenario of an old configuration: confirmed and selected, its actions read in their order. */
  lemma OldScenario(p: Platform, c: Config, actions: seq<Value>)
    requires !HasScenarios(c) && ReadPlan(p, c).mode == ScenarioMode && OldActions(c.functional.value, actions)
    requires c.functional.Some?
    ensures var d := ReadPlan(p, c);
            && |d.scenarios| == 1
            && var s := d.scenarios[0];
               && s.scenarioId == "legacy-browser-scenario" && s.status == Confirmed && s.selected && s.origin == Legacy
               && s.targetUrl == FirstPresent(p, [(c.functional.value, TargetUrl), (c.functional.value, Url)], "")
               && |s.actions| == |actions| > 0
               && forall i :: 0 <= i < |actions| ==>
                    s.actions[i] == ReadAction(p, actions[i], "legacy-browser-action-" + Digits(i + 1, false))
  {
    hide AsText, ReadScenarios, ReadAction;
    RawScenariosIff(c);
    FirstOfTwo(p, c.functional.value, TargetUrl, c.functional.value, Url, "");
  }

  /** What the plan says of itself beside its scenarios; an acceptance is never loaded. */
  lemma HeaderIsRead(p: Platform, c: Config)
    ensures var d := ReadPlan(p, c);
            && !d.acceptCurrentSource
            && (HasScenarios(c) ==>
                  var m := c.functional.value[ExecutableScenarios].fields;
                  && d.revision == (if Present(m, Revision) then AsNumber(p, m[Revision]) else Finite(1.0))
                  && d.sourceFingerprint == FirstPresent(p, [(m, SourceFingerprint)], "")
                  && (d.sourceChanged <==> SourceChanged in m && m[SourceChanged] == Bool(true))
                  && d.changeSummary == RecordIn(m, ChangeSummary))
            && (!HasScenarios(c) ==>
                  && d.revision == Finite(1.0) && d.sourceFingerprint == ""
                  && !d.sourceChanged && d.changeSummary == map[])
  {
    hide AsText, AsNumber, LegacyScenario, ReadScenarios, ReadKind;
    RawScenariosIff(c);
    if HasScenarios(c) {
      FirstOfOne(p, c.functional.value[ExecutableScenarios].fields, SourceFingerprint, "");
    }
  }

  // ---------------------------------------------------------------- faults

  /** A text with a visible character. */
  predicate Visible(s: string) {
    !AllBlank(s)
  }

  /** Every action but navigation names its target, a text check its text, and a fill one of its two references. */
  predicate SoundAction(a: Action) {
    && (a.kind != Navigate ==> Visible(a.selector) || Visible(a.testId) || Visible(a.name))
    && (a.kind == AssertText ==> Visible(a.expectedText))
    && (a.kind == Fill ==> Visible(a.valueRef) != Visible(a.secretRef))
  }

  ghost predicate SoundScenario(p: Platform, s: Scenario) {
    p.validUrl(s.targetUrl) && s.actions != [] && forall i :: 0 <= i < |s.actions| ==> SoundAction(s.actions[i])
  }

  lemma SoundActionIff(a: Action)
    ensures ActionError(a).None? <==> SoundAction(a)
    ensures ActionError(a) == Some(TargetRequired) <==>
              a.kind != Navigate && !Visible(a.selector) && !Visible(a.testId) && !Visible(a.name)
    ensures ActionError(a) == Some(ExpectedTextRequired) ==> a.kind == AssertText && !Visible(a.expectedText)
    ensures ActionError(a) == Some(FillReferenceRequired) ==>
              a.kind == Fill && Visible(a.valueRef) == Visible(a.secretRef)
  {
    hide Trim, AllBlank;
    TrimsToNothing(a.selector);
    TrimsToNothing(a.testId);
    TrimsToNothing(a.name);
    TrimsToNothing(a.expectedText);
    TrimsToNothing(a.valueRef);
    TrimsToNothing(a.secretRef);
  }

  lemma {:induction false} FirstActionFault(actions: seq<Action>) returns (k: nat)
    ensures k <= |actions| && forall i :: 0 <= i < k ==> SoundAction(actions[i])
    ensures k < |actions| ==> !SoundAction(actions[k]) && ActionsError(actions) == ActionError(actions[k])
    ensures k == |actions| <==> ActionsError(actions).None?
  {
    hide ActionError, SoundAction;
    if actions == [] {
      k := 0;
    } else {
      SoundActionIff(actions[0]);
      if SoundAction(actions[0]) {
        var n := FirstActionFault(actions[1..]);
        k := n + 1;
        assert actions == [actions[0]] + actions[1..];
      } else {
        k := 0;
      }
    }
  }

  lemma SoundScenarioIff(p: Platform, s: Scenario)
    ensures ScenarioError(p, s).None? <==> SoundScenario(p, s)
  {
    hide SoundAction;
    var k := FirstActionFault(s.actions);
  }

  /** The error of a scenario: its URL first, then the missing actions, then the first faulty action's. */
  lemma ScenarioFault(p: Platform, s: Scenario) returns (k: nat)
    requires !SoundScenario(p, s)
    ensures !p.validUrl(s.targetUrl) ==> ScenarioError(p, s) == Some(TargetUrlInvalid)
    ensures p.validUrl(s.targetUrl) && s.actions == [] ==> ScenarioError(p, s) == Some(ActionsRequired)
    ensures p.validUrl(s.targetUrl) && s.actions != [] ==>
              && k < |s.actions| && (forall i :: 0 <= i < k ==> SoundAction(s.actions[i]))
              && !SoundAction(s.actions[k]) && ScenarioError(p, s) == ActionError(s.actions[k])
  {
    hide SoundAction, ActionError;
    k := FirstActionFault(s.actions);
  }

  /** A draft has no error exactly if every confirmed scenario is sound and the source is settled. */
  lemma NoPlanErrorIff(p: Platform, d: Plan)
    ensures PlanErrorOf(p, d).None? <==>
            d.mode == ScenarioMode ==>
              forall i :: 0 <= i < |d.scenarios| && d.scenarios[i].status == Confirmed ==>
                SoundScenario(p, d.scenarios[i]) && (d.sourceChanged ==> d.acceptCurrentSource)
  {
    hide ScenarioError, SoundScenario;
    NoErrorMeaning(p, d.scenarios);
    forall s
      ensures ScenarioError(p, s).None? <==> SoundScenario(p, s)
    {
      SoundScenarioIff(p, s);
    }
  }

  /** Otherwise the error is that of the unsettled source, or of the first confirmed scenario that is not sound. */
  lemma {:induction false} FirstFault(p: Platform, scenarios: seq<Scenario>) returns (k: nat)
    ensures k <= |scenarios|
    ensures forall i :: 0 <= i < k && scenarios[i].status == Confirmed ==> SoundScenario(p, scenarios[i])
    ensures k == |scenarios| ==> FirstError(p, ConfirmedOnes(scenarios)) == None
    ensures k < |scenarios| ==>
              && scenarios[k].status == Confirmed && !SoundScenario(p, scenarios[k])
              && FirstError(p, ConfirmedOnes(scenarios)) == ScenarioError(p, scenarios[k])
  {
    hide ScenarioError, SoundScenario;
    if scenarios == [] {
      k := 0;
    } else {
      SoundScenarioIff(p, scenarios[0]);
      assert scenarios == [scenarios[0]] + scenarios[1..];
      var rest := ConfirmedOnes(scenarios[1..]);
      if scenarios[0].status == Confirmed {
        assert ConfirmedOnes(scenarios)[0] == scenarios[0] && ConfirmedOnes(scenarios)[1..] == rest;
      } else {
        assert ConfirmedOnes(scenarios) == rest;
      }
      if scenarios[0].status == Confirmed && !SoundScenario(p, scenarios[0]) {
        k := 0;
      } else {
        var n := FirstFault(p, scenarios[1..]);
        k := n + 1;
      }
    }
  }

  // ---------------------------------------------------------------- what a save leaves alone

  /** Only the functional record changes, and of it only the fields of the execution. */
  lemma SaveKeepsTheRest(p: Platform, c: Config, d: Plan, riskLevel: string)
    requires BuildPlan(p, c, d, riskLevel).Ok?
    ensures var saved := BuildPlan(p, c, d, riskLevel).value;
            && saved.others == c.others
            && (d.mode == Preserve ==> saved == c)
            && (d.mode != Preserve ==>
                  && saved.functional.Some?
                  && forall f ::
                       f !in {ActualExecution, ExecutableScenarios, SemanticAction, SemanticActions} ==>
                         (f in Functional(c) <==> f in saved.functional.value)
                         && (f in Functional(c) ==> saved.functional.value[f] == Functional(c)[f]))
  {
    hide PlanErrorOf, BuildScenarios, Collection;
  }

  predicate SomethingRuns(scenarios: seq<Scenario>) {
    exists i :: 0 <= i < |scenarios| && scenarios[i].selected && scenarios[i].status == Confirmed
  }

  /** Without execution its records are gone; with scenarios the older two stay, and the switch says if one runs. */
  lemma SavedExecution(p: Platform, c: Config, d: Plan, riskLevel: string)
    requires BuildPlan(p, c, d, riskLevel).Ok? && d.mode != Preserve
    ensures var m := Functional(BuildPlan(p, c, d, riskLevel).value);
            && ActualExecution in m
            && (d.mode == NoExecution ==>
                  && m[ActualExecution] == Bool(false)
                  && ExecutableScenarios !in m && SemanticAction !in m && SemanticActions !in m)
            && (d.mode == ScenarioMode ==>
                  && ExecutableScenarios in m
                  && m[ActualExecution] == Bool(SomethingRuns(d.scenarios))
                  && Get(m, SemanticAction) == Get(Functional(c), SemanticAction)
                  && Get(m, SemanticActions) == Get(Functional(c), SemanticActions))
  {
    hide PlanErrorOf, BuildScenarios, Collection;
    if SomethingRuns(d.scenarios) {
      var i :| 0 <= i < |d.scenarios| && d.scenarios[i].selected && d.scenarios[i].status == Confirmed;
      assert d.scenarios[i] in d.scenarios && Executes(d.scenarios[i]);
    }
  }

  /** The page's structure first, the accessible names next, coordinates never. */
  ghost predicate Policy(m: Fields, riskLevel: string) {
    && Get(m, SchemaVersion) == Some(Text("phase7.v1"))
    && Get(m, LocatorStrategy) == Some(Rec(map[Primary := Text("dom"), Fallback := List([Text("accessibility")])]))
    && Get(m, FallbackPolicy) == Some(Rec(map[AllowCoordinateClick := Bool(false)]))
    && Get(m, RiskLevel) == Some(Text(riskLevel))
    && Get(m, PolicyRefs) == Some(List([]))
  }

  lemma BasePolicy(a: Action, target: Fields, hints: Fields, riskLevel: string)
    ensures Policy(BuiltBase(a, target, hints, riskLevel), riskLevel)
  {
  }

  /** Every saved action grants that, and carries references to values only if it fills a field. */
  lemma SavedActionPolicy(a: Action, riskLevel: string)
    ensures var v := BuildAction(a, riskLevel);
            && v.Rec? && Policy(v.fields, riskLevel)
            && (a.kind != Fill ==> Get(v.fields, ValueRef).None? && Get(v.fields, SecretRef).None?)
  {
    hide BuiltBase, PutTrimmed, Trim;
    var base := BuiltBase(a, BuiltTarget(a), BuiltHints(a), riskLevel);
    BasePolicy(a, BuiltTarget(a), BuiltHints(a), riskLevel);
    BaseFields(a, BuiltTarget(a), BuiltHints(a), riskLevel);
    FieldsOfFill(base, a, SchemaVersion);
    FieldsOfFill(base, a, LocatorStrategy);
    FieldsOfFill(base, a, FallbackPolicy);
    FieldsOfFill(base, a, RiskLevel);
    FieldsOfFill(base, a, PolicyRefs);
  }

  /** The fields of the saved target are those that hold a visible character. */
  lemma SavedTarget(a: Action)
    ensures Url in BuiltTarget(a) <==> a.kind == Navigate && Visible(a.url)
    ensures Role in BuiltTarget(a) <==> Visible(a.role)
    ensures Name in BuiltTarget(a) <==> Visible(a.name)
    ensures Selector in BuiltHints(a) <==> Visible(a.selector)
    ensures TestId in BuiltHints(a) <==> Visible(a.testId)
    ensures BuiltTarget(a).Keys <= {Url, Role, Name} && BuiltHints(a).Keys <= {Selector, TestId}
  {
    hide Trim, AllBlank;
    TrimsToNothing(a.url);
    TrimsToNothing(a.role);
    TrimsToNothing(a.name);
    TrimsToNothing(a.selector);
    TrimsToNothing(a.testId);
  }
}
