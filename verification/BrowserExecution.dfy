/** What may execute after a plan was loaded, edited in any way and saved. */
module BrowserExecution {
  import opened Options
  import opened BrowserPlan
  import opened BrowserRoundTrip
  import opened BrowserEdits

  /** The ids of the selected, confirmed scenarios of a draft, in their order. */
  function ExecutingIds(scenarios: seq<Scenario>): seq<string> {
    if scenarios == [] then []
    else
      (if Executes(scenarios[0]) && scenarios[0].scenarioId != "" then [scenarios[0].scenarioId] else [])
      + ExecutingIds(scenarios[1..])
  }

  lemma ConfirmedText(s: ScenarioStatus)
    ensures StatusText(s) == "confirmed" <==> s == Confirmed
  {
    ReadStatusText(s);
  }

  lemma ExecutesAsBuilt(p: Platform, s: Scenario, riskLevel: string)
    ensures SaysExecutes(p, BuildScenario(s, riskLevel), s)
  {
    FieldsOfScenario(s, BuildActions(s.actions, riskLevel));
    ConfirmedText(s.status);
  }

  ghost predicate SaysExecutes(p: Platform, item: Value, s: Scenario) {
    && (ExecutesRaw(item) <==> Executes(s))
    && TruthyTextOr(p, Get(AsRecord(Some(item)), ScenarioId), "") == s.scenarioId
  }

  lemma {:induction false} SameIds(p: Platform, items: seq<Value>, scenarios: seq<Scenario>)
    requires |items| == |scenarios| && forall i :: 0 <= i < |items| ==> SaysExecutes(p, items[i], scenarios[i])
    ensures IdsOf(p, items) == ExecutingIds(scenarios)
  {
    if items != [] {
      assert SaysExecutes(p, items[0], scenarios[0]);
      SameIds(p, items[1..], scenarios[1..]);
    }
  }

  lemma IdsOfBuilt(p: Platform, scenarios: seq<Scenario>, riskLevel: string)
    ensures IdsOf(p, BuildScenarios(scenarios, riskLevel)) == ExecutingIds(scenarios)
  {
    var items := BuildScenarios(scenarios, riskLevel);
    forall i | 0 <= i < |items|
      ensures SaysExecutes(p, items[i], scenarios[i])
    {
      ExecutesAsBuilt(p, scenarios[i], riskLevel);
    }
    SameIds(p, items, scenarios);
  }

  lemma {:induction false} ExecutingIdsFrom(scenarios: seq<Scenario>, id: string)
    ensures id in ExecutingIds(scenarios) <==>
            id != "" && exists i :: 0 <= i < |scenarios| && Executes(scenarios[i]) && scenarios[i].scenarioId == id
  {
    if scenarios != [] {
      ExecutingIdsFrom(scenarios[1..], id);
      assert scenarios == [scenarios[0]] + scenarios[1..];
      if exists i :: 0 <= i < |scenarios| && Executes(scenarios[i]) && scenarios[i].scenarioId == id {
        var i :| 0 <= i < |scenarios| && Executes(scenarios[i]) && scenarios[i].scenarioId == id;
        assert i > 0 ==> scenarios[1..][i - 1] == scenarios[i];
      }
    }
  }

  /** In scenario mode the saved configuration executes exactly the selected, confirmed scenarios of the draft. */
  lemma SavedScenariosExecute(p: Platform, c: Config, d: Plan, riskLevel: string)
    requires d.mode == ScenarioMode && BuildPlan(p, c, d, riskLevel).Ok?
    ensures RawScenarios(BuildPlan(p, c, d, riskLevel).value) == BuildScenarios(d.scenarios, riskLevel)
    ensures ExecutableScenarioIds(p, BuildPlan(p, c, d, riskLevel).value) == ExecutingIds(d.scenarios)
  {
    WhatIsSaved(p, c, d, riskLevel);
    FieldsOfFunctional(Functional(c), d, BuildScenarios(d.scenarios, riskLevel));
    FieldsOfCollection(d, BuildScenarios(d.scenarios, riskLevel));
    IdsOfBuilt(p, d.scenarios, riskLevel);
  }

  lemma NothingExecutesWithoutScenarios(p: Platform, target: Config, d: Plan, riskLevel: string)
    requires d.mode != ScenarioMode && BuildPlan(p, target, d, riskLevel).Ok?
    ensures d.mode == NoExecution ==> ExecutableScenarioIds(p, BuildPlan(p, target, d, riskLevel).value) == []
    ensures d.mode == Preserve ==> BuildPlan(p, target, d, riskLevel).value == target
    ensures d.mode == Preserve && RawScenarios(target) == [] ==> ExecutableScenarioIds(p, target) == []
  {
    if d.mode == NoExecution {
      assert ExecutableScenarios !in WithoutExecution(Functional(target));
    }
  }

  /** One scenario of a saved session that may run: reviewed as it is, faultless, confirmed for this source. */
  ghost predicate MayRun(p: Platform, s: Session, saved: Config, riskLevel: string, i: nat)
    requires i < |s.draft.scenarios| == |s.reviews|
  {
    var scenario := s.draft.scenarios[i];
    && Executes(scenario)
    && s.reviews[i].content == Some(Content(scenario))
    && ScenarioError(p, scenario).None?
    && (s.draft.sourceChanged ==> s.draft.acceptCurrentSource && s.reviews[i].sinceAcceptance)
    && i < |RawScenarios(saved)| && RawScenarios(saved)[i] == BuildScenario(scenario, riskLevel)
  }

  /** What a session saves into some configuration, which need not be the one it was loaded from. */
  function Saved(p: Platform, target: Config, s: Session, riskLevel: string): Result<Config, PlanError> {
    BuildPlan(p, target, s.draft, riskLevel)
  }

  /** A preserved plan hands the target on as it is, so the loaded scenarios do not come into it. */
  predicate HandsOn(s: Session, target: Config) {
    s.draft.mode == Preserve && RawScenarios(target) != []
  }

  /**
   After any edits to a loaded plan and an accepted save, into whatever configuration: every executable id names a
   scenario whose content is unchanged since it was last confirmed (or loaded confirmed), which passes every check and,
   if the source changed, was confirmed after the most recent acceptance; and it is this content that was saved. The
   one way around is a plan preserved unread: it leaves the target's own scenarios alone, and a target without
   scenarios, like the configuration it was loaded from, then executes nothing.
   */
  lemma {:induction false} OnlyReviewedContentExecutes(p: Platform, loaded: Config, edits: seq<Edit>, target: Config,
                                                       riskLevel: string, id: string)
    requires Saved(p, target, AfterEdits(p, loaded, edits), riskLevel).Ok?
    requires id in ExecutableScenarioIds(p, Saved(p, target, AfterEdits(p, loaded, edits), riskLevel).value)
    ensures var s := AfterEdits(p, loaded, edits);
            var saved := Saved(p, target, s, riskLevel).value;
            if s.draft.mode == Preserve then HandsOn(s, target) && saved == target && RawScenarios(loaded) == []
            else exists i :: 0 <= i < |s.draft.scenarios| && s.draft.scenarios[i].scenarioId == id
                             && MayRun(p, s, saved, riskLevel, i)
  {
    var s := AfterEdits(p, loaded, edits);
    var d := s.draft;
    EveryEditIsReviewed(p, loaded, edits);
    if d.mode != ScenarioMode {
      NothingExecutesWithoutScenarios(p, target, d, riskLevel);
    } else {
      SavedScenariosExecute(p, target, d, riskLevel);
      ExecutingIdsFrom(d.scenarios, id);
      var i :| 0 <= i < |d.scenarios| && Executes(d.scenarios[i]) && d.scenarios[i].scenarioId == id;
      NoErrorMeaning(p, d.scenarios);
      assert ReviewedAt(d, d.scenarios[i], s.reviews[i]);
      assert MayRun(p, s, BuildPlan(p, target, d, riskLevel).value, riskLevel, i);
    }
  }

  /** When scenario ids are distinct, an executable id names nothing but that reviewed scenario. */
  lemma {:induction false} DistinctIdsNameReviewedOnly(p: Platform, loaded: Config, edits: seq<Edit>, target: Config,
                                                       riskLevel: string, i: nat)
    requires Saved(p, target, AfterEdits(p, loaded, edits), riskLevel).Ok?
    requires var scenarios := AfterEdits(p, loaded, edits).draft.scenarios;
             && i < |scenarios|
             && scenarios[i].scenarioId in
                ExecutableScenarioIds(p, Saved(p, target, AfterEdits(p, loaded, edits), riskLevel).value)
             && forall a, b :: 0 <= a < b < |scenarios| ==> scenarios[a].scenarioId != scenarios[b].scenarioId
    ensures var s := AfterEdits(p, loaded, edits);
            HandsOn(s, target) || MayRun(p, s, Saved(p, target, s, riskLevel).value, riskLevel, i)
  {
    var id := AfterEdits(p, loaded, edits).draft.scenarios[i].scenarioId;
    OnlyReviewedContentExecutes(p, loaded, edits, target, riskLevel, id);
  }
}
