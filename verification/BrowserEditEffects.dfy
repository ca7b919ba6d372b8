/**
 What each edit of a browser plan does for its user: what it sets, what it leaves alone, where a locator hint lands, and
 that a sound scenario which is selected, confirmed and saved does execute.
 */
module BrowserEditEffects {
  import opened Options
  import opened JsText
  import opened BrowserPlan
  import opened BrowserRoundTrip
  import opened BrowserEdits
  import opened BrowserMeaning
  import opened BrowserExecution

  /** An edit of one scenario, which stays in the list. */
  predicate EditsOne(e: Edit) {
    e.Select? || e.SetName? || e.SetGoal? || e.SetTargetUrl? || e.SetPreconditions? || e.UpdateAction?
    || e.RemoveAction? || e.AddAction? || e.Confirm?
  }

  /** Such an edit touches nothing else of the plan. */
  lemma OthersStay(p: Platform, d: Plan, e: Edit)
    requires EditsOne(e)
    ensures var r := Edited(p, d, e);
            && r.(scenarios := d.scenarios) == d
            && |r.scenarios| == |d.scenarios|
            && forall k :: 0 <= k < |d.scenarios| && k != e.i ==> r.scenarios[k] == d.scenarios[k]
  {
  }

  /** Selecting and confirming set their box alone. */
  lemma BoxesAreSet(p: Platform, d: Plan, e: Edit)
    requires Offered(d, e) && (e.Select? || e.Confirm?)
    ensures var before, after := d.scenarios[e.i], Edited(p, d, e).scenarios[e.i];
            && (e.Select? ==> after == before.(selected := e.checked))
            && (e.Confirm? ==> after == before.(status := if e.checked then Confirmed else Draft))
  {
  }

  /** Every edit of the content, even one that sets what was there, asks for a new review and keeps the selection. */
  lemma ReviewIsLost(p: Platform, d: Plan, e: Edit)
    requires Offered(d, e) && EditsOne(e) && !e.Select? && !e.Confirm?
    ensures var before, after := d.scenarios[e.i], Edited(p, d, e).scenarios[e.i];
            after.status == Draft && after.selected == before.selected && after.scenarioId == before.scenarioId
  {
    hide Trim, TrimAll, NonEmpty, Digits, UpdatedAction, NewAction;
  }

  /** The edited field takes what was typed, and the others keep what they had. */
  lemma TextsAreSet(p: Platform, d: Plan, e: Edit)
    requires Offered(d, e) && (e.SetName? || e.SetGoal? || e.SetTargetUrl? || e.SetPreconditions?)
    ensures var before, after := d.scenarios[e.i], Edited(p, d, e).scenarios[e.i];
            && after.name == (if e.SetName? then e.text else before.name)
            && after.goal == (if e.SetGoal? then e.text else before.goal)
            && after.targetUrl == (if e.SetTargetUrl? then e.text else before.targetUrl)
            && (!e.SetPreconditions? ==> after.preconditions == before.preconditions)
            && after.actions == before.actions && after.sourceRefs == before.sourceRefs
            && after.confidence == before.confidence && after.limitations == before.limitations
            && after.origin == before.origin
  {
  }

  /** Of the lines of the preconditions, the visible ones are kept in order, trimmed. */
  lemma {:induction false} LinesAreKept(lines: seq<string>) returns (at: seq<nat>)
    ensures forall m, n :: 0 <= m < n < |at| ==> at[m] < at[n]
    ensures forall i :: 0 <= i < |lines| ==> (i in at <==> !AllBlank(lines[i]))
    ensures |at| == |NonEmpty(TrimAll(lines))|
    ensures forall n :: 0 <= n < |at| ==> at[n] < |lines| && NonEmpty(TrimAll(lines))[n] == Trim(lines[at[n]])
  {
    hide Trim, AllBlank, NonEmpty, TrimAll;
    if lines == [] {
      at := [];
      NoLines();
    } else {
      var init, last := lines[..|lines| - 1], lines[|lines| - 1];
      at := LinesAreKept(init);
      assert lines == init + [last];
      LineAppended(init, last);
      TrimsToNothing(last);
      if !AllBlank(last) {
        at := at + [|init|];
      }
    }
  }

  lemma NoLines()
    ensures NonEmpty(TrimAll([])) == []
  {
  }

  lemma {:induction false} LineAppended(lines: seq<string>, next: string)
    ensures NonEmpty(TrimAll(lines + [next])) ==
            NonEmpty(TrimAll(lines)) + if Trim(next) == "" then [] else [Trim(next)]
  {
    hide Trim;
    if lines == [] {
      assert [next][1..] == [] && [Trim(next)][1..] == [];
    } else {
      assert (lines + [next])[1..] == lines[1..] + [next];
      LineAppended(lines[1..], next);
      var rest := TrimAll(lines[1..] + [next]);
      assert TrimAll(lines + [next]) == [Trim(lines[0])] + rest;
      assert ([Trim(lines[0])] + rest)[1..] == rest;
      var short := TrimAll(lines[1..]);
      assert ([Trim(lines[0])] + short)[1..] == short;
    }
  }

  // ---------------------------------------------------------------- actions

  /** An update sets one field and keeps the others, a hint sets four; the two value references exclude each other. */
  lemma OneFieldIsUpdated(a: Action, u: ActionUpdate)
    ensures var b := UpdatedAction(a, u);
            && b.actionId == a.actionId && b.sourceRefs == a.sourceRefs && b.confidence == a.confidence
            && b.limitations == a.limitations && b.origin == a.origin
            && b.kind == (if u.SetKind? then u.kind else a.kind)
            && b.url == (if u.SetUrl? then u.text else a.url)
            && b.expectedText == (if u.SetExpectedText? then u.text else a.expectedText)
            && b.exact == (if u.SetExact? then u.exact else a.exact)
            && b.role == (if u.SetRole? then u.text else if u.TakeHint? then u.role else a.role)
            && b.name == (if u.SetElementName? then u.text else if u.TakeHint? then u.name else a.name)
            && b.selector == (if u.SetSelector? then u.text else if u.TakeHint? then u.selector else a.selector)
            && b.testId == (if u.SetTestId? then u.text else if u.TakeHint? then u.testId else a.testId)
            && (u.SetValueRef? ==> b.valueRef == u.text && b.secretRef == "")
            && (u.SetSecretRef? ==> b.secretRef == u.text && b.valueRef == "")
            && (!u.SetValueRef? && !u.SetSecretRef? ==> b.valueRef == a.valueRef && b.secretRef == a.secretRef)
  {
  }

  /** And it reaches the one action of the one scenario, which asks for a new review. */
  lemma ActionIsUpdated(p: Platform, d: Plan, i: nat, j: nat, u: ActionUpdate)
    requires Offered(d, UpdateAction(i, j, u)) && j < |d.scenarios[i].actions|
    ensures var before, after := d.scenarios[i], Edited(p, d, UpdateAction(i, j, u)).scenarios[i];
            && after == before.(actions := after.actions, status := Draft)
            && |after.actions| == |before.actions|
            && (forall k :: 0 <= k < |before.actions| && k != j ==> after.actions[k] == before.actions[k])
            && after.actions[j] == UpdatedAction(before.actions[j], u)
  {
    hide UpdatedAction;
  }

  /** Removing an action closes the gap; a new one stands at the end and is a visibility check of a button. */
  lemma ActionsComeAndGo(p: Platform, d: Plan, i: nat, j: nat)
    requires Offered(d, AddAction(i)) && j < |d.scenarios[i].actions|
    ensures var before := d.scenarios[i];
            var less := Edited(p, d, RemoveAction(i, j)).scenarios[i];
            var more := Edited(p, d, AddAction(i)).scenarios[i];
            && less == before.(actions := less.actions, status := Draft)
            && |less.actions| == |before.actions| - 1
            && (forall k :: 0 <= k < |less.actions| ==>
                  less.actions[k] == before.actions[if k < j then k else k + 1])
            && more == before.(actions := more.actions, status := Draft)
            && |more.actions| == |before.actions| + 1
            && more.actions[..|before.actions|] == before.actions
            && var added := more.actions[|before.actions|];
               && added.kind == AssertVisible && added.role == "button" && added.origin == Manual
               && added.actionId == before.scenarioId + "-action-" + Digits(|before.actions| + 1, false)
  {
  }

  // ---------------------------------------------------------------- scenarios

  /** Removing a scenario closes the gap; a new one stands at the end, selected, unreviewed and with one action. */
  lemma ScenariosComeAndGo(p: Platform, d: Plan, i: nat, stamp: string, url: string)
    requires d.mode == ScenarioMode && i < |d.scenarios|
    ensures var less, more := Edited(p, d, RemoveScenario(i)), Edited(p, d, AddScenario(stamp, url));
            && less.(scenarios := d.scenarios) == d && more.(scenarios := d.scenarios) == d
            && |less.scenarios| == |d.scenarios| - 1
            && (forall k :: 0 <= k < |less.scenarios| ==>
                  less.scenarios[k] == d.scenarios[if k < i then k else k + 1])
            && |more.scenarios| == |d.scenarios| + 1 && more.scenarios[..|d.scenarios|] == d.scenarios
            && var s := more.scenarios[|d.scenarios|];
               s.status == Draft && s.selected && s.origin == Manual && s.targetUrl == url && |s.actions| == 1
  {
  }

  /** Changing the mode keeps the scenarios, of which scenario mode wants one; accepting a source resets the reviews. */
  lemma PlanWideEdits(p: Platform, d: Plan, mode: Mode, stamp: string, url: string, checked: bool)
    requires mode != Preserve
    ensures var r := Edited(p, d, SetMode(mode, stamp, url));
            && r.mode == mode && r.(mode := d.mode, scenarios := d.scenarios) == d
            && (if mode == ScenarioMode && d.scenarios == [] then |r.scenarios| == 1 && r.scenarios[0].status == Draft
                else r.scenarios == d.scenarios)
    ensures d.mode == ScenarioMode && d.sourceChanged ==>
              var r := Edited(p, d, AcceptSource(checked));
              && r.acceptCurrentSource == checked && |r.scenarios| == |d.scenarios|
              && r.(acceptCurrentSource := d.acceptCurrentSource, scenarios := d.scenarios) == d
              && forall k :: 0 <= k < |d.scenarios| ==>
                   r.scenarios[k] == if checked then d.scenarios[k].(status := Draft) else d.scenarios[k]
    ensures d.mode == ScenarioMode && url != "" ==>
              var r := Edited(p, d, ApplySuggestion(url));
              && r.(scenarios := d.scenarios) == d && |r.scenarios| == |d.scenarios|
              && forall k :: 0 <= k < |d.scenarios| ==>
                   var s := d.scenarios[k];
                   r.scenarios[k] == if s.targetUrl == "" then s.(targetUrl := url, status := Draft) else s
  {
  }

  // ---------------------------------------------------------------- where a locator hint lands

  /** i is the first position with the id, or zero if there is none. */
  ghost predicate LandsOn(ids: seq<string>, id: string, i: nat) {
    if id in ids then i < |ids| && ids[i] == id && forall k :: 0 <= k < i ==> ids[k] != id else i == 0
  }

  function ScenarioIds(scenarios: seq<Scenario>): (r: seq<string>)
    ensures |r| == |scenarios| && forall i :: 0 <= i < |r| ==> r[i] == scenarios[i].scenarioId
  {
    seq(|scenarios|, i requires 0 <= i < |scenarios| => scenarios[i].scenarioId)
  }

  function ActionIds(actions: seq<Action>): (r: seq<string>)
    ensures |r| == |actions| && forall i :: 0 <= i < |r| ==> r[i] == actions[i].actionId
  {
    seq(|actions|, i requires 0 <= i < |actions| => actions[i].actionId)
  }

  lemma {:induction false} ScenarioIsFound(scenarios: seq<Scenario>, id: string)
    ensures var i := FindScenario(scenarios, id); LandsOn(ScenarioIds(scenarios), id, if i < |scenarios| then i else 0)
    ensures FindScenario(scenarios, id) <= |scenarios|
    ensures FindScenario(scenarios, id) < |scenarios| <==> id in ScenarioIds(scenarios)
  {
    if scenarios != [] && scenarios[0].scenarioId != id {
      ScenarioIsFound(scenarios[1..], id);
      assert ScenarioIds(scenarios) == [scenarios[0].scenarioId] + ScenarioIds(scenarios[1..]);
    } else if scenarios != [] {
      assert ScenarioIds(scenarios)[0] == id;
    }
  }

  lemma {:induction false} ActionIsFound(actions: seq<Action>, id: string)
    ensures var i := FindAction(actions, id); LandsOn(ActionIds(actions), id, if i < |actions| then i else 0)
    ensures FindAction(actions, id) <= |actions|
    ensures FindAction(actions, id) < |actions| <==> id in ActionIds(actions)
  {
    if actions != [] && actions[0].actionId != id {
      ActionIsFound(actions[1..], id);
      assert ActionIds(actions) == [actions[0].actionId] + ActionIds(actions[1..]);
    } else if actions != [] {
      assert ActionIds(actions)[0] == id;
    }
  }

  /** A hint goes to the action it names, else to the first one; without a usable place nothing changes. */
  lemma HintLands(p: Platform, d: Plan, hint: Fields) returns (i: nat, j: nat)
    requires d.mode == ScenarioMode
    ensures LandsOn(ScenarioIds(d.scenarios), FirstPresent(p, [(hint, ScenarioId)], ""), i)
    ensures i < |d.scenarios| && d.scenarios[i].actions != [] ==>
              && LandsOn(ActionIds(d.scenarios[i].actions), FirstPresent(p, [(hint, ActionId)], ""), j)
              && j < |d.scenarios[i].actions|
              && var a := d.scenarios[i].actions[j];
                 Edited(p, d, ApplyHint(hint)) ==
                 Edited(p, d, UpdateAction(i, j, TakeHint(FirstPresent(p, [(hint, Selector)], ""),
                                                          FirstPresent(p, [(hint, TestId)], ""),
                                                          FirstPresent(p, [(hint, Role)], a.role),
                                                          FirstPresent(p, [(hint, Name)], a.name))))
    ensures i >= |d.scenarios| || d.scenarios[i].actions == [] ==> Edited(p, d, ApplyHint(hint)) == d
  {
    hide AsText, UpdateScenario, UpdatedAction, LandsOn, FirstPresent, FindAction, FindScenario;
    var wanted := TextOr(p, Get(hint, ScenarioId), "");
    FirstOfOne(p, hint, ScenarioId, "");
    ScenarioIsFound(d.scenarios, wanted);
    var found := FindScenario(d.scenarios, wanted);
    i, j := if found < |d.scenarios| then found else 0, 0;
    if i < |d.scenarios| && d.scenarios[i].actions != [] {
      var actions := d.scenarios[i].actions;
      var action := TextOr(p, Get(hint, ActionId), "");
      FirstOfOne(p, hint, ActionId, "");
      ActionIsFound(actions, action);
      var at := FindAction(actions, action);
      j := if at < |actions| then at else 0;
      HintTexts(p, hint, actions[j]);
    }
  }

  lemma HintTexts(p: Platform, hint: Fields, a: Action)
    ensures TextOr(p, Get(hint, Selector), "") == FirstPresent(p, [(hint, Selector)], "")
    ensures TextOr(p, Get(hint, TestId), "") == FirstPresent(p, [(hint, TestId)], "")
    ensures TextOr(p, Get(hint, Role), a.role) == FirstPresent(p, [(hint, Role)], a.role)
    ensures TextOr(p, Get(hint, Name), a.name) == FirstPresent(p, [(hint, Name)], a.name)
  {
    FirstOfOne(p, hint, Selector, "");
    FirstOfOne(p, hint, TestId, "");
    FirstOfOne(p, hint, Role, a.role);
    FirstOfOne(p, hint, Name, a.name);
  }

  // ---------------------------------------------------------------- what is confirmed does execute

  /** Nothing else stands in the way of a save: every other confirmed scenario is sound and the source is settled. */
  ghost predicate OthersAreSound(p: Platform, d: Plan, i: nat) {
    && (d.sourceChanged ==> d.acceptCurrentSource)
    && forall k :: 0 <= k < |d.scenarios| && k != i && d.scenarios[k].status == Confirmed ==>
         SoundScenario(p, d.scenarios[k])
  }

  lemma AfterTwo(p: Platform, c: Config, edits: seq<Edit>, e: Edit, f: Edit)
    ensures AfterEdits(p, c, edits + [e, f]).draft == Edited(p, Edited(p, AfterEdits(p, c, edits).draft, e), f)
  {
    hide Edited;
    var two, one := edits + [e, f], edits + [e];
    assert two[..|two| - 1] == one && one[..|one| - 1] == edits;
    assert two[|two| - 1] == f && one[|one| - 1] == e;
  }

  function DraftAfter(p: Platform, loaded: Config, edits: seq<Edit>): Plan {
    AfterEdits(p, loaded, edits).draft
  }

  function Ready(s: Scenario): Scenario {
    s.(selected := true, status := Confirmed)
  }

  lemma SelectAndConfirm(p: Platform, d: Plan, i: nat)
    requires d.mode == ScenarioMode && i < |d.scenarios| && (d.sourceChanged ==> d.acceptCurrentSource)
    ensures Edited(p, Edited(p, d, Select(i, true)), Confirm(i, true)) ==
            d.(scenarios := d.scenarios[i := Ready(d.scenarios[i])])
  {
    var s := d.scenarios[i].(selected := true);
    assert Edited(p, d, Select(i, true)) == d.(scenarios := d.scenarios[i := s]);
    assert d.scenarios[i := s][i := Ready(s)] == d.scenarios[i := Ready(d.scenarios[i])];
  }

  lemma StatusIsNoContent(p: Platform, s: Scenario)
    ensures SoundScenario(p, Ready(s)) <==> SoundScenario(p, s)
  {
  }

  lemma ReadyCanBeSaved(p: Platform, d: Plan, r: Plan, i: nat)
    requires d.mode == ScenarioMode && i < |d.scenarios| && SoundScenario(p, d.scenarios[i]) && OthersAreSound(p, d, i)
    requires r == d.(scenarios := d.scenarios[i := Ready(d.scenarios[i])])
    ensures PlanErrorOf(p, r).None?
  {
    hide SoundScenario, PlanErrorOf;
    StatusIsNoContent(p, d.scenarios[i]);
    NoPlanErrorIff(p, r);
  }

  lemma ReadyExecutes(p: Platform, target: Config, r: Plan, riskLevel: string, i: nat)
    requires r.mode == ScenarioMode && PlanErrorOf(p, r).None? && i < |r.scenarios|
    requires Executes(r.scenarios[i]) && r.scenarios[i].scenarioId != ""
    ensures var saved := BuildPlan(p, target, r, riskLevel);
            && saved.Ok? && r.scenarios[i].scenarioId in ExecutableScenarioIds(p, saved.value)
            && i < |RawScenarios(saved.value)|
            && RawScenarios(saved.value)[i] == BuildScenario(r.scenarios[i], riskLevel)
  {
    hide PlanErrorOf, ExecutableScenarioIds, RawScenarios, BuildScenario, ExecutingIds;
    SavedScenariosExecute(p, target, r, riskLevel);
    ExecutingIdsFrom(r.scenarios, r.scenarios[i].scenarioId);
  }

  /**
   Whatever was edited before: a sound scenario with an id that is selected and confirmed can be saved into any
   configuration unless another confirmed one is faulty, and then it executes with the content it was confirmed with.
   */
  lemma ConfirmedExecutes(p: Platform, loaded: Config, edits: seq<Edit>, target: Config, riskLevel: string, i: nat)
    requires var d := DraftAfter(p, loaded, edits);
             && d.mode == ScenarioMode && i < |d.scenarios| && d.scenarios[i].scenarioId != ""
             && SoundScenario(p, d.scenarios[i]) && OthersAreSound(p, d, i)
    ensures var s := DraftAfter(p, loaded, edits).scenarios[i];
            var later := AfterEdits(p, loaded, edits + [Select(i, true), Confirm(i, true)]);
            var saved := Saved(p, target, later, riskLevel);
            && saved.Ok?
            && s.scenarioId in ExecutableScenarioIds(p, saved.value)
            && i < |RawScenarios(saved.value)|
            && RawScenarios(saved.value)[i] == BuildScenario(s.(selected := true, status := Confirmed), riskLevel)
  {
    hide SoundScenario, PlanErrorOf, AfterEdits, Edited, BuildPlan, ExecutableScenarioIds, RawScenarios;
    var d := DraftAfter(p, loaded, edits);
    var r := d.(scenarios := d.scenarios[i := Ready(d.scenarios[i])]);
    AfterTwo(p, loaded, edits, Select(i, true), Confirm(i, true));
    SelectAndConfirm(p, d, i);
    ReadyCanBeSaved(p, d, r, i);
    ReadyExecutes(p, target, r, riskLevel, i);
  }

  /** And a confirmed scenario with a fault stops every save. */
  lemma FaultStopsSave(p: Platform, target: Config, d: Plan, riskLevel: string, i: nat)
    requires d.mode == ScenarioMode && i < |d.scenarios| && d.scenarios[i].status == Confirmed
    requires !SoundScenario(p, d.scenarios[i]) || (d.sourceChanged && !d.acceptCurrentSource)
    ensures BuildPlan(p, target, d, riskLevel).Err?
  {
    hide SoundScenario;
    NoPlanErrorIff(p, d);
  }
}
