/**
 What the user of the timeline sees of one load, whatever superseded loads answer in between: the pages as they come,
 and the failure as its status says.
 */
module TimelineView {
  import opened Options
  import opened Sorting
  import opened Timeline
  import opened TimelineFetch

  /** Answers of other instances alone. */
  ghost predicate OfOthers(actions: seq<Action>, id: nat) {
    forall n :: 0 <= n < |actions| ==>
      match actions[n]
      case Rerun(_, _) => false
      case Unmount => false
      case Page(from, _, _) => from != id
      case Resolve(from, _) => from != id
      case Reject(from, _) => from != id
  }

  /** The latest instance is still at work. */
  ghost predicate AtWork(c: Component, id: nat) {
    && |c.instances| == id + 1 && !c.instances[id].cancelled && c.instances[id].stage.InFlight?
    && forall i :: 0 <= i < id ==> c.instances[i].cancelled
  }

  lemma OneOther(c: Component, a: Action, id: nat)
    requires AtWork(c, id) && OfOthers([a], id)
    ensures AtWork(Next(c, a), id) && Next(c, a).view == c.view && Next(c, a).instances[id] == c.instances[id]
  {
    assert [a][0] == a;
  }

  lemma {:induction false} OthersAreIgnored(c: Component, others: seq<Action>, id: nat)
    requires AtWork(c, id) && OfOthers(others, id)
    ensures var r := Execute(c, others); AtWork(r, id) && r.view == c.view && r.instances[id] == c.instances[id]
  {
    if others != [] {
      var init, a := others[..|others| - 1], others[|others| - 1];
      assert OfOthers(init, id) && OfOthers([a], id);
      OthersAreIgnored(c, init, id);
      OneOther(Execute(c, init), a, id);
    }
  }

  lemma ExecuteMore(c: Component, actions: seq<Action>, a: Action)
    ensures Execute(c, actions + [a]) == Next(Execute(c, actions), a)
  {
    assert (actions + [a])[..|actions|] == actions;
  }

  /** A component in which a load has just been started, whatever happened before. */
  ghost predicate JustStarted(c: Component, id: nat) {
    exists hasExecution, canRead, before :: StartedAfter(hasExecution, canRead, before, c, id)
  }

  ghost predicate StartedAfter(hasExecution: bool, canRead: bool, before: seq<Action>, c: Component, id: nat) {
    var earlier := Execute(Initial(hasExecution, canRead), before);
    earlier.mounted && id == |earlier.instances| && c == Next(earlier, Rerun(true, true))
  }

  /** A rerun clears what is shown and cancels the load before; it loads exactly if there is something it may read. */
  lemma RerunBeginsAfresh(hasExecution: bool, canRead: bool, before: seq<Action>, known: bool, mayRead: bool)
    requires Execute(Initial(hasExecution, canRead), before).mounted
    ensures var earlier := Execute(Initial(hasExecution, canRead), before);
            var c := Next(earlier, Rerun(known, mayRead));
            var id := |earlier.instances|;
            && c.view.projection.None? && !c.view.error && !c.view.loadingMore
            && c.view.state == (if !known then Unavailable else if !mayRead then Restricted else Loading)
            && |c.instances| == id + 1 && !c.instances[id].cancelled
            && (c.instances[id].stage.InFlight? <==> known && mayRead)
            && forall i :: 0 <= i < id ==> c.instances[i].cancelled
  {
    EveryViewIsCurrent(hasExecution, canRead, before);
  }

  lemma StartIsAtWork(c: Component, id: nat)
    requires JustStarted(c, id)
    ensures AtWork(c, id) && c.instances[id].stage == InFlight(false, 0)
    ensures c.view.projection.None? && c.view.state == Loading && !c.view.error && !c.view.loadingMore
  {
    var hasExecution, canRead, before :| StartedAfter(hasExecution, canRead, before, c, id);
    RerunBeginsAfresh(hasExecution, canRead, before, true, true);
  }

  /** A failure before the first page: forbidden, gone or busy, or an error that is shown. */
  lemma EarlyFailure(c: Component, id: nat, others: seq<Action>, error: FetchError)
    requires JustStarted(c, id) && OfOthers(others, id)
    ensures var view := Execute(c, others + [Reject(id, error)]).view;
            && view.projection.None? && !view.loadingMore
            && (view.state == Restricted <==> error == ServerError(403))
            && (view.state == Unavailable <==>
                  error in [ServerError(404), ServerError(409), ServerError(410), ServerError(503)])
            && (view.state == Restricted || view.state == Unavailable || view.state == Failed)
            && (view.error <==> view.state == Failed)
  {
    hide JustStarted;
    StartIsAtWork(c, id);
    OthersAreIgnored(c, others, id);
    ExecuteMore(c, others, Reject(id, error));
  }

  /** A page is shown as soon as it comes, as empty exactly if its total is zero, with the rest announced. */
  lemma PageIsShown(c: Component, id: nat, others: seq<Action>, p: Projection, complete: bool)
    requires AtWork(c, id) && OfOthers(others, id) && !c.view.error
    ensures var r := Execute(c, others + [Page(id, p, complete)]);
            && AtWork(r, id) && r.instances[id].stage.rendered && !r.view.error
            && r.view.projection == Some(p)
            && r.view.state == (if p.pagination.totalEvents == 0 then Empty else Ready)
            && (r.view.loadingMore <==> !complete)
  {
    OthersAreIgnored(c, others, id);
    ExecuteMore(c, others, Page(id, p, complete));
  }

  /** A failure behind a page leaves it standing, with an error beside it, whatever the status. */
  lemma LateFailure(c: Component, id: nat, others: seq<Action>, error: FetchError)
    requires AtWork(c, id) && OfOthers(others, id) && c.instances[id].stage.rendered
    ensures var view := Execute(c, others + [Reject(id, error)]).view;
            && view.projection == c.view.projection && view.state == c.view.state
            && view.error && !view.loadingMore
  {
    OthersAreIgnored(c, others, id);
    ExecuteMore(c, others, Reject(id, error));
  }

  /** The result replaces the pages and ends the loading; no answer of the same load changes anything any more. */
  lemma ResultIsShown(c: Component, id: nat, others: seq<Action>, p: Projection)
    requires AtWork(c, id) && OfOthers(others, id) && !c.view.error
    ensures var r := Execute(c, others + [Resolve(id, p)]);
            && r.view.projection == Some(p) && !r.view.loadingMore && !r.view.error
            && r.view.state == (if p.pagination.totalEvents == 0 then Empty else Ready)
            && |r.instances| == id + 1 && r.instances[id].stage == Settled
            && forall a: Action :: (a.Page? || a.Resolve? || a.Reject?) && a.id == id ==> Next(r, a) == r
  {
    OthersAreIgnored(c, others, id);
    ExecuteMore(c, others, Resolve(id, p));
  }

  /** One load from its start: a page is followed by a failure, and what was shown stays beside the error. */
  lemma PageThenFailure(c: Component, id: nat, early: seq<Action>, p: Projection, complete: bool, late: seq<Action>,
                        error: FetchError)
    requires JustStarted(c, id) && OfOthers(early, id) && OfOthers(late, id)
    ensures var view := Execute(Execute(c, early + [Page(id, p, complete)]), late + [Reject(id, error)]).view;
            && view.projection == Some(p) && view.error && !view.loadingMore
            && view.state == if p.pagination.totalEvents == 0 then Empty else Ready
  {
    StartIsAtWork(c, id);
    PageIsShown(c, id, early, p, complete);
    LateFailure(Execute(c, early + [Page(id, p, complete)]), id, late, error);
  }
}
