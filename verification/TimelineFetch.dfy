/** Loading a whole timeline from a paging server that may answer anything, and the component state around it. */
module TimelineFetch {
  import opened Options
  import opened Sorting
  import opened Timeline

  const MAX_PAGES := 50

  datatype FetchError = ServerError(status: nat) | Unsafe

  /** A request is its cursor; the first one has none. */
  type Request = Option<string>

  /** What the server answers may depend on everything it was asked before. */
  type Server = seq<Request> -> Result<Projection, nat>

  datatype Published = Published(projection: Projection, complete: bool)

  /** An empty cursor counts as none. */
  predicate WantsMore(p: Projection) {
    p.pagination.hasMore && p.pagination.nextCursor.Some? && p.pagination.nextCursor.value != ""
  }

  ghost predicate NeverTwice(requests: seq<Request>) {
    && (forall i, j :: 0 <= i < j < |requests| ==> requests[i] != requests[j])
    && requests != [] && requests[0] == None
    && forall i :: 0 < i < |requests| ==> requests[i].Some?
  }

  /** The answer to request i, given all requests up to it. */
  function Reply(server: Server, requests: seq<Request>, i: nat): Result<Projection, nat>
    requires i < |requests|
  {
    server(requests[..i + 1])
  }

  ghost predicate PublishedAt(le: Collation, server: Server, requests: seq<Request>, published: seq<Published>, i: nat)
    requires i < |published| <= |requests|
  {
    var reply := Reply(server, requests, i);
    && reply.Ok?
    && published[i].projection ==
       (if i == 0 then reply.value else Merge(le, published[i - 1].projection, reply.value))
    && published[i].complete == !published[i].projection.pagination.hasMore
  }

  ghost predicate AskedAt(requests: seq<Request>, published: seq<Published>, i: nat)
    requires 0 < i < |requests|
  {
    && i <= |published| && WantsMore(published[i - 1].projection)
    && requests[i] == published[i - 1].projection.pagination.nextCursor
  }

  /** The publications and the further requests that a server's answers lead to. */
  ghost predicate PublishedBy(le: Collation, server: Server, requests: seq<Request>, published: seq<Published>) {
    && |published| <= |requests|
    && (forall i :: 0 <= i < |published| ==> PublishedAt(le, server, requests, published, i))
    && (forall i :: 0 < i < |requests| ==> AskedAt(requests, published, i))
  }

  lemma RequestAppended(le: Collation, server: Server, requests: seq<Request>, published: seq<Published>)
    requires PublishedBy(le, server, requests, published) && |published| == |requests| && published != []
    requires WantsMore(published[|published| - 1].projection)
    ensures PublishedBy(le, server, requests + [published[|published| - 1].projection.pagination.nextCursor], published)
  {
    var more := requests + [published[|published| - 1].projection.pagination.nextCursor];
    forall i | 0 <= i < |published|
      ensures PublishedAt(le, server, more, published, i)
    {
      assert PublishedAt(le, server, requests, published, i);
      assert more[..i + 1] == requests[..i + 1];
    }
    forall i | 0 < i < |more|
      ensures AskedAt(more, published, i)
    {
      assert i < |requests| ==> AskedAt(requests, published, i);
    }
  }

  lemma ReplyAppended(le: Collation, server: Server, requests: seq<Request>, published: seq<Published>, p: Published)
    requires PublishedBy(le, server, requests, published) && |requests| == |published| + 1 && published != []
    requires server(requests).Ok?
    requires p.projection == Merge(le, published[|published| - 1].projection, server(requests).value)
    requires p.complete == !p.projection.pagination.hasMore
    ensures PublishedBy(le, server, requests, published + [p])
  {
    var more := published + [p];
    assert requests[..|requests|] == requests;
    forall i | 0 <= i < |more|
      ensures PublishedAt(le, server, requests, more, i)
    {
      assert i < |published| ==> PublishedAt(le, server, requests, published, i);
    }
    forall i | 0 < i < |requests|
      ensures AskedAt(requests, more, i)
    {
      assert AskedAt(requests, published, i);
    }
  }

  /**
   At most fifty requests, no cursor twice; the result is either an error or the last published projection, and that one
   has no usable next cursor. It gives up by itself only on a repeated cursor or after fifty pages.
   */
  method FetchComplete(le: Collation, server: Server)
    returns (result: Result<Projection, FetchError>, requests: seq<Request>, published: seq<Published>)
    ensures |requests| <= 50 && NeverTwice(requests)
    ensures PublishedBy(le, server, requests, published)
    ensures result.Ok? ==>
              && |published| == |requests| && result.value == published[|published| - 1].projection
              && (result.value.pagination.hasMore ==> result.value.pagination.nextCursor in [None, Some("")])
    ensures result.Err? && result.error.ServerError? ==>
              && |published| == |requests| - 1 && server(requests) == Err(result.error.status)
    ensures result.Err? && result.error.Unsafe? ==>
              && |published| == |requests| && published != []
              && WantsMore(published[|published| - 1].projection)
              && (published[|published| - 1].projection.pagination.nextCursor in requests || |requests| == 50)
  {
    requests := [None];
    published := [];
    assert requests[..1] == requests;
    var first := server(requests);
    if first.Err? {
      result := Err(ServerError(first.error));
      return;
    }
    var projection := first.value;
    published := [Published(projection, !projection.pagination.hasMore)];
    var seenCursors: set<string> := {};
    var pageCount := 1;
    while WantsMore(projection)
      invariant |published| == |requests| == pageCount <= MAX_PAGES
      invariant NeverTwice(requests)
      invariant forall c :: c in seenCursors <==> Some(c) in requests
      invariant PublishedBy(le, server, requests, published)
      invariant projection == published[|published| - 1].projection
      decreases MAX_PAGES - pageCount
    {
      var cursor := projection.pagination.nextCursor.value;
      if cursor in seenCursors || pageCount >= MAX_PAGES {
        result := Err(Unsafe);
        return;
      }
      seenCursors := seenCursors + {cursor};
      RequestAppended(le, server, requests, published);
      requests := requests + [Some(cursor)];
      var nextPage := server(requests);
      if nextPage.Err? {
        result := Err(ServerError(nextPage.error));
        return;
      }
      projection := Merge(le, projection, nextPage.value);
      pageCount := pageCount + 1;
      ReplyAppended(le, server, requests, published, Published(projection, !projection.pagination.hasMore));
      published := published + [Published(projection, !projection.pagination.hasMore)];
    }
    result := Ok(projection);
  }

  /** Only a cursor with characters is sent on, and only of a page that announces more. */
  lemma CursorsAreUsable(le: Collation, server: Server, requests: seq<Request>, published: seq<Published>, i: nat)
    requires PublishedBy(le, server, requests, published) && 0 < i < |requests|
    ensures i <= |published| && requests[i].Some? && |requests[i].value| > 0
    ensures published[i - 1].projection.pagination.hasMore
    ensures published[i - 1].projection.pagination.nextCursor == requests[i]
  {
    assert AskedAt(requests, published, i);
  }

  /** The answers behind the first n publications, without the first one. */
  function LaterPages(server: Server, requests: seq<Request>, n: nat): seq<Projection>
    requires 0 < n <= |requests| && forall i :: 0 <= i < n ==> Reply(server, requests, i).Ok?
  {
    if n == 1 then [] else LaterPages(server, requests, n - 1) + [Reply(server, requests, n - 1).value]
  }

  /** What is published is the merge of the pages so far, so the paging laws apply to it. */
  lemma {:induction false} PublishedIsMerge(le: Collation, server: Server, requests: seq<Request>,
                                            published: seq<Published>, n: nat)
    requires PublishedBy(le, server, requests, published) && 0 < n <= |published|
    ensures forall i :: 0 <= i < n ==> Reply(server, requests, i).Ok?
    ensures published[n - 1].projection ==
            MergeAll(le, Reply(server, requests, 0).value, LaterPages(server, requests, n))
  {
    hide Merge, NeverTwice;
    assert PublishedAt(le, server, requests, published, n - 1);
    if n > 1 {
      PublishedIsMerge(le, server, requests, published, n - 1);
      var pages := LaterPages(server, requests, n);
      assert pages[..|pages| - 1] == LaterPages(server, requests, n - 1);
    }
  }

  /** From publication to publication event ids are only added and no count goes down. */
  lemma {:induction false} PublicationsGrow(le: Collation, server: Server, requests: seq<Request>,
                                            published: seq<Published>, a: nat, b: nat)
    requires TotalPreorder(le) && PublishedBy(le, server, requests, published) && a <= b < |published|
    ensures var p, q := published[a].projection, published[b].projection;
            && |p.stageGroups| == |q.stageGroups|
            && (forall i :: 0 <= i < |p.stageGroups| ==>
                  && Ids(p.stageGroups[i].events) <= Ids(q.stageGroups[i].events)
                  && p.stageGroups[i].eventCount <= q.stageGroups[i].eventCount)
            && p.pagination.totalEvents <= q.pagination.totalEvents
            && (b > 0 ==> q.pagination.returnedEvents == CountEvents(q.stageGroups))
    decreases b - a
  {
    hide Merge, Ids, CountEvents;
    if b > 0 {
      assert PublishedAt(le, server, requests, published, b);
      MergeGrows(le, published[b - 1].projection, Reply(server, requests, b).value);
    }
    if a < b {
      PublicationsGrow(le, server, requests, published, a, b - 1);
    }
  }

  // ---------------------------------------------------------------- the effect of the component

  datatype LoadState = Unavailable | Restricted | Loading | Ready | Empty | Failed

  datatype Stage = Idle | InFlight(rendered: bool, total: int) | Settled

  /** One run of the effect; cancelled is set by its cleanup. */
  datatype Instance = Instance(cancelled: bool, stage: Stage)

  /** What the component shows; origin is the instance that a stored projection came from. */
  datatype View = View(state: LoadState, projection: Option<Projection>, origin: nat, error: bool, loadingMore: bool)

  datatype Component = Component(view: View, instances: seq<Instance>, mounted: bool)

  datatype Action =
    | Rerun(hasExecution: bool, canRead: bool)       // cleanup of the last instance, then the next one
    | Unmount
    | Page(id: nat, projection: Projection, complete: bool)
    | Resolve(id: nat, projection: Projection)
    | Reject(id: nat, error: FetchError)

  function Cancelled(instances: seq<Instance>): (r: seq<Instance>)
    ensures |r| == |instances|
    ensures forall i :: 0 <= i < |r| - 1 ==> r[i] == instances[i]
    ensures r != [] ==> r[|r| - 1] == instances[|r| - 1].(cancelled := true)
  {
    if instances == [] then []
    else instances[|instances| - 1 := instances[|instances| - 1].(cancelled := true)]
  }

  function Shown(p: Projection): LoadState {
    if p.pagination.totalEvents == 0 then Empty else Ready
  }

  predicate Running(c: Component, id: nat) {
    id < |c.instances| && c.instances[id].stage.InFlight?
  }

  /** A cancelled instance still settles but writes nothing. */
  function Next(c: Component, a: Action): Component {
    match a
    case Rerun(hasExecution, canRead) =>
      if !c.mounted then c
      else
        var state := if !hasExecution then Unavailable else if !canRead then Restricted else Loading;
        Component(View(state, None, |c.instances|, false, false),
                  Cancelled(c.instances) + [Instance(false, if state == Loading then InFlight(false, 0) else Idle)],
                  true)
    case Unmount =>
      c.(instances := Cancelled(c.instances), mounted := false)
    case Page(id, p, complete) =>
      if !Running(c, id) || c.instances[id].cancelled then c
      else
        c.(instances := c.instances[id := Instance(false, InFlight(true, p.pagination.totalEvents))],
           view := View(Shown(p), Some(p), id, c.view.error, !complete))
    case Resolve(id, p) =>
      if !Running(c, id) then c
      else
        var settled := c.(instances := c.instances[id := c.instances[id].(stage := Settled)]);
        if c.instances[id].cancelled then settled
        else settled.(view := View(Shown(p), Some(p), id, c.view.error, false))
    case Reject(id, error) =>
      if !Running(c, id) then c
      else
        var settled := c.(instances := c.instances[id := c.instances[id].(stage := Settled)]);
        var view := c.view.(loadingMore := false);
        if c.instances[id].cancelled then settled
        else if c.instances[id].stage.rendered then settled.(view := view.(error := true))
        else if error == ServerError(403) then settled.(view := view.(state := Restricted, error := false))
        else if error.ServerError? && error.status in {404, 409, 410, 503}
        then settled.(view := view.(state := Unavailable, error := false))
        else settled.(view := view.(state := Failed, error := true))
  }

  function Execute(c: Component, actions: seq<Action>): Component {
    if actions == [] then c else Next(Execute(c, actions[..|actions| - 1]), actions[|actions| - 1])
  }

  /** The first render, before any effect ran. */
  function Initial(hasExecution: bool, canRead: bool): Component {
    Component(View(if hasExecution then (if canRead then Loading else Restricted) else Unavailable, None, 0, false,
                   false), [], true)
  }

  ghost predicate ViewInv(c: Component) {
    var last := |c.instances| - 1;
    && (c.view.projection.Some? <==> c.view.state == Ready || c.view.state == Empty)
    && (c.view.projection.Some? ==> c.view.state == Shown(c.view.projection.value))
    && (c.view.projection.Some? ==> |c.instances| > 0 && c.view.origin == last)
    && (forall i :: 0 <= i < last ==> c.instances[i].cancelled)
    && (c.mounted && c.instances != [] ==> !c.instances[last].cancelled)
    && (!c.mounted && c.instances != [] ==> c.instances[last].cancelled)
    && (c.mounted && c.view.loadingMore ==> |c.instances| > 0 && c.instances[last].stage.InFlight?)
    && (c.mounted && c.view.error ==> |c.instances| > 0 && c.instances[last].stage.Settled?)
    && (c.mounted && |c.instances| > 0 && c.instances[last].stage.InFlight? ==>
          (c.instances[last].stage.rendered <==> c.view.projection.Some?)
          && (c.view.projection.Some? ==>
                c.instances[last].stage.total == c.view.projection.value.pagination.totalEvents))
  }

  lemma RerunKeepsView(c: Component, a: Action)
    requires ViewInv(c) && (a.Rerun? || a.Unmount?)
    ensures ViewInv(Next(c, a))
  {
  }

  lemma PageKeepsView(c: Component, a: Action)
    requires ViewInv(c) && a.Page?
    ensures ViewInv(Next(c, a))
  {
  }

  lemma ResolveKeepsView(c: Component, a: Action)
    requires ViewInv(c) && a.Resolve?
    ensures ViewInv(Next(c, a))
  {
  }

  lemma RejectKeepsView(c: Component, a: Action)
    requires ViewInv(c) && a.Reject?
    ensures ViewInv(Next(c, a))
  {
  }

  lemma NextKeepsView(c: Component, a: Action)
    requires ViewInv(c)
    ensures ViewInv(Next(c, a))
  {
    hide ViewInv;
    match a
    case Rerun(_, _) => RerunKeepsView(c, a);
    case Unmount => RerunKeepsView(c, a);
    case Page(_, _, _) => PageKeepsView(c, a);
    case Resolve(_, _) => ResolveKeepsView(c, a);
    case Reject(_, _) => RejectKeepsView(c, a);
  }

  /**
   In every interleaving of effect runs, cleanups, pages, results and failures: a stored projection came from the latest
   instance and is there exactly in the states ready and empty; more is loading, or an error is shown, only while or
   after that instance is at work.
   */
  lemma {:induction false} EveryViewIsCurrent(hasExecution: bool, canRead: bool, actions: seq<Action>)
    ensures ViewInv(Execute(Initial(hasExecution, canRead), actions))
  {
    if actions != [] {
      var init := actions[..|actions| - 1];
      EveryViewIsCurrent(hasExecution, canRead, init);
      NextKeepsView(Execute(Initial(hasExecution, canRead), init), actions[|actions| - 1]);
    }
  }

  /** A superseded instance can change nothing that is shown, however late its pages and results come in. */
  lemma StaleAnswersAreIgnored(hasExecution: bool, canRead: bool, actions: seq<Action>, a: Action)
    requires a.Page? || a.Resolve? || a.Reject?
    requires var c := Execute(Initial(hasExecution, canRead), actions); a.id + 1 != |c.instances| || !c.mounted
    ensures var c := Execute(Initial(hasExecution, canRead), actions); Next(c, a).view == c.view
  {
    EveryViewIsCurrent(hasExecution, canRead, actions);
  }

  // ---------------------------------------------------------------- the effect fed by one load

  function PagesSeen(id: nat, actions: seq<Action>): nat {
    if actions == [] then 0
    else
      var last := actions[|actions| - 1];
      PagesSeen(id, actions[..|actions| - 1]) + (if last.Page? && last.id == id then 1 else 0)
  }

  /** The next action comes from the load of instance id, from another instance, or from the unmount. */
  ghost predicate Delivers(published: seq<Published>, id: nat, before: seq<Action>, a: Action) {
    match a
    case Rerun(_, _) => false
    case Unmount => true
    case Page(from, p, complete) =>
      from == id ==>
        var n := PagesSeen(id, before);
        n < |published| && p == published[n].projection && complete == published[n].complete
    case Resolve(from, p) => from == id ==> published != [] && p == published[|published| - 1].projection
    case Reject(_, _) => true
  }

  ghost predicate FedBy(published: seq<Published>, id: nat, actions: seq<Action>) {
    forall n :: 0 <= n < |actions| ==> Delivers(published, id, actions[..n], actions[n])
  }

  /** A component whose latest effect run has just started its load. */
  ghost predicate Started(c: Component, id: nat) {
    && ViewInv(c) && c.mounted && |c.instances| == id + 1
    && c.instances[id].stage.InFlight? && c.view.projection.None?
  }

  /** What is shown is publication k, and while the load runs no later one was delivered. */
  ghost predicate ShowsPublication(published: seq<Published>, id: nat, seen: nat, c: Component, k: nat) {
    && k < |published| && c.view.projection == Some(published[k].projection)
    && (|c.instances| == id + 1 && c.instances[id].stage.InFlight? ==> k < seen)
  }

  ghost predicate FeedInv(published: seq<Published>, id: nat, seen: nat, c: Component) {
    && ViewInv(c) && |c.instances| == id + 1
    && (c.view.projection.Some? ==> exists k :: ShowsPublication(published, id, seen, c, k))
  }

  lemma OnePageMore(id: nat, before: seq<Action>, a: Action)
    ensures PagesSeen(id, before + [a]) == PagesSeen(id, before) + (if a.Page? && a.id == id then 1 else 0)
  {
    assert (before + [a])[..|before|] == before;
  }

  /** Only the latest instance is heard. */
  lemma OnlyLatestIsHeard(c: Component, a: Action, id: nat)
    requires ViewInv(c) && |c.instances| == id + 1 && (a.Page? || a.Resolve? || a.Reject?)
    ensures a.id != id || !c.instances[id].stage.InFlight? ==> Next(c, a).view == c.view
    ensures a.id != id ==> Next(c, a).instances[id].stage == c.instances[id].stage
    ensures |Next(c, a).instances| == id + 1
  {
  }

  lemma PageMovesOn(published: seq<Published>, id: nat, before: seq<Action>, c: Component, a: Action, k: nat)
    returns (k': nat)
    requires FeedInv(published, id, PagesSeen(id, before), c) && Delivers(published, id, before, a) && a.Page?
    requires c.view.projection.Some? ==> ShowsPublication(published, id, PagesSeen(id, before), c, k)
    ensures var c' := Next(c, a);
            && (c.view.projection.Some? ==> k <= k')
            && (c'.view.projection.Some? ==> ShowsPublication(published, id, PagesSeen(id, before + [a]), c', k'))
  {
    OnlyLatestIsHeard(c, a, id);
    OnePageMore(id, before, a);
    k' := if a.id == id && c.instances[id].stage.InFlight? && !c.instances[id].cancelled then PagesSeen(id, before)
          else k;
  }

  lemma EndMovesOn(published: seq<Published>, id: nat, before: seq<Action>, c: Component, a: Action, k: nat)
    returns (k': nat)
    requires FeedInv(published, id, PagesSeen(id, before), c) && Delivers(published, id, before, a) && !a.Page?
    requires c.view.projection.Some? ==> ShowsPublication(published, id, PagesSeen(id, before), c, k)
    ensures var c' := Next(c, a);
            && (c.view.projection.Some? ==> k <= k')
            && (c'.view.projection.Some? ==> ShowsPublication(published, id, PagesSeen(id, before + [a]), c', k'))
  {
    if !a.Unmount? {
      OnlyLatestIsHeard(c, a, id);
    }
    OnePageMore(id, before, a);
    k' := if a.Resolve? && a.id == id && c.instances[id].stage.InFlight? && !c.instances[id].cancelled
          then |published| - 1 else k;
  }

  /** One action shows the same publication still, or a later one. */
  lemma NextPublication(published: seq<Published>, id: nat, before: seq<Action>, c: Component, a: Action, k: nat)
    returns (k': nat)
    requires FeedInv(published, id, PagesSeen(id, before), c) && Delivers(published, id, before, a)
    requires c.view.projection.Some? ==> ShowsPublication(published, id, PagesSeen(id, before), c, k)
    ensures var c' := Next(c, a);
            && FeedInv(published, id, PagesSeen(id, before + [a]), c')
            && (c.view.projection.Some? ==> k <= k')
            && (c'.view.projection.Some? ==> ShowsPublication(published, id, PagesSeen(id, before + [a]), c', k'))
  {
    hide ViewInv, ShowsPublication, PagesSeen;
    NextKeepsView(c, a);
    if a.Page? {
      k' := PageMovesOn(published, id, before, c, a, k);
    } else {
      k' := EndMovesOn(published, id, before, c, a, k);
    }
    KeepsInstances(c, a);
  }

  lemma KeepsInstances(c: Component, a: Action)
    requires !a.Rerun?
    ensures |Next(c, a).instances| == |c.instances|
  {
  }

  lemma {:induction false} FeedKeepsInv(published: seq<Published>, id: nat, c: Component, actions: seq<Action>)
    requires Started(c, id) && FedBy(published, id, actions)
    ensures FeedInv(published, id, PagesSeen(id, actions), Execute(c, actions))
  {
    if actions != [] {
      var init, a := actions[..|actions| - 1], actions[|actions| - 1];
      assert actions == init + [a];
      FedPrefix(published, id, actions, |init|);
      FeedKeepsInv(published, id, c, init);
      var c1 := Execute(c, init);
      var k: nat := 0;
      if c1.view.projection.Some? {
        k :| ShowsPublication(published, id, PagesSeen(id, init), c1, k);
      }
      var k' := NextPublication(published, id, init, c1, a, k);
    }
  }

  lemma FedPrefix(published: seq<Published>, id: nat, actions: seq<Action>, n: nat)
    requires FedBy(published, id, actions) && n <= |actions|
    ensures FedBy(published, id, actions[..n])
  {
    forall m | 0 <= m < n
      ensures Delivers(published, id, actions[..n][..m], actions[..n][m])
    {
      assert actions[..n][..m] == actions[..m];
    }
  }

  /** Between two moments of one load the shown publication only moves on. */
  lemma {:induction false} ShownMovesOn(published: seq<Published>, id: nat, c: Component, actions: seq<Action>, n: nat)
    returns (k: nat, k': nat)
    requires Started(c, id) && FedBy(published, id, actions) && n <= |actions|
    requires Execute(c, actions[..n]).view.projection.Some?
    ensures k <= k' < |published|
    ensures Execute(c, actions[..n]).view.projection == Some(published[k].projection)
    ensures ShowsPublication(published, id, PagesSeen(id, actions), Execute(c, actions), k')
    decreases |actions| - n
  {
    if n == |actions| {
      assert actions[..n] == actions;
      FeedKeepsInv(published, id, c, actions);
      k :| ShowsPublication(published, id, PagesSeen(id, actions), Execute(c, actions), k);
      k' := k;
    } else {
      var init, a := actions[..|actions| - 1], actions[|actions| - 1];
      assert actions == init + [a] && actions[..n] == init[..n];
      FedPrefix(published, id, actions, |init|);
      FeedKeepsInv(published, id, c, init);
      var k1;
      k, k1 := ShownMovesOn(published, id, c, init, n);
      k' := NextPublication(published, id, init, Execute(c, init), a, k1);
      ShownStays(Execute(c, init), a);
    }
  }

  lemma ShownStays(c: Component, a: Action)
    requires c.view.projection.Some? && !a.Rerun?
    ensures Next(c, a).view.projection.Some?
  {
  }

  /** And then it can: a merge turns ready into empty exactly when a negative total meets a page that reports zero. */
  lemma FallsBackIff(le: Collation, known: Projection, page: Projection)
    ensures Shown(known) == Ready && Shown(Merge(le, known, page)) == Empty <==>
            known.pagination.totalEvents < 0 && page.pagination.totalEvents == 0
  {
  }

  /**
   While one load of any server feeds the component, whatever other instances answer in between: event ids of the shown
   projection are only added, its total does not go down, and the state falls back from ready to empty only if the
   server reported a negative total.
   */
  lemma ReadyStaysReady(le: Collation, server: Server, requests: seq<Request>, published: seq<Published>, id: nat,
                        c: Component, actions: seq<Action>, n: nat)
    requires TotalPreorder(le) && PublishedBy(le, server, requests, published)
    requires Started(c, id) && FedBy(published, id, actions) && n <= |actions|
    requires Execute(c, actions[..n]).view.projection.Some?
    ensures var earlier, later := Execute(c, actions[..n]).view, Execute(c, actions).view;
            && later.projection.Some?
            && var p, q := earlier.projection.value, later.projection.value;
               && p.pagination.totalEvents <= q.pagination.totalEvents
               && |p.stageGroups| == |q.stageGroups|
               && (forall i :: 0 <= i < |p.stageGroups| ==>
                     Ids(p.stageGroups[i].events) <= Ids(q.stageGroups[i].events))
               && (earlier.state == Ready ==> later.state == Ready || p.pagination.totalEvents < 0)
  {
    var k, k' := ShownMovesOn(published, id, c, actions, n);
    PublicationsGrow(le, server, requests, published, k, k');
    FedPrefix(published, id, actions, n);
    FeedKeepsInv(published, id, c, actions[..n]);
    FeedKeepsInv(published, id, c, actions);
  }
}
