/**
 Merging the pages of a decision timeline. The collation of sort keys is any total preorder on events.
 */
module Timeline {
  import opened Basics
  import opened Options
  import opened Sorting
  import opened Keyed

  datatype Event = Event(eventId: string, sortKey: string, detail: string)

  /** A missing part of a reason is the empty string, as in a joined key. */
  datatype Reason = Reason(code: string, stage: string, sourceType: string, referenceType: string, referenceId: string,
                           detailKey: string, message: string)

  datatype Group = Group(stage: string, sequence: int, status: string, eventCount: int, pageEventCount: int,
                         events: seq<Event>, unavailableReason: Option<Reason>)

  datatype Pagination = Pagination(pageSize: int, totalEvents: int, returnedEvents: int, hasMore: bool,
                                   nextCursor: Option<string>, snapshotAt: string)

  /** header stands for the fields that every page repeats and merging takes from the first. */
  datatype Projection = Projection(header: string, stageGroups: seq<Group>, reasons: seq<Reason>,
                                   pagination: Pagination)

  type Collation = (Event, Event) -> bool

  function EventId(e: Event): string { e.eventId }

  function ReasonKey(r: Reason): string {
    r.code + ":" + r.stage + ":" + r.sourceType + ":" + r.referenceType + ":" + r.referenceId + ":" + r.detailKey
  }

  /** The group a page brings for a stage: of repeated stages the map keeps the last. */
  function Incoming(groups: seq<Group>, stage: string): Option<Group> {
    if groups == [] then None
    else if groups[|groups| - 1].stage == stage then Some(groups[|groups| - 1])
    else Incoming(groups[..|groups| - 1], stage)
  }

  function MergeEvents(le: Collation, known: seq<Event>, more: seq<Event>): seq<Event> {
    StableSort(le, UpsertAll(EventId, Collect(EventId, known), more))
  }

  function MergeGroup(le: Collation, g: Group, incoming: Option<Group>): Group {
    match incoming
    case None => g
    case Some(more) =>
      var events := MergeEvents(le, g.events, more.events);
      g.(eventCount := Max(g.eventCount, more.eventCount),
         pageEventCount := |events|,
         events := events,
         unavailableReason := if g.unavailableReason.Some? then g.unavailableReason else more.unavailableReason)
  }

  function MergeGroups(le: Collation, groups: seq<Group>, page: seq<Group>): (r: seq<Group>)
    ensures |r| == |groups|
    ensures forall i :: 0 <= i < |r| ==> r[i] == MergeGroup(le, groups[i], Incoming(page, groups[i].stage))
  {
    seq(|groups|, i requires 0 <= i < |groups| => MergeGroup(le, groups[i], Incoming(page, groups[i].stage)))
  }

  function CountEvents(groups: seq<Group>): nat {
    if groups == [] then 0 else CountEvents(groups[..|groups| - 1]) + |groups[|groups| - 1].events|
  }

  function Merge(le: Collation, known: Projection, page: Projection): Projection {
    var groups := MergeGroups(le, known.stageGroups, page.stageGroups);
    Projection(known.header, groups, Collect(ReasonKey, known.reasons + page.reasons),
               page.pagination.(totalEvents := Max(known.pagination.totalEvents, page.pagination.totalEvents),
                                returnedEvents := CountEvents(groups)))
  }

  function MergeAll(le: Collation, first: Projection, pages: seq<Projection>): Projection {
    if pages == [] then first else Merge(le, MergeAll(le, first, pages[..|pages| - 1]), pages[|pages| - 1])
  }

  /** The two loops over a Map of events, and the sort of its values. */
  method MergeEventLists(le: Collation, known: seq<Event>, more: seq<Event>) returns (events: seq<Event>)
    ensures events == MergeEvents(le, known, more)
  {
    var eventsById: seq<Event> := [];
    var i := 0;
    while i < |known|
      invariant 0 <= i <= |known| && eventsById == Collect(EventId, known[..i])
    {
      assert known[..i + 1][..i] == known[..i];
      eventsById := Upsert(EventId, eventsById, known[i]);
      i := i + 1;
    }
    assert known[..|known|] == known;
    i := 0;
    while i < |more|
      invariant 0 <= i <= |more| && eventsById == UpsertAll(EventId, Collect(EventId, known), more[..i])
    {
      assert more[..i + 1][..i] == more[..i];
      eventsById := Upsert(EventId, eventsById, more[i]);
      i := i + 1;
    }
    assert more[..|more|] == more;
    events := StableSort(le, eventsById);
  }

  method DedupeUnavailableReasons(reasons: seq<Reason>) returns (unique: seq<Reason>)
    ensures unique == Collect(ReasonKey, reasons)
  {
    unique := [];
    var i := 0;
    while i < |reasons|
      invariant 0 <= i <= |reasons| && unique == Collect(ReasonKey, reasons[..i])
    {
      assert reasons[..i + 1][..i] == reasons[..i];
      unique := Upsert(ReasonKey, unique, reasons[i]);
      i := i + 1;
    }
    assert reasons[..|reasons|] == reasons;
  }

  // ---------------------------------------------------------------- independence of the paging

  /** An event id always carries the same event. */
  ghost predicate Consistent(events: seq<Event>) {
    forall i, j :: 0 <= i < |events| && 0 <= j < |events| && events[i].eventId == events[j].eventId ==>
                     events[i] == events[j]
  }

  /** The events of a list whose ids are not known yet, each once. */
  function New(known: set<string>, events: seq<Event>): seq<Event> {
    if events == [] then []
    else
      var before := New(known, events[..|events| - 1]);
      var e := events[|events| - 1];
      if e.eventId in known || e in before then before else before + [e]
  }

  function Ids(events: seq<Event>): (ids: set<string>)
    ensures forall id :: id in ids <==> exists i :: 0 <= i < |events| && events[i].eventId == id
  {
    set i | 0 <= i < |events| :: events[i].eventId
  }

  lemma {:induction false} UpsertAllIsAppendNew(xs: seq<Event>, ys: seq<Event>)
    requires Consistent(xs + ys)
    ensures UpsertAll(EventId, xs, ys) == xs + New(Ids(xs), ys)
    ensures forall e :: e in New(Ids(xs), ys) ==> e in ys
  {
    if ys != [] {
      var init, y := ys[..|ys| - 1], ys[|ys| - 1];
      assert xs + ys == (xs + init) + [y];
      assert Consistent(xs + init) by {
        assert forall i :: 0 <= i < |xs + init| ==> (xs + init)[i] == (xs + ys)[i];
      }
      UpsertAllIsAppendNew(xs, init);
      var before := xs + New(Ids(xs), init);
      var at := IndexOf(EventId, before, y.eventId);
      assert (xs + ys)[|xs + ys| - 1] == y;
      if at < |before| {
        assert before[at] in xs + ys by {
          assert before[at] in xs || before[at] in init;
        }
        assert before[at] == y;
        assert before[at := y] == before;
        if at >= |xs| {
          assert before[at] == New(Ids(xs), init)[at - |xs|];
        }
      } else {
        NotFoundIsNew(xs, New(Ids(xs), init), y);
      }
    }
  }

  lemma NotFoundIsNew(xs: seq<Event>, more: seq<Event>, y: Event)
    requires IndexOf(EventId, xs + more, y.eventId) == |xs + more|
    ensures y.eventId !in Ids(xs) && y !in more
  {
    forall i | 0 <= i < |xs|
      ensures xs[i].eventId != y.eventId
    {
      assert (xs + more)[i] == xs[i];
    }
    forall i | 0 <= i < |more|
      ensures more[i] != y
    {
      assert (xs + more)[|xs| + i] == more[i];
      assert EventId((xs + more)[|xs| + i]) != y.eventId;
    }
  }

  lemma SortAbsorbsSort(le: Collation, xs: seq<Event>, ys: seq<Event>)
    requires TotalPreorder(le)
    ensures StableSort(le, StableSort(le, xs) + ys) == StableSort(le, xs + ys)
  {
    var s := StableSort(le, xs);
    StableSortIsStable(le, xs);
    StableSortIsStable(le, s + ys);
    StableSortIsStable(le, xs + ys);
    forall c
      ensures Class(le, c, StableSort(le, s + ys)) == Class(le, c, StableSort(le, xs + ys))
    {
      ClassConcat(le, c, s, ys);
      ClassConcat(le, c, xs, ys);
    }
    SortedUnique(le, StableSort(le, s + ys), StableSort(le, xs + ys));
  }

  lemma SameElements(xs: seq<Event>, ys: seq<Event>)
    requires multiset(xs) == multiset(ys)
    ensures Ids(xs) == Ids(ys) && forall e :: e in xs <==> e in ys
  {
    forall e
      ensures e in xs <==> e in ys
    {
      assert e in xs <==> e in multiset(xs);
      assert e in ys <==> e in multiset(ys);
    }
    forall id
      ensures id in Ids(xs) <==> id in Ids(ys)
    {
      if id in Ids(xs) {
        var i :| 0 <= i < |xs| && xs[i].eventId == id;
        assert xs[i] in ys;
        var j :| 0 <= j < |ys| && ys[j] == xs[i];
        assert ys[j].eventId == id;
      }
      if id in Ids(ys) {
        var i :| 0 <= i < |ys| && ys[i].eventId == id;
        assert ys[i] in xs;
        var j :| 0 <= j < |xs| && xs[j] == ys[i];
        assert xs[j].eventId == id;
      }
    }
  }

  lemma ConsistentSubset(big: seq<Event>, small: seq<Event>)
    requires Consistent(big) && forall e :: e in small ==> e in big
    ensures Consistent(small)
  {
    forall i, j | 0 <= i < |small| && 0 <= j < |small| && small[i].eventId == small[j].eventId
      ensures small[i] == small[j]
    {
      assert small[i] in big && small[j] in big;
    }
  }

  /** Merging a page into a sorted, deduplicated list is sorting and deduplicating everything at once. */
  lemma MergeEventsIsSortOfAll(le: Collation, all: seq<Event>, more: seq<Event>)
    requires TotalPreorder(le) && Consistent(all + more)
    ensures MergeEvents(le, StableSort(le, Collect(EventId, all)), more) ==
            StableSort(le, Collect(EventId, all + more))
  {
    var d := Collect(EventId, all);
    var s := StableSort(le, d);
    CollectMembers(EventId, all);
    StableSortIsStable(le, d);
    SameElements(s, d);
    UpsertAllKeepsDistinct(EventId, [], all);
    PermutationKeepsDistinct(EventId, s, d);
    CollectDistinct(EventId, s);
    ConsistentSubset(all + more, s + more);
    ConsistentSubset(all + more, d + more);
    UpsertAllIsAppendNew(s, more);
    UpsertAllIsAppendNew(d, more);
    UpsertAllConcat(EventId, [], all, more);
    SortAbsorbsSort(le, d, New(Ids(d), more));
  }

  /** The first merge sorts what the first page left in its own order. */
  lemma FirstMerge(le: Collation, known: seq<Event>, more: seq<Event>)
    ensures MergeEvents(le, known, more) == StableSort(le, Collect(EventId, known + more))
  {
    UpsertAllConcat(EventId, [], known, more);
  }

  /** All events that a list of pages brings for one stage. */
  function Brought(stage: string, pages: seq<Projection>): seq<Event> {
    if pages == [] then []
    else
      var last := Incoming(pages[|pages| - 1].stageGroups, stage);
      Brought(stage, pages[..|pages| - 1]) + (if last.Some? then last.value.events else [])
  }

  predicate Touched(stage: string, pages: seq<Projection>) {
    exists i :: 0 <= i < |pages| && Incoming(pages[i].stageGroups, stage).Some?
  }

  /** What becomes of one group of the first page. */
  function GroupAfter(le: Collation, g: Group, pages: seq<Projection>): (r: Group)
    ensures r.stage == g.stage
  {
    if pages == [] then g
    else MergeGroup(le, GroupAfter(le, g, pages[..|pages| - 1]), Incoming(pages[|pages| - 1].stageGroups, g.stage))
  }

  lemma {:induction false} GroupsKeepTheirPlace(le: Collation, first: Projection, pages: seq<Projection>)
    ensures var r := MergeAll(le, first, pages);
            && |r.stageGroups| == |first.stageGroups|
            && forall i :: 0 <= i < |first.stageGroups| ==>
                 r.stageGroups[i] == GroupAfter(le, first.stageGroups[i], pages)
  {
    if pages != [] {
      GroupsKeepTheirPlace(le, first, pages[..|pages| - 1]);
    }
  }

  lemma TouchedLast(stage: string, pages: seq<Projection>)
    requires pages != []
    ensures Touched(stage, pages) <==>
            Touched(stage, pages[..|pages| - 1]) || Incoming(pages[|pages| - 1].stageGroups, stage).Some?
  {
    var init := pages[..|pages| - 1];
    if Touched(stage, pages) {
      var i :| 0 <= i < |pages| && Incoming(pages[i].stageGroups, stage).Some?;
      assert i < |init| ==> init[i] == pages[i];
    }
    if Touched(stage, init) {
      var i :| 0 <= i < |init| && Incoming(init[i].stageGroups, stage).Some?;
      assert pages[i] == init[i];
    }
  }

  lemma {:induction false} UntouchedBringsNothing(stage: string, pages: seq<Projection>)
    requires !Touched(stage, pages)
    ensures Brought(stage, pages) == []
  {
    if pages != [] {
      TouchedLast(stage, pages);
      UntouchedBringsNothing(stage, pages[..|pages| - 1]);
    }
  }

  /** One more page, for a group that is sorted if an earlier page touched it and untouched otherwise. */
  lemma OneMorePage(le: Collation, base: seq<Event>, brought: seq<Event>, touched: bool, more: seq<Event>)
    requires TotalPreorder(le) && Consistent(base + (brought + more)) && (!touched ==> brought == [])
    ensures MergeEvents(le, if touched then StableSort(le, Collect(EventId, base + brought)) else base, more) ==
            StableSort(le, Collect(EventId, base + (brought + more)))
  {
    assert base + (brought + more) == (base + brought) + more;
    if touched {
      MergeEventsIsSortOfAll(le, base + brought, more);
    } else {
      assert base + brought == base;
      FirstMerge(le, base, more);
    }
  }

  lemma {:induction false} EventsAfter(le: Collation, g: Group, pages: seq<Projection>)
    requires TotalPreorder(le) && Consistent(g.events + Brought(g.stage, pages))
    ensures GroupAfter(le, g, pages).events ==
            if Touched(g.stage, pages)
            then StableSort(le, Collect(EventId, g.events + Brought(g.stage, pages)))
            else g.events
  {
    if pages != [] {
      var init := pages[..|pages| - 1];
      var more := Incoming(pages[|pages| - 1].stageGroups, g.stage);
      TouchedLast(g.stage, pages);
      ConsistentSubset(g.events + Brought(g.stage, pages), g.events + Brought(g.stage, init));
      EventsAfter(le, g, init);
      if more.Some? {
        if !Touched(g.stage, init) {
          UntouchedBringsNothing(g.stage, init);
        }
        OneMorePage(le, g.events, Brought(g.stage, init), Touched(g.stage, init), more.value.events);
      } else {
        assert Brought(g.stage, pages) == Brought(g.stage, init);
      }
    }
  }

  /**
   Whatever the split into pages: a group that a later page touches holds the stable sort of the first-occurrence
   deduplication of all its events, and a group that none touches is the first page's.
   */
  lemma PagingIndependence(le: Collation, first: Projection, pages: seq<Projection>, i: nat)
    requires TotalPreorder(le) && i < |first.stageGroups|
    requires Consistent(first.stageGroups[i].events + Brought(first.stageGroups[i].stage, pages))
    ensures |MergeAll(le, first, pages).stageGroups| == |first.stageGroups|
    ensures var g := first.stageGroups[i];
            MergeAll(le, first, pages).stageGroups[i].events ==
            if Touched(g.stage, pages)
            then StableSort(le, Collect(EventId, g.events + Brought(g.stage, pages)))
            else g.events
  {
    GroupsKeepTheirPlace(le, first, pages);
    EventsAfter(le, first.stageGroups[i], pages);
  }

  /**
   Where the events are cut into pages makes no difference, the first page included: when two loads bring the same
   events for a stage in the same order, and both or neither touch it again after their first page, they show the same
   list.
   */
  lemma SplitDoesNotMatter(le: Collation, p: Projection, a: seq<Projection>, i: nat, q: Projection, b: seq<Projection>,
                           j: nat)
    requires TotalPreorder(le) && i < |p.stageGroups| && j < |q.stageGroups|
    requires var stage := p.stageGroups[i].stage;
             && stage == q.stageGroups[j].stage
             && p.stageGroups[i].events + Brought(stage, a) == q.stageGroups[j].events + Brought(stage, b)
             && (Touched(stage, a) <==> Touched(stage, b))
             && Consistent(p.stageGroups[i].events + Brought(stage, a))
    ensures |MergeAll(le, p, a).stageGroups| == |p.stageGroups| && |MergeAll(le, q, b).stageGroups| == |q.stageGroups|
    ensures MergeAll(le, p, a).stageGroups[i].events == MergeAll(le, q, b).stageGroups[j].events
  {
    var stage := p.stageGroups[i].stage;
    PagingIndependence(le, p, a, i);
    PagingIndependence(le, q, b, j);
    if !Touched(stage, a) {
      UntouchedBringsNothing(stage, a);
      UntouchedBringsNothing(stage, b);
      assert p.stageGroups[i].events + [] == p.stageGroups[i].events;
      assert q.stageGroups[j].events + [] == q.stageGroups[j].events;
    }
  }

  /** Sorting and deduplicating leaves exactly the sorted lists without repeated ids as they are. */
  lemma InOrderIff(le: Collation, xs: seq<Event>)
    requires TotalPreorder(le)
    ensures StableSort(le, Collect(EventId, xs)) == xs <==> Sorted(le, xs) && DistinctKeys(EventId, xs)
  {
    var d := Collect(EventId, xs);
    StableSortIsStable(le, d);
    if StableSort(le, d) == xs {
      UpsertAllKeepsDistinct(EventId, [], xs);
      PermutationKeepsDistinct(EventId, xs, d);
    }
    if Sorted(le, xs) && DistinctKeys(EventId, xs) {
      CollectDistinct(EventId, xs);
      SortedUnique(le, StableSort(le, xs), xs);
    }
  }

  /**
   The one difference that a cut can make: a group that no later page touches is the stable sort of its deduplication if
   and only if the first page already brought it sorted and without repeated ids.
   */
  lemma UntouchedIsInOrderIff(le: Collation, first: Projection, pages: seq<Projection>, i: nat)
    requires TotalPreorder(le) && i < |first.stageGroups| && !Touched(first.stageGroups[i].stage, pages)
    requires Consistent(first.stageGroups[i].events)
    ensures |MergeAll(le, first, pages).stageGroups| == |first.stageGroups|
    ensures var g := first.stageGroups[i];
            MergeAll(le, first, pages).stageGroups[i].events ==
            StableSort(le, Collect(EventId, g.events + Brought(g.stage, pages))) <==>
            Sorted(le, g.events) && DistinctKeys(EventId, g.events)
  {
    var g := first.stageGroups[i];
    UntouchedBringsNothing(g.stage, pages);
    assert g.events + [] == g.events;
    PagingIndependence(le, first, pages, i);
    InOrderIff(le, g.events);
  }

  // ---------------------------------------------------------------- independence of the grouping

  /** The events whose ids are not among the known ones. */
  function Fresh(known: set<string>, events: seq<Event>): seq<Event> {
    if events == [] then []
    else (if events[0].eventId in known then [] else [events[0]]) + Fresh(known, events[1..])
  }

  lemma {:induction false} FreshConcat(known: set<string>, xs: seq<Event>, ys: seq<Event>)
    ensures Fresh(known, xs + ys) == Fresh(known, xs) + Fresh(known, ys)
  {
    if xs == [] {
      assert xs + ys == ys;
    } else {
      assert (xs + ys)[1..] == xs[1..] + ys;
      FreshConcat(known, xs[1..], ys);
    }
  }

  lemma {:induction false} FreshMember(known: set<string>, xs: seq<Event>, e: Event)
    ensures e in Fresh(known, xs) <==> e in xs && e.eventId !in known
  {
    if xs != [] {
      assert xs == [xs[0]] + xs[1..];
      FreshMember(known, xs[1..], e);
    }
  }

  lemma {:induction false} FreshOfClass(le: Collation, c: Event, known: set<string>, xs: seq<Event>)
    ensures Class(le, c, Fresh(known, xs)) == Fresh(known, Class(le, c, xs))
  {
    if xs != [] {
      var head := if xs[0].eventId in known then [] else [xs[0]];
      var same := if Same(le, c, xs[0]) then [xs[0]] else [];
      FreshOfClass(le, c, known, xs[1..]);
      ClassConcat(le, c, head, Fresh(known, xs[1..]));
      FreshConcat(known, same, Class(le, c, xs[1..]));
    }
  }

  /** What is new is what is new among the deduplicated. */
  lemma {:induction false} NewIsFresh(known: set<string>, xs: seq<Event>)
    ensures New(known, xs) == Fresh(known, New({}, xs))
  {
    if xs != [] {
      var init, e := xs[..|xs| - 1], xs[|xs| - 1];
      var before := New({}, init);
      NewIsFresh(known, init);
      FreshMember(known, before, e);
      FreshConcat(known, before, [e]);
      assert Fresh(known, [e]) == if e.eventId in known then [] else [e];
    }
  }

  /** Adding a list to a deduplicated one appends what is fresh in the deduplicated list. */
  lemma AppendFresh(xs: seq<Event>, ys: seq<Event>)
    requires Consistent(xs + ys) && DistinctKeys(EventId, xs)
    ensures Collect(EventId, xs + ys) == xs + Fresh(Ids(xs), Collect(EventId, ys))
  {
    ConsistentSubset(xs + ys, [] + ys);
    UpsertAllConcat(EventId, [], xs, ys);
    CollectDistinct(EventId, xs);
    UpsertAllIsAppendNew(xs, ys);
    UpsertAllIsAppendNew([], ys);
    NewIsFresh(Ids(xs), ys);
    assert Ids([]) == {} && [] + New({}, ys) == New({}, ys);
  }

  /** Sorting and deduplicating a tail beforehand changes nothing. */
  lemma TailFirst(le: Collation, xs: seq<Event>, ys: seq<Event>)
    requires TotalPreorder(le) && Consistent(xs + ys)
    ensures StableSort(le, Collect(EventId, xs + StableSort(le, Collect(EventId, ys)))) ==
            StableSort(le, Collect(EventId, xs + ys))
  {
    var a, d := Collect(EventId, xs), Collect(EventId, ys);
    var s := StableSort(le, d);
    DedupedHead(xs, ys);
    CollectMembers(EventId, xs);
    CollectMembers(EventId, ys);
    StableSortIsStable(le, d);
    SameElements(s, d);
    UpsertAllKeepsDistinct(EventId, [], xs);
    UpsertAllKeepsDistinct(EventId, [], ys);
    PermutationKeepsDistinct(EventId, s, d);
    CollectDistinct(EventId, s);
    ConsistentSubset(xs + ys, a + ys);
    ConsistentSubset(xs + ys, a + s);
    ConsistentSubset(xs + ys, xs + s);
    DedupedHead(xs, s);
    AppendFresh(a, ys);
    AppendFresh(a, s);
    SortFreshOfSorted(le, a, Ids(a), d);
  }

  lemma DedupedHead(xs: seq<Event>, ys: seq<Event>)
    ensures Collect(EventId, Collect(EventId, xs) + ys) == Collect(EventId, xs + ys)
  {
    CollectTwice(EventId, xs, ys);
  }

  lemma SortFreshOfSorted(le: Collation, a: seq<Event>, known: set<string>, d: seq<Event>)
    requires TotalPreorder(le)
    ensures StableSort(le, a + Fresh(known, StableSort(le, d))) == StableSort(le, a + Fresh(known, d))
  {
    var s := StableSort(le, d);
    var l, r := a + Fresh(known, s), a + Fresh(known, d);
    StableSortIsStable(le, d);
    StableSortIsStable(le, l);
    StableSortIsStable(le, r);
    forall c
      ensures Class(le, c, StableSort(le, l)) == Class(le, c, StableSort(le, r))
    {
      ClassConcat(le, c, a, Fresh(known, s));
      ClassConcat(le, c, a, Fresh(known, d));
      FreshOfClass(le, c, known, s);
      FreshOfClass(le, c, known, d);
      assert Class(le, c, s) == Class(le, c, d);
    }
    SortedUnique(le, StableSort(le, l), StableSort(le, r));
  }

  lemma {:induction false} BroughtAppend(stage: string, page: Projection, pages: seq<Projection>)
    ensures var here := Incoming(page.stageGroups, stage);
            Brought(stage, [page] + pages) == (if here.Some? then here.value.events else []) + Brought(stage, pages)
  {
    hide Incoming;
    var all := [page] + pages;
    if pages == [] {
      assert all[..|all| - 1] == [];
    } else {
      var init := pages[..|pages| - 1];
      assert all[..|all| - 1] == [page] + init && all[|all| - 1] == pages[|pages| - 1];
      BroughtAppend(stage, page, init);
    }
  }

  lemma TouchedHead(stage: string, page: Projection, pages: seq<Projection>)
    ensures Touched(stage, [page] + pages) <==> Incoming(page.stageGroups, stage).Some? || Touched(stage, pages)
  {
    hide Incoming;
    var all := [page] + pages;
    assert all[0] == page && forall i :: 0 <= i < |pages| ==> all[i + 1] == pages[i];
    if i :| 0 <= i < |all| && Incoming(all[i].stageGroups, stage).Some? {
      assert i > 0 ==> pages[i - 1] == all[i];
    }
  }

  /** The group that a merged projection brings for a stage is its last group of that stage, merged. */
  lemma {:induction false} IncomingOfMerged(groups: seq<Group>, merged: seq<Group>, stage: string) returns (at: nat)
    requires |groups| == |merged| && forall i :: 0 <= i < |groups| ==> merged[i].stage == groups[i].stage
    ensures Incoming(groups, stage).Some? <==> Incoming(merged, stage).Some?
    ensures Incoming(groups, stage).Some? ==>
              && at < |groups|
              && Incoming(groups, stage) == Some(groups[at]) && Incoming(merged, stage) == Some(merged[at])
  {
    if groups == [] {
      at := 0;
    } else if groups[|groups| - 1].stage == stage {
      at := |groups| - 1;
    } else {
      at := IncomingOfMerged(groups[..|groups| - 1], merged[..|merged| - 1], stage);
    }
  }

  /** What a block of pages, merged on its own, brings for a stage. */
  lemma BroughtByBlock(le: Collation, b: Projection, pages: seq<Projection>, stage: string)
    requires Incoming(b.stageGroups, stage).Some? ==>
               TotalPreorder(le) && Consistent(Brought(stage, [b] + pages))
    ensures var here, block := Incoming(b.stageGroups, stage), Incoming(MergeAll(le, b, pages).stageGroups, stage);
            && (here.Some? <==> block.Some?)
            && (here.Some? ==> block.value.events ==
                               if Touched(stage, pages)
                               then StableSort(le, Collect(EventId, Brought(stage, [b] + pages)))
                               else Brought(stage, [b] + pages))
  {
    GroupsKeepTheirPlace(le, b, pages);
    var at := IncomingOfMerged(b.stageGroups, MergeAll(le, b, pages).stageGroups, stage);
    BroughtAppend(stage, b, pages);
    if Incoming(b.stageGroups, stage).Some? {
      IncomingHasStage(b.stageGroups, stage);
      EventsAfter(le, b.stageGroups[at], pages);
      if !Touched(stage, pages) {
        UntouchedBringsNothing(stage, pages);
        assert b.stageGroups[at].events + [] == b.stageGroups[at].events;
      }
    }
  }

  lemma IncomingHasStage(groups: seq<Group>, stage: string)
    ensures Incoming(groups, stage).Some? ==> Incoming(groups, stage).value.stage == stage
  {
  }

  /**
   Pages may be merged among themselves before they are merged into what is known: for every stage that the first page
   of the block lists, the events are the same as when all pages come one by one.
   */
  lemma GroupingDoesNotMatter(le: Collation, first: Projection, b: Projection, pages: seq<Projection>, i: nat)
    requires TotalPreorder(le) && i < |first.stageGroups|
    requires var g := first.stageGroups[i];
             && Incoming(b.stageGroups, g.stage).Some?
             && Consistent(g.events + Brought(g.stage, [b] + pages))
    ensures |Merge(le, first, MergeAll(le, b, pages)).stageGroups| == |first.stageGroups|
    ensures |MergeAll(le, first, [b] + pages).stageGroups| == |first.stageGroups|
    ensures Merge(le, first, MergeAll(le, b, pages)).stageGroups[i].events ==
            MergeAll(le, first, [b] + pages).stageGroups[i].events
  {
    var g := first.stageGroups[i];
    var all := Brought(g.stage, [b] + pages);
    ConsistentSubset(g.events + all, all);
    BroughtByBlock(le, b, pages, g.stage);
    TouchedHead(g.stage, b, pages);
    BroughtAppend(g.stage, b, pages);
    PagingIndependence(le, first, [b] + pages, i);
    if Touched(g.stage, pages) {
      FirstMerge(le, g.events, StableSort(le, Collect(EventId, all)));
      TailFirst(le, g.events, all);
    } else {
      FirstMerge(le, g.events, all);
    }
  }

  /** A stage that the first page of the block does not list is dropped with all the later events of the block. */
  lemma GroupingDrops(le: Collation, first: Projection, b: Projection, pages: seq<Projection>, i: nat)
    requires i < |first.stageGroups| && Incoming(b.stageGroups, first.stageGroups[i].stage).None?
    ensures |Merge(le, first, MergeAll(le, b, pages)).stageGroups| == |first.stageGroups|
    ensures Merge(le, first, MergeAll(le, b, pages)).stageGroups[i] == first.stageGroups[i]
  {
    BroughtByBlock(le, b, pages, first.stageGroups[i].stage);
  }

  /** Events that a sorted list without repeated ids holds already add nothing to it; any other event shows. */
  lemma AbsorbsIff(le: Collation, xs: seq<Event>, ys: seq<Event>)
    requires TotalPreorder(le) && Consistent(xs + ys)
    ensures StableSort(le, Collect(EventId, xs + ys)) == xs <==>
            Sorted(le, xs) && DistinctKeys(EventId, xs) && forall e :: e in ys ==> e in xs
  {
    var d := Collect(EventId, xs + ys);
    if StableSort(le, d) == xs {
      StableSortIsStable(le, d);
      UpsertAllKeepsDistinct(EventId, [], xs + ys);
      PermutationKeepsDistinct(EventId, xs, d);
      forall e | e in ys
        ensures e in xs
      {
        CollectKeepsEvent(xs + ys, e);
        SameElements(xs, d);
      }
    }
    if Sorted(le, xs) && DistinctKeys(EventId, xs) && forall e :: e in ys ==> e in xs {
      AppendFresh(xs, ys);
      CollectMembers(EventId, ys);
      NothingFresh(xs, Collect(EventId, ys));
      assert xs + [] == xs;
      InOrderIff(le, xs);
      CollectDistinct(EventId, xs);
    }
  }

  /** Among consistent events the one kept for an id is every event with that id. */
  lemma CollectKeepsEvent(all: seq<Event>, e: Event)
    requires Consistent(all) && e in all
    ensures e in Collect(EventId, all)
  {
    var r := Collect(EventId, all);
    CollectKeepsOrder(EventId, all);
    CollectMembers(EventId, all);
    var i :| 0 <= i < |all| && all[i] == e;
    assert HasKey(EventId, r, EventId(all[i]));
    var kept := r[IndexOf(EventId, r, e.eventId)];
    assert EventId(kept) == e.eventId && kept in all;
  }

  lemma {:induction false} NothingFresh(xs: seq<Event>, ys: seq<Event>)
    requires forall e :: e in ys ==> e in xs
    ensures Fresh(Ids(xs), ys) == []
  {
    if ys != [] {
      NothingFresh(xs, ys[1..]);
      assert ys[0] in xs;
    }
  }

  /**
   Exactly when a block may be merged on its own first: its first page lists the stage, or no later page of it touches
   the stage, or the known group is sorted, without repeated ids, and holds every event of the block already.
   */
  lemma GroupingIff(le: Collation, first: Projection, b: Projection, pages: seq<Projection>, i: nat)
    requires TotalPreorder(le) && i < |first.stageGroups|
    requires var g := first.stageGroups[i]; Consistent(g.events + Brought(g.stage, [b] + pages))
    ensures |Merge(le, first, MergeAll(le, b, pages)).stageGroups| == |first.stageGroups|
    ensures |MergeAll(le, first, [b] + pages).stageGroups| == |first.stageGroups|
    ensures var g := first.stageGroups[i];
            Merge(le, first, MergeAll(le, b, pages)).stageGroups[i].events ==
            MergeAll(le, first, [b] + pages).stageGroups[i].events <==>
            || Incoming(b.stageGroups, g.stage).Some?
            || !Touched(g.stage, pages)
            || (Sorted(le, g.events) && DistinctKeys(EventId, g.events)
                && forall e :: e in Brought(g.stage, [b] + pages) ==> e in g.events)
  {
    hide Merge, MergeAll, Incoming, Brought, Touched, Consistent, Sorted, DistinctKeys;
    var g := first.stageGroups[i];
    var all := Brought(g.stage, [b] + pages);
    if Incoming(b.stageGroups, g.stage).Some? {
      GroupingDoesNotMatter(le, first, b, pages, i);
    } else {
      GroupingDrops(le, first, b, pages, i);
      PagingIndependence(le, first, [b] + pages, i);
      TouchedHead(g.stage, b, pages);
      AbsorbsIff(le, g.events, all);
    }
  }

  function AllReasons(pages: seq<Projection>): seq<Reason> {
    if pages == [] then [] else AllReasons(pages[..|pages| - 1]) + pages[|pages| - 1].reasons
  }

  /** Reasons keep their first position and their last value, whatever the split. */
  lemma {:induction false} ReasonsOfAllPages(le: Collation, first: Projection, pages: seq<Projection>)
    requires pages != []
    ensures MergeAll(le, first, pages).reasons == Collect(ReasonKey, first.reasons + AllReasons(pages))
  {
    var init := pages[..|pages| - 1];
    var last := pages[|pages| - 1].reasons;
    if init != [] {
      ReasonsOfAllPages(le, first, init);
      ReasonsOfOneMore(first.reasons, AllReasons(init), last);
    } else {
      assert AllReasons(pages) == last by {
        assert AllReasons(init) == [];
      }
    }
  }

  lemma ReasonsOfOneMore(base: seq<Reason>, before: seq<Reason>, last: seq<Reason>)
    ensures Collect(ReasonKey, Collect(ReasonKey, base + before) + last) == Collect(ReasonKey, base + (before + last))
  {
    CollectTwice(ReasonKey, base + before, last);
    assert base + before + last == base + (before + last);
  }

  /** A stage that the first page does not list is dropped with all its events. */
  lemma {:induction false} UnlistedStageIsDropped(le: Collation, first: Projection, pages: seq<Projection>,
                                                  stage: string)
    requires forall i :: 0 <= i < |first.stageGroups| ==> first.stageGroups[i].stage != stage
    ensures forall i :: 0 <= i < |MergeAll(le, first, pages).stageGroups| ==>
              MergeAll(le, first, pages).stageGroups[i].stage != stage
  {
    GroupsKeepTheirPlace(le, first, pages);
  }

  // ---------------------------------------------------------------- counts, reasons and pagination of all pages

  ghost predicate Greatest(m: int, xs: seq<int>) {
    m in xs && forall x :: x in xs ==> x <= m
  }

  lemma GreatestAppended(m: int, xs: seq<int>, x: int)
    requires Greatest(m, xs)
    ensures Greatest(Max(m, x), xs + [x])
  {
    assert (xs + [x])[|xs|] == x;
  }

  function IncomingCounts(stage: string, pages: seq<Projection>): seq<int> {
    if pages == [] then []
    else
      var last := Incoming(pages[|pages| - 1].stageGroups, stage);
      IncomingCounts(stage, pages[..|pages| - 1]) + (if last.Some? then [last.value.eventCount] else [])
  }

  /** The reason of the earliest page that gives one for the stage. */
  function FirstReason(stage: string, pages: seq<Projection>): Option<Reason> {
    if pages == [] then None
    else
      var here := Incoming(pages[0].stageGroups, stage);
      if here.Some? && here.value.unavailableReason.Some? then here.value.unavailableReason
      else FirstReason(stage, pages[1..])
  }

  lemma {:induction false} FirstReasonAppended(stage: string, pages: seq<Projection>, page: Projection)
    ensures FirstReason(stage, pages + [page]) ==
            if FirstReason(stage, pages).Some? then FirstReason(stage, pages) else FirstReason(stage, [page])
  {
    if pages == [] {
      assert pages + [page] == [page];
    } else {
      assert (pages + [page])[1..] == pages[1..] + [page];
      FirstReasonAppended(stage, pages[1..], page);
    }
  }

  /** A group keeps what identifies it, the greatest count it was told, and the reason it was told first. */
  lemma {:induction false} SummaryAfter(le: Collation, g: Group, pages: seq<Projection>)
    ensures var r := GroupAfter(le, g, pages);
            && r.stage == g.stage && r.sequence == g.sequence && r.status == g.status
            && Greatest(r.eventCount, [g.eventCount] + IncomingCounts(g.stage, pages))
            && r.pageEventCount == (if Touched(g.stage, pages) then |r.events| else g.pageEventCount)
            && r.unavailableReason == (if g.unavailableReason.Some? then g.unavailableReason
                                       else FirstReason(g.stage, pages))
  {
    if pages != [] {
      var init, page := pages[..|pages| - 1], pages[|pages| - 1];
      var more := Incoming(page.stageGroups, g.stage);
      assert pages == init + [page];
      SummaryAfter(le, g, init);
      TouchedLast(g.stage, pages);
      FirstReasonAppended(g.stage, init, page);
      var counts := [g.eventCount] + IncomingCounts(g.stage, init);
      if more.Some? {
        GreatestAppended(GroupAfter(le, g, init).eventCount, counts, more.value.eventCount);
        assert [g.eventCount] + IncomingCounts(g.stage, pages) == counts + [more.value.eventCount];
      } else {
        assert [g.eventCount] + IncomingCounts(g.stage, pages) == counts;
      }
    }
  }

  function Totals(pages: seq<Projection>): seq<int> {
    if pages == [] then [] else Totals(pages[..|pages| - 1]) + [pages[|pages| - 1].pagination.totalEvents]
  }

  /** The cursor is the last page's, the total the greatest one told, and the header the first page's. */
  lemma {:induction false} PaginationOfAllPages(le: Collation, first: Projection, pages: seq<Projection>)
    ensures var r := MergeAll(le, first, pages);
            && r.header == first.header
            && Greatest(r.pagination.totalEvents, [first.pagination.totalEvents] + Totals(pages))
            && (pages != [] ==>
                  r.pagination == pages[|pages| - 1].pagination.(totalEvents := r.pagination.totalEvents,
                                                                 returnedEvents := CountEvents(r.stageGroups)))
  {
    if pages != [] {
      var init, page := pages[..|pages| - 1], pages[|pages| - 1];
      PaginationOfAllPages(le, first, init);
      var totals := [first.pagination.totalEvents] + Totals(init);
      GreatestAppended(MergeAll(le, first, init).pagination.totalEvents, totals, page.pagination.totalEvents);
      assert [first.pagination.totalEvents] + Totals(pages) == totals + [page.pagination.totalEvents];
    }
  }

  // ---------------------------------------------------------------- what a page brings

  /** Group i is the last one of its stage. */
  predicate LastOfStage(groups: seq<Group>, i: nat, stage: string) {
    i < |groups| && groups[i].stage == stage && forall j :: i < j < |groups| ==> groups[j].stage != stage
  }

  /** Looking up a stage of a page finds it exactly if any group has it, and of repeated ones the last. */
  lemma {:induction false} IncomingMeaning(groups: seq<Group>, stage: string)
    ensures Incoming(groups, stage).Some? <==> exists i :: 0 <= i < |groups| && groups[i].stage == stage
    ensures forall i: nat :: LastOfStage(groups, i, stage) ==> Incoming(groups, stage) == Some(groups[i])
  {
    if groups != [] {
      var init, last := groups[..|groups| - 1], groups[|groups| - 1];
      IncomingMeaning(init, stage);
      assert forall i :: 0 <= i < |init| ==> init[i] == groups[i];
      if last.stage != stage {
        forall i: nat | LastOfStage(groups, i, stage)
          ensures LastOfStage(init, i, stage)
        {
        }
      } else {
        var n := |groups| - 1;
        assert groups[n].stage == stage;
        assert forall i: nat :: LastOfStage(groups, i, stage) ==> i == n;
      }
    }
  }

  /** No stage twice. */
  ghost predicate DistinctStages(groups: seq<Group>) {
    forall i, j :: 0 <= i < j < |groups| ==> groups[i].stage != groups[j].stage
  }

  lemma {:induction false} UpsertAllTakesIds(xs: seq<Event>, ys: seq<Event>)
    ensures Ids(ys) <= Ids(UpsertAll(EventId, xs, ys))
  {
    if ys != [] {
      var init, y := ys[..|ys| - 1], ys[|ys| - 1];
      var before := UpsertAll(EventId, xs, init);
      UpsertAllTakesIds(xs, init);
      SameKeys(EventId, before, y);
      var r := Upsert(EventId, before, y);
      forall id | id in Ids(ys)
        ensures id in Ids(r)
      {
        var i :| 0 <= i < |ys| && ys[i].eventId == id;
        if i < |init| {
          assert init[i].eventId == id && id in Ids(before);
          var n :| 0 <= n < |before| && before[n].eventId == id;
          assert EventId(r[n]) == id;
        } else {
          assert HasKey(EventId, r, id);
          assert EventId(r[IndexOf(EventId, r, id)]) == id;
        }
      }
    }
  }

  /** Nothing of a page is lost: wherever the known projection lists a stage, it gets all events of the page's group. */
  lemma PageIsTakenIn(le: Collation, known: Projection, page: Projection, i: nat, j: nat)
    requires TotalPreorder(le) && i < |known.stageGroups| && j < |page.stageGroups|
    requires DistinctStages(page.stageGroups) && known.stageGroups[i].stage == page.stageGroups[j].stage
    ensures |Merge(le, known, page).stageGroups| == |known.stageGroups|
    ensures var g, r := page.stageGroups[j], Merge(le, known, page).stageGroups[i];
            && Ids(known.stageGroups[i].events) <= Ids(r.events) && Ids(g.events) <= Ids(r.events)
            && g.eventCount <= r.eventCount
            && (g.unavailableReason.Some? ==> r.unavailableReason.Some?)
  {
    var known1, g := known.stageGroups[i], page.stageGroups[j];
    MergeGrows(le, known, page);
    IncomingMeaning(page.stageGroups, g.stage);
    assert LastOfStage(page.stageGroups, j, g.stage);
    var d := UpsertAll(EventId, Collect(EventId, known1.events), g.events);
    UpsertAllTakesIds(Collect(EventId, known1.events), g.events);
    StableSortIsStable(le, d);
    SameElements(StableSort(le, d), d);
  }

  /** And nothing comes from elsewhere: a stage that the page does not have stays as it is. */
  lemma OtherStagesStay(le: Collation, known: Projection, page: Projection, i: nat)
    requires i < |known.stageGroups|
    requires forall j :: 0 <= j < |page.stageGroups| ==> page.stageGroups[j].stage != known.stageGroups[i].stage
    ensures |Merge(le, known, page).stageGroups| == |known.stageGroups|
    ensures Merge(le, known, page).stageGroups[i] == known.stageGroups[i]
  {
    IncomingMeaning(page.stageGroups, known.stageGroups[i].stage);
  }

  // ---------------------------------------------------------------- when two reasons are one

  predicate Plain(part: string) {
    ':' !in part
  }

  predicate PlainReason(r: Reason) {
    Plain(r.code) && Plain(r.stage) && Plain(r.sourceType) && Plain(r.referenceType) && Plain(r.referenceId)
  }

  lemma {:induction false} ColonSplits(a: string, b: string, c: string, d: string)
    requires Plain(a) && Plain(c)
    ensures a + ":" + b == c + ":" + d <==> a == c && b == d
  {
    var s, t := a + ":" + b, c + ":" + d;
    if s == t {
      if a == [] || c == [] {
        assert s[0] == t[0] && b == s[1..] && d == t[1..];
      } else {
        assert s[0] == t[0] && s[1..] == a[1..] + ":" + b && t[1..] == c[1..] + ":" + d;
        ColonSplits(a[1..], b, c[1..], d);
        assert a == [a[0]] + a[1..] && c == [c[0]] + c[1..];
      }
    }
  }

  lemma KeyFromTheRight(r: Reason)
    ensures ReasonKey(r) ==
            r.code + ":" + (r.stage + ":" + (r.sourceType + ":" + (r.referenceType + ":"
                                                                   + (r.referenceId + ":" + r.detailKey))))
  {
    var six := r.referenceId + ":" + r.detailKey;
    Reassociate(r.code, r.stage, r.sourceType, r.referenceType, six);
    assert r.code + ":" + r.stage + ":" + r.sourceType + ":" + r.referenceType + ":" + r.referenceId + ":" + r.detailKey
           == r.code + ":" + r.stage + ":" + r.sourceType + ":" + r.referenceType + ":" + six;
  }

  lemma Reassociate(a: string, b: string, c: string, d: string, e: string)
    ensures a + ":" + b + ":" + c + ":" + d + ":" + e == a + ":" + (b + ":" + (c + ":" + (d + ":" + e)))
  {
    assert c + ":" + d + ":" + e == c + ":" + (d + ":" + e);
    assert b + ":" + c + ":" + d + ":" + e == b + ":" + (c + ":" + d + ":" + e);
    assert a + ":" + b + ":" + c + ":" + d + ":" + e == a + ":" + (b + ":" + c + ":" + d + ":" + e);
  }

  /** Reasons without colons in their parts are one exactly if all six parts agree; the message does not count. */
  lemma SameReasonIff(r: Reason, q: Reason)
    requires PlainReason(r) && PlainReason(q)
    ensures ReasonKey(r) == ReasonKey(q) <==> r.(message := "") == q.(message := "")
  {
    hide ReasonKey;
    KeyFromTheRight(r);
    KeyFromTheRight(q);
    var r5, q5 := r.referenceId + ":" + r.detailKey, q.referenceId + ":" + q.detailKey;
    var r4, q4 := r.referenceType + ":" + r5, q.referenceType + ":" + q5;
    var r3, q3 := r.sourceType + ":" + r4, q.sourceType + ":" + q4;
    var r2, q2 := r.stage + ":" + r3, q.stage + ":" + q3;
    ColonSplits(r.code, r2, q.code, q2);
    ColonSplits(r.stage, r3, q.stage, q3);
    ColonSplits(r.sourceType, r4, q.sourceType, q4);
    ColonSplits(r.referenceType, r5, q.referenceType, q5);
    ColonSplits(r.referenceId, r.detailKey, q.referenceId, q.detailKey);
  }

  // ---------------------------------------------------------------- growth from page to page

  lemma {:induction false} UpsertAllKeepsIds(xs: seq<Event>, ys: seq<Event>)
    ensures Ids(xs) <= Ids(UpsertAll(EventId, xs, ys))
  {
    if ys != [] {
      UpsertAllKeepsIds(xs, ys[..|ys| - 1]);
      var before := UpsertAll(EventId, xs, ys[..|ys| - 1]);
      SameKeys(EventId, before, ys[|ys| - 1]);
      forall id | id in Ids(before)
        ensures id in Ids(UpsertAll(EventId, xs, ys))
      {
        var i :| 0 <= i < |before| && before[i].eventId == id;
        assert EventId(UpsertAll(EventId, xs, ys)[i]) == id;
      }
    }
  }

  lemma CollectKeepsIds(xs: seq<Event>)
    ensures Ids(xs) <= Ids(Collect(EventId, xs))
  {
    CollectKeepsOrder(EventId, xs);
    var r := Collect(EventId, xs);
    forall id | id in Ids(xs)
      ensures id in Ids(r)
    {
      var i :| 0 <= i < |xs| && xs[i].eventId == id;
      assert HasKey(EventId, r, EventId(xs[i]));
      assert EventId(r[IndexOf(EventId, r, id)]) == id;
    }
  }

  /** Against any page, merging loses no event id, lowers no count and reports the events it holds. */
  lemma MergeGrows(le: Collation, known: Projection, page: Projection)
    requires TotalPreorder(le)
    ensures var r := Merge(le, known, page);
            && |r.stageGroups| == |known.stageGroups|
            && (forall i :: 0 <= i < |r.stageGroups| ==>
                  && Ids(known.stageGroups[i].events) <= Ids(r.stageGroups[i].events)
                  && known.stageGroups[i].eventCount <= r.stageGroups[i].eventCount)
            && known.pagination.totalEvents <= r.pagination.totalEvents
            && r.pagination.returnedEvents == CountEvents(r.stageGroups)
  {
    var r := Merge(le, known, page);
    forall i | 0 <= i < |r.stageGroups|
      ensures Ids(known.stageGroups[i].events) <= Ids(r.stageGroups[i].events)
    {
      var g := known.stageGroups[i];
      var more := Incoming(page.stageGroups, g.stage);
      if more.Some? {
        var d := UpsertAll(EventId, Collect(EventId, g.events), more.value.events);
        CollectKeepsIds(g.events);
        UpsertAllKeepsIds(Collect(EventId, g.events), more.value.events);
        StableSortIsStable(le, d);
        SameElements(StableSort(le, d), d);
      }
    }
  }
}
