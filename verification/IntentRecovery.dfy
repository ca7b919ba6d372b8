/**
 The client side of one requirement-pipeline intent: a slot in session storage keeps the idempotency key across reloads,
 timeouts and lost replies. Between two awaits the code runs without interruption, so every segment is one step; calls
 interleave, tabs reload and storage operations may fail. The server is assumed to answer one key with one run.
 */
module IntentRecovery {
  import opened Options
  import opened FiniteSets

  type Key(==, !new)
  type RunId(==, !new)

  datatype Record = Record(key: Key, runId: Option<RunId>)

  type Slot = Option<Record>

  /** Storage operations that throw in one segment; every one of them is caught by the code. */
  datatype Faults = Faults(read: bool, write: bool, remove: bool)

  datatype Phase =
    | Fetching(runId: RunId, given: Option<Key>)   // awaiting the recorded run
    | Posting(key: Key, recovering: bool)          // awaiting the creating request
    | Returned(runId: RunId)
    | Threw
    | Gone                                         // the page was reloaded

  /** What the look-up of a recorded run brings: usable, finished badly or not visible any more, or no answer. */
  datatype FetchReply = Live | Unusable | FetchError

  /** What the creating request brings: a run, a client error, or a server error, a timeout or a lost reply. */
  datatype PostReply = Created(runId: RunId) | Refused | Unanswered

  /** What HTTP brings; a request that never got an answer is a failure with status zero. */
  datatype LookUpResponse = Found(state: string) | LookUpFailed(status: int)

  datatype CreateResponse = Made(runId: RunId) | CreateFailed(status: int)

  function Judged(r: LookUpResponse): FetchReply {
    match r
    case Found(state) => if state in ["failed", "cancelled"] then Unusable else Live
    case LookUpFailed(status) => if status in [401, 403, 404] then Unusable else FetchError
  }

  function JudgedCreation(r: CreateResponse): PostReply {
    match r
    case Made(runId) => Created(runId)
    case CreateFailed(status) => if 0 < status < 500 then Refused else Unanswered
  }

  function Put(slot: Slot, r: Record, fault: bool): Slot {
    if fault then slot else Some(r)
  }

  function Removed(slot: Slot, fault: bool): Slot {
    if fault then slot else None
  }

  datatype Segment = Segment(slot: Slot, phase: Phase, minted: bool)

  /** key ?? stored ?? new: an empty text in the payload turns recovery on and is still taken as the key. */
  function ChosenKey(given: Option<Key>, stored: Slot, newKey: Key): Key {
    if given.Some? then given.value else if stored.Some? then stored.value.key else newKey
  }

  /** From the call to its first await. */
  function BeginSegment(slot: Slot, given: Option<Key>, newKey: Key, f: Faults): Segment {
    var stored := if f.read then None else slot;
    if stored.Some? && stored.value.runId.Some? then Segment(slot, Fetching(stored.value.runId.value, given), false)
    else
      var key := ChosenKey(given, stored, newKey);
      Segment(Put(slot, Record(key, None), f.write), Posting(key, true), given.None? && stored.None?)
  }

  /** From the answer of the look-up to the next await. */
  function FetchSegment(slot: Slot, runId: RunId, given: Option<Key>, reply: FetchReply, newKey: Key, f: Faults)
    : Segment
  {
    match reply
    case Live => Segment(slot, Returned(runId), false)
    case FetchError => Segment(slot, Threw, false)
    case Unusable =>
      var key := ChosenKey(given, None, newKey);
      Segment(Put(Removed(slot, f.remove), Record(key, None), f.write), Posting(key, true), given.None?)
  }

  /** From the answer of the creating request to the end of the call. */
  function PostSegment(slot: Slot, key: Key, recovering: bool, reply: PostReply, f: Faults): Segment {
    match reply
    case Created(runId) =>
      Segment(if recovering then Put(slot, Record(key, Some(runId)), f.write) else slot, Returned(runId), false)
    case Refused => Segment(if recovering then Removed(slot, f.remove) else slot, Threw, false)
    case Unanswered => Segment(slot, Threw, false)
  }

  /** One tab's view of the slot, written and removed in place as the code does. */
  class Tab {
    var slot: Slot

    constructor ()
      ensures slot == None
    {
      slot := None;
    }

    method Begin(given: Option<Key>, newKey: Key, f: Faults) returns (phase: Phase, minted: bool)
      modifies this
      ensures Segment(slot, phase, minted) == BeginSegment(old(slot), given, newKey, f)
    {
      var stored := None;
      if !f.read {
        stored := slot;
      }
      if stored.Some? && stored.value.runId.Some? {
        return Fetching(stored.value.runId.value, given), false;
      }
      minted := given.None? && stored.None?;
      var key := ChosenKey(given, stored, newKey);
      if !f.write {
        slot := Some(Record(key, None));
      }
      phase := Posting(key, true);
    }

    method AfterFetch(runId: RunId, given: Option<Key>, response: LookUpResponse, newKey: Key, f: Faults)
      returns (phase: Phase, minted: bool)
      modifies this
      ensures Segment(slot, phase, minted) == FetchSegment(old(slot), runId, given, Judged(response), newKey, f)
    {
      if response.Found? && response.state !in ["failed", "cancelled"] {
        return Returned(runId), false;
      }
      if response.LookUpFailed? && response.status !in [401, 403, 404] {
        return Threw, false;
      }
      if !f.remove {
        slot := None;
      }
      var key := ChosenKey(given, None, newKey);
      if !f.write {
        slot := Some(Record(key, None));
      }
      return Posting(key, true), given.None?;
    }

    method AfterPost(key: Key, recovering: bool, response: CreateResponse, f: Faults) returns (phase: Phase)
      modifies this
      ensures Segment(slot, phase, false) == PostSegment(old(slot), key, recovering, JudgedCreation(response), f)
    {
      match response
      case Made(runId) =>
        if recovering && !f.write {
          slot := Some(Record(key, Some(runId)));
        }
        phase := Returned(runId);
      case CreateFailed(status) =>
        if recovering && 0 < status && status < 500 && !f.remove {
          slot := None;
        }
        phase := Threw;
    }
  }

  // ---------------------------------------------------------------- every interleaving

  datatype Step =
    | Call(id: nat, given: Option<Key>, newKey: Key, faults: Faults)
    | CallDirect(id: nat, key: Key)               // a payload with a non-empty key, or a profile without recovery
    | Fetched(id: nat, reply: FetchReply, newKey: Key, faults: Faults)
    | Serve(key: Key, newRun: RunId)              // the server handles a request that was sent, maybe long ago
    | Replied(id: nat, refused: bool, answered: bool, faults: Faults)
    | ClearIntent(fault: bool)                    // the page forgets the intent after a success
    | Reload

  /** minted, clears and faults are counters over the whole history; directKeys came with the payload. */
  datatype World = World(
    slot: Slot,
    calls: map<nat, Phase>,
    sent: set<Key>,
    server: map<Key, RunId>,
    minted: nat,
    mintedKeys: set<Key>,
    directKeys: set<Key>,
    clears: nat,
    faults: nat)

  function Count(f: Faults): nat {
    (if f.read then 1 else 0) + (if f.write then 1 else 0) + (if f.remove then 1 else 0)
  }

  /** A segment as a step of the world; emptied says that it removed a record. */
  function After(w: World, id: nat, seg: Segment, newKey: Key, emptied: bool, f: Faults): World {
    w.(slot := seg.slot,
       calls := w.calls[id := seg.phase],
       sent := if seg.phase.Posting? then w.sent + {seg.phase.key} else w.sent,
       minted := if seg.minted then w.minted + 1 else w.minted,
       mintedKeys := if seg.minted then w.mintedKeys + {newKey} else w.mintedKeys,
       clears := if emptied then w.clears + 1 else w.clears,
       faults := w.faults + Count(f))
  }

  /** The reply carries the server's run for the key; without a run there is nothing to reply with. */
  function ReplyFor(w: World, key: Key, refused: bool, answered: bool): PostReply {
    if !answered then Unanswered
    else if refused then Refused
    else if key in w.server then Created(w.server[key])
    else Unanswered
  }

  /** Keys that came with the payload of a call. */
  function Brought(w: World, given: Option<Key>): World {
    w.(directKeys := if given.Some? then w.directKeys + {given.value} else w.directKeys)
  }

  function Next(w: World, s: Step): World {
    match s
    case Call(id, given, newKey, f) =>
      if id in w.calls then w
      else After(Brought(w, given), id, BeginSegment(w.slot, given, newKey, f), newKey, false, f)
    case CallDirect(id, key) =>
      if id in w.calls then w
      else w.(calls := w.calls[id := Posting(key, false)], sent := w.sent + {key}, directKeys := w.directKeys + {key})
    case Fetched(id, reply, newKey, f) =>
      if id !in w.calls || !w.calls[id].Fetching? then w
      else After(w, id, FetchSegment(w.slot, w.calls[id].runId, w.calls[id].given, reply, newKey, f), newKey,
                 reply.Unusable? && w.slot.Some? && !f.remove, f)
    case Serve(key, newRun) =>
      if key !in w.sent || key in w.server then w else w.(server := w.server[key := newRun])
    case Replied(id, refused, answered, f) =>
      if id !in w.calls || !w.calls[id].Posting? then w
      else
        var reply := ReplyFor(w, w.calls[id].key, refused, answered);
        var seg := PostSegment(w.slot, w.calls[id].key, w.calls[id].recovering, reply, f);
        After(w, id, seg, w.calls[id].key, w.slot.Some? && seg.slot.None?, f)
    case ClearIntent(fault) =>
      w.(slot := Removed(w.slot, fault), clears := if w.slot.Some? && !fault then w.clears + 1 else w.clears)
    case Reload =>
      w.(calls := map id | id in w.calls :: if w.calls[id].Fetching? || w.calls[id].Posting? then Gone else w.calls[id])
  }

  function Execute(w: World, steps: seq<Step>): World {
    if steps == [] then w else Next(Execute(w, steps[..|steps| - 1]), steps[|steps| - 1])
  }

  const START := World(None, map[], {}, map[], 0, {}, {}, 0, 0)

  ghost predicate CallInv(w: World, p: Phase) {
    match p
    case Fetching(runId, given) => runId in w.server.Values && (given.Some? ==> given.value in w.directKeys)
    case Posting(key, recovering) => key in w.sent
    case Returned(runId) => runId in w.server.Values
    case _ => true
  }

  /** The accounting: a key is minted only when the slot was empty, had been emptied, or storage failed. */
  ghost predicate Accounted(w: World) {
    && w.minted <= w.clears + w.faults + (if w.slot.Some? then 1 else 0)
    && |w.mintedKeys| <= w.minted
  }

  ghost predicate Inv(w: World) {
    && Accounted(w)
    && w.server.Keys <= w.sent <= w.mintedKeys + w.directKeys
    && (w.slot.Some? ==> w.slot.value.key in w.mintedKeys + w.directKeys)
    && (w.slot.Some? && w.slot.value.runId.Some? ==>
          w.slot.value.key in w.server && w.server[w.slot.value.key] == w.slot.value.runId.value)
    && forall id :: id in w.calls ==> CallInv(w, w.calls[id])
  }

  lemma ServerGrows(w: World, key: Key, newRun: RunId)
    requires Inv(w) && key in w.sent && key !in w.server
    ensures Inv(w.(server := w.server[key := newRun]))
  {
    var w' := w.(server := w.server[key := newRun]);
    forall id | id in w'.calls
      ensures CallInv(w', w'.calls[id])
    {
      assert CallInv(w, w.calls[id]);
      ValuesGrow(w.server, key, newRun);
    }
  }

  lemma ValuesGrow(m: map<Key, RunId>, key: Key, newRun: RunId)
    requires key !in m
    ensures m.Values <= m[key := newRun].Values
  {
    var m' := m[key := newRun];
    forall v | v in m.Values
      ensures v in m'.Values
    {
      var k :| k in m && m[k] == v;
      assert m'[k] == v;
    }
  }

  /** A call's phase stays good when keys and requests are only added. */
  lemma CallInvMonotone(w: World, w': World, p: Phase)
    requires CallInv(w, p) && w'.server == w.server && w.sent <= w'.sent && w.directKeys <= w'.directKeys
    ensures CallInv(w', p)
  {
  }

  lemma AfterKeepsInv(w: World, id: nat, seg: Segment, newKey: Key, emptied: bool, f: Faults)
    requires Inv(w)
    requires var w' := After(w, id, seg, newKey, emptied, f);
             && Accounted(w') && w'.sent <= w'.mintedKeys + w'.directKeys
             && (seg.slot.Some? ==> seg.slot.value.key in w'.mintedKeys + w'.directKeys)
             && (seg.slot.Some? && seg.slot.value.runId.Some? ==>
                   seg.slot.value.key in w.server && w.server[seg.slot.value.key] == seg.slot.value.runId.value)
             && CallInv(w', seg.phase)
    ensures Inv(After(w, id, seg, newKey, emptied, f))
  {
    var w' := After(w, id, seg, newKey, emptied, f);
    forall i | i in w'.calls
      ensures CallInv(w', w'.calls[i])
    {
      if i != id {
        CallInvMonotone(w, w', w.calls[i]);
      }
    }
  }

  lemma MintCounts(keys: set<Key>, k: Key)
    ensures |keys + {k}| <= |keys| + 1
  {
    if k in keys {
      assert keys + {k} == keys;
    }
  }

  lemma BroughtKeepsInv(w: World, given: Option<Key>)
    requires Inv(w)
    ensures Inv(Brought(w, given))
  {
    var w' := Brought(w, given);
    forall id | id in w'.calls
      ensures CallInv(w', w'.calls[id])
    {
      CallInvMonotone(w, w', w.calls[id]);
    }
  }

  lemma CallKeepsInv(w: World, id: nat, given: Option<Key>, newKey: Key, f: Faults)
    requires Inv(w) && (given.Some? ==> given.value in w.directKeys)
    ensures Inv(After(w, id, BeginSegment(w.slot, given, newKey, f), newKey, false, f))
  {
    var seg := BeginSegment(w.slot, given, newKey, f);
    MintCounts(w.mintedKeys, newKey);
    if seg.phase.Fetching? {
      assert w.server[w.slot.value.key] in w.server.Values;
    }
    AfterKeepsInv(w, id, seg, newKey, false, f);
  }

  lemma FetchKeepsInv(w: World, id: nat, reply: FetchReply, newKey: Key, f: Faults)
    requires Inv(w) && id in w.calls && w.calls[id].Fetching?
    ensures Inv(Next(w, Fetched(id, reply, newKey, f)))
  {
    assert CallInv(w, w.calls[id]);
    MintCounts(w.mintedKeys, newKey);
    AfterKeepsInv(w, id, FetchSegment(w.slot, w.calls[id].runId, w.calls[id].given, reply, newKey, f), newKey,
                  reply.Unusable? && w.slot.Some? && !f.remove, f);
  }

  lemma ReplyKeepsInv(w: World, id: nat, refused: bool, answered: bool, f: Faults)
    requires Inv(w) && id in w.calls && w.calls[id].Posting?
    ensures Inv(Next(w, Replied(id, refused, answered, f)))
  {
    assert CallInv(w, w.calls[id]);
    var key := w.calls[id].key;
    var reply := ReplyFor(w, key, refused, answered);
    var seg := PostSegment(w.slot, key, w.calls[id].recovering, reply, f);
    if reply.Created? {
      assert w.server[key] in w.server.Values;
    }
    AfterKeepsInv(w, id, seg, key, w.slot.Some? && seg.slot.None?, f);
  }

  lemma NextKeepsInv(w: World, s: Step)
    requires Inv(w)
    ensures Inv(Next(w, s))
  {
    match s
    case Call(id, given, newKey, f) =>
      if id !in w.calls {
        BroughtKeepsInv(w, given);
        CallKeepsInv(Brought(w, given), id, given, newKey, f);
      }
    case CallDirect(id, key) =>
      var w' := Next(w, s);
      forall i | i in w'.calls
        ensures CallInv(w', w'.calls[i])
      {
        if i in w.calls {
          CallInvMonotone(w, w', w.calls[i]);
        }
      }
    case Fetched(id, reply, newKey, f) =>
      if id in w.calls && w.calls[id].Fetching? {
        FetchKeepsInv(w, id, reply, newKey, f);
      }
    case Serve(key, newRun) =>
      if key in w.sent && key !in w.server {
        ServerGrows(w, key, newRun);
      }
    case Replied(id, refused, answered, f) =>
      if id in w.calls && w.calls[id].Posting? {
        ReplyKeepsInv(w, id, refused, answered, f);
      }
    case ClearIntent(fault) =>
    case Reload =>
  }

  lemma {:induction false} EveryHistoryIsAccounted(steps: seq<Step>)
    ensures Inv(Execute(START, steps))
  {
    if steps != [] {
      EveryHistoryIsAccounted(steps[..|steps| - 1]);
      NextKeepsInv(Execute(START, steps[..|steps| - 1]), steps[|steps| - 1]);
    }
  }

  /**
   Over every interleaving of calls, reloads, timeouts, server errors and lost replies, the runs that the server creates
   for recovering calls are at most one more than the removals of a record and the failed storage operations.
   */
  lemma RunsAreBounded(steps: seq<Step>)
    ensures var w := Execute(START, steps);
            && w.minted <= 1 + w.clears + w.faults
            && |w.server.Keys - w.directKeys| <= 1 + w.clears + w.faults
  {
    EveryHistoryIsAccounted(steps);
    var w := Execute(START, steps);
    SubsetSize(w.server.Keys - w.directKeys, w.mintedKeys);
  }

  /** A recorded run is always the server's run for the key recorded beside it. */
  lemma {:induction false} RecordedRunIsServers(steps: seq<Step>)
    ensures var w := Execute(START, steps);
            w.slot.Some? && w.slot.value.runId.Some? ==>
              && w.slot.value.key in w.server
              && w.server[w.slot.value.key] == w.slot.value.runId.value
  {
    EveryHistoryIsAccounted(steps);
  }

  /** As long as nothing is removed and storage works, every successful call returns one and the same run. */
  lemma RetriesCreateOneRun(steps: seq<Step>, a: nat, b: nat)
    requires var w := Execute(START, steps);
             && w.clears == 0 && w.faults == 0 && w.directKeys == {}
             && a in w.calls && b in w.calls && w.calls[a].Returned? && w.calls[b].Returned?
    ensures var w := Execute(START, steps); w.calls[a].runId == w.calls[b].runId
  {
    EveryHistoryIsAccounted(steps);
    var w := Execute(START, steps);
    assert CallInv(w, w.calls[a]) && CallInv(w, w.calls[b]);
    var x :| x in w.server && w.server[x] == w.calls[a].runId;
    var y :| y in w.server && w.server[y] == w.calls[b].runId;
    assert x != y ==> |{x, y}| == 2;
    SubsetSize({x, y}, w.mintedKeys);
  }

  /** As long as nothing is removed and storage works, all requests of recovering calls carry one and the same key. */
  lemma RetriesSendOneKey(steps: seq<Step>, a: Key, b: Key)
    requires var w := Execute(START, steps);
             w.clears == 0 && w.faults == 0 && w.directKeys == {} && a in w.sent && b in w.sent
    ensures a == b
  {
    EveryHistoryIsAccounted(steps);
    var w := Execute(START, steps);
    assert a != b ==> |{a, b}| == 2;
    SubsetSize({a, b}, w.mintedKeys);
  }

  /** The call has sent a creating request with this key and waits for its answer. */
  ghost predicate Waiting(w: World, id: nat, key: Key) {
    id in w.calls && w.calls[id] == Posting(key, true)
  }

  /**
   What a call sends after a request whose reply was lost: with the request's record still in the slot and storage
   working, a further call without a key of its own sends the lost request's key again, whatever happened to the page.
   */
  lemma LostReplyIsRetriedWithItsKey(w: World, first: nat, newKey: Key, f: Faults, later: seq<Step>, second: nat,
                                     otherKey: Key, ok: Faults)
    requires first !in w.calls && w.slot.None? && !f.write && !ok.read
    requires forall k :: 0 <= k < |later| ==> LeavesSlot(later[k], first)
    requires second !in Execute(Next(w, Call(first, None, newKey, f)), later).calls
    ensures var w' := Next(Execute(Next(w, Call(first, None, newKey, f)), later), Call(second, None, otherKey, ok));
            Waiting(w', second, newKey) && w'.minted == w.minted + 1
  {
    var w1 := Next(w, Call(first, None, newKey, f));
    SlotStays(w1, later, first);
  }

  /** What a lost reply can bring: the server works, the call times out or fails without a status, the page reloads. */
  predicate LeavesSlot(s: Step, first: nat) {
    s.Reload? || s.Serve? || s.CallDirect? || (s.Replied? && s.id == first && !s.answered)
  }

  lemma {:induction false} SlotStays(w: World, later: seq<Step>, first: nat)
    requires forall k :: 0 <= k < |later| ==> LeavesSlot(later[k], first)
    ensures Execute(w, later).slot == w.slot && Execute(w, later).minted == w.minted
  {
    if later != [] {
      SlotStays(w, later[..|later| - 1], first);
    }
  }

  /** When exactly a key is minted: a call that reads no record, or one whose recorded run turned out unusable. */
  lemma MintedWhen(w: World, s: Step)
    ensures Next(w, s).minted == w.minted + 1 <==>
              || (s.Call? && s.id !in w.calls && s.given.None? && (s.faults.read || w.slot.None?))
              || (s.Fetched? && s.id in w.calls && w.calls[s.id].Fetching? && w.calls[s.id].given.None?
                  && s.reply.Unusable?)
    ensures Next(w, s).minted == w.minted || Next(w, s).minted == w.minted + 1
  {
  }

  /**
   Two calls that both find a failed run recorded mint one key each, because the look-up separates their reading of the
   slot from their writing: the bound is met with equality by a history of two removals.
   */
  lemma TwoKeysAfterFailedRun(k0: Key, k1: Key, k2: Key, r0: RunId, r1: RunId, r2: RunId)
    returns (steps: seq<Step>)
    requires k0 != k1 && k1 != k2 && k0 != k2
    ensures var w := Execute(START, steps);
            && w.minted == 3 && w.clears == 2 && w.faults == 0
            && w.server == map[k0 := r0, k1 := r1, k2 := r2]
            && 1 in w.calls && w.calls[1] == Returned(r1) && 2 in w.calls && w.calls[2] == Returned(r2)
  {
    var ok := Faults(false, false, false);
    var first := [Call(0, None, k0, ok), Serve(k0, r0), Replied(0, false, true, ok)];
    var both := first + [Call(1, None, k1, ok)] + [Call(2, None, k2, ok)];
    var keys := both + [Fetched(1, Unusable, k1, ok)] + [Fetched(2, Unusable, k2, ok)];
    steps := keys + [Serve(k1, r1)] + [Serve(k2, r2)] + [Replied(1, false, true, ok)] + [Replied(2, false, true, ok)];
    OneRunRecorded(k0, r0);
    ExecuteSnoc(START, first, Call(1, None, k1, ok));
    ExecuteSnoc(START, first + [Call(1, None, k1, ok)], Call(2, None, k2, ok));
    var failed := Some(Record(k0, Some(r0)));
    var looking := map[0 := Returned(r0), 1 := Fetching(r0, None), 2 := Fetching(r0, None)];
    assert Execute(START, both) == World(failed, looking, {k0}, map[k0 := r0], 1, {k0}, {}, 0, 0);
    ExecuteSnoc(START, both, Fetched(1, Unusable, k1, ok));
    ExecuteSnoc(START, both + [Fetched(1, Unusable, k1, ok)], Fetched(2, Unusable, k2, ok));
    var two := map[0 := Returned(r0), 1 := Posting(k1, true), 2 := Posting(k2, true)];
    assert Execute(START, keys) == World(Some(Record(k2, None)), two, {k0, k1, k2}, map[k0 := r0], 3, {k0, k1, k2}, {},
                                         2, 0);
    ServeAndReply(keys, k1, k2, r1, r2);
    assert map[k0 := r0][k1 := r1][k2 := r2] == map[k0 := r0, k1 := r1, k2 := r2];
  }

  lemma OneRunRecorded(k0: Key, r0: RunId)
    ensures var ok := Faults(false, false, false);
            Execute(START, [Call(0, None, k0, ok), Serve(k0, r0), Replied(0, false, true, ok)]) ==
            World(Some(Record(k0, Some(r0))), map[0 := Returned(r0)], {k0}, map[k0 := r0], 1, {k0}, {}, 0, 0)
  {
    var ok := Faults(false, false, false);
    var a, b, c := Call(0, None, k0, ok), Serve(k0, r0), Replied(0, false, true, ok);
    ExecuteSnoc(START, [], a);
    ExecuteSnoc(START, [a], b);
    ExecuteSnoc(START, [a, b], c);
    assert [] + [a] == [a] && [a] + [b] == [a, b] && [a, b] + [c] == [a, b, c];
    assert Execute(START, [a]) ==
           World(Some(Record(k0, None)), map[0 := Posting(k0, true)], {k0}, map[], 1, {k0}, {}, 0, 0);
    assert Execute(START, [a, b]) ==
           World(Some(Record(k0, None)), map[0 := Posting(k0, true)], {k0}, map[k0 := r0], 1, {k0}, {}, 0, 0);
  }

  lemma ServeAndReply(steps: seq<Step>, k1: Key, k2: Key, r1: RunId, r2: RunId)
    requires var w := Execute(START, steps);
             && k1 != k2 && {k1, k2} <= w.sent && k1 !in w.server && k2 !in w.server
             && 1 in w.calls && w.calls[1] == Posting(k1, true) && 2 in w.calls && w.calls[2] == Posting(k2, true)
             && w.slot.Some?
    ensures var ok := Faults(false, false, false);
            var w := Execute(START, steps);
            var w' := Execute(START, steps + [Serve(k1, r1)] + [Serve(k2, r2)] + [Replied(1, false, true, ok)]
                                     + [Replied(2, false, true, ok)]);
            && w'.server == w.server[k1 := r1][k2 := r2]
            && w'.minted == w.minted && w'.clears == w.clears && w'.faults == w.faults
            && 1 in w'.calls && w'.calls[1] == Returned(r1) && 2 in w'.calls && w'.calls[2] == Returned(r2)
  {
    var ok := Faults(false, false, false);
    ExecuteSnoc(START, steps, Serve(k1, r1));
    ExecuteSnoc(START, steps + [Serve(k1, r1)], Serve(k2, r2));
    ExecuteSnoc(START, steps + [Serve(k1, r1)] + [Serve(k2, r2)], Replied(1, false, true, ok));
    ExecuteSnoc(START, steps + [Serve(k1, r1)] + [Serve(k2, r2)] + [Replied(1, false, true, ok)],
                Replied(2, false, true, ok));
  }

  lemma ExecuteSnoc(w: World, steps: seq<Step>, s: Step)
    ensures Execute(w, steps + [s]) == Next(Execute(w, steps), s)
  {
    assert (steps + [s])[..|steps|] == steps;
  }
}
