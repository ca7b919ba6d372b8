/**
 What a call does for its user, step by step: which request it sends, what it leaves in the slot, and what the next call
 then does. The laws of histories bound keys and runs from above; these say that nothing is left undone.
 */
module IntentEffects {
  import opened Options
  import opened IntentRecovery

  predicate Working(f: Faults) {
    !f.read && !f.write && !f.remove
  }

  /** The call waits for the answer about a recorded run. */
  ghost predicate LookingUp(w: World, id: nat, run: RunId, given: Option<Key>) {
    id in w.calls && w.calls[id] == Fetching(run, given)
  }

  /** A call sends the payload's key, else the recorded one, else a new one, and records it unless writing fails. */
  lemma CallSends(w: World, id: nat, given: Option<Key>, newKey: Key, f: Faults)
    requires id !in w.calls && (f.read || w.slot.None? || w.slot.value.runId.None?)
    ensures var w' := Next(w, Call(id, given, newKey, f));
            var key := if given.Some? then given.value
                       else if w.slot.Some? && !f.read then w.slot.value.key else newKey;
            && Waiting(w', id, key) && key in w'.sent
            && w'.slot == (if f.write then w.slot else Some(Record(key, None)))
            && w'.server == w.server
  {
  }

  /** A recorded run is looked up first: nothing is sent, minted or written. */
  lemma RecordedRunIsLookedUp(w: World, id: nat, given: Option<Key>, newKey: Key, f: Faults)
    requires id !in w.calls && !f.read && w.slot.Some? && w.slot.value.runId.Some?
    ensures var w' := Next(w, Call(id, given, newKey, f));
            && LookingUp(w', id, w.slot.value.runId.value, given)
            && w'.sent == w.sent && w'.minted == w.minted && w'.slot == w.slot
  {
  }

  /** A live run is the call's result and stays recorded; an unanswered look-up fails the call and keeps the record. */
  lemma LookUpAnswered(w: World, id: nat, run: RunId, given: Option<Key>, newKey: Key, f: Faults)
    requires LookingUp(w, id, run, given)
    ensures var live, lost := Next(w, Fetched(id, Live, newKey, f)), Next(w, Fetched(id, FetchError, newKey, f));
            && id in live.calls && live.calls[id] == Returned(run) && live.slot == w.slot && live.sent == w.sent
            && id in lost.calls && lost.calls[id] == Threw && lost.slot == w.slot && lost.sent == w.sent
  {
  }

  /** A failed, cancelled or vanished run is forgotten and replaced by a request with another key. */
  lemma UnusableRunIsReplaced(w: World, id: nat, run: RunId, given: Option<Key>, newKey: Key, f: Faults)
    requires LookingUp(w, id, run, given) && Working(f)
    ensures var w' := Next(w, Fetched(id, Unusable, newKey, f));
            var key := if given.Some? then given.value else newKey;
            && Waiting(w', id, key) && key in w'.sent && w'.slot == Some(Record(key, None))
            && w'.minted == w.minted + (if given.None? then 1 else 0)
  {
  }

  /** A created run is returned and recorded beside its key. */
  lemma CreatedRunIsRecorded(w: World, id: nat, key: Key, f: Faults)
    requires Waiting(w, id, key) && key in w.server && Working(f)
    ensures var w' := Next(w, Replied(id, false, true, f));
            && id in w'.calls && w'.calls[id] == Returned(w.server[key])
            && w'.slot == Some(Record(key, Some(w.server[key])))
            && w'.clears == w.clears && w'.minted == w.minted
  {
  }

  /** So the next call finds that run and, if it is live, returns it without another request. */
  lemma CreatedRunIsReturnedAgain(w: World, id: nat, key: Key, f: Faults, next: nat, newKey: Key, g: Faults,
                                  otherKey: Key, h: Faults)
    requires Waiting(w, id, key) && key in w.server && Working(f) && next != id && next !in w.calls && !g.read
    ensures var w1 := Next(w, Replied(id, false, true, f));
            var w2 := Next(w1, Call(next, None, newKey, g));
            var w3 := Next(w2, Fetched(next, Live, otherKey, h));
            && next in w3.calls && w3.calls[next] == Returned(w.server[key])
            && w3.sent == w.sent && w3.minted == w.minted && w3.server == w.server
  {
    hide Next;
    CreatedRunIsRecorded(w, id, key, f);
    RepliedKeepsRest(w, id, f);
    var w1 := Next(w, Replied(id, false, true, f));
    RecordedRunIsLookedUp(w1, next, None, newKey, g);
    ServerStays(w1, Call(next, None, newKey, g));
    var w2 := Next(w1, Call(next, None, newKey, g));
    LookUpAnswered(w2, next, w.server[key], None, otherKey, h);
    ServerStays(w2, Fetched(next, Live, otherKey, h));
    MintedStays(w2, next, w.server[key], otherKey, h);
  }

  lemma RepliedKeepsRest(w: World, id: nat, f: Faults)
    requires id in w.calls && w.calls[id].Posting?
    ensures var w' := Next(w, Replied(id, false, true, f));
            && w'.sent == w.sent && w'.server == w.server
            && forall other :: other in w'.calls <==> other in w.calls
  {
  }

  lemma ServerStays(w: World, s: Step)
    requires s.Call? || s.Fetched?
    ensures Next(w, s).server == w.server
  {
  }

  lemma MintedStays(w: World, id: nat, run: RunId, newKey: Key, f: Faults)
    requires LookingUp(w, id, run, None)
    ensures Next(w, Fetched(id, Live, newKey, f)).minted == w.minted
  {
  }

  /** A refused request is forgotten: the record goes, whatever it holds, and the call fails. */
  lemma RefusalForgets(w: World, id: nat, key: Key, f: Faults)
    requires Waiting(w, id, key) && Working(f)
    ensures var w' := Next(w, Replied(id, true, true, f));
            && id in w'.calls && w'.calls[id] == Threw && w'.slot == None
            && w'.clears == w.clears + (if w.slot.Some? then 1 else 0) && w'.minted == w.minted
  {
  }

  /** So the call after a refused one sends another key and mints it. */
  lemma RefusedKeyIsNotSentAgain(w: World, first: nat, key: Key, f: Faults, g: Faults, second: nat, newKey: Key,
                                 h: Faults)
    requires first !in w.calls && second !in w.calls && first != second && w.slot.None?
    requires Working(f) && Working(g) && Working(h)
    ensures var w1 := Next(w, Call(first, None, key, f));
            var w2 := Next(w1, Replied(first, true, true, g));
            var w3 := Next(w2, Call(second, None, newKey, h));
            && Waiting(w1, first, key)
            && w2.slot == None && w2.clears == w.clears + 1
            && Waiting(w3, second, newKey) && w3.slot == Some(Record(newKey, None)) && w3.minted == w.minted + 2
  {
    CallSends(w, first, None, key, f);
    var w1 := Next(w, Call(first, None, key, f));
    RefusalForgets(w1, first, key, g);
    CallSends(Next(w1, Replied(first, true, true, g)), second, None, newKey, h);
  }

  /** A timeout, a server error or a lost reply fails the call and leaves the record for the next one. */
  lemma LostReplyKeepsRecord(w: World, id: nat, refused: bool, f: Faults)
    requires id in w.calls && w.calls[id].Posting?
    ensures var w' := Next(w, Replied(id, refused, false, f));
            id in w'.calls && w'.calls[id] == Threw && w'.slot == w.slot && w'.clears == w.clears
  {
  }

  /** A call with a key of its own, or without recovery, sends that key and never touches the slot. */
  lemma DirectCallsLeaveTheSlot(w: World, id: nat, key: Key, refused: bool, answered: bool, f: Faults)
    requires id !in w.calls
    ensures var w1 := Next(w, CallDirect(id, key));
            var w2 := Next(w1, Replied(id, refused, answered, f));
            && id in w1.calls && w1.calls[id] == Posting(key, false) && key in w1.sent
            && w1.slot == w.slot && w2.slot == w.slot
            && id in w2.calls && (w2.calls[id].Returned? <==> answered && !refused && key in w.server)
            && (w2.calls[id].Returned? ==> w2.calls[id].runId == w.server[key])
  {
  }

  /** Forgetting the intent empties the slot; a reload ends the waiting calls and keeps the slot. */
  lemma ForgettingAndReloading(w: World)
    ensures Next(w, ClearIntent(false)).slot == None && Next(w, ClearIntent(false)).calls == w.calls
    ensures Next(w, Reload).slot == w.slot && Next(w, Reload).sent == w.sent
    ensures forall id :: id in w.calls ==>
              && id in Next(w, Reload).calls
              && Next(w, Reload).calls[id] ==
                 if w.calls[id].Fetching? || w.calls[id].Posting? then Gone else w.calls[id]
  {
  }

  /** The server answers every request that was sent, and one key with one run for ever. */
  lemma ServedOnce(w: World, key: Key, run: RunId, s: Step)
    requires key in w.sent
    ensures key in Next(w, Serve(key, run)).server
    ensures key in w.server ==> key in Next(w, s).server && Next(w, s).server[key] == w.server[key]
  {
  }

  // ---------------------------------------------------------------- what a response means for the slot

  /** A look-up ends the call unless the run failed, was cancelled or is not visible; then a new record is written. */
  lemma LookUpByStatus(slot: Slot, run: RunId, given: Option<Key>, newKey: Key, f: Faults, text: string, status: int)
    requires Working(f)
    ensures var found := FetchSegment(slot, run, given, Judged(Found(text)), newKey, f);
            var failed := FetchSegment(slot, run, given, Judged(LookUpFailed(status)), newKey, f);
            var renewed := Record(if given.Some? then given.value else newKey, None);
            && (if text == "failed" || text == "cancelled"
                then found.slot == Some(renewed) && found.phase == Posting(renewed.key, true)
                else found.slot == slot && found.phase == Returned(run))
            && (if status == 401 || status == 403 || status == 404
                then failed.slot == Some(renewed) && failed.phase == Posting(renewed.key, true)
                else failed.slot == slot && failed.phase == Threw)
  {
  }

  /** A failed creation ends the call; it empties a recovering call's slot exactly with a status from 1 to 499. */
  lemma CreationByStatus(slot: Slot, key: Key, recovering: bool, f: Faults, status: int)
    requires Working(f) && slot.Some?
    ensures var seg := PostSegment(slot, key, recovering, JudgedCreation(CreateFailed(status)), f);
            && seg.phase == Threw
            && (seg.slot == None <==> recovering && 1 <= status <= 499)
            && (seg.slot == None || seg.slot == slot)
  {
  }
}
