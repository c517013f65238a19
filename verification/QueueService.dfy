/** The queue as it runs: entries that change in place, the registry with its index of legs, and the
    service that dispatches. */
module Queues {
  import opened QueueEntries
  import opened QueueSpec

  class QueueEntry {
    const queueEntryId: nat
    const ref: string
    const workflowScopeKey: string
    const trunkRef: string
    const callerNumber: string
    const createdAt: nat
    var legId: nat
    var mode: Mode
    var dispatching: bool
    var ended: bool
    var callbackEnabled: bool
    var dispatchedDialId: Option<nat>
    var reservedExtensions: seq<string>
    var retryNotBeforeAt: nat
    var retryCount: nat
    var retryAttempts: nat
    var retryPauseMs: nat
    var placedPublished: bool
    var retention: Option<nat>

    function State(): Entry
      reads this
    {
      Entry(queueEntryId, ref, workflowScopeKey, trunkRef, callerNumber, createdAt, legId, mode, dispatching, callbackEnabled,
            dispatchedDialId, reservedExtensions, retryNotBeforeAt, retryCount, retryAttempts, retryPauseMs, placedPublished, retention)
    }

    constructor (id: nat, j: Join, now: nat, ticket: nat)
      ensures !ended
      ensures State() == Entry(id, j.ref, j.scope, j.trunkRef, j.caller, now, j.leg, Live, false, false, None, [],
                               0, 0, j.attempts, j.pause, false, Some(ticket))
    {
      queueEntryId, ref, workflowScopeKey, trunkRef, callerNumber, createdAt := id, j.ref, j.scope, j.trunkRef, j.caller, now;
      legId, mode, dispatching, ended, callbackEnabled := j.leg, Live, false, false, false;
      dispatchedDialId, reservedExtensions := None, [];
      retryNotBeforeAt, retryCount, retryAttempts, retryPauseMs := 0, 0, j.attempts, j.pause;
      placedPublished, retention := false, Some(ticket);
    }

    method ToDispatching(dialId: nat, extensions: seq<string>)
      modifies this
      ensures State() == QueueEntries.ToDispatching(old(State()), dialId, extensions) && ended == old(ended)
    {
      dispatching := true;
      dispatchedDialId := Some(dialId);
      reservedExtensions := extensions;
      retryNotBeforeAt := 0;
    }

    method ToIdle()
      modifies this
      ensures State() == QueueEntries.ToIdle(old(State())) && ended == old(ended)
    {
      dispatching := false;
      dispatchedDialId := None;
      reservedExtensions := [];
    }

    // The ticket given back, if one was held.
    method ToCallback() returns (released: Option<nat>)
      modifies this
      ensures State() == QueueEntries.ToCallback(old(State())) && released == old(retention) && ended == old(ended)
    {
      mode := Callback;
      ToIdle();
      released := retention;
      retention := None;
    }

    method ToRejoined(leg: nat, ticket: nat) returns (released: Option<nat>)
      modifies this
      ensures State() == QueueEntries.ToRejoined(old(State()), leg, ticket) && released == old(retention) && ended == old(ended)
    {
      released := retention;
      retention := Some(ticket);
      legId := leg;
      mode := Live;
      ToIdle();
      retryNotBeforeAt := 0;
      retryCount := 0;
      placedPublished := false;
    }

    method ToEnded() returns (released: Option<nat>)
      modifies this
      ensures State() == QueueEntries.ToIdle(old(State())).(ticket := None) && ended && released == old(retention)
    {
      ended := true;
      ToIdle();
      released := retention;
      retention := None;
    }
  }

  // The entries in queue order, told apart by their numbers, and the index of their legs.
  class QueueEntryRegistry {
    var records: seq<QueueEntry>
    var activeEntryIdByLeg: map<nat, nat>

    ghost predicate Valid()
      reads this, records
    {
      && (forall i :: 0 <= i < |records| ==> !records[i].ended)
      && (forall i, j :: 0 <= i < j < |records| ==> records[i].queueEntryId != records[j].queueEntryId)
    }

    function Values(): (r: seq<Entry>)
      reads this, records
      ensures |r| == |records| && forall i :: 0 <= i < |r| ==> r[i] == records[i].State()
    {
      seq(|records|, i requires 0 <= i < |records| reads this, records => records[i].State())
    }

    constructor ()
      ensures Valid() && records == [] && activeEntryIdByLeg == map[]
    {
      records, activeEntryIdByLeg := [], map[];
    }

    ghost function At(i: nat): QueueEntry?
      reads this
    {
      if i < |records| then records[i] else null
    }

    method Get(id: nat) returns (entry: QueueEntry?, ghost i: nat)
      ensures i == IndexOf(Values(), id)
      ensures entry == At(IndexOf(Values(), id))
    {
      i := 0;
      var k: nat := 0;
      while k < |records|
        invariant k <= |records| && forall m :: 0 <= m < k ==> records[m].queueEntryId != id
      {
        if records[k].queueEntryId == id {
          entry, i := records[k], k;
          FirstAt(Values(), id, k);
          return;
        }
        k := k + 1;
      }
      entry, i := null, k;
    }

    method GetByLegId(leg: nat) returns (entry: QueueEntry?, ghost i: nat)
      ensures i == if leg in activeEntryIdByLeg then IndexOf(Values(), activeEntryIdByLeg[leg]) else |records|
      ensures entry == if leg in activeEntryIdByLeg then At(IndexOf(Values(), activeEntryIdByLeg[leg])) else null
    {
      if leg !in activeEntryIdByLeg {
        return null, |records|;
      }
      entry, i := Get(activeEntryIdByLeg[leg]);
    }

    method GetByDialId(dial: nat) returns (entry: QueueEntry?, ghost i: nat)
      ensures i == IndexOfDial(Values(), dial)
      ensures entry == At(IndexOfDial(Values(), dial))
    {
      i := 0;
      var k: nat := 0;
      while k < |records|
        invariant k <= |records| && forall m :: 0 <= m < k ==> records[m].dispatchedDialId != Some(dial)
      {
        if records[k].dispatchedDialId == Some(dial) {
          return records[k], k;
        }
        k := k + 1;
      }
      entry, i := null, k;
    }

    method Create(entry: QueueEntry, front: bool)
      requires Valid() && !entry.ended && forall k :: 0 <= k < |records| ==> records[k].queueEntryId != entry.queueEntryId
      modifies this
      ensures Valid() && records == if front then [entry] + old(records) else old(records) + [entry]
      ensures activeEntryIdByLeg == old(activeEntryIdByLeg)[entry.legId := entry.queueEntryId]
    {
      if front {
        records := [entry] + records;
      } else {
        records := records + [entry];
      }
      activeEntryIdByLeg := activeEntryIdByLeg[entry.legId := entry.queueEntryId];
    }

    // Every other leg of the entry is forgotten.
    method ReplaceLegBinding(id: nat, newLeg: nat)
      requires Valid()
      modifies this`activeEntryIdByLeg
      ensures Valid() && Values() == old(Values())
      ensures activeEntryIdByLeg == BindOnly(old(activeEntryIdByLeg), id, newLeg)
    {
      ghost var was := activeEntryIdByLeg;
      var todo := activeEntryIdByLeg.Keys;
      while todo != {}
        invariant todo <= activeEntryIdByLeg.Keys <= was.Keys
        invariant forall leg :: leg in activeEntryIdByLeg ==> activeEntryIdByLeg[leg] == was[leg]
        invariant forall leg :: leg in was && leg !in todo ==> (leg in activeEntryIdByLeg <==> was[leg] != id || leg == newLeg)
        decreases |todo|
      {
        var known :| known in todo;
        todo := todo - {known};
        if activeEntryIdByLeg[known] == id && known != newLeg {
          activeEntryIdByLeg := activeEntryIdByLeg - {known};
        }
      }
      activeEntryIdByLeg := activeEntryIdByLeg[newLeg := id];
    }

    method RemoveEntry(entry: QueueEntry, ghost i: nat)
      requires Valid() && i < |records| && records[i] == entry
      modifies this
      ensures Valid() && records == old(records[..i] + records[i + 1..])
      ensures activeEntryIdByLeg ==
              if entry.legId in old(activeEntryIdByLeg) && old(activeEntryIdByLeg)[entry.legId] == entry.queueEntryId
              then old(activeEntryIdByLeg) - {entry.legId} else old(activeEntryIdByLeg)
    {
      var k: nat := 0;
      while records[k].queueEntryId != entry.queueEntryId
        invariant k <= i && records == old(records)
        decreases i - k
      {
        k := k + 1;
      }
      records := records[..k] + records[k + 1..];
      if entry.legId in activeEntryIdByLeg && activeEntryIdByLeg[entry.legId] == entry.queueEntryId {
        activeEntryIdByLeg := activeEntryIdByLeg - {entry.legId};
      }
    }
  }

  lemma {:induction false} FirstAt(records: seq<Entry>, id: nat, k: nat)
    requires k < |records| && records[k].id == id && forall m :: 0 <= m < k ==> records[m].id != id
    ensures IndexOf(records, id) == k
  {
  }

  lemma AbortSame(q: Queue, i: nat)
    requires i < |q.records|
    ensures var a := AbortDial(q, i);
            && |a.records| == |q.records| && a.now == q.now && a.log == q.log && a.tickets == q.tickets
            && a.records[i].id == q.records[i].id && a.records[i].mode == q.records[i].mode && a.records[i].leg == q.records[i].leg
            && a.records[i].ticket == q.records[i].ticket && a.records[i].retryPause == q.records[i].retryPause
  {
  }

  /** The service, with what it makes other services hold: the legs' tickets, the dials that ring and
      the notices published. */
  class QueueService {
    const entries: QueueEntryRegistry
    var now: nat
    var branchTimers: map<nat, nat>
    var tickets: map<nat, nat>
    var ringing: set<nat>
    var nextEntry: nat
    var nextTicket: nat
    var nextDial: nat
    var published: seq<Notice>

    ghost predicate Valid()
      reads this, entries, entries.records
    {
      && entries.Valid()
      && (forall i :: 0 <= i < |entries.records| ==> entries.records[i].queueEntryId < nextEntry)
    }

    ghost function State(): Queue
      reads this, entries, entries.records
    {
      Queue(now, entries.Values(), entries.activeEntryIdByLeg, branchTimers, tickets, ringing, nextEntry, nextTicket, nextDial, published)
    }

    constructor ()
      ensures Valid() && State() == EMPTY && fresh(entries)
    {
      entries := new QueueEntryRegistry();
      now, branchTimers, tickets, ringing := 0, map[], map[], {};
      nextEntry, nextTicket, nextDial, published := 0, 0, 0, [];
    }

    method Publish(n: Notice)
      modifies this`published
      ensures published == old(published) + [n]
    {
      published := published + [n];
    }

    method PublishLegInterrupt(n: Notice, leg: nat, known: set<nat>)
      modifies this`published
      ensures published == if leg in known then old(published) + [n] else old(published)
    {
      if leg in known {
        Publish(n);
      }
    }

    method ScheduleEntryBranch(entry: QueueEntry, delay: nat)
      modifies this`branchTimers
      ensures branchTimers == old(branchTimers)[entry.queueEntryId := now + delay]
    {
      branchTimers := branchTimers[entry.queueEntryId := now + delay];
    }

    method ReleaseTicket(ticket: Option<nat>)
      modifies this`tickets
      ensures tickets == Drop(old(tickets), ticket)
    {
      if ticket.Some? {
        tickets := tickets - {ticket.value};
      }
    }

    // The entry is idle before the dial is broken, so what breaking it finalises finds no entry.
    method AbortActiveDial(entry: QueueEntry, ghost i: nat)
      requires Valid() && i < |entries.records| && entries.records[i] == entry
      modifies entry, this`ringing
      ensures Valid() && State() == AbortDial(old(State()), i)
    {
      if entry.dispatchedDialId == None {
        return;
      }
      var dialId := entry.dispatchedDialId.value;
      entry.ToIdle();
      assert entries.Values() == old(entries.Values())[i := entry.State()];
      if dialId in ringing {
        ringing := ringing - {dialId};
      }
    }

    method RetryEntry(entry: QueueEntry, delay: nat, ghost i: nat)
      requires Valid() && i < |entries.records| && entries.records[i] == entry
      modifies entry, this`ringing, this`branchTimers
      ensures Valid() && State() == Retry(old(State()), i, delay)
    {
      hide AbortDial;
      AbortActiveDial(entry, i);
      SetRetryNotBefore(entry, now + delay, i);
      ScheduleEntryBranch(entry, delay);
    }

    method SetRetryNotBefore(entry: QueueEntry, until: nat, ghost i: nat)
      requires Valid() && i < |entries.records| && entries.records[i] == entry
      modifies entry
      ensures Valid() && State() == Delay(old(State()), i, until)
    {
      entry.retryNotBeforeAt := until;
      assert entries.Values() == old(entries.Values())[i := entry.State()];
    }

    method MaybePublishPlaced(entry: QueueEntry, ghost i: nat)
      requires Valid() && i < |entries.records| && entries.records[i] == entry
      modifies entry, this`published
      ensures Valid() && State() == PublishPlaced(old(State()), i)
    {
      if entry.mode == Callback || entry.placedPublished {
        return;
      }
      entry.placedPublished := true;
      assert entries.Values() == old(entries.Values())[i := entry.State()];
      Publish(Placed(entry.queueEntryId));
    }

    method Unregister(entry: QueueEntry, ghost i: nat)
      requires Valid() && i < |entries.records| && entries.records[i] == entry
      modifies entries, this`branchTimers
      ensures Valid() && entry !in entries.records
      ensures State() == Remove(old(State()), i).(tickets := tickets)
    {
      ghost var was, values := entries.records, entries.Values();
      branchTimers := branchTimers - {entry.queueEntryId};
      entries.RemoveEntry(entry, i);
      assert entries.Values() == values[..i] + values[i + 1..];
      assert forall k :: 0 <= k < |was| && k != i ==> was[k].queueEntryId != was[i].queueEntryId;
    }

    method EndEntry(entry: QueueEntry, silent: bool, known: set<nat>, ghost i: nat)
      requires Valid() && i < |entries.records| && entries.records[i] == entry
      modifies entry, entries, this
      ensures Valid() && State() == QueueSpec.EndEntry(old(State()), i, silent, known)
    {
      hide AbortDial;
      if entry.ended {
        return;
      }
      AbortSame(State(), i);
      AbortActiveDial(entry, i);
      ghost var a := State();
      assert a.records[i] == entry.State();
      Unregister(entry, i);
      if entry.mode == Live && !silent {
        PublishLegInterrupt(LegRemoved(entry.legId), entry.legId, known);
      }
      Retire(entry);
    }

    // An entry no longer registered ends, and gives its ticket back.
    method Retire(entry: QueueEntry)
      requires Valid() && entry !in entries.records
      modifies entry, this`tickets
      ensures Valid() && State() == old(State()).(tickets := Drop(old(tickets), old(entry.retention)))
    {
      ghost var values := entries.Values();
      var released := entry.ToEnded();
      assert entries.Values() == values;
      ReleaseTicket(released);
    }

    // The caller joins the queue; `alive` are the legs not yet ended.
    method EnqueueLeg(j: Join, alive: set<nat>, known: set<nat>) returns (accepted: bool)
      requires Valid()
      modifies this, entries, entries.records
      ensures Valid() && State() == Enqueue(old(State()), j, alive, known)
      ensures accepted <==> !Refused(old(State()), j, known)
    {
      hide Best, IndexOf, QueueSpec.Create, Rejoin;
      var owner, o := entries.GetByLegId(j.leg);
      if owner != null || j.leg !in known || !j.inbound || !j.sip || j.fromExtension || j.trunkRef == "" {
        return false;
      }
      if j.rejoinExisting && j.caller != "" {
        var candidate, b := FindRejoinCandidate(j, alive);
        if candidate != null {
          JoinAgain(candidate, j, known, b);
          return true;
        }
      }
      JoinAnew(j, known);
      return true;
    }

    method FindRejoinCandidate(j: Join, alive: set<nat>) returns (best: QueueEntry?, ghost b: nat)
      ensures b == Best(entries.Values(), j, alive)
      ensures best == entries.At(Best(entries.Values(), j, alive))
    {
      best, b := null, 0;
      ghost var values := entries.Values();
      var k: nat := 0;
      while k < |entries.records|
        invariant k <= |entries.records| && b == Best(values[..k], j, alive)
        invariant if b < k then best == entries.records[b] else b == k && best == null
      {
        var entry := entries.records[k];
        assert values[..k + 1][..k] == values[..k] && values[..k + 1][k] == entry.State();
        var fits := entry.ref == j.ref && entry.trunkRef == j.trunkRef && entry.callerNumber == j.caller && entry.legId !in alive;
        if best == null {
          b := k + 1;
        }
        if fits && (best == null || entry.createdAt < best.createdAt) {
          best, b := entry, k;
        }
        k := k + 1;
      }
      assert values[..k] == values;
    }

    method JoinAgain(entry: QueueEntry, j: Join, known: set<nat>, ghost i: nat)
      requires Valid() && i < |entries.records| && entries.records[i] == entry
      modifies entry, entries`activeEntryIdByLeg, this
      ensures Valid() && State() == Rejoin(old(State()), i, j, known)
    {
      Rebind(entry, j, i);
      Announce(entry, j.leg, known);
    }

    method Rebind(entry: QueueEntry, j: Join, ghost i: nat)
      requires Valid() && i < |entries.records| && entries.records[i] == entry
      modifies entry, entries`activeEntryIdByLeg, this`tickets, this`nextTicket
      ensures Valid() && State() == Rejoined(old(State()), i, j)
    {
      hide AsRejoined, Drop, BindOnly;
      var ticket := nextTicket;
      nextTicket := nextTicket + 1;
      var released := RejoinEntry(entry, j, ticket, i);
      ExchangeTicket(released, ticket, j.leg);
      BindLeg(entry.queueEntryId, j.leg);
    }

    method ExchangeTicket(released: Option<nat>, ticket: nat, leg: nat)
      modifies this`tickets
      ensures tickets == Drop(old(tickets), released)[ticket := leg]
    {
      ReleaseTicket(released);
      tickets := tickets[ticket := leg];
    }

    method BindLeg(id: nat, leg: nat)
      requires Valid()
      modifies entries`activeEntryIdByLeg
      ensures Valid() && State() == old(State()).(byLeg := BindOnly(old(entries.activeEntryIdByLeg), id, leg))
    {
      hide BindOnly;
      entries.ReplaceLegBinding(id, leg);
    }

    method RejoinEntry(entry: QueueEntry, j: Join, ticket: nat, ghost i: nat) returns (released: Option<nat>)
      requires Valid() && i < |entries.records| && entries.records[i] == entry
      modifies entry
      ensures Valid() && released == old(entry.retention)
      ensures entries.Values() == old(entries.Values())[i := AsRejoined(old(entry.State()), j, ticket)]
    {
      released := entry.ToRejoined(j.leg, ticket);
      entry.retryAttempts := j.attempts;
      entry.retryPauseMs := j.pause;
    }

    method Announce(entry: QueueEntry, leg: nat, known: set<nat>)
      requires Valid()
      modifies this`published, this`branchTimers
      ensures Valid() && State() == QueueSpec.Announce(old(State()), entry.queueEntryId, leg, known)
    {
      Publish(Joined(entry.queueEntryId));
      PublishLegInterrupt(LegPlaced(leg), leg, known);
      ScheduleEntryBranch(entry, 0);
    }

    method JoinAnew(j: Join, known: set<nat>)
      requires Valid()
      modifies entries, this
      ensures Valid() && State() == QueueSpec.Create(old(State()), j, known)
    {
      var entry := CreateEntry(j);
      Announce(entry, j.leg, known);
    }

    method CreateEntry(j: Join) returns (entry: QueueEntry)
      requires Valid()
      modifies entries, this`tickets, this`nextTicket, this`nextEntry
      ensures fresh(entry) && entry.queueEntryId == old(nextEntry)
      ensures Valid() && State() == Created(old(State()), j)
    {
      entry := new QueueEntry(nextEntry, j, now, nextTicket);
      assert entry.State() == NewEntry(old(State()), j);
      Register(entry, j.front);
      tickets := tickets[nextTicket := j.leg];
      nextEntry, nextTicket := nextEntry + 1, nextTicket + 1;
    }

    method Register(entry: QueueEntry, front: bool)
      requires Valid() && !entry.ended && entry !in entries.records && entry.queueEntryId == nextEntry
      modifies entries
      ensures entries.Valid() && entries.records == if front then [entry] + old(entries.records) else old(entries.records) + [entry]
      ensures entries.Values() == if front then [entry.State()] + old(entries.Values()) else old(entries.Values()) + [entry.State()]
      ensures entries.activeEntryIdByLeg == old(entries.activeEntryIdByLeg)[entry.legId := entry.queueEntryId]
    {
      entries.Create(entry, front);
    }

    method RemoveEntryForLeg(leg: nat, silent: bool, known: set<nat>) returns (removed: bool)
      requires Valid()
      modifies this, entries, entries.records
      ensures Valid() && State() == RemoveLeg(old(State()), leg, silent, known)
      ensures removed <==> |entries.records| < |old(entries.records)|
    {
      hide IndexOf, AbortDial, Retry, QueueSpec.EndEntry, Settle;
      var entry, i := entries.GetByLegId(leg);
      if entry == null {
        return false;
      }
      if entry.callbackEnabled && entry.mode == Live {
        CallBackLater(entry, i);
        return false;
      }
      EndLength(State(), i, silent, known);
      EndEntry(entry, silent, known, i);
      return true;
    }

    method SettleCallback(entry: QueueEntry, ghost i: nat)
      requires Valid() && i < |entries.records| && entries.records[i] == entry
      modifies entry, this`tickets
      ensures Valid() && State() == Settle(old(State()), i)
    {
      var released := entry.ToCallback();
      assert entries.Values() == old(entries.Values())[i := entry.State()];
      ReleaseTicket(released);
    }

    method CallBackLater(entry: QueueEntry, ghost i: nat)
      requires Valid() && i < |entries.records| && entries.records[i] == entry
      modifies entry, this
      ensures Valid()
      ensures var q := old(State());
              var e, c := q.records[i], Settle(AbortDial(q, i), i);
              && |AbortDial(q, i).records| == |c.records| == |q.records|
              && State() == Retry(if e.dial.Some? then Note(c, Aborted(e.id, q.now, e.retryPause)) else c, i, e.retryPause)
    {
      hide AbortDial, Retry, Settle;
      AbortSame(State(), i);
      SettleSame(AbortDial(State(), i), i);
      var dialling := entry.dispatchedDialId.Some?;
      AbortActiveDial(entry, i);
      SettleCallback(entry, i);
      if dialling {
        Publish(Aborted(entry.queueEntryId, now, entry.retryPauseMs));
      }
      RetryEntry(entry, entry.retryPauseMs, i);
    }

    method SetQueueCallback(leg: nat, enabled: bool) returns (known: bool)
      requires Valid()
      modifies entries.records
      ensures Valid() && State() == SetCallback(old(State()), leg, enabled)
      ensures known <==> OwnsEntry(old(State()), leg)
    {
      hide IndexOf;
      var entry, i := entries.GetByLegId(leg);
      if entry == null {
        return false;
      }
      entry.callbackEnabled := enabled;
      assert entries.Values() == old(entries.Values())[i := entry.State()];
      return true;
    }

    method TakeQueueEntry(id: nat, known: set<nat>) returns (taken: bool)
      requires Valid()
      modifies this, entries, entries.records
      ensures Valid()
      ensures var i := IndexOf(old(State()).records, id);
              if i < |old(State()).records| then taken && State() == Take(old(State()), i, known) else !taken && State() == old(State())
    {
      hide IndexOf, QueueSpec.EndEntry, Take;
      var entry, i := entries.Get(id);
      if entry == null {
        return false;
      }
      Complete(entry, known, i);
      return true;
    }

    method Complete(entry: QueueEntry, known: set<nat>, ghost i: nat)
      requires Valid() && i < |entries.records| && entries.records[i] == entry
      modifies entry, entries, this
      ensures Valid() && State() == Take(old(State()), i, known)
    {
      hide QueueSpec.EndEntry;
      Publish(Completed(entry.ref, if now > entry.createdAt then now - entry.createdAt else 0));
      EndEntry(entry, false, known, i);
    }

    method HandleDialFinalized(dialId: nat, answered: bool, known: set<nat>)
      requires Valid()
      modifies this, entries, entries.records
      ensures Valid() && State() == DialDone(old(State()), dialId, answered, known)
    {
      hide IndexOfDial, QueueSpec.EndEntry, Take, DialFailed;
      ringing := ringing - {dialId};
      var entry, i := entries.GetByDialId(dialId);
      if entry == null {
        return;
      }
      if answered {
        Complete(entry, known, i);
      } else {
        HandleFailedDial(entry, known, i);
      }
    }

    method HandleFailedDial(entry: QueueEntry, known: set<nat>, ghost i: nat)
      requires Valid() && i < |entries.records| && entries.records[i] == entry
      modifies entry, entries, this
      ensures Valid() && State() == DialFailed(old(State()), i, known)
    {
      hide QueueSpec.EndEntry, Failure, PublishPlaced, Retry;
      FailureSame(State(), i);
      CountFailure(entry, i);
      if entry.retryCount > entry.retryAttempts {
        EndEntry(entry, false, known, i);
        Publish(Offline(entry.ref, entry.queueEntryId));
        return;
      }
      PlacedSame(State(), i);
      MaybePublishPlaced(entry, i);
      RetryEntry(entry, entry.retryPauseMs, i);
    }

    method CountFailure(entry: QueueEntry, ghost i: nat)
      requires Valid() && i < |entries.records| && entries.records[i] == entry
      modifies entry, this`published
      ensures Valid() && State() == Failure(old(State()), i)
    {
      entry.retryCount := entry.retryCount + 1;
      assert entries.Values() == old(entries.Values())[i := entry.State()];
      Publish(Failed(entry.queueEntryId, now, entry.retryPauseMs));
    }

    method RefreshWorkflowScope(scope: string)
      requires Valid()
      modifies this`branchTimers
      ensures Valid() && State() == Refresh(old(State()), scope)
    {
      hide QueueEntry.State, Schedule;
      var k: nat := 0;
      while k < |entries.records|
        invariant k <= |entries.records| && Valid()
        invariant RefreshFrom(State(), scope, k) == Refresh(old(State()), scope)
      {
        RefreshEntry(entries.records[k], scope, k);
        k := k + 1;
      }
    }

    method RefreshEntry(entry: QueueEntry, scope: string, ghost i: nat)
      requires Valid() && i < |entries.records| && entries.records[i] == entry
      modifies this`branchTimers
      ensures Valid()
      ensures var q := old(State()); var e := q.records[i];
              State() == if e.scope != scope || e.dispatching then q
                         else Schedule(q, e.id, if e.retryNotBefore > q.now then e.retryNotBefore - q.now else 0)
    {
      if entry.workflowScopeKey == scope && !entry.dispatching {
        ScheduleEntryBranch(entry, if entry.retryNotBeforeAt > now then entry.retryNotBeforeAt - now else 0);
      }
    }

    method ReservedExtensionNumbers(scope: string) returns (reserved: set<string>)
      ensures reserved == Reserved(entries.Values(), scope)
    {
      reserved := {};
      ghost var values := entries.Values();
      var k: nat := 0;
      while k < |entries.records|
        invariant k <= |entries.records| && reserved == Reserved(values[..k], scope)
      {
        var entry := entries.records[k];
        ReservedNext(values, scope, k);
        if entry.dispatching && entry.workflowScopeKey == scope {
          reserved := reserved + (set x | x in entry.reservedExtensions);
        }
        k := k + 1;
      }
      assert values[..k] == values;
    }

    // The entry is still the one its leg owns, and waits for its turn.
    method IsCurrent(entry: QueueEntry, ghost i: nat) returns (current: bool)
      requires Valid() && i < |entries.records| && entries.records[i] == entry
      ensures current <==> IndexOfLeg(State(), entry.legId) == i && !entry.dispatching
    {
      hide IndexOf;
      var activeEntry, a := entries.GetByLegId(entry.legId);
      return activeEntry != null && activeEntry.queueEntryId == entry.queueEntryId && !activeEntry.dispatching;
    }

    // A branch timer goes off. `online` and `available` are what the extension registry answers.
    method BranchTimerFires(id: nat, online: bool, available: seq<string>, known: set<nat>)
      requires Valid()
      modifies this, entries, entries.records
      ensures Valid() && State() == Fire(old(State()), id, online, available, known)
    {
      hide IndexOf, Turn;
      branchTimers := branchTimers - {id};
      var entry, i := entries.Get(id);
      if entry != null {
        TakeTurn(entry, online, available, known, i);
      }
    }

    method TakeTurn(entry: QueueEntry, online: bool, available: seq<string>, known: set<nat>, ghost i: nat)
      requires Valid() && i < |entries.records| && entries.records[i] == entry
      modifies entry, entries, this
      ensures Valid() && State() == Turn(old(State()), i, online, available, known)
    {
      hide IndexOfLeg, Branch;
      var current := IsCurrent(entry, i);
      if !current {
        return;
      }
      if entry.retryNotBeforeAt > now {
        ScheduleEntryBranch(entry, entry.retryNotBeforeAt - now);
        return;
      }
      PublishEntryBranch(entry, online, available, known, i);
    }

    method PublishEntryBranch(entry: QueueEntry, online: bool, available: seq<string>, known: set<nat>, ghost i: nat)
      requires Valid() && i < |entries.records| && entries.records[i] == entry
      modifies entry, entries, this
      ensures Valid() && State() == Branch(old(State()), i, online, available, known)
    {
      hide QueueSpec.EndEntry, PublishPlaced, Dispatch, Reserved;
      var reserved := ReservedExtensionNumbers(entry.workflowScopeKey);
      var free := Free(available, reserved);
      if !online {
        EndEntry(entry, false, known, i);
        Publish(Offline(entry.ref, entry.queueEntryId));
        return;
      }
      if |free| == 0 {
        MaybePublishPlaced(entry, i);
        return;
      }
      MakeQueueDial(entry, free, i);
    }

    method MakeQueueDial(entry: QueueEntry, free: seq<string>, ghost i: nat)
      requires Valid() && i < |entries.records| && entries.records[i] == entry
      modifies entry, this`ringing, this`nextDial, this`published
      ensures Valid() && State() == Dispatch(old(State()), i, free)
    {
      var dialId := nextDial;
      nextDial, ringing := nextDial + 1, ringing + {dialId};
      entry.ToDispatching(dialId, free);
      assert entries.Values() == old(entries.Values())[i := entry.State()];
      Publish(Dispatched(entry.queueEntryId, dialId, now));
    }
  }

  lemma SettleSame(q: Queue, i: nat)
    requires i < |q.records|
    ensures var c := Settle(q, i);
            && |c.records| == |q.records| && c.now == q.now && c.log == q.log
            && c.records[i].id == q.records[i].id && c.records[i].retryPause == q.records[i].retryPause
  {
  }

  lemma EndLength(q: Queue, i: nat, silent: bool, known: set<nat>)
    requires i < |q.records|
    ensures |QueueSpec.EndEntry(q, i, silent, known).records| == |q.records| - 1
  {
  }

  lemma FailureSame(q: Queue, i: nat)
    requires i < |q.records|
    ensures var f := Failure(q, i);
            && |f.records| == |q.records| && f.records[i].ref == q.records[i].ref && f.records[i].id == q.records[i].id
            && f.records[i].retryCount == q.records[i].retryCount + 1
            && f.records[i].retryAttempts == q.records[i].retryAttempts && f.records[i].retryPause == q.records[i].retryPause
  {
  }

  lemma PlacedSame(q: Queue, i: nat)
    requires i < |q.records|
    ensures |PublishPlaced(q, i).records| == |q.records| && PublishPlaced(q, i).records[i].retryPause == q.records[i].retryPause
  {
  }

  lemma ReservedNext(records: seq<Entry>, scope: string, k: nat)
    requires k < |records|
    ensures Reserved(records[..k + 1], scope) ==
            Reserved(records[..k], scope) + if records[k].dispatching && records[k].scope == scope then (set x | x in records[k].reserved) else {}
  {
    var more, fewer := Reserved(records[..k + 1], scope), Reserved(records[..k], scope);
    forall x | x in more ensures x in fewer || (records[k].dispatching && records[k].scope == scope && x in records[k].reserved) {
      var i :| 0 <= i < k + 1 && records[..k + 1][i].dispatching && records[..k + 1][i].scope == scope && x in records[..k + 1][i].reserved;
      if i < k {
        assert records[..k][i] == records[..k + 1][i];
      }
    }
    forall x | x in fewer ensures x in more {
      var i :| 0 <= i < k && records[..k][i].dispatching && records[..k][i].scope == scope && x in records[..k][i].reserved;
      assert records[..k + 1][i] == records[..k][i];
    }
    if records[k].dispatching && records[k].scope == scope {
      forall x | x in records[k].reserved ensures x in more {
        assert records[..k + 1][k] == records[k];
      }
    }
  }
}

/** How many callers a queue has served, and how long they waited on average. */
module QueueStats {

  datatype Completion = Completion(ref: string, waitMs: int)

  function Served(history: seq<Completion>, ref: string): nat
    decreases |history|
  {
    if history == [] then 0
    else Served(history[..|history| - 1], ref) + (if history[|history| - 1].ref == ref then 1 else 0)
  }

  // A wait that ends before it began counts as none.
  function Waited(history: seq<Completion>, ref: string): nat
    decreases |history|
  {
    if history == [] then 0
    else
      var last := history[|history| - 1];
      Waited(history[..|history| - 1], ref) + (if last.ref == ref && last.waitMs > 0 then last.waitMs else 0)
  }

  lemma RecordedNext(history: seq<Completion>, c: Completion, ref: string)
    ensures Served(history + [c], ref) == Served(history, ref) + (if c.ref == ref then 1 else 0)
    ensures Waited(history + [c], ref) == Waited(history, ref) + (if c.ref == ref && c.waitMs > 0 then c.waitMs else 0)
  {
    assert (history + [c])[..|history|] == history;
  }

  class QueueStatsTracker {
    var completedByRef: map<string, nat>
    var completedWaitTotalMsByRef: map<string, nat>
    ghost var history: seq<Completion>

    ghost predicate Valid()
      reads this
    {
      forall ref :: Get(completedByRef, ref) == Served(history, ref) && Get(completedWaitTotalMsByRef, ref) == Waited(history, ref)
    }

    static function Get(m: map<string, nat>, ref: string): nat { if ref in m then m[ref] else 0 }

    constructor ()
      ensures Valid() && history == []
    {
      completedByRef, completedWaitTotalMsByRef, history := map[], map[], [];
    }

    method RecordCompletion(ref: string, waitMs: int)
      requires Valid()
      modifies this
      ensures Valid() && history == old(history) + [Completion(ref, waitMs)]
    {
      hide Served, Waited;
      forall other ensures Served(history + [Completion(ref, waitMs)], other) == Served(history, other) + (if ref == other then 1 else 0)
                        && Waited(history + [Completion(ref, waitMs)], other) == Waited(history, other) + (if ref == other && waitMs > 0 then waitMs else 0)
      {
        RecordedNext(history, Completion(ref, waitMs), other);
      }
      completedByRef := completedByRef[ref := Get(completedByRef, ref) + 1];
      completedWaitTotalMsByRef := completedWaitTotalMsByRef[ref := Get(completedWaitTotalMsByRef, ref) + if waitMs > 0 then waitMs else 0];
      history := history + [Completion(ref, waitMs)];
    }

    method GetCompletedCount(ref: string) returns (count: nat)
      requires Valid()
      ensures count == Served(history, ref)
    {
      return Get(completedByRef, ref);
    }

    // The whole milliseconds of the mean wait, and nothing when nobody was served.
    method GetAverageWaitMs(ref: string) returns (average: nat)
      requires Valid()
      ensures var n, total := Served(history, ref), Waited(history, ref);
              if n == 0 then average == 0 else average * n <= total < (average + 1) * n
    {
      var completedCount := GetCompletedCount(ref);
      if completedCount <= 0 {
        return 0;
      }
      var totalWaitMs := Get(completedWaitTotalMsByRef, ref);
      return totalWaitMs / completedCount;
    }

    method GetEstimatedAnswerMs(ref: string, position: int) returns (estimate: nat)
      requires Valid()
      ensures position <= 0 || Served(history, ref) == 0 ==> estimate == 0
      ensures position > 0 && Served(history, ref) > 0 ==>
                var n, total := Served(history, ref), Waited(history, ref);
                exists average: nat :: average * n <= total < (average + 1) * n && estimate == average * position
    {
      var averageWaitMs := GetAverageWaitMs(ref);
      if position <= 0 || averageWaitMs <= 0 {
        assert 0 == averageWaitMs * position || position <= 0;
        return 0;
      }
      return averageWaitMs * position;
    }
  }
}
