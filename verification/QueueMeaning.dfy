/** What each event does to a queue, as a whole state told by its entries alone. */
module QueueMeaning {
  import opened QueueEntries
  import opened QueueSpec
  import opened QueueSafety
  import opened QueueHistory
  import opened QueueRuns

  ghost predicate Reachable(q: Queue) { exists steps :: Runs(EMPTY, steps) && After(EMPTY, steps) == q }

  // ---- Entries are not older than the clock ----

  ghost predicate Clocked(q: Queue) { forall i :: 0 <= i < |q.records| ==> q.records[i].createdAt <= q.now }

  lemma PutClocked(q: Queue, q': Queue, i: nat)
    requires Clocked(q) && i < |q.records| && q'.now >= q.now && |q'.records| == |q.records|
    requires q'.records == q.records[i := q'.records[i]] && q'.records[i].createdAt == q.records[i].createdAt
    ensures Clocked(q')
  {
  }

  lemma EndClocked(q: Queue, i: nat, silent: bool, known: set<nat>)
    requires Clocked(q) && i < |q.records|
    ensures Clocked(EndEntry(q, i, silent, known))
  {
    hide Remove, Clocked;
    var a := AbortDial(q, i);
    PutClocked(q, a, i);
    RemoveClocked(a, i);
    SameClocked(Remove(a, i), EndEntry(q, i, silent, known));
  }

  lemma RemoveClocked(q: Queue, i: nat)
    requires Clocked(q) && i < |q.records|
    ensures Clocked(Remove(q, i))
  {
    hide Drop;
    Others(q.records, i);
  }

  lemma SameClocked(q: Queue, q': Queue)
    requires Clocked(q) && q'.records == q.records && q'.now == q.now
    ensures Clocked(q')
  {
  }

  lemma EnqueueClocked(q: Queue, j: Join, alive: set<nat>, known: set<nat>)
    requires Clocked(q)
    ensures Clocked(Enqueue(q, j, alive, known))
  {
    hide Best, Refused, BindOnly, Drop;
  }

  lemma RemoveLegClocked(q: Queue, leg: nat, silent: bool, known: set<nat>)
    requires Clocked(q)
    ensures Clocked(RemoveLeg(q, leg, silent, known))
  {
    hide EndEntry, Drop, IndexOf;
    var i := IndexOfLeg(q, leg);
    if i < |q.records| {
      EndClocked(q, i, silent, known);
      PutClocked(q, Retry(Settle(AbortDial(q, i), i), i, q.records[i].retryPause), i);
    }
  }

  lemma TakeClocked(q: Queue, i: nat, known: set<nat>)
    requires Clocked(q) && i < |q.records|
    ensures Clocked(Take(q, i, known))
  {
    hide EndEntry;
    EndClocked(Note(q, Completed(q.records[i].ref, if q.now > q.records[i].createdAt then q.now - q.records[i].createdAt else 0)), i, false, known);
  }

  lemma DialDoneClocked(q: Queue, dial: nat, answered: bool, known: set<nat>)
    requires Clocked(q)
    ensures Clocked(DialDone(q, dial, answered, known))
  {
    hide DialFailed, Take;
    var r := q.(ringing := q.ringing - {dial});
    var i := IndexOfDial(r.records, dial);
    if i < |r.records| {
      TakeClocked(r, i, known);
      DialFailedClocked(r, i, known);
    }
  }

  lemma DialFailedClocked(q: Queue, i: nat, known: set<nat>)
    requires Clocked(q) && i < |q.records|
    ensures Clocked(DialFailed(q, i, known))
  {
    hide EndEntry, Clocked;
    var e, f := q.records[i], Failure(q, i);
    PutClocked(q, f, i);
    EndClocked(f, i, false, known);
    SameClocked(EndEntry(f, i, false, known), Note(EndEntry(f, i, false, known), Offline(e.ref, e.id)));
    PutClocked(q, Retry(PublishPlaced(f, i), i, e.retryPause), i);
  }

  lemma FireClocked(q: Queue, id: nat, online: bool, available: seq<string>, known: set<nat>)
    requires Clocked(q)
    ensures Clocked(Fire(q, id, online, available, known))
  {
    hide EndEntry, Reserved, Free;
    var r := q.(timers := q.timers - {id});
    var i := IndexOf(r.records, id);
    if i < |r.records| {
      EndClocked(r, i, false, known);
    }
  }

  lemma NextClocked(q: Queue, s: Step)
    requires Clocked(q) && Enabled(q, s)
    ensures Clocked(Next(q, s))
  {
    hide Enqueue, RemoveLeg, DialDone, Take, Fire, RefreshFrom;
    match s
    case Pass(_) =>
    case DoEnqueue(j, alive, known) => EnqueueClocked(q, j, alive, known);
    case DoRemoveLeg(leg, silent, known) => RemoveLegClocked(q, leg, silent, known);
    case DoSetCallback(leg, enabled) =>
    case DoTake(id, known) => if IndexOf(q.records, id) < |q.records| { TakeClocked(q, IndexOf(q.records, id), known); }
    case DoDialDone(dial, answered, known) => DialDoneClocked(q, dial, answered, known);
    case DoRefresh(scope) => RefreshMeans(q, scope, 0);
    case DoFire(id, online, available, known) => FireClocked(q, id, online, available, known);
  }

  lemma {:induction false} RunClocked(q: Queue, steps: seq<Step>)
    requires Clocked(q) && Runs(q, steps)
    ensures Clocked(After(q, steps))
    decreases |steps|
  {
    hide Next, Enabled, Clocked;
    if steps != [] {
      NextClocked(q, steps[0]);
      RunClocked(Next(q, steps[0]), steps[1..]);
    }
  }

  lemma ReachableOk(q: Queue)
    requires Reachable(q)
    ensures Inv(q) && Clocked(q)
  {
    hide Inv;
    var steps :| Runs(EMPTY, steps) && After(EMPTY, steps) == q;
    EmptyOk();
    RunKeeps(EMPTY, steps);
    RunClocked(EMPTY, steps);
  }

  // ---- An entry goes ----

  // The entry is gone, with its leg, timer, ticket and dial; nothing else has changed.
  ghost predicate Left(q: Queue, q': Queue, i: nat)
    requires i < |q.records|
  {
    var e := q.records[i];
    && q'.records == q.records[..i] + q.records[i + 1..]
    && (forall k :: 0 <= k < |q'.records| ==> q'.records[k].id != e.id && q'.records[k].leg != e.leg)
    && q'.byLeg == q.byLeg - {e.leg}
    && q'.timers == q.timers - {e.id}
    && q'.tickets == (if e.ticket.Some? then q.tickets - {e.ticket.value} else q.tickets)
    && q'.ringing == (if e.dial.Some? then q.ringing - {e.dial.value} else q.ringing)
    && q'.now == q.now && q'.nextEntry == q.nextEntry && q'.nextTicket == q.nextTicket && q'.nextDial == q.nextDial
  }

  // A live entry's leg is told that it was removed, if it is still there.
  function Farewell(e: Entry, known: set<nat>): seq<Notice> {
    if e.mode == Live && e.leg in known then [LegRemoved(e.leg)] else []
  }

  lemma EndMeans(q: Queue, i: nat, silent: bool, known: set<nat>)
    requires EntriesOk(q) && AllApart(q.records) && i < |q.records|
    ensures var q' := EndEntry(q, i, silent, known);
            Left(q, q', i) && q'.log == q.log + if silent then [] else Farewell(q.records[i], known)
  {
    hide EntriesOk, AllApart;
    EntryAt(q, i);
    AbortMeansAll(q, i);
    GoneFrom(q, i);
    assert q.log + [] == q.log;
  }

  lemma AbortMeansAll(q: Queue, i: nat)
    requires i < |q.records|
    ensures var e, a := q.records[i], AbortDial(q, i);
            && a == q.(records := a.records, ringing := if e.dial.Some? then q.ringing - {e.dial.value} else q.ringing)
            && a.records == q.records[i := a.records[i]]
            && a.records[i] == e.(dispatching := a.records[i].dispatching, dial := None, reserved := a.records[i].reserved)
            && a.records[..i] + a.records[i + 1..] == q.records[..i] + q.records[i + 1..]
  {
  }

  lemma GoneFrom(q: Queue, i: nat)
    requires AllApart(q.records) && i < |q.records|
    ensures var rest := q.records[..i] + q.records[i + 1..];
            forall k :: 0 <= k < |rest| ==> rest[k].id != q.records[i].id && rest[k].leg != q.records[i].leg
  {
    Others(q.records, i);
    var rest := q.records[..i] + q.records[i + 1..];
    forall k | 0 <= k < |rest| ensures rest[k].id != q.records[i].id && rest[k].leg != q.records[i].leg {
      assert Apart(rest[k], q.records[i]);
    }
  }

  // ---- A dial is finalised ----

  lemma FindsDial(q: Queue, i: nat, d: nat)
    requires AllApart(q.records) && i < |q.records| && q.records[i].dial == Some(d)
    ensures IndexOfDial(q.records, d) == i
  {
    var k := IndexOfDial(q.records, d);
    assert k == i || Apart(q.records[k], q.records[i]);
  }

  lemma RingingAt(q: Queue, i: nat, d: nat)
    requires Rings(q) && i < |q.records| && q.records[i].dial == Some(d)
    ensures d in q.ringing
  {
  }

  /** An answered dial takes its entry: nobody with that number is left, the wait since it was created is
      on record, and no failure is. */
  lemma AnsweredIsTaken(q: Queue, i: nat, d: nat, known: set<nat>)
    requires Reachable(q) && i < |q.records| && q.records[i].dial == Some(d)
    ensures Enabled(q, DoDialDone(d, true, known)) && q.records[i].createdAt <= q.now
    ensures var e, q' := q.records[i], Next(q, DoDialDone(d, true, known));
            Left(q, q', i) && q'.log == q.log + [Completed(e.ref, q.now - e.createdAt)] + Farewell(e, known)
  {
    hide Reachable, EntriesOk, AllApart, NothingLeft, History, Rings, EndEntry, Left;
    ReachableOk(q);
    FindsDial(q, i, d);
    RingingAt(q, i, d);
    var r := q.(ringing := q.ringing - {d});
    var n := Note(r, Completed(q.records[i].ref, q.now - q.records[i].createdAt));
    SameOk(q, n);
    EndMeans(n, i, false, known);
    LeftBefore(q, n, EndEntry(n, i, false, known), i);
  }

  lemma SameOk(q: Queue, n: Queue)
    requires EntriesOk(q) && AllApart(q.records) && n.records == q.records
    requires n.nextEntry == q.nextEntry && n.nextDial == q.nextDial && n.byLeg == q.byLeg && n.tickets == q.tickets
    ensures EntriesOk(n) && AllApart(n.records)
  {
    hide AllApart;
  }

  // Noting and striking off its dial before an entry goes makes no difference.
  lemma LeftBefore(q: Queue, n: Queue, q': Queue, i: nat)
    requires i < |q.records| && n.records == q.records && Left(n, q', i) && q.records[i].dial.Some?
    requires n == q.(ringing := n.ringing, log := n.log) && n.ringing == q.ringing - {q.records[i].dial.value}
    ensures Left(q, q', i)
  {
    assert n.ringing - {q.records[i].dial.value} == n.ringing;
  }

  /** A dial nobody answered is counted. While the budget of retries lasts the same entry stays in its
      place, idle, to be looked at when the pause is over and not before; it is published as placed the
      first time; and nothing is on record as completed. */
  lemma UnansweredIsRetried(q: Queue, i: nat, d: nat, known: set<nat>)
    requires Reachable(q) && i < |q.records| && q.records[i].dial == Some(d) && q.records[i].retryCount < q.records[i].retryAttempts
    ensures Enabled(q, DoDialDone(d, false, known))
    ensures var e, q' := q.records[i], Next(q, DoDialDone(d, false, known));
            && q'.records == q.records[i := e.(dispatching := false, dial := None, reserved := [], retryCount := e.retryCount + 1,
                                               retryNotBefore := q.now + e.retryPause, placed := e.placed || e.mode == Live)]
            && q' == q.(records := q'.records, timers := q.timers[e.id := q.now + e.retryPause], ringing := q.ringing - {d}, log := q'.log)
            && q'.log == q.log + [Failed(e.id, q.now, e.retryPause)] + if e.mode == Live && !e.placed then [Placed(e.id)] else []
  {
    hide Reachable, EntriesOk, AllApart, NothingLeft, History, Rings, EndEntry;
    ReachableOk(q);
    EntryAt(q, i);
    FindsDial(q, i, d);
    RingingAt(q, i, d);
    hide IndexOfDial, EntryOk;
    RetriedMeans(q.(ringing := q.ringing - {d}), i, d);
  }

  lemma RetriedMeans(r: Queue, i: nat, d: nat)
    requires i < |r.records| && r.records[i].dial == Some(d) && d !in r.ringing
    ensures var e, q' := r.records[i], Retry(PublishPlaced(Failure(r, i), i), i, r.records[i].retryPause);
            && q'.records == r.records[i := e.(dispatching := false, dial := None, reserved := [], retryCount := e.retryCount + 1,
                                               retryNotBefore := r.now + e.retryPause, placed := e.placed || e.mode == Live)]
            && q' == r.(records := q'.records, timers := r.timers[e.id := r.now + e.retryPause], log := q'.log)
            && q'.log == r.log + [Failed(e.id, r.now, e.retryPause)] + if e.mode == Live && !e.placed then [Placed(e.id)] else []
  {
    var f := Failure(r, i);
    var p := PublishPlaced(f, i);
    assert f.log + [] == f.log;
    assert r.ringing - {d} == r.ringing;
  }

  /** With the budget spent the entry is gone and published as offline. */
  lemma UnansweredIsGivenUp(q: Queue, i: nat, d: nat, known: set<nat>)
    requires Reachable(q) && i < |q.records| && q.records[i].dial == Some(d) && q.records[i].retryCount >= q.records[i].retryAttempts
    ensures Enabled(q, DoDialDone(d, false, known))
    ensures var e, q' := q.records[i], Next(q, DoDialDone(d, false, known));
            Left(q, q', i) && q'.log == q.log + [Failed(e.id, q.now, e.retryPause)] + Farewell(e, known) + [Offline(e.ref, e.id)]
  {
    hide Reachable, EntriesOk, AllApart, NothingLeft, History, Rings, EndEntry, Left;
    ReachableOk(q);
    FindsDial(q, i, d);
    RingingAt(q, i, d);
    var r := q.(ringing := q.ringing - {d});
    var f := Failure(r, i);
    SameOk(q, r);
    FailureOk(r, i);
    EndMeans(f, i, false, known);
    LeftAfterFailure(q, r, f, EndEntry(f, i, false, known), i);
    LeftNoted(q, EndEntry(f, i, false, known), i, Offline(q.records[i].ref, q.records[i].id));
  }

  lemma FailureOk(r: Queue, i: nat)
    requires EntriesOk(r) && AllApart(r.records) && i < |r.records|
    ensures EntriesOk(Failure(r, i)) && AllApart(Failure(r, i).records)
  {
    var f := Failure(r, i);
    SameDials(r.records, f.records, i);
    forall k | 0 <= k < |f.records| ensures EntryOk(f, f.records[k]) {
      EntryAt(r, k);
    }
  }

  lemma LeftAfterFailure(q: Queue, r: Queue, f: Queue, q': Queue, i: nat)
    requires i < |q.records| && q.records[i].dial.Some? && r == q.(ringing := q.ringing - {q.records[i].dial.value})
    requires f == Failure(r, i) && Left(f, q', i)
    ensures Left(q, q', i)
  {
    var e := q.records[i];
    assert f.records[..i] + f.records[i + 1..] == q.records[..i] + q.records[i + 1..];
    assert r.ringing - {e.dial.value} == r.ringing;
  }

  lemma LeftNoted(q: Queue, q': Queue, i: nat, n: Notice)
    requires i < |q.records| && Left(q, q', i)
    ensures Left(q, Note(q', n), i)
  {
  }

  /** A dial no entry names changes nothing but that it rings no more. */
  lemma UnnamedIsIgnored(q: Queue, d: nat, answered: bool, known: set<nat>)
    requires d in q.ringing && !Named(q.records, d)
    ensures Next(q, DoDialDone(d, answered, known)) == q.(ringing := q.ringing - {d})
  {
    assert IndexOfDial(q.records, d) == |q.records|;
  }

  // ---- A call is taken ----

  /** Taking an entry by its number removes it and puts its wait on record; an unknown number does nothing. */
  lemma TakingMeans(q: Queue, id: nat, i: nat, known: set<nat>)
    requires Reachable(q) && i <= |q.records| && (i < |q.records| ==> q.records[i].id == id)
    requires i == |q.records| ==> forall k :: 0 <= k < |q.records| ==> q.records[k].id != id
    ensures i < |q.records| ==> q.records[i].createdAt <= q.now
    ensures var q' := Next(q, DoTake(id, known));
            if i == |q.records| then q' == q
            else Left(q, q', i) && q'.log == q.log + [Completed(q.records[i].ref, q.now - q.records[i].createdAt)] + Farewell(q.records[i], known)
  {
    hide Reachable, EntriesOk, AllApart, NothingLeft, History, Rings, EndEntry;
    ReachableOk(q);
    if i < |q.records| {
      FindsOwn(q, i);
      var n := Note(q, Completed(q.records[i].ref, q.now - q.records[i].createdAt));
      SameOk(q, n);
      EndMeans(n, i, false, known);
    }
  }

  // ---- Refreshing ----

  /** Refreshing a scope gives every waiting entry of it a timer, due at once or when its pause is over,
      and changes nothing else. */
  lemma {:induction false} RefreshMeans(q: Queue, scope: string, from: nat)
    requires from <= |q.records|
    ensures var r := RefreshFrom(q, scope, from);
            && r == q.(timers := r.timers)
            && (forall id :: id in r.timers && (forall k :: from <= k < |q.records| && Waits(q.records[k], scope) ==> q.records[k].id != id)
                  ==> id in q.timers && r.timers[id] == q.timers[id])
            && (forall id :: id in q.timers ==> id in r.timers)
    decreases |q.records| - from
  {
    if from < |q.records| {
      var e := q.records[from];
      if !Waits(e, scope) {
        RefreshMeans(q, scope, from + 1);
      } else {
        RefreshMeans(Schedule(q, e.id, if e.retryNotBefore > q.now then e.retryNotBefore - q.now else 0), scope, from + 1);
      }
    }
  }

  predicate Waits(e: Entry, scope: string) { e.scope == scope && !e.dispatching }

  lemma {:induction false} RefreshSchedules(q: Queue, scope: string, from: nat, i: nat)
    requires AllApart(q.records) && from <= i < |q.records| && Waits(q.records[i], scope)
    ensures var r, e := RefreshFrom(q, scope, from), q.records[i];
            e.id in r.timers && r.timers[e.id] == if e.retryNotBefore > q.now then e.retryNotBefore else q.now
    decreases |q.records| - from
  {
    var e := q.records[from];
    if from < i {
      RefreshSchedules(if Waits(e, scope) then Schedule(q, e.id, if e.retryNotBefore > q.now then e.retryNotBefore - q.now else 0) else q, scope, from + 1, i);
    } else {
      var s := Schedule(q, e.id, if e.retryNotBefore > q.now then e.retryNotBefore - q.now else 0);
      RefreshMeans(s, scope, from + 1);
      forall k | from + 1 <= k < |q.records| ensures q.records[k].id != e.id {
        ApartAt(q, k, i);
      }
    }
  }

  /** The same over a reachable queue, entry by entry. */
  lemma RefreshingMeans(q: Queue, scope: string, i: nat)
    requires Reachable(q) && i < |q.records|
    ensures var q', e := Next(q, DoRefresh(scope)), q.records[i];
            && q' == q.(timers := q'.timers)
            && (e.scope == scope && !e.dispatching ==>
                  e.id in q'.timers && q'.timers[e.id] == if e.retryNotBefore > q.now then e.retryNotBefore else q.now)
            && (e.scope != scope || e.dispatching ==>
                  (e.id in q'.timers <==> e.id in q.timers) && (e.id in q.timers ==> q'.timers[e.id] == q.timers[e.id]))
  {
    hide Reachable, EntriesOk, NothingLeft, History, Rings;
    ReachableOk(q);
    RefreshMeans(q, scope, 0);
    if Waits(q.records[i], scope) {
      RefreshSchedules(q, scope, 0, i);
    } else {
      forall k | 0 <= k < |q.records| && Waits(q.records[k], scope) ensures q.records[k].id != q.records[i].id {
        ApartAt(q, k, i);
      }
    }
  }

  // ---- A leg leaves ----

  lemma NobodyOn(q: Queue, leg: nat)
    requires EntriesOk(q) && AllApart(q.records) && NothingLeft(q)
    ensures IndexOfLeg(q, leg) < |q.records| <==> Owns(q.records, leg)
  {
    hide AllApart;
    IndexFinds(q, leg);
    if Owns(q.records, leg) {
      var i :| 0 <= i < |q.records| && q.records[i].leg == leg;
      EntryAt(q, i);
    }
  }

  /** A leg without an entry leaves nothing behind. A live entry that wants a callback stays in its place
      without dial, reservations and ticket, in callback mode, to be looked at when the pause is over; any
      other entry is gone, and a live one's leg is told unless it was asked to be silent. */
  lemma LeavingMeans(q: Queue, i: nat, leg: nat, silent: bool, known: set<nat>)
    requires Reachable(q) && i <= |q.records| && if i < |q.records| then q.records[i].leg == leg else !Owns(q.records, leg)
    ensures var q' := Next(q, DoRemoveLeg(leg, silent, known));
            if i == |q.records| then q' == q
            else
              var e := q.records[i];
              if e.callbackEnabled && e.mode == Live then
                && q'.records == q.records[i := e.(mode := Callback, ticket := None, dispatching := false, dial := None, reserved := [],
                                                   retryNotBefore := q.now + e.retryPause)]
                && q' == q.(records := q'.records, timers := q.timers[e.id := q.now + e.retryPause], log := q'.log,
                            tickets := if e.ticket.Some? then q.tickets - {e.ticket.value} else q.tickets,
                            ringing := if e.dial.Some? then q.ringing - {e.dial.value} else q.ringing)
                && q'.log == q.log + if e.dial.Some? then [Aborted(e.id, q.now, e.retryPause)] else []
              else Left(q, q', i) && q'.log == q.log + if silent then [] else Farewell(e, known)
  {
    hide Reachable, EntriesOk, AllApart, NothingLeft, History, Rings, EndEntry, Left, IndexOfLeg, Owns, Retry, Settle, AbortDial;
    ReachableOk(q);
    if i == |q.records| {
      NobodyOn(q, leg);
      IndexInRange(q, leg);
    } else {
      FindsOwn(q, i);
      EntryAt(q, i);
      EndMeans(q, i, silent, known);
      CallbackMeans(q, i);
    }
  }

  lemma IndexInRange(q: Queue, leg: nat)
    ensures IndexOfLeg(q, leg) <= |q.records|
  {
  }

  lemma CallbackMeans(q: Queue, i: nat)
    requires i < |q.records| && EntryOk(q, q.records[i])
    ensures var e, c := q.records[i], Settle(AbortDial(q, i), i);
            var n := if e.dial.Some? then Note(c, Aborted(e.id, q.now, e.retryPause)) else c;
            var q' := Retry(n, i, e.retryPause);
            && |AbortDial(q, i).records| == |c.records| == |q.records|
            && q'.records == q.records[i := e.(mode := Callback, ticket := None, dispatching := false, dial := None, reserved := [],
                                               retryNotBefore := q.now + e.retryPause)]
            && q' == q.(records := q'.records, timers := q.timers[e.id := q.now + e.retryPause], log := q'.log,
                        tickets := if e.ticket.Some? then q.tickets - {e.ticket.value} else q.tickets,
                        ringing := if e.dial.Some? then q.ringing - {e.dial.value} else q.ringing)
            && q'.log == q.log + if e.dial.Some? then [Aborted(e.id, q.now, e.retryPause)] else []
  {
    assert q.log + [] == q.log;
  }

  /** Asking for a callback, or no longer, changes the wish of the leg's entry and nothing else. */
  lemma WishingMeans(q: Queue, i: nat, leg: nat, wish: bool)
    requires Reachable(q) && i <= |q.records| && if i < |q.records| then q.records[i].leg == leg else !Owns(q.records, leg)
    ensures Next(q, DoSetCallback(leg, wish)) ==
            if i == |q.records| then q else q.(records := q.records[i := q.records[i].(callbackEnabled := wish)])
  {
    hide Reachable, EntriesOk, AllApart, NothingLeft, History, Rings, IndexOfLeg, Owns;
    ReachableOk(q);
    IndexInRange(q, leg);
    if i == |q.records| {
      NobodyOn(q, leg);
    } else {
      FindsOwn(q, i);
    }
  }

  // ---- A caller joins ----

  // A call that came in over SIP from a trunk, on a registered leg without an entry.
  ghost predicate MayJoin(q: Queue, j: Join, known: set<nat>) {
    !Owns(q.records, j.leg) && j.leg in known && j.inbound && j.sip && !j.fromExtension && j.trunkRef != ""
  }

  // The entry of the same caller, queue and trunk whose leg has ended.
  predicate Fits(e: Entry, j: Join, alive: set<nat>) {
    e.ref == j.ref && e.trunkRef == j.trunkRef && e.caller == j.caller && e.leg !in alive
  }

  ghost predicate Oldest(records: seq<Entry>, j: Join, alive: set<nat>, b: nat) {
    && b < |records| && Fits(records[b], j, alive)
    && forall k :: 0 <= k < |records| && Fits(records[k], j, alive) ==>
         records[b].createdAt < records[k].createdAt || (records[b].createdAt == records[k].createdAt && b <= k)
  }

  // The caller's leg is told that it was placed; the queue says who joined.
  function Welcome(id: nat, leg: nat): seq<Notice> { [Joined(id), LegPlaced(leg)] }

  lemma BestIs(records: seq<Entry>, j: Join, alive: set<nat>, b: nat)
    ensures Oldest(records, j, alive, b) ==> Best(records, j, alive) == b
    ensures (forall k :: 0 <= k < |records| ==> !Fits(records[k], j, alive)) ==> Best(records, j, alive) == |records|
  {
    BestMeans(records, j, alive);
    var a := Best(records, j, alive);
    assert a < |records| ==> Fits(records[a], j, alive);
    if Oldest(records, j, alive, b) {
      assert Candidate(records[b], j, alive);
    }
  }

  /** A leg that may not join is refused without effect. */
  lemma RefusalMeans(q: Queue, j: Join, alive: set<nat>, known: set<nat>)
    requires Reachable(q) && !MayJoin(q, j, known)
    ensures Next(q, DoEnqueue(j, alive, known)) == q
  {
    hide Reachable, EntriesOk, AllApart, NothingLeft, History, Rings, IndexOfLeg, Owns, Best;
    ReachableOk(q);
    NobodyOn(q, j.leg);
  }

  /** A caller who may rejoin takes over the oldest entry that fits, in its place: on the new leg, live and
      idle, with a new ticket for the old one, the new budget, counts and pause over, looked at at once. */
  lemma RejoiningMeans(q: Queue, j: Join, alive: set<nat>, known: set<nat>, b: nat)
    requires Reachable(q) && MayJoin(q, j, known) && j.rejoinExisting && j.caller != "" && Oldest(q.records, j, alive, b)
    ensures var e, q', t := q.records[b], Next(q, DoEnqueue(j, alive, known)), q.nextTicket;
            && q'.records == q.records[b := e.(leg := j.leg, mode := Live, dispatching := false, dial := None, reserved := [],
                                               ticket := Some(t), retryNotBefore := 0, retryCount := 0, placed := false,
                                               retryAttempts := j.attempts, retryPause := j.pause)]
            && q' == q.(records := q'.records, byLeg := q'.byLeg, timers := q.timers[e.id := q.now], tickets := q'.tickets,
                        nextTicket := t + 1, log := q.log + Welcome(e.id, j.leg))
            && q'.tickets == (if e.ticket.Some? then q.tickets - {e.ticket.value} else q.tickets)[t := j.leg]
            && (forall leg :: leg in q'.byLeg <==> leg == j.leg || (leg in q.byLeg && leg != e.leg))
            && (forall leg :: leg in q'.byLeg ==> q'.byLeg[leg] == if leg == j.leg then e.id else q.byLeg[leg])
  {
    hide Reachable, EntriesOk, AllApart, NothingLeft, History, Rings, IndexOfLeg, Owns, Best, Oldest, BindOnly;
    ReachableOk(q);
    NobodyOn(q, j.leg);
    BestIs(q.records, j, alive, b);
    OldestIn(q, j, alive, b);
    BoundMeans(q, b, j.leg);
    assert (q.log + [Joined(q.records[b].id)]) + [LegPlaced(j.leg)] == q.log + Welcome(q.records[b].id, j.leg);
  }

  lemma OldestIn(q: Queue, j: Join, alive: set<nat>, b: nat)
    requires Oldest(q.records, j, alive, b)
    ensures b < |q.records|
  {
  }

  lemma BoundMeans(q: Queue, b: nat, leg: nat)
    requires EntriesOk(q) && AllApart(q.records) && NothingLeft(q) && b < |q.records|
    ensures var e, m := q.records[b], BindOnly(q.byLeg, q.records[b].id, leg);
            && (forall l :: l in m <==> l == leg || (l in q.byLeg && l != e.leg))
            && (forall l :: l in m ==> m[l] == if l == leg then e.id else q.byLeg[l])
  {
    var e := q.records[b];
    EntryAt(q, b);
    forall l | l in q.byLeg && q.byLeg[l] == e.id ensures l == e.leg {
      assert Owns(q.records, l);
      var k :| 0 <= k < |q.records| && q.records[k].leg == l;
      EntryAt(q, k);
      assert k == b || Apart(q.records[k], q.records[b]);
    }
  }

  /** Otherwise a new entry stands at the chosen end: live and idle, with a ticket on its leg, its number
      never used before, its wait counted from now, looked at at once. */
  lemma JoiningMeans(q: Queue, j: Join, alive: set<nat>, known: set<nat>)
    requires Reachable(q) && MayJoin(q, j, known)
    requires !j.rejoinExisting || j.caller == "" || forall k :: 0 <= k < |q.records| ==> !Fits(q.records[k], j, alive)
    ensures var q', id, t := Next(q, DoEnqueue(j, alive, known)), q.nextEntry, q.nextTicket;
            var e := Entry(id, j.ref, j.scope, j.trunkRef, j.caller, q.now, j.leg, Live, false, false, None, [],
                           0, 0, j.attempts, j.pause, false, Some(t));
            && q' == q.(records := if j.front then [e] + q.records else q.records + [e], byLeg := q.byLeg[j.leg := id],
                        timers := q.timers[id := q.now], tickets := q.tickets[t := j.leg],
                        nextEntry := id + 1, nextTicket := t + 1, log := q.log + Welcome(id, j.leg))
            && (forall k :: 0 <= k < |q.records| ==> q.records[k].id < id) && t !in q.tickets
  {
    hide Reachable, EntriesOk, AllApart, History, Rings, IndexOfLeg, Owns, Best;
    ReachableOk(q);
    NobodyOn(q, j.leg);
    BestIs(q.records, j, alive, 0);
    forall k | 0 <= k < |q.records| ensures q.records[k].id < q.nextEntry {
      EntryAt(q, k);
    }
    assert (q.log + [Joined(q.nextEntry)]) + [LegPlaced(j.leg)] == q.log + Welcome(q.nextEntry, j.leg);
  }

  // ---- An entry's turn ----

  // No dispatching entry of the scope has it.
  ghost predicate Unreserved(records: seq<Entry>, scope: string, x: string) {
    forall k :: 0 <= k < |records| && records[k].dispatching && records[k].scope == scope ==> x !in records[k].reserved
  }

  lemma FreeIs(q: Queue, i: nat, available: seq<string>)
    requires i < |q.records|
    ensures forall x :: x in Free(available, Reserved(q.records, q.records[i].scope))
                   <==> x in available && Unreserved(q.records, q.records[i].scope, x)
  {
    hide Free;
  }

  lemma TimedWaits(q: Queue, i: nat)
    requires NothingLeft(q) && AllApart(q.records) && i < |q.records| && q.records[i].id in q.timers
    ensures !q.records[i].dispatching
  {
    assert Rests(q.records, q.records[i].id);
    var k :| 0 <= k < |q.records| && q.records[k].id == q.records[i].id && !q.records[k].dispatching;
    assert k == i || Apart(q.records[k], q.records[i]);
  }

  /** When its timer fires, an entry that has to wait longer gets one for the rest of its pause; with no
      extension online it is gone, and published as offline; with every one taken or reserved it is published
      as placed the first time, and stays without a timer; and otherwise it is dispatched, to exactly the
      available extensions that no dispatching entry of its scope has reserved, on a new dial. */
  lemma TurnMeans(q: Queue, i: nat, online: bool, available: seq<string>, known: set<nat>)
    requires Reachable(q) && i < |q.records| && q.records[i].id in q.timers
    ensures var e, q' := q.records[i], Next(q, DoFire(q.records[i].id, online, available, known));
            && !e.dispatching
            && if e.retryNotBefore > q.now then q' == q.(timers := q.timers[e.id := e.retryNotBefore])
               else if !online then Left(q, q', i) && q'.log == q.log + Farewell(e, known) + [Offline(e.ref, e.id)]
               else if forall x :: x in available ==> !Unreserved(q.records, e.scope, x) then
                 var first := e.mode == Live && !e.placed;
                 q' == q.(timers := q.timers - {e.id}, records := q.records[i := e.(placed := e.placed || first)],
                          log := q.log + if first then [Placed(e.id)] else [])
               else
                 var d, r := q.nextDial, q'.records[i].reserved;
                 && |q'.records| == |q.records|
                 && q' == q.(timers := q.timers - {e.id}, ringing := q.ringing + {d}, nextDial := d + 1, log := q.log + [Dispatched(e.id, d, q.now)],
                             records := q.records[i := e.(dispatching := true, dial := Some(d), reserved := r, retryNotBefore := 0)])
                 && d !in q.ringing && !Named(q.records, d)
                 && forall x :: x in r <==> x in available && Unreserved(q.records, e.scope, x)
  {
    hide Reachable, EntriesOk, AllApart, NothingLeft, History, Rings, EndEntry, IndexOf, Reserved, Free, Left, Unreserved, Named;
    ReachableOk(q);
    TimedWaits(q, i);
    FindsOwn(q, i);
    FreeIs(q, i, available);
    var t := q.(timers := q.timers - {q.records[i].id});
    SameOk(q, t);
    FindsOwn(t, i);
    EndMeans(t, i, false, known);
    LeftTimed(q, t, EndEntry(t, i, false, known), i);
    LeftNoted(q, EndEntry(t, i, false, known), i, Offline(q.records[i].ref, q.records[i].id));
    FreshDial(q);
    assert q.log + [] == q.log;
    assert q.records[i := q.records[i]] == q.records;
    assert (q.timers - {q.records[i].id})[q.records[i].id := q.records[i].retryNotBefore] == q.timers[q.records[i].id := q.records[i].retryNotBefore];
    var free := Free(available, Reserved(q.records, q.records[i].scope));
    assert free != [] ==> free[0] in free;
  }

  lemma LeftTimed(q: Queue, t: Queue, q': Queue, i: nat)
    requires i < |q.records| && t == q.(timers := q.timers - {q.records[i].id}) && Left(t, q', i)
    ensures Left(q, q', i)
  {
    assert t.timers - {q.records[i].id} == t.timers;
  }

  lemma FreshDial(q: Queue)
    requires EntriesOk(q) && NothingLeft(q)
    ensures q.nextDial !in q.ringing && !Named(q.records, q.nextDial)
  {
  }
}
