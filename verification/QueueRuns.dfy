/** Whole runs of a queue. */
module QueueRuns {
  import opened QueueEntries
  import opened QueueSpec
  import opened QueueSafety
  import opened QueueHistory

  // ---- Dials ----

  // Every dial named by an entry other than i is still to be finalised.
  ghost predicate RingsBut(q: Queue, i: nat) {
    forall k :: 0 <= k < |q.records| && k != i && q.records[k].dial.Some? ==> q.records[k].dial.value in q.ringing
  }

  ghost predicate Rings(q: Queue) { RingsBut(q, |q.records|) }

  lemma AbortRings(q: Queue, i: nat)
    requires AllApart(q.records) && i < |q.records| && RingsBut(q, i)
    ensures Rings(AbortDial(q, i)) && |AbortDial(q, i).records| == |q.records|
  {
    forall k | 0 <= k < |q.records| && k != i ensures q.records[i].dial.Some? ==> q.records[k].dial != q.records[i].dial {
      assert Apart(q.records[i], q.records[k]);
    }
  }

  lemma RetryRings(q: Queue, i: nat, delay: nat)
    requires AllApart(q.records) && i < |q.records| && RingsBut(q, i)
    ensures Rings(Retry(q, i, delay))
  {
    hide AllApart, AbortDial;
    AbortRings(q, i);
  }

  lemma EndRings(q: Queue, i: nat, silent: bool, known: set<nat>)
    requires AllApart(q.records) && i < |q.records| && RingsBut(q, i)
    ensures Rings(EndEntry(q, i, silent, known))
  {
    hide AllApart, AbortDial;
    AbortRings(q, i);
    RemoveRings(AbortDial(q, i), i);
  }

  lemma RemoveRings(q: Queue, i: nat)
    requires i < |q.records| && Rings(q)
    ensures Rings(Remove(q, i))
  {
    Others(q.records, i);
    var q' := Remove(q, i);
    forall k | 0 <= k < |q'.records| && q'.records[k].dial.Some? ensures q'.records[k].dial.value in q'.ringing {
      assert q'.records[k] == q.records[if k < i then k else k + 1];
    }
  }

  lemma EnqueueRings(q: Queue, j: Join, alive: set<nat>, known: set<nat>)
    requires Rings(q)
    ensures Rings(Enqueue(q, j, alive, known))
  {
    hide IndexOf, Best;
  }

  lemma RemoveLegRings(q: Queue, leg: nat, silent: bool, known: set<nat>)
    requires AllApart(q.records) && Rings(q)
    ensures Rings(RemoveLeg(q, leg, silent, known))
  {
    hide AllApart, Retry, EndEntry, Settle, AbortDial;
    var i := IndexOfLeg(q, leg);
    if i < |q.records| {
      EndRings(q, i, silent, known);
      SettleTold(q, i);
      CallbackRings(q, i);
    }
  }

  lemma CallbackRings(q: Queue, i: nat)
    requires AllApart(q.records) && i < |q.records| && Rings(q)
    ensures var e, c := q.records[i], Settle(AbortDial(q, i), i);
            && |AbortDial(q, i).records| == |c.records| == |q.records|
            && Rings(Retry(if e.dial.Some? then Note(c, Aborted(e.id, q.now, e.retryPause)) else c, i, e.retryPause))
  {
    hide AllApart, AbortDial, Retry;
    AbortRings(q, i);
    var e, c := q.records[i], Settle(AbortDial(q, i), i);
    IdleRetryRings(c, i, e.retryPause);
    IdleRetryRings(Note(c, Aborted(e.id, q.now, e.retryPause)), i, e.retryPause);
  }

  lemma IdleRetryRings(q: Queue, i: nat, delay: nat)
    requires i < |q.records| && Rings(q) && q.records[i].dial == None
    ensures Rings(Retry(q, i, delay))
  {
  }

  lemma DialFailedRings(q: Queue, i: nat, known: set<nat>)
    requires AllApart(q.records) && i < |q.records| && RingsBut(q, i)
    ensures Rings(DialFailed(q, i, known))
  {
    hide AllApart, Retry, EndEntry;
    var e, f := q.records[i], Failure(q, i);
    SameDials(q.records, f.records, i);
    EndRings(f, i, false, known);
    var p := PublishPlaced(f, i);
    SameDials(f.records, p.records, i);
    RetryRings(p, i, e.retryPause);
  }

  // Apartness does not look at counts or at what was published.
  lemma SameDials(records: seq<Entry>, records': seq<Entry>, i: nat)
    requires AllApart(records) && i < |records| && |records'| == |records|
    requires exists count: nat, placed: bool :: records' == records[i := records[i].(retryCount := count, placed := placed)]
    ensures AllApart(records')
  {
    forall k, m | 0 <= k < |records'| && 0 <= m < |records'| && k != m ensures Apart(records'[k], records'[m]) {
      assert Apart(records[k], records[m]);
    }
  }

  // A finalised dial is named by at most one entry, and that one is dealt with.
  lemma DialDoneRings(q: Queue, dial: nat, answered: bool, known: set<nat>)
    requires AllApart(q.records) && Rings(q)
    ensures Rings(DialDone(q, dial, answered, known))
  {
    hide DialFailed, EndEntry;
    var r := q.(ringing := q.ringing - {dial});
    var i := IndexOfDial(r.records, dial);
    forall k | 0 <= k < |r.records| && k != i && r.records[k].dial.Some? ensures r.records[k].dial.value in r.ringing {
      assert i < |r.records| ==> Apart(r.records[k], r.records[i]);
    }
    if i < |r.records| {
      var e := r.records[i];
      EndRings(Note(r, Completed(e.ref, if q.now > e.createdAt then q.now - e.createdAt else 0)), i, false, known);
      DialFailedRings(r, i, known);
    }
  }

  lemma {:induction false} RefreshRings(q: Queue, scope: string, i: nat)
    requires i <= |q.records|
    ensures RefreshFrom(q, scope, i).ringing == q.ringing && RefreshFrom(q, scope, i).records == q.records
    decreases |q.records| - i
  {
    if i < |q.records| {
      var e := q.records[i];
      if e.scope != scope || e.dispatching {
        RefreshRings(q, scope, i + 1);
      } else {
        RefreshRings(Schedule(q, e.id, if e.retryNotBefore > q.now then e.retryNotBefore - q.now else 0), scope, i + 1);
      }
    }
  }

  lemma FireRings(q: Queue, id: nat, online: bool, available: seq<string>, known: set<nat>)
    requires AllApart(q.records) && Rings(q)
    ensures Rings(Fire(q, id, online, available, known))
  {
    hide AllApart, EndEntry;
    var r := q.(timers := q.timers - {id});
    var i := IndexOf(r.records, id);
    if i < |r.records| {
      EndRings(r, i, false, known);
    }
  }

  lemma NextRings(q: Queue, s: Step)
    requires Shape(q) && Rings(q) && Enabled(q, s)
    ensures Rings(Next(q, s))
  {
    hide AllApart, Enqueue, RemoveLeg, DialDone, Fire, EndEntry, EntriesOk, NothingLeft;
    match s
    case DoEnqueue(j, alive, known) => EnqueueRings(q, j, alive, known);
    case DoRemoveLeg(leg, silent, known) => RemoveLegRings(q, leg, silent, known);
    case DoTake(id, known) =>
      var i := IndexOf(q.records, id);
      if i < |q.records| {
        var e := q.records[i];
        EndRings(Note(q, Completed(e.ref, if q.now > e.createdAt then q.now - e.createdAt else 0)), i, false, known);
      }
    case DoDialDone(dial, answered, known) => DialDoneRings(q, dial, answered, known);
    case DoRefresh(scope) => RefreshRings(q, scope, 0);
    case DoFire(id, online, available, known) => FireRings(q, id, online, available, known);
    case _ =>
  }

  // ---- Runs ----

  ghost predicate Inv(q: Queue) { Shape(q) && History(q) && Rings(q) }

  ghost predicate Runs(q: Queue, steps: seq<Step>)
    decreases |steps|
  {
    steps == [] || (Enabled(q, steps[0]) && Runs(Next(q, steps[0]), steps[1..]))
  }

  function After(q: Queue, steps: seq<Step>): Queue
    requires Runs(q, steps)
    decreases |steps|
  {
    if steps == [] then q else After(Next(q, steps[0]), steps[1..])
  }

  lemma {:induction false} RunKeeps(q: Queue, steps: seq<Step>)
    requires Inv(q) && Runs(q, steps)
    ensures Inv(After(q, steps))
    decreases |steps|
  {
    hide Shape, History, Rings, Next;
    if steps != [] {
      NextKeeps(q, steps[0]);
      NextTold(q, steps[0]);
      NextRings(q, steps[0]);
      RunKeeps(Next(q, steps[0]), steps[1..]);
    }
  }

  lemma EmptyOk()
    ensures Inv(EMPTY)
  {
  }

  /** Extensions reserved by entries of one scope never overlap, and an entry is dispatching exactly
      while it names a dial, which is its own and not finalised. */
  lemma ReservationsAreDisjoint(steps: seq<Step>, i: nat, j: nat)
    requires Runs(EMPTY, steps)
    requires var records := After(EMPTY, steps).records; i < |records| && j < |records|
    ensures var q := After(EMPTY, steps); var a, b := q.records[i], q.records[j];
            && (a.dispatching <==> a.dial.Some?)
            && (a.dial.Some? ==> a.dial.value in q.ringing)
            && (!a.dispatching ==> a.reserved == [])
            && (i != j && a.dial.Some? ==> a.dial != b.dial)
            && (i != j && a.scope == b.scope ==> Disjoint(a.reserved, b.reserved))
  {
    EmptyOk();
    RunKeeps(EMPTY, steps);
    var q := After(EMPTY, steps);
    EntryAt(q, i);
    if i != j {
      ApartAt(q, i, j);
    }
  }

  /** The index of legs and the entries match one to one. */
  lemma IndexIsBijection(steps: seq<Step>, leg: nat, id: nat)
    requires Runs(EMPTY, steps)
    ensures var q := After(EMPTY, steps);
            && (leg in q.byLeg && q.byLeg[leg] == id <==> exists i :: 0 <= i < |q.records| && q.records[i].leg == leg && q.records[i].id == id)
            && (forall i, j :: 0 <= i < j < |q.records| ==> q.records[i].leg != q.records[j].leg && q.records[i].id != q.records[j].id)
  {
    EmptyOk();
    RunKeeps(EMPTY, steps);
    var q := After(EMPTY, steps);
    if leg in q.byLeg {
      assert Owns(q.records, leg);
      var k :| 0 <= k < |q.records| && q.records[k].leg == leg;
      EntryAt(q, k);
    }
    if i :| 0 <= i < |q.records| && q.records[i].leg == leg && q.records[i].id == id {
      EntryAt(q, i);
    }
    forall i, j | 0 <= i < j < |q.records| ensures q.records[i].leg != q.records[j].leg && q.records[i].id != q.records[j].id {
      ApartAt(q, i, j);
    }
  }

  /** The queue has exactly one ticket out for each live entry, on that entry's leg, and no other. */
  lemma TicketsAreExact(steps: seq<Step>, ticket: nat, leg: nat)
    requires Runs(EMPTY, steps)
    ensures var q := After(EMPTY, steps);
            && (ticket in q.tickets && q.tickets[ticket] == leg <==>
                exists i :: 0 <= i < |q.records| && q.records[i].mode == Live && q.records[i].ticket == Some(ticket) && q.records[i].leg == leg)
            && (forall i :: 0 <= i < |q.records| ==> (q.records[i].mode == Live <==> q.records[i].ticket.Some?))
            && (forall i, j :: 0 <= i < j < |q.records| && q.records[i].ticket.Some? ==> q.records[i].ticket != q.records[j].ticket)
  {
    EmptyOk();
    RunKeeps(EMPTY, steps);
    var q := After(EMPTY, steps);
    forall i | 0 <= i < |q.records| ensures q.records[i].mode == Live <==> q.records[i].ticket.Some? {
      EntryAt(q, i);
    }
    forall i, j | 0 <= i < j < |q.records| && q.records[i].ticket.Some? ensures q.records[i].ticket != q.records[j].ticket {
      ApartAt(q, i, j);
    }
    if ticket in q.tickets {
      assert Holds(q.records, ticket);
      var k :| 0 <= k < |q.records| && q.records[k].ticket == Some(ticket);
      EntryAt(q, k);
    }
    if i :| 0 <= i < |q.records| && q.records[i].mode == Live && q.records[i].ticket == Some(ticket) && q.records[i].leg == leg {
      EntryAt(q, i);
    }
  }

  /** Since it last joined, an entry has been dispatched at most once more than it may be retried, or
      twice more if going into callback mode dropped a dial; and placed at most once. */
  lemma DispatchesAreBounded(steps: seq<Step>, i: nat)
    requires Runs(EMPTY, steps) && i < |After(EMPTY, steps).records|
    ensures var q := After(EMPTY, steps); var e := q.records[i]; var p := PastOf(q.log, e.id);
            && p.dispatches <= e.retryAttempts + 1 + p.aborts && p.aborts <= 1
            && (p.aborts == 1 ==> e.mode == Callback)
            && (!e.dispatching ==> p.dispatches <= e.retryAttempts + p.aborts)
            && p.placements <= 1
  {
    EmptyOk();
    RunKeeps(EMPTY, steps);
    PastAt(After(EMPTY, steps), i);
  }

  // ---- The pause, told without the past ----

  // A dial of the entry came to nothing.
  predicate Fails(n: Notice, id: nat) { (n.Failed? || n.Aborted?) && n.id == id }

  predicate Restarts(n: Notice, id: nat) { ((n.Joined? || n.Dispatched? || n.Failed? || n.Aborted?) && n.id == id) }

  lemma {:induction false} UntilMeans(log: seq<Notice>, f: nat, id: nat)
    requires f < |log| && Fails(log[f], id) && forall k :: f < k < |log| ==> !Restarts(log[k], id)
    ensures PastOf(log, id).until == Some(log[f].at + log[f].pause)
    decreases |log|
  {
    var front := log[..|log| - 1];
    if f < |log| - 1 {
      UntilMeans(front, f, id);
      assert !Restarts(log[|log| - 1], id);
    }
  }

  lemma {:induction false} PausesAt(log: seq<Notice>, d: nat)
    requires PausesKept(log) && d < |log| && log[d].Dispatched?
    ensures match PastOf(log[..d], log[d].id).until case None => true case Some(until) => until <= log[d].at
    decreases |log|
  {
    if d < |log| - 1 {
      PausesAt(log[..|log| - 1], d);
      assert log[..|log| - 1][..d] == log[..d];
    }
  }

  /** No dispatch follows a failed or dropped dial of the same entry sooner than the pause, unless
      the entry has joined again in between. */
  lemma NoEarlyDispatch(steps: seq<Step>, f: nat, d: nat)
    requires Runs(EMPTY, steps)
    requires var log := After(EMPTY, steps).log;
             f < d < |log| && log[d].Dispatched? && Fails(log[f], log[d].id) && forall k :: f < k < d ==> !Restarts(log[k], log[d].id)
    ensures var log := After(EMPTY, steps).log; log[f].at + log[f].pause <= log[d].at
  {
    EmptyOk();
    RunKeeps(EMPTY, steps);
    var log := After(EMPTY, steps).log;
    PausesAt(log, d);
    UntilMeans(log[..d], f, log[d].id);
  }

  // ---- Dials nobody answers for ----

  ghost predicate Named(records: seq<Entry>, dial: nat) { exists i :: 0 <= i < |records| && records[i].dial == Some(dial) }

  // No dial that still rings has lost its entry.
  ghost predicate Minds(q: Queue, q': Queue) {
    q'.ringing <= q.ringing && forall d :: d in q'.ringing && Named(q.records, d) ==> Named(q'.records, d)
  }

  lemma MindsThrough(a: Queue, b: Queue, c: Queue)
    requires Minds(a, b) && Minds(b, c)
    ensures Minds(a, c)
  {
    hide Named;
  }

  // A record replaced by one with the same dial, or with none and the dial no longer ringing.
  lemma MindsPut(q: Queue, q': Queue, i: nat, e': Entry)
    requires i < |q.records| && q'.records == q.records[i := e'] && q'.ringing <= q.ringing
    requires e'.dial == q.records[i].dial || (q.records[i].dial.Some? ==> q.records[i].dial.value !in q'.ringing)
    ensures Minds(q, q')
  {
    forall d | d in q'.ringing && Named(q.records, d) ensures Named(q'.records, d) {
      var k :| 0 <= k < |q.records| && q.records[k].dial == Some(d);
      assert q'.records[k].dial == Some(d);
    }
  }

  lemma AbortMinds(q: Queue, i: nat)
    requires i < |q.records|
    ensures var a := AbortDial(q, i); Minds(q, a) && |a.records| == |q.records| && a.records[i].dial == None
  {
    if q.records[i].dial.Some? {
      MindsPut(q, AbortDial(q, i), i, ToIdle(q.records[i]));
    }
  }

  lemma RetryMinds(q: Queue, i: nat, delay: nat)
    requires i < |q.records|
    ensures Minds(q, Retry(q, i, delay))
  {
    hide AbortDial, Named;
    AbortMinds(q, i);
    var a := AbortDial(q, i);
    MindsPut(a, Retry(q, i, delay), i, a.records[i].(retryNotBefore := q.now + delay));
    MindsThrough(q, a, Retry(q, i, delay));
  }

  lemma EndMinds(q: Queue, i: nat, silent: bool, known: set<nat>)
    requires i < |q.records|
    ensures Minds(q, EndEntry(q, i, silent, known))
  {
    hide AbortDial;
    AbortMinds(q, i);
    var a, r := AbortDial(q, i), EndEntry(q, i, silent, known);
    Others(a.records, i);
    forall d | d in r.ringing && Named(a.records, d) ensures Named(r.records, d) {
      var k :| 0 <= k < |a.records| && a.records[k].dial == Some(d);
      assert r.records[if k < i then k else k - 1].dial == Some(d);
    }
    MindsThrough(q, a, r);
  }

  lemma RemoveLegMinds(q: Queue, leg: nat, silent: bool, known: set<nat>)
    requires EntriesOk(q)
    ensures Minds(q, RemoveLeg(q, leg, silent, known))
  {
    hide AbortDial, Named, EntriesOk, Retry, EndEntry;
    var i := IndexOfLeg(q, leg);
    if i < |q.records| {
      EndMinds(q, i, silent, known);
      AbortMinds(q, i);
      var e, a := q.records[i], AbortDial(q, i);
      var c := Settle(a, i);
      MindsPut(a, c, i, ToCallback(a.records[i]));
      var m := if e.dial.Some? then Note(c, Aborted(e.id, q.now, e.retryPause)) else c;
      MindsThrough(q, a, m);
      RetryMinds(m, i, e.retryPause);
      MindsThrough(q, m, Retry(m, i, e.retryPause));
    }
  }

  lemma DialFailedMinds(q: Queue, i: nat, known: set<nat>)
    requires i < |q.records|
    ensures Minds(q, DialFailed(q, i, known))
  {
    hide Named, Retry, EndEntry;
    var f := Failure(q, i);
    MindsPut(q, f, i, f.records[i]);
    EndMinds(f, i, false, known);
    MindsThrough(q, f, EndEntry(f, i, false, known));
    var p := PublishPlaced(f, i);
    MindsPut(f, p, i, p.records[i]);
    MindsThrough(q, f, p);
    RetryMinds(p, i, q.records[i].retryPause);
    MindsThrough(q, p, Retry(p, i, q.records[i].retryPause));
  }

  lemma DialDoneMinds(q: Queue, dial: nat, answered: bool, known: set<nat>)
    ensures Minds(q, DialDone(q, dial, answered, known))
  {
    hide Named, DialFailed, EndEntry;
    var r := q.(ringing := q.ringing - {dial});
    var i := IndexOfDial(r.records, dial);
    if i < |r.records| {
      var e := r.records[i];
      var m := Note(r, Completed(e.ref, if q.now > e.createdAt then q.now - e.createdAt else 0));
      EndMinds(m, i, false, known);
      MindsThrough(q, m, EndEntry(m, i, false, known));
      DialFailedMinds(r, i, known);
      MindsThrough(q, r, DialFailed(r, i, known));
    }
  }

  lemma CreateMinds(q: Queue, j: Join, known: set<nat>)
    ensures Minds(q, Create(q, j, known))
  {
    var q' := Create(q, j, known);
    forall d | d in q'.ringing && Named(q.records, d) ensures Named(q'.records, d) {
      var k :| 0 <= k < |q.records| && q.records[k].dial == Some(d);
      assert q'.records[if j.front then k + 1 else k] == q.records[k];
    }
  }

  // An entry that names a dial is joined by a new leg.
  predicate RejoinsDialling(q: Queue, s: Step) {
    s.DoEnqueue? && !Refused(q, s.j, s.known) && s.j.rejoinExisting && s.j.caller != "" &&
    var b := Best(q.records, s.j, s.alive); b < |q.records| && q.records[b].dial.Some?
  }

  lemma RejoinMinds(q: Queue, i: nat, j: Join, known: set<nat>)
    requires AllApart(q.records) && Rings(q) && i < |q.records|
    ensures q.records[i].dial == None ==> Minds(q, Rejoin(q, i, j, known))
    ensures q.records[i].dial.Some? ==>
              var d, q' := q.records[i].dial.value, Rejoin(q, i, j, known);
              d in q'.ringing && Named(q.records, d) && !Named(q'.records, d)
  {
    var q' := Rejoin(q, i, j, known);
    if q.records[i].dial == None {
      MindsPut(q, q', i, q'.records[i]);
    } else {
      forall k | 0 <= k < |q.records| && k != i ensures q.records[k].dial != q.records[i].dial {
        assert Apart(q.records[i], q.records[k]);
      }
    }
  }

  lemma FireMinds(q: Queue, id: nat, online: bool, available: seq<string>, known: set<nat>)
    requires EntriesOk(q)
    ensures forall d :: d in q.ringing && d in Fire(q, id, online, available, known).ringing && Named(q.records, d)
              ==> Named(Fire(q, id, online, available, known).records, d)
  {
    hide EndEntry, EntriesOk;
    var r, q' := q.(timers := q.timers - {id}), Fire(q, id, online, available, known);
    var i := IndexOf(r.records, id);
    if i < |r.records| && online && !r.records[i].dispatching {
      EntryAt(q, i);
      forall d: nat | Named(q.records, d) ensures Named(q'.records, d) {
        var k :| 0 <= k < |q.records| && q.records[k].dial == Some(d);
        assert k != i && q'.records[k] == q.records[k];
      }
    } else if i < |r.records| {
      EndMinds(r, i, false, known);
    }
  }

  /** A dial goes on ringing with no entry left to take its answer if and only if a caller joins
      again whose entry is just being dispatched. */
  lemma OrphanedExactlyByRejoin(q: Queue, s: Step)
    requires Inv(q) && Enabled(q, s)
    ensures (exists d :: d in q.ringing && d in Next(q, s).ringing && Named(q.records, d) && !Named(Next(q, s).records, d))
       <==> RejoinsDialling(q, s)
  {
    hide Named, History, AllApart, EntriesOk, NothingLeft, Rejoin, Create, RemoveLeg, DialDone, RefreshFrom, Fire, EndEntry;
    match s
    case DoEnqueue(j, alive, known) =>
      var b := Best(q.records, j, alive);
      if b < |q.records| { RejoinMinds(q, b, j, known); }
      CreateMinds(q, j, known);
    case DoRemoveLeg(leg, silent, known) => RemoveLegMinds(q, leg, silent, known);
    case DoSetCallback(leg, enabled) =>
      var i := IndexOfLeg(q, leg);
      if i < |q.records| { MindsPut(q, Next(q, s), i, Next(q, s).records[i]); }
    case DoTake(id, known) =>
      var i := IndexOf(q.records, id);
      if i < |q.records| {
        var m := Note(q, Completed(q.records[i].ref, if q.now > q.records[i].createdAt then q.now - q.records[i].createdAt else 0));
        EndMinds(m, i, false, known);
      }
    case DoDialDone(dial, answered, known) => DialDoneMinds(q, dial, answered, known);
    case DoRefresh(scope) => RefreshRings(q, scope, 0);
    case DoFire(id, online, available, known) => FireMinds(q, id, online, available, known);
    case Pass(_) =>
  }

  // A caller with one retry and a pause of ten milliseconds, on the leg given.
  function Call(leg: nat): Join { Join("sales", leg, false, "office", "trunk", "alice", true, 1, 10, true, true, false) }

  // The caller hangs up, wanting a callback, and after the pause the callback is dispatched.
  function CallbackRun(): seq<Step> {
    [DoEnqueue(Call(0), {0}, {0}), DoSetCallback(0, true), DoRemoveLeg(0, true, {}), Pass(10), DoFire(0, true, ["x"], {})]
  }

  function Caller(mode: Mode, wants: bool, since: nat, ticket: Option<nat>): Entry {
    Entry(0, "sales", "office", "trunk", "alice", 0, 0, mode, false, wants, None, [], since, 0, 1, 10, false, ticket)
  }

  lemma CallbackWaits()
    ensures var a := Next(EMPTY, DoEnqueue(Call(0), {0}, {0}));
            var b := Next(a, DoSetCallback(0, true));
            var c := Next(Next(b, DoRemoveLeg(0, true, {})), Pass(10));
            && c.records == [Caller(Callback, true, 10, None)]
            && c.byLeg == map[0 := 0] && c.timers.Keys == {0} && c.now == 10 && c.ringing == {} && c.nextDial == 0 && c.nextTicket == 1
  {
    assert Created(EMPTY, Call(0)).records == [Caller(Live, false, 0, Some(0))];
    var a := Next(EMPTY, DoEnqueue(Call(0), {0}, {0}));
    assert IndexOfLeg(a, 0) == 0;
    var b := Next(a, DoSetCallback(0, true));
    assert b.records == [Caller(Live, true, 0, Some(0))];
  }

  lemma CallbackIsDispatched(c: Queue)
    requires c.records == [Caller(Callback, true, 10, None)]
    requires c.byLeg == map[0 := 0] && c.timers.Keys == {0} && c.now == 10 && c.ringing == {} && c.nextDial == 0 && c.nextTicket == 1
    ensures var q := Next(c, DoFire(0, true, ["x"], {}));
            && |q.records| == 1 && q.records[0] == ToDispatching(c.records[0], 0, ["x"]) && q.ringing == {0} && q.byLeg == c.byLeg && q.nextTicket == 1
  {
    assert IndexOf(c.records, 0) == 0;
    assert Reserved(c.records, "office") == {};
    assert Free([], {}) == [] && Free(["x"], {}) == ["x"];
  }

  lemma RejoinOrphans(q: Queue)
    requires |q.records| == 1 && q.records[0] == ToDispatching(Caller(Callback, true, 10, None), 0, ["x"]) && q.ringing == {0} && q.byLeg == map[0 := 0]
    ensures RejoinsDialling(q, DoEnqueue(Call(1), {1}, {1}))
    ensures var o := Next(q, DoEnqueue(Call(1), {1}, {1}));
            && |o.records| == 1 && o.records[0].dial == None && o.records[0].mode == Live && 0 in o.ringing
            && Next(o, DoDialDone(0, true, {1})).records == o.records
  {
    assert q.records[..0] == [];
    assert Best(q.records, Call(1), {1}) == 0;
    var o := Next(q, DoEnqueue(Call(1), {1}, {1}));
    assert IndexOfDial(o.records[1..], 0) == 0;
  }

  /** It does happen: a caller hangs up wanting a callback, and calls again while the callback rings an
      extension. The dial rings on, and when it is answered the caller still waits in the queue. */
  lemma RejoinOrphansTheDial()
    ensures Runs(EMPTY, CallbackRun())
    ensures var q, again := After(EMPTY, CallbackRun()), DoEnqueue(Call(1), {1}, {1});
            && RejoinsDialling(q, again) && Named(q.records, 0) && 0 in q.ringing
            && var o := Next(q, again);
            && 0 in o.ringing && !Named(o.records, 0) && |o.records| == 1
            && Next(o, DoDialDone(0, true, {1})).records == o.records
  {
    hide Next;
    CallbackWaits();
    var run := CallbackRun();
    var a := Next(EMPTY, run[0]);
    var b := Next(a, run[1]);
    var c := Next(b, run[2]);
    var d := Next(c, run[3]);
    CallbackIsDispatched(d);
    var q := Next(d, run[4]);
    RejoinOrphans(q);
    assert run[1..][1..][1..][1..][1..] == [] && run[4..] == [run[4]] && run[3..][1..] == run[4..] && run[2..][1..] == run[3..] && run[1..][1..] == run[2..];
    assert Runs(q, []) && After(q, []) == q;
    assert Runs(d, run[4..]) && After(d, run[4..]) == q;
    assert Runs(c, run[3..]) && After(c, run[3..]) == q;
    assert Runs(b, run[2..]) && After(b, run[2..]) == q;
    assert Runs(a, run[1..]) && After(a, run[1..]) == q;
    assert q.records[0].dial == Some(0);
  }

  // ---- No entry is forgotten, and rejoining keeps the place ----

  // The entry waits for its turn, but no timer will give it one.
  ghost predicate Parked(q: Queue, id: nat) { Rests(q.records, id) && id !in q.timers }

  function Ids(records: seq<Entry>): seq<nat> { seq(|records|, i requires 0 <= i < |records| => records[i].id) }

  /** A caller who joins again keeps the place in the queue; a new entry goes to the chosen end. */
  lemma RejoiningKeepsThePlace(q: Queue, j: Join, alive: set<nat>, known: set<nat>)
    ensures var ids, ids' := Ids(q.records), Ids(Enqueue(q, j, alive, known).records);
            ids' == ids || ids' == if j.front then [q.nextEntry] + ids else ids + [q.nextEntry]
    ensures Enqueue(q, j, alive, known).nextEntry == q.nextEntry <==> Ids(Enqueue(q, j, alive, known).records) == Ids(q.records)
  {
    hide IndexOf;
    var q' := Enqueue(q, j, alive, known);
    if q'.nextEntry == q.nextEntry {
      assert Ids(q'.records) == Ids(q.records);
    } else if j.front {
      assert Ids(q'.records) == [q.nextEntry] + Ids(q.records);
    } else {
      assert Ids(q'.records) == Ids(q.records) + [q.nextEntry];
    }
  }

  // The best candidate is one, is no younger than any other, and precedes those as old.
  lemma {:induction false} BestMeans(records: seq<Entry>, j: Join, alive: set<nat>)
    ensures var b := Best(records, j, alive);
            && (b < |records| ==> Candidate(records[b], j, alive))
            && (forall k :: 0 <= k < |records| && Candidate(records[k], j, alive) ==>
                  b < |records| && records[b].createdAt <= records[k].createdAt && (records[k].createdAt == records[b].createdAt ==> b <= k))
    decreases |records|
  {
    if records != [] {
      BestMeans(records[..|records| - 1], j, alive);
      assert forall k :: 0 <= k < |records| - 1 ==> records[..|records| - 1][k] == records[k];
    }
  }

  // Whoever is parked after was parked before.
  ghost predicate Cares(q: Queue, q': Queue) { forall id: nat :: Parked(q', id) ==> Parked(q, id) }

  // One entry changed and scheduled, with the other timers kept.
  lemma ScheduledCares(q: Queue, q': Queue, i: nat, e': Entry)
    requires i < |q.records| && q'.records == q.records[i := e'] && e'.id in q'.timers && q.timers.Keys <= q'.timers.Keys
    ensures Cares(q, q')
  {
    forall id: nat | Parked(q', id) ensures Parked(q, id) {
      var k :| 0 <= k < |q'.records| && q'.records[k].id == id && !q'.records[k].dispatching;
      assert q.records[k].id == id && !q.records[k].dispatching;
    }
  }

  lemma RetryCares(q: Queue, m: Queue, i: nat, delay: nat)
    requires i < |q.records| && |m.records| == |q.records| && m.records == q.records[i := m.records[i]] && m.timers == q.timers
    ensures Cares(q, Retry(m, i, delay))
  {
    var r := Retry(m, i, delay);
    assert r.records == q.records[i := r.records[i]] && r.records[i].id == m.records[i].id;
    hide Retry;
    ScheduledCares(q, r, i, r.records[i]);
  }

  lemma EndCares(q: Queue, m: Queue, i: nat, silent: bool, known: set<nat>)
    requires AllApart(q.records) && AllApart(m.records) && i < |q.records| && |m.records| == |q.records|
    requires m.records == q.records[i := m.records[i]] && m.records[i].id == q.records[i].id && m.timers == q.timers && PausesKept(m.log)
    ensures Cares(q, EndEntry(m, i, silent, known))
  {
    var r := EndEntry(m, i, silent, known);
    EndTold(m, i, silent, known);
    EndTimers(m, i, silent, known);
    hide EndEntry, PausesKept, SamePast;
    Others(m.records, i);
    forall id: nat | Parked(r, id) ensures Parked(q, id) {
      var k :| 0 <= k < |r.records| && r.records[k].id == id && !r.records[k].dispatching;
      var o := if k < i then k else k + 1;
      assert q.records[o] == r.records[k] && Apart(q.records[o], q.records[i]);
    }
  }

  lemma EndTimers(q: Queue, i: nat, silent: bool, known: set<nat>)
    requires i < |q.records|
    ensures EndEntry(q, i, silent, known).timers == q.timers - {q.records[i].id}
  {
  }

  lemma RejoinCares(q: Queue, i: nat, j: Join, known: set<nat>)
    requires i < |q.records|
    ensures Cares(q, Rejoin(q, i, j, known))
  {
    hide Cares;
    var q' := Rejoin(q, i, j, known);
    ScheduledCares(q, q', i, q'.records[i]);
  }

  lemma CreateCares(q: Queue, j: Join, known: set<nat>)
    ensures Cares(q, Create(q, j, known))
  {
    var q' := Create(q, j, known);
    forall id: nat | Parked(q', id) ensures Parked(q, id) {
      var k :| 0 <= k < |q'.records| && q'.records[k].id == id && !q'.records[k].dispatching;
      assert q.records[if j.front then k - 1 else k] == q'.records[k];
    }
  }

  lemma EnqueueCares(q: Queue, j: Join, alive: set<nat>, known: set<nat>)
    ensures Cares(q, Enqueue(q, j, alive, known))
  {
    hide Best, Rejoin, Create, Refused;
    var b := Best(q.records, j, alive);
    if b < |q.records| { RejoinCares(q, b, j, known); }
    CreateCares(q, j, known);
  }

  lemma RemoveLegCares(q: Queue, leg: nat, silent: bool, known: set<nat>)
    requires AllApart(q.records) && PausesKept(q.log)
    ensures Cares(q, RemoveLeg(q, leg, silent, known))
  {
    hide AllApart, PausesKept, EndEntry, Retry;
    var i := IndexOfLeg(q, leg);
    if i < |q.records| {
      var e := q.records[i];
      if e.callbackEnabled && e.mode == Live {
        SettleTold(q, i);
        var c := Settle(AbortDial(q, i), i);
        RetryCares(q, if e.dial.Some? then Note(c, Aborted(e.id, q.now, e.retryPause)) else c, i, e.retryPause);
      } else {
        EndCares(q, q, i, silent, known);
      }
    }
  }

  lemma DialFailedCares(q: Queue, i: nat, known: set<nat>)
    requires Shape(q) && PausesKept(q.log) && i < |q.records|
    ensures Cares(q, DialFailed(q, i, known))
  {
    hide AllApart, EntriesOk, NothingLeft, PausesKept, EndEntry, Retry;
    var e, f := q.records[i], Failure(q, i);
    FailureTold(q, i);
    FailureKeeps(q, i);
    EndCares(q, f, i, false, known);
    var p := PublishPlaced(f, i);
    Overwrite(q.records, i, f.records[i], p.records[i]);
    RetryCares(q, p, i, e.retryPause);
  }

  lemma DialDoneCares(q: Queue, dial: nat, answered: bool, known: set<nat>)
    requires Shape(q) && PausesKept(q.log)
    ensures Cares(q, DialDone(q, dial, answered, known))
  {
    hide AllApart, EntriesOk, NothingLeft, EndEntry, DialFailed;
    DialGoneKeeps(q, dial);
    var r := q.(ringing := q.ringing - {dial});
    var i := IndexOfDial(r.records, dial);
    if i < |r.records| {
      TakeCares(r, i, known);
      DialFailedCares(r, i, known);
    }
  }

  lemma TakeCares(q: Queue, i: nat, known: set<nat>)
    requires AllApart(q.records) && PausesKept(q.log) && i < |q.records|
    ensures Cares(q, Take(q, i, known))
  {
    hide AllApart, EndEntry, Cares, SamePast, PastOf;
    var e := q.records[i];
    var n := Completed(e.ref, if q.now > e.createdAt then q.now - e.createdAt else 0);
    SamePastSelf(q.log, e.id);
    PlainNote(q.log, q.log, n, e.id);
    EndCares(q, Note(q, n), i, false, known);
  }

  lemma {:induction false} RefreshTimers(q: Queue, scope: string, i: nat)
    requires i <= |q.records|
    ensures q.timers.Keys <= RefreshFrom(q, scope, i).timers.Keys
    decreases |q.records| - i
  {
    if i < |q.records| {
      var e := q.records[i];
      if e.scope != scope || e.dispatching {
        RefreshTimers(q, scope, i + 1);
      } else {
        RefreshTimers(Schedule(q, e.id, if e.retryNotBefore > q.now then e.retryNotBefore - q.now else 0), scope, i + 1);
      }
    }
  }

  // A timer that fired and found every extension taken.
  predicate FoundNoneFree(q: Queue, s: Step, id: nat) {
    s.DoFire? && s.id == id && s.online &&
    var i := IndexOf(q.records, id); i < |q.records| && Free(s.available, Reserved(q.records, q.records[i].scope)) == []
  }

  lemma EndGone(q: Queue, i: nat, silent: bool, known: set<nat>)
    requires AllApart(q.records) && i < |q.records| && PausesKept(q.log)
    ensures !Rests(EndEntry(q, i, silent, known).records, q.records[i].id)
  {
    EndTold(q, i, silent, known);
    hide EndEntry;
    Others(q.records, i);
    var r := EndEntry(q, i, silent, known);
    forall k | 0 <= k < |r.records| ensures r.records[k].id != q.records[i].id {
      assert r.records[k] == q.records[if k < i then k else k + 1];
      assert Apart(r.records[k], q.records[i]);
    }
  }

  // One entry changed that was at rest, the timers kept.
  lemma PutCares(q: Queue, q': Queue, i: nat, e': Entry)
    requires i < |q.records| && q'.records == q.records[i := e'] && e'.id == q.records[i].id
    requires !q.records[i].dispatching && q'.timers == q.timers
    ensures Cares(q, q')
  {
    forall id: nat | Parked(q', id) ensures Parked(q, id) {
      var k :| 0 <= k < |q'.records| && q'.records[k].id == id && !q'.records[k].dispatching;
      assert q.records[k].id == id && !q.records[k].dispatching;
    }
  }

  lemma DispatchCares(q: Queue, i: nat, free: seq<string>)
    requires AllApart(q.records) && i < |q.records| && !q.records[i].dispatching
    ensures Cares(q, Dispatch(q, i, free)) && !Rests(Dispatch(q, i, free).records, q.records[i].id)
  {
    var d := Dispatch(q, i, free);
    PutCares(q, d, i, d.records[i]);
    forall k | 0 <= k < |d.records| && d.records[k].id == q.records[i].id ensures d.records[k].dispatching {
      assert k == i || Apart(q.records[k], q.records[i]);
    }
  }

  lemma BranchCares(q: Queue, i: nat, online: bool, available: seq<string>, known: set<nat>)
    requires AllApart(q.records) && PausesKept(q.log) && i < |q.records| && !q.records[i].dispatching
    ensures var b := Branch(q, i, online, available, known);
            && Cares(q, b)
            && (Rests(b.records, q.records[i].id) ==> online && Free(available, Reserved(q.records, q.records[i].scope)) == [])
  {
    hide AllApart, EndEntry, Dispatch, PausesKept, Rests;
    EndCares(q, q, i, false, known);
    EndGone(q, i, false, known);
    var p := PublishPlaced(q, i);
    PutCares(q, p, i, p.records[i]);
    DispatchCares(q, i, Free(available, Reserved(q.records, q.records[i].scope)));
  }

  lemma TurnCares(q: Queue, i: nat, online: bool, available: seq<string>, known: set<nat>)
    requires Shape(q) && PausesKept(q.log) && i < |q.records| && !q.records[i].dispatching
    ensures var b := Turn(q, i, online, available, known);
            && Cares(q, b)
            && (Parked(b, q.records[i].id) ==> online && Free(available, Reserved(q.records, q.records[i].scope)) == [])
  {
    hide AllApart, EntriesOk, NothingLeft, PausesKept, Branch, IndexOfLeg;
    FindsOwn(q, i);
    BranchCares(q, i, online, available, known);
  }

  lemma FireCares(q: Queue, s: Step, id: nat)
    requires Shape(q) && PausesKept(q.log) && s.DoFire? && s.id in q.timers
    ensures Parked(Next(q, s), id) && !Parked(q, id) ==> FoundNoneFree(q, s, id)
  {
    hide AllApart, EntriesOk, PausesKept, Turn;
    TimerGoneKeeps(q, s.id);
    assert Rests(q.records, s.id);
    var k :| 0 <= k < |q.records| && q.records[k].id == s.id && !q.records[k].dispatching;
    FindsOwn(q, k);
    TurnCares(q.(timers := q.timers - {s.id}), k, s.online, s.available, s.known);
  }

  /** An entry that waits has a timer, but for the one case that its timer fired and every extension
      was taken: no other step leaves a waiting entry without one. */
  lemma ParkedOnlyForWantOfExtensions(q: Queue, s: Step, id: nat)
    requires Inv(q) && Enabled(q, s)
    ensures Parked(Next(q, s), id) && !Parked(q, id) ==> FoundNoneFree(q, s, id)
  {
    hide AllApart, EntriesOk, NothingLeft, Enqueue, RemoveLeg, DialDone, RefreshFrom, Take, PausesKept, PastOf, EntryTold;
    match s
    case Pass(_) =>
    case DoEnqueue(j, alive, known) => EnqueueCares(q, j, alive, known);
    case DoRemoveLeg(leg, silent, known) => RemoveLegCares(q, leg, silent, known);
    case DoSetCallback(leg, enabled) => SetCallbackCares(q, leg, enabled);
    case DoTake(id', known) =>
      var i := IndexOf(q.records, id');
      if i < |q.records| { TakeCares(q, i, known); }
    case DoDialDone(dial, answered, known) => DialDoneCares(q, dial, answered, known);
    case DoRefresh(scope) =>
      RefreshTimers(q, scope, 0);
      RefreshRings(q, scope, 0);
    case DoFire(_, _, _, _) => FireCares(q, s, id);
  }

  lemma SetCallbackCares(q: Queue, leg: nat, enabled: bool)
    ensures Cares(q, SetCallback(q, leg, enabled))
  {
    var q', i := SetCallback(q, leg, enabled), IndexOfLeg(q, leg);
    forall id: nat | Parked(q', id) ensures Parked(q, id) {
      var k :| 0 <= k < |q'.records| && q'.records[k].id == id && !q'.records[k].dispatching;
      assert q.records[k].id == id && !q.records[k].dispatching;
    }
  }
}
