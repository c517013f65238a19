/** How often and how soon an entry is dispatched, read off what the queue told others. */
module QueueHistory {
  import opened QueueEntries
  import opened QueueSpec
  import opened QueueSafety

  // What was told of an entry since it last joined: dials begun, dials dropped for a callback,
  // placements published, and until when a dial that came to nothing holds off the next.
  datatype Past = Past(dispatches: nat, aborts: nat, placements: nat, until: Option<nat>)

  function Told(p: Past, n: Notice, id: nat): Past {
    match n
    case Joined(i) => if i == id then Past(0, 0, 0, None) else p
    case Dispatched(i, _, _) => if i == id then p.(dispatches := p.dispatches + 1, until := None) else p
    case Failed(i, at, pause) => if i == id then p.(until := Some(at + pause)) else p
    case Aborted(i, at, pause) => if i == id then p.(aborts := p.aborts + 1, until := Some(at + pause)) else p
    case Placed(i) => if i == id then p.(placements := p.placements + 1) else p
    case _ => p
  }

  function PastOf(log: seq<Notice>, id: nat): Past
    decreases |log|
  {
    if log == [] then Past(0, 0, 0, None) else Told(PastOf(log[..|log| - 1], id), log[|log| - 1], id)
  }

  // No dial begins before the pause after the last one is over.
  ghost predicate PausesKept(log: seq<Notice>)
    decreases |log|
  {
    log == [] ||
    (var front, last := log[..|log| - 1], log[|log| - 1];
     PausesKept(front) && (last.Dispatched? ==> match PastOf(front, last.id).until case None => true case Some(until) => until <= last.at))
  }

  // Every dial begun since the entry joined failed, was dropped for a callback, or is the one it names.
  ghost predicate EntryTold(e: Entry, p: Past, now: nat) {
    && p.dispatches == e.retryCount + p.aborts + (if e.dispatching then 1 else 0)
    && p.aborts <= (if e.mode == Callback then 1 else 0)
    && e.retryCount <= e.retryAttempts
    && p.placements == (if e.placed then 1 else 0)
    && (p.until.Some? ==> p.until.value <= e.retryNotBefore && p.until.value <= now + e.retryPause)
  }

  ghost predicate History(q: Queue) {
    && PausesKept(q.log)
    && forall i :: 0 <= i < |q.records| ==> EntryTold(q.records[i], PastOf(q.log, q.records[i].id), q.now)
  }

  // One more notice: what it says of an entry, and whether it keeps the pauses.
  lemma NoteTold(log: seq<Notice>, n: Notice, id: nat)
    ensures PastOf(log + [n], id) == Told(PastOf(log, id), n, id)
    ensures PausesKept(log) && (n.Dispatched? ==> match PastOf(log, n.id).until case None => true case Some(until) => until <= n.at)
        ==> PausesKept(log + [n])
  {
    assert (log + [n])[..|log|] == log;
  }

  // A notice about nobody in the queue, or about one other entry.
  predicate About(n: Notice, id: nat) {
    match n
    case Joined(i) => i == id
    case Dispatched(i, _, _) => i == id
    case Failed(i, _, _) => i == id
    case Aborted(i, _, _) => i == id
    case Placed(i) => i == id
    case _ => true
  }

  lemma OtherPast(log: seq<Notice>, n: Notice, id: nat, o: nat)
    requires About(n, id) && o != id
    ensures PastOf(log + [n], o) == PastOf(log, o)
  {
    NoteTold(log, n, o);
  }

  // The pasts of two logs agree but for one entry.
  ghost predicate SamePast(log: seq<Notice>, log': seq<Notice>, id: nat) {
    forall o :: o != id ==> PastOf(log', o) == PastOf(log, o)
  }

  lemma SamePastNote(log: seq<Notice>, log': seq<Notice>, n: Notice, id: nat)
    requires SamePast(log, log', id) && About(n, id)
    ensures SamePast(log, log' + [n], id)
  {
    forall o | o != id ensures PastOf(log' + [n], o) == PastOf(log, o) {
      OtherPast(log', n, id, o);
    }
  }

  // One entry changed, and the notices were about it.
  lemma OneTold(q: Queue, q': Queue, i: nat, e': Entry)
    requires AllApart(q.records) && History(q) && i < |q.records| && q'.records == q.records[i := e']
    requires SamePast(q.log, q'.log, q.records[i].id) && PausesKept(q'.log) && q'.now == q.now && e'.id == q.records[i].id
    requires EntryTold(e', PastOf(q'.log, e'.id), q'.now)
    ensures History(q')
  {
    hide EntryTold, PausesKept, PastOf;
    forall k | 0 <= k < |q'.records| && k != i ensures EntryTold(q'.records[k], PastOf(q'.log, q'.records[k].id), q'.now) {
      assert Apart(q.records[k], q.records[i]);
    }
  }

  // One entry left, and the notices were about it.
  lemma OneLeft(q: Queue, q': Queue, i: nat)
    requires AllApart(q.records) && History(q) && i < |q.records| && q'.records == q.records[..i] + q.records[i + 1..]
    requires SamePast(q.log, q'.log, q.records[i].id) && PausesKept(q'.log) && q'.now == q.now
    ensures History(q')
  {
    hide EntryTold, PausesKept, PastOf;
    Others(q.records, i);
    forall k | 0 <= k < |q'.records| ensures EntryTold(q'.records[k], PastOf(q'.log, q'.records[k].id), q'.now) {
      var j := if k < i then k else k + 1;
      assert q'.records[k] == q.records[j] && Apart(q.records[j], q.records[i]);
    }
  }

  // The notices of an operation, none of which begins a dial.
  lemma PlainNote(log: seq<Notice>, log': seq<Notice>, n: Notice, id: nat)
    requires SamePast(log, log', id) && PausesKept(log') && About(n, id) && !n.Dispatched?
    ensures SamePast(log, log' + [n], id) && PausesKept(log' + [n]) && PastOf(log' + [n], id) == Told(PastOf(log', id), n, id)
  {
    SamePastNote(log, log', n, id);
    NoteTold(log', n, id);
  }

  lemma JoinSame(a: seq<Notice>, b: seq<Notice>, c: seq<Notice>, id: nat)
    requires SamePast(a, b, id) && SamePast(b, c, id)
    ensures SamePast(a, c, id)
  {
    hide PastOf;
  }

  // ---- Operations ----

  // Ending an entry tells of nobody else.
  lemma EndTold(q: Queue, i: nat, silent: bool, known: set<nat>)
    requires AllApart(q.records) && i < |q.records| && PausesKept(q.log)
    ensures var r := EndEntry(q, i, silent, known);
            && r.records == q.records[..i] + q.records[i + 1..]
            && SamePast(q.log, r.log, q.records[i].id) && PausesKept(r.log) && r.now == q.now
  {
    var a := AbortDial(q, i);
    assert a.log == q.log && |a.records| == |q.records|;
    assert a.records[..i] == q.records[..i] && a.records[i + 1..] == q.records[i + 1..];
    PlainNote(q.log, q.log, LegRemoved(q.records[i].leg), q.records[i].id);
  }

  // What a retry does to its entry.
  lemma RetryTold(q: Queue, i: nat, delay: nat)
    requires i < |q.records| && EntryOk(q, q.records[i])
    ensures var r := Retry(q, i, delay);
            r.log == q.log && r.now == q.now && r.records == q.records[i := ToIdle(q.records[i]).(retryNotBefore := q.now + delay)]
  {
    var e := q.records[i];
    if e.dial == None {
      assert ToIdle(e) == e;
    }
  }

  lemma EndHistory(q: Queue, i: nat, silent: bool, known: set<nat>)
    requires AllApart(q.records) && History(q) && i < |q.records|
    ensures History(EndEntry(q, i, silent, known))
  {
    EndTold(q, i, silent, known);
    hide EndEntry, SamePast, PastOf, AllApart, EntryTold;
    OneLeft(q, EndEntry(q, i, silent, known), i);
  }

  lemma NeutralTold(q: Queue, n: Notice)
    requires History(q) && n.Completed?
    ensures History(Note(q, n))
  {
    PlainNote(q.log, q.log, n, 0);
    forall id ensures PastOf(q.log + [n], id) == PastOf(q.log, id) {
      NoteTold(q.log, n, id);
    }
    hide PastOf, PausesKept, EntryTold;
  }

  lemma Overwrite<T>(s: seq<T>, i: nat, a: T, b: T)
    requires i < |s|
    ensures s[i := a][i := b] == s[i := b]
  {
  }

  // A retry after notices about the entry and changes to it.
  lemma RetryHistory(q: Queue, m: Queue, i: nat, delay: nat)
    requires AllApart(q.records) && History(q) && i < |q.records| && |m.records| == |q.records|
    requires m.records == q.records[i := m.records[i]] && m.now == q.now && EntryOk(m, m.records[i]) && m.records[i].id == q.records[i].id
    requires SamePast(q.log, m.log, q.records[i].id) && PausesKept(m.log)
    requires EntryTold(ToIdle(m.records[i]).(retryNotBefore := q.now + delay), PastOf(m.log, q.records[i].id), q.now)
    ensures History(Retry(m, i, delay))
  {
    var e' := ToIdle(m.records[i]).(retryNotBefore := q.now + delay);
    RetryTold(m, i, delay);
    hide Retry, SamePast, PausesKept, PastOf, EntryTold, EntryOk, AllApart, History;
    Overwrite(q.records, i, m.records[i], e');
    OneTold(q, Retry(m, i, delay), i, e');
  }

  lemma AnnounceTold(q: Queue, r: Queue, leg: nat, known: set<nat>, id: nat)
    requires PausesKept(q.log) && r.log == q.log
    ensures var a := Announce(r, id, leg, known);
            SamePast(q.log, a.log, id) && PausesKept(a.log) && PastOf(a.log, id) == Past(0, 0, 0, None) && a.records == r.records && a.now == r.now
  {
    PlainNote(q.log, q.log, Joined(id), id);
    PlainNote(q.log, q.log + [Joined(id)], LegPlaced(leg), id);
  }

  lemma RejoinTold(q: Queue, i: nat, j: Join, known: set<nat>)
    requires Shape(q) && History(q) && i < |q.records|
    ensures History(Rejoin(q, i, j, known))
  {
    hide EntryTold, PausesKept, PastOf, SamePast, Announce, Rejoined, EntriesOk, AllApart, NothingLeft;
    RejoinedTold(q, i, j);
    AnnounceTold(q, Rejoined(q, i, j), j.leg, known, q.records[i].id);
    OneTold(q, Rejoin(q, i, j, known), i, Rejoined(q, i, j).records[i]);
  }

  lemma RejoinedTold(q: Queue, i: nat, j: Join)
    requires i < |q.records|
    ensures var r := Rejoined(q, i, j);
            && |r.records| == |q.records| && r.records == q.records[i := r.records[i]] && r.records[i].id == q.records[i].id
            && r.now == q.now && r.log == q.log && EntryTold(r.records[i], Past(0, 0, 0, None), q.now)
  {
  }

  lemma CreateTold(q: Queue, j: Join, known: set<nat>)
    requires Shape(q) && History(q)
    ensures History(Create(q, j, known))
  {
    hide PausesKept, PastOf, Announce, Created, NewEntry, EntryTold, EntryOk, EntriesOk, AllApart, NothingLeft;
    var r, e, q' := Created(q, j), NewEntry(q, j), Create(q, j, known);
    NewTold(q, j);
    AnnounceTold(q, r, j.leg, known, q.nextEntry);
    forall k | 0 <= k < |q.records| ensures EntryTold(q.records[k], PastOf(q'.log, q.records[k].id), q'.now) {
      PastAt(q, k);
      OlderId(q, k);
    }
  }

  lemma NewTold(q: Queue, j: Join)
    ensures var r, e := Created(q, j), NewEntry(q, j);
            && EntryTold(e, Past(0, 0, 0, None), q.now) && e.id == q.nextEntry
            && r.now == q.now && r.log == q.log && r.records == if j.front then [e] + q.records else q.records + [e]
  {
  }

  lemma OlderId(q: Queue, k: nat)
    requires EntriesOk(q) && k < |q.records|
    ensures q.records[k].id < q.nextEntry
  {
    EntryAt(q, k);
  }

  lemma RemoveLegTold(q: Queue, leg: nat, silent: bool, known: set<nat>)
    requires Shape(q) && History(q)
    ensures History(RemoveLeg(q, leg, silent, known))
  {
    hide History, EntriesOk, AllApart, NothingLeft, EndEntry, Retry, Settle, AbortDial;
    var i := IndexOfLeg(q, leg);
    if i < |q.records| {
      if q.records[i].callbackEnabled && q.records[i].mode == Live {
        CallbackTold(q, i);
      } else {
        EndHistory(q, i, silent, known);
      }
    }
  }

  lemma CallbackTold(q: Queue, i: nat)
    requires Shape(q) && History(q) && i < |q.records| && q.records[i].mode == Live
    ensures var e, c := q.records[i], Settle(AbortDial(q, i), i);
            History(Retry(if e.dial.Some? then Note(c, Aborted(e.id, q.now, e.retryPause)) else c, i, e.retryPause))
  {
    hide EntryTold, PausesKept, PastOf, SamePast, Settle, AbortDial, EntryOk, EntriesOk, AllApart, NothingLeft, History, Told, Retry;
    SettleTold(q, i);
    var e, c := q.records[i], Settle(AbortDial(q, i), i);
    var n := Aborted(e.id, q.now, e.retryPause);
    PastAt(q, i);
    EntryAt(q, i);
    AbortKeeps(q, i);
    SettleKeeps(AbortDial(q, i), i);
    NoteKeeps(c, n);
    EntryAt(c, i);
    EntryAt(Note(c, n), i);
    CallbackEntry(q, i);
    SamePastSelf(q.log, e.id);
    PlainNote(q.log, q.log, n, e.id);
    RetryHistory(q, if e.dial.Some? then Note(c, n) else c, i, e.retryPause);
  }

  lemma SamePastSelf(log: seq<Notice>, id: nat)
    ensures SamePast(log, log, id)
  {
  }

  lemma SettleTold(q: Queue, i: nat)
    requires i < |q.records|
    ensures var c := Settle(AbortDial(q, i), i);
            && c.records == q.records[i := ToCallback(q.records[i])] && c.log == q.log && c.now == q.now && c.timers == q.timers
            && |AbortDial(q, i).records| == |q.records|
  {
  }

  lemma CallbackEntry(q: Queue, i: nat)
    requires History(q) && i < |q.records| && q.records[i].mode == Live && EntryOk(q, q.records[i])
    ensures var e := q.records[i];
            var p := PastOf(q.log, e.id);
            EntryTold(ToIdle(ToCallback(e)).(retryNotBefore := q.now + e.retryPause),
                      if e.dial.Some? then Told(p, Aborted(e.id, q.now, e.retryPause), e.id) else p, q.now)
  {
    assert EntryTold(q.records[i], PastOf(q.log, q.records[i].id), q.now);
    hide PastOf, PausesKept;
  }

  lemma TakeTold(q: Queue, i: nat, known: set<nat>)
    requires Shape(q) && History(q) && i < |q.records|
    ensures History(Take(q, i, known))
  {
    hide EndEntry, History, EntriesOk, AllApart, NothingLeft;
    var e := q.records[i];
    var n := Completed(e.ref, if q.now > e.createdAt then q.now - e.createdAt else 0);
    NeutralTold(q, n);
    EndHistory(Note(q, n), i, false, known);
  }

  // Ending an entry after a notice about it, and telling that it went offline.
  lemma OfflineTold(q: Queue, m: Queue, i: nat, known: set<nat>)
    requires AllApart(q.records) && History(q) && i < |q.records|
    requires |m.records| == |q.records| && m.records[i].id == q.records[i].id && m.now == q.now
    requires m.records[..i] == q.records[..i] && m.records[i + 1..] == q.records[i + 1..] && AllApart(m.records)
    requires SamePast(q.log, m.log, q.records[i].id) && PausesKept(m.log)
    ensures History(Note(EndEntry(m, i, false, known), Offline(m.records[i].ref, m.records[i].id)))
  {
    hide EndEntry, PastOf, EntryTold, PausesKept, SamePast, AllApart, History;
    var id, n := q.records[i].id, Offline(m.records[i].ref, m.records[i].id);
    EndTold(m, i, false, known);
    var r := EndEntry(m, i, false, known);
    JoinSame(q.log, m.log, r.log, id);
    PlainNote(q.log, r.log, n, id);
    OneLeft(q, Note(r, n), i);
  }

  lemma FailureTold(q: Queue, i: nat)
    requires i < |q.records| && PausesKept(q.log)
    ensures var e, f := q.records[i], Failure(q, i);
            && f.records == q.records[i := e.(retryCount := e.retryCount + 1)] && f.now == q.now
            && SamePast(q.log, f.log, e.id) && PausesKept(f.log)
            && PastOf(f.log, e.id) == Told(PastOf(q.log, e.id), Failed(e.id, q.now, e.retryPause), e.id)
  {
    PlainNote(q.log, q.log, Failed(q.records[i].id, q.now, q.records[i].retryPause), q.records[i].id);
  }

  lemma PlacedTold(q: Queue, f: Queue, i: nat)
    requires |f.records| == |q.records| && i < |q.records| && SamePast(q.log, f.log, f.records[i].id) && PausesKept(f.log)
    ensures var e, p := f.records[i], PublishPlaced(f, i);
            var tells := e.mode == Live && !e.placed;
            && p.records == f.records[i := if tells then e.(placed := true) else e] && p.now == f.now
            && SamePast(q.log, p.log, e.id) && PausesKept(p.log)
            && PastOf(p.log, e.id) == if tells then Told(PastOf(f.log, e.id), Placed(e.id), e.id) else PastOf(f.log, e.id)
  {
    PlainNote(q.log, f.log, Placed(f.records[i].id), f.records[i].id);
  }

  lemma DialFailedTold(q: Queue, i: nat, known: set<nat>)
    requires Shape(q) && History(q) && i < |q.records| && q.records[i].dispatching
    ensures History(DialFailed(q, i, known))
  {
    hide History, Failure, EntriesOk, AllApart, NothingLeft, EndEntry, Retry, PublishPlaced, PastOf, PausesKept, SamePast, EntryTold;
    var e, f := q.records[i], Failure(q, i);
    PastAt(q, i);
    FailureTold(q, i);
    FailureKeeps(q, i);
    if e.retryCount + 1 > e.retryAttempts {
      OfflineTold(q, f, i, known);
    } else {
      AgainTold(q, i);
    }
  }

  // One more failure, perhaps published, and the pause.
  lemma AgainEntry(e: Entry, p: Past, now: nat)
    requires EntryTold(e, p, now) && e.dispatching && e.retryCount + 1 <= e.retryAttempts
    ensures var f, t := e.(retryCount := e.retryCount + 1), Told(p, Failed(e.id, now, e.retryPause), e.id);
            && EntryTold(ToIdle(f).(retryNotBefore := now + e.retryPause), t, now)
            && (!e.placed ==> EntryTold(ToIdle(f.(placed := true)).(retryNotBefore := now + e.retryPause), Told(t, Placed(e.id), e.id), now))
  {
  }

  // The past of an entry in the queue.
  lemma PastAt(q: Queue, i: nat)
    requires History(q) && i < |q.records|
    ensures EntryTold(q.records[i], PastOf(q.log, q.records[i].id), q.now) && PausesKept(q.log)
  {
    hide PastOf, PausesKept, EntryTold;
  }

  lemma AgainTold(q: Queue, i: nat)
    requires Shape(q) && History(q) && i < |q.records| && q.records[i].dispatching
    requires q.records[i].retryCount + 1 <= q.records[i].retryAttempts
    ensures History(Retry(PublishPlaced(Failure(q, i), i), i, q.records[i].retryPause))
  {
    hide EntryTold, PausesKept, PastOf, SamePast, Failure, PublishPlaced, EntryOk, EntriesOk, AllApart, NothingLeft, History, Told, Retry;
    FailureKeeps(q, i);
    var e, f := q.records[i], Failure(q, i);
    var p := PublishPlaced(f, i);
    PastAt(q, i);
    PlacedKeeps(f, i);
    FailureTold(q, i);
    PlacedTold(q, f, i);
    EntryAt(p, i);
    AgainEntry(e, PastOf(q.log, e.id), q.now);
    Overwrite(q.records, i, f.records[i], p.records[i]);
    RetryHistory(q, p, i, e.retryPause);
  }

  lemma DialDoneTold(q: Queue, dial: nat, answered: bool, known: set<nat>)
    requires Shape(q) && History(q)
    ensures History(DialDone(q, dial, answered, known))
  {
    hide EntriesOk, AllApart, NothingLeft, EntryTold, PastOf, PausesKept, DialFailed, Take;
    DialGoneKeeps(q, dial);
    var r := q.(ringing := q.ringing - {dial});
    var i := IndexOfDial(r.records, dial);
    if i < |r.records| {
      EntryAt(r, i);
      if answered {
        TakeTold(r, i, known);
      } else {
        DialFailedTold(r, i, known);
      }
    }
  }

  lemma SetCallbackTold(q: Queue, leg: nat, enabled: bool)
    requires Shape(q) && History(q)
    ensures History(SetCallback(q, leg, enabled))
  {
    hide PausesKept, PastOf, SamePast, EntriesOk, AllApart, NothingLeft, History;
    var i := IndexOfLeg(q, leg);
    if i < |q.records| {
      PastAt(q, i);
      SamePastSelf(q.log, q.records[i].id);
      OneTold(q, SetCallback(q, leg, enabled), i, q.records[i].(callbackEnabled := enabled));
    }
  }

  lemma {:induction false} RefreshTold(q: Queue, scope: string, i: nat)
    requires i <= |q.records|
    ensures var r := RefreshFrom(q, scope, i); r.records == q.records && r.log == q.log && r.now == q.now
    decreases |q.records| - i
  {
    if i < |q.records| {
      var e := q.records[i];
      if e.scope != scope || e.dispatching {
        RefreshTold(q, scope, i + 1);
      } else {
        RefreshTold(Schedule(q, e.id, if e.retryNotBefore > q.now then e.retryNotBefore - q.now else 0), scope, i + 1);
      }
    }
  }

  lemma DispatchTold(q: Queue, i: nat, free: seq<string>)
    requires Shape(q) && History(q) && i < |q.records| && !q.records[i].dispatching && q.records[i].retryNotBefore <= q.now
    ensures History(Dispatch(q, i, free))
  {
    hide PausesKept, PastOf, SamePast, EntriesOk, AllApart, NothingLeft, History;
    var e := q.records[i];
    var n := Dispatched(e.id, q.nextDial, q.now);
    PastAt(q, i);
    NoteTold(q.log, n, e.id);
    SamePastSelf(q.log, e.id);
    SamePastNote(q.log, q.log, n, e.id);
    OneTold(q, Dispatch(q, i, free), i, ToDispatching(e, q.nextDial, free));
  }

  lemma PlacedHistory(q: Queue, i: nat)
    requires Shape(q) && History(q) && i < |q.records|
    ensures History(PublishPlaced(q, i))
  {
    hide EntryTold, PausesKept, PastOf, SamePast, PublishPlaced, EntriesOk, AllApart, NothingLeft, History, Told;
    var e := q.records[i];
    PastAt(q, i);
    SamePastSelf(q.log, e.id);
    PlacedTold(q, q, i);
    PlacedEntry(e, PastOf(q.log, e.id), q.now);
    OneTold(q, PublishPlaced(q, i), i, PublishPlaced(q, i).records[i]);
  }

  lemma PlacedEntry(e: Entry, p: Past, now: nat)
    requires EntryTold(e, p, now)
    ensures !e.placed ==> EntryTold(e.(placed := true), Told(p, Placed(e.id), e.id), now)
  {
  }

  lemma BranchTold(q: Queue, i: nat, online: bool, available: seq<string>, known: set<nat>)
    requires Shape(q) && History(q) && i < |q.records| && !q.records[i].dispatching && q.records[i].retryNotBefore <= q.now
    ensures History(Branch(q, i, online, available, known))
  {
    hide History, EntriesOk, AllApart, NothingLeft, EndEntry, PublishPlaced, Dispatch, PastOf, PausesKept, SamePast;
    if !online {
      PastAt(q, i);
      SamePastSelf(q.log, q.records[i].id);
      OfflineTold(q, q, i, known);
    } else {
      PlacedHistory(q, i);
      DispatchTold(q, i, Free(available, Reserved(q.records, q.records[i].scope)));
    }
  }

  lemma FireTold(q: Queue, id: nat, online: bool, available: seq<string>, known: set<nat>)
    requires Shape(q) && History(q)
    ensures History(Fire(q, id, online, available, known))
  {
    hide Shape, Branch, EntryTold, PastOf, PausesKept;
    TimerGoneKeeps(q, id);
    var r := q.(timers := q.timers - {id});
    var i := IndexOf(r.records, id);
    if i < |r.records| && !r.records[i].dispatching && r.records[i].retryNotBefore <= r.now {
      BranchTold(r, i, online, available, known);
    }
  }

  lemma PassTold(q: Queue, ms: nat)
    requires History(q)
    ensures History(q.(now := q.now + ms))
  {
    hide PausesKept, PastOf;
  }

  lemma EnqueueTold(q: Queue, j: Join, alive: set<nat>, known: set<nat>)
    requires Shape(q) && History(q)
    ensures History(Enqueue(q, j, alive, known))
  {
    hide History, Shape, Rejoin, Create, Refused;
    var b := Best(q.records, j, alive);
    if b < |q.records| {
      RejoinTold(q, b, j, known);
    }
    CreateTold(q, j, known);
  }

  lemma NextTold(q: Queue, s: Step)
    requires Shape(q) && History(q) && Enabled(q, s)
    ensures History(Next(q, s))
  {
    hide Shape, EntryTold, PastOf, PausesKept, Enqueue, RemoveLeg, SetCallback, Take, DialDone, RefreshFrom, Fire;
    match s
    case Pass(ms) => PassTold(q, ms);
    case DoEnqueue(j, alive, known) => EnqueueTold(q, j, alive, known);
    case DoRemoveLeg(leg, silent, known) => RemoveLegTold(q, leg, silent, known);
    case DoSetCallback(leg, enabled) => SetCallbackTold(q, leg, enabled);
    case DoTake(id, known) =>
      var i := IndexOf(q.records, id);
      if i < |q.records| { TakeTold(q, i, known); }
    case DoDialDone(dial, answered, known) => DialDoneTold(q, dial, answered, known);
    case DoRefresh(scope) => RefreshTold(q, scope, 0);
    case DoFire(id, online, available, known) => FireTold(q, id, online, available, known);
  }
}
