/** Call queues: entries waiting for an agent, dispatched to free extensions one dial at a time. */
module QueueEntries {

  datatype Option<+T> = None | Some(value: T)

  datatype Mode = Live | Callback

  // Entries, legs, dials and tickets are numbered. An ended entry is no longer in the queue.
  datatype Entry = Entry(
    id: nat, ref: string, scope: string, trunkRef: string, caller: string, createdAt: nat,
    leg: nat, mode: Mode, dispatching: bool, callbackEnabled: bool, dial: Option<nat>, reserved: seq<string>,
    retryNotBefore: nat, retryCount: nat, retryAttempts: nat, retryPause: nat, placed: bool, ticket: Option<nat>)

  function ToDispatching(e: Entry, dial: nat, reserved: seq<string>): Entry {
    e.(dispatching := true, dial := Some(dial), reserved := reserved, retryNotBefore := 0)
  }

  function ToIdle(e: Entry): Entry { e.(dispatching := false, dial := None, reserved := []) }

  // The entry outlives its leg: the caller is to be called back.
  function ToCallback(e: Entry): Entry { ToIdle(e).(mode := Callback, ticket := None) }

  // The caller is back on a new leg.
  function ToRejoined(e: Entry, leg: nat, ticket: nat): Entry {
    ToIdle(e).(ticket := Some(ticket), leg := leg, mode := Live, retryNotBefore := 0, retryCount := 0, placed := false)
  }
}

module QueueSpec {
  import opened QueueEntries

  // What the queue tells others, and when it started, failed or dropped a dial.
  datatype Notice =
    | Joined(id: nat) | Placed(id: nat) | Dispatched(id: nat, dial: nat, at: nat)
    | Failed(id: nat, at: nat, pause: nat) | Aborted(id: nat, at: nat, pause: nat)
    | Offline(ref: string, id: nat) | Completed(ref: string, waited: nat)
    | LegPlaced(leg: nat) | LegRemoved(leg: nat)

  // `records` in queue order, `byLeg` the index of legs, `timers` when each entry is looked at next,
  // `tickets` the leg tickets the queue has out, `ringing` its dials that are not finalised.
  datatype Queue = Queue(
    now: nat, records: seq<Entry>, byLeg: map<nat, nat>, timers: map<nat, nat>, tickets: map<nat, nat>,
    ringing: set<nat>, nextEntry: nat, nextTicket: nat, nextDial: nat, log: seq<Notice>)

  const EMPTY: Queue := Queue(0, [], map[], map[], map[], {}, 0, 0, 0, [])

  // ---- Looking up ----

  function IndexOf(records: seq<Entry>, id: nat): (i: nat)
    ensures i <= |records| && (i < |records| ==> records[i].id == id)
    ensures forall k :: 0 <= k < i ==> records[k].id != id
    decreases |records|
  {
    if records == [] || records[0].id == id then 0 else 1 + IndexOf(records[1..], id)
  }

  function IndexOfDial(records: seq<Entry>, dial: nat): (i: nat)
    ensures i <= |records| && (i < |records| ==> records[i].dial == Some(dial))
    ensures forall k :: 0 <= k < i ==> records[k].dial != Some(dial)
    decreases |records|
  {
    if records == [] || records[0].dial == Some(dial) then 0 else 1 + IndexOfDial(records[1..], dial)
  }

  function IndexOfLeg(q: Queue, leg: nat): (i: nat)
    ensures i <= |q.records|
  {
    if leg in q.byLeg then IndexOf(q.records, q.byLeg[leg]) else |q.records|
  }

  function Reserved(records: seq<Entry>, scope: string): set<string> {
    set i, x | 0 <= i < |records| && records[i].dispatching && records[i].scope == scope && x in records[i].reserved :: x
  }

  function Free(available: seq<string>, reserved: set<string>): (r: seq<string>)
    ensures forall x :: x in r <==> x in available && x !in reserved
    decreases |available|
  {
    if available == [] then []
    else
      var rest := Free(available[1..], reserved);
      assert available == [available[0]] + available[1..];
      if available[0] in reserved then rest else [available[0]] + rest
  }

  // ---- Single effects ----

  function Put(q: Queue, i: nat, e: Entry): Queue
    requires i < |q.records|
  {
    q.(records := q.records[i := e])
  }

  function Note(q: Queue, n: Notice): Queue { q.(log := q.log + [n]) }

  function Schedule(q: Queue, id: nat, delay: nat): Queue { q.(timers := q.timers[id := q.now + delay]) }

  function Drop(tickets: map<nat, nat>, ticket: Option<nat>): map<nat, nat> {
    if ticket.Some? then tickets - {ticket.value} else tickets
  }

  // The dial is broken, and what that finalises finds no entry any more.
  function AbortDial(q: Queue, i: nat): Queue
    requires i < |q.records|
  {
    var e := q.records[i];
    if e.dial == None then q else Put(q, i, ToIdle(e)).(ringing := q.ringing - {e.dial.value})
  }

  function Delay(q: Queue, i: nat, until: nat): Queue
    requires i < |q.records|
  {
    Put(q, i, q.records[i].(retryNotBefore := until))
  }

  function Retry(q: Queue, i: nat, delay: nat): Queue
    requires i < |q.records|
  {
    Schedule(Delay(AbortDial(q, i), i, q.now + delay), q.records[i].id, delay)
  }

  function PublishPlaced(q: Queue, i: nat): Queue
    requires i < |q.records|
  {
    var e := q.records[i];
    if e.mode == Callback || e.placed then q else Note(Put(q, i, e.(placed := true)), Placed(e.id))
  }

  // The entry gives its leg's ticket back and waits for a callback.
  function Settle(q: Queue, i: nat): Queue
    requires i < |q.records|
  {
    Put(q, i, ToCallback(q.records[i])).(tickets := Drop(q.tickets, q.records[i].ticket))
  }

  // `known` are the legs still registered; only those are told.
  function Interrupt(q: Queue, n: Notice, leg: nat, known: set<nat>): Queue { if leg in known then Note(q, n) else q }

  function Remove(q: Queue, i: nat): Queue
    requires i < |q.records|
  {
    var e := q.records[i];
    q.(records := q.records[..i] + q.records[i + 1..],
       byLeg := if e.leg in q.byLeg && q.byLeg[e.leg] == e.id then q.byLeg - {e.leg} else q.byLeg,
       timers := q.timers - {e.id},
       tickets := Drop(q.tickets, e.ticket))
  }

  function EndEntry(q: Queue, i: nat, silent: bool, known: set<nat>): Queue
    requires i < |q.records|
  {
    var e := q.records[i];
    var r := Remove(AbortDial(q, i), i);
    if e.mode == Live && !silent then Interrupt(r, LegRemoved(e.leg), e.leg, known) else r
  }

  // ---- Operations ----

  datatype Join = Join(
    ref: string, leg: nat, front: bool, scope: string, trunkRef: string, caller: string,
    rejoinExisting: bool, attempts: nat, pause: nat, inbound: bool, sip: bool, fromExtension: bool)

  // The entry may be joined again: same queue, trunk and caller, and its leg is gone.
  predicate Candidate(e: Entry, j: Join, alive: set<nat>) {
    e.ref == j.ref && e.trunkRef == j.trunkRef && e.caller == j.caller && e.leg !in alive
  }

  // The oldest candidate, the first of equals; the number of records if there is none.
  function Best(records: seq<Entry>, j: Join, alive: set<nat>): (b: nat)
    ensures b <= |records|
    decreases |records|
  {
    var n := |records|;
    if n == 0 then 0
    else
      var b := Best(records[..n - 1], j, alive);
      var e := records[n - 1];
      if b == n - 1 then (if Candidate(e, j, alive) then n - 1 else n)
      else if Candidate(e, j, alive) && e.createdAt < records[b].createdAt then n - 1
      else b
  }

  // Telling that the entry has joined, and scheduling it at once.
  function Announce(q: Queue, id: nat, leg: nat, known: set<nat>): Queue {
    Schedule(Interrupt(Note(q, Joined(id)), LegPlaced(leg), leg, known), id, 0)
  }

  function AsRejoined(e: Entry, j: Join, ticket: nat): Entry {
    ToRejoined(e, j.leg, ticket).(retryAttempts := j.attempts, retryPause := j.pause)
  }

  // The entry is bound to this leg and no other.
  function BindOnly(byLeg: map<nat, nat>, id: nat, newLeg: nat): map<nat, nat> {
    (map leg | leg in byLeg && byLeg[leg] != id :: byLeg[leg])[newLeg := id]
  }

  function Rejoined(q: Queue, i: nat, j: Join): Queue
    requires i < |q.records|
  {
    var e, t := q.records[i], q.nextTicket;
    Put(q, i, AsRejoined(e, j, t)).(
      byLeg := BindOnly(q.byLeg, e.id, j.leg), tickets := Drop(q.tickets, e.ticket)[t := j.leg], nextTicket := t + 1)
  }

  function Rejoin(q: Queue, i: nat, j: Join, known: set<nat>): Queue
    requires i < |q.records|
  {
    Announce(Rejoined(q, i, j), q.records[i].id, j.leg, known)
  }

  function NewEntry(q: Queue, j: Join): Entry {
    Entry(q.nextEntry, j.ref, j.scope, j.trunkRef, j.caller, q.now, j.leg, Live, false, false, None, [],
          0, 0, j.attempts, j.pause, false, Some(q.nextTicket))
  }

  function Created(q: Queue, j: Join): Queue {
    var e := NewEntry(q, j);
    q.(records := if j.front then [e] + q.records else q.records + [e],
       byLeg := q.byLeg[j.leg := e.id], tickets := q.tickets[q.nextTicket := j.leg],
       nextTicket := q.nextTicket + 1, nextEntry := q.nextEntry + 1)
  }

  function Create(q: Queue, j: Join, known: set<nat>): Queue { Announce(Created(q, j), q.nextEntry, j.leg, known) }

  predicate OwnsEntry(q: Queue, leg: nat) { IndexOfLeg(q, leg) < |q.records| }

  // Refused for a leg that owns an entry already, is unknown, or is not a call that came in from a trunk.
  predicate Refused(q: Queue, j: Join, known: set<nat>) {
    OwnsEntry(q, j.leg) || j.leg !in known || !j.inbound || !j.sip || j.fromExtension || j.trunkRef == ""
  }

  function Enqueue(q: Queue, j: Join, alive: set<nat>, known: set<nat>): Queue {
    if Refused(q, j, known) then q
    else
      var b := Best(q.records, j, alive);
      if j.rejoinExisting && j.caller != "" && b < |q.records| then Rejoin(q, b, j, known) else Create(q, j, known)
  }

  // A leg has gone or is taken off: an entry that wants a callback stays, once.
  function RemoveLeg(q: Queue, leg: nat, silent: bool, known: set<nat>): Queue {
    var i := IndexOfLeg(q, leg);
    if i == |q.records| then q
    else
      var e := q.records[i];
      if e.callbackEnabled && e.mode == Live then
        var c := Settle(AbortDial(q, i), i);
        Retry(if e.dial.Some? then Note(c, Aborted(e.id, q.now, e.retryPause)) else c, i, e.retryPause)
      else EndEntry(q, i, silent, known)
  }

  function SetCallback(q: Queue, leg: nat, enabled: bool): Queue {
    var i := IndexOfLeg(q, leg);
    if i == |q.records| then q else Put(q, i, q.records[i].(callbackEnabled := enabled))
  }

  function Take(q: Queue, i: nat, known: set<nat>): Queue
    requires i < |q.records|
  {
    var e := q.records[i];
    EndEntry(Note(q, Completed(e.ref, if q.now > e.createdAt then q.now - e.createdAt else 0)), i, false, known)
  }

  function Failure(q: Queue, i: nat): Queue
    requires i < |q.records|
  {
    var e := q.records[i];
    Note(Put(q, i, e.(retryCount := e.retryCount + 1)), Failed(e.id, q.now, e.retryPause))
  }

  // A dial nobody answered: another one after a pause, or the end of the entry.
  function DialFailed(q: Queue, i: nat, known: set<nat>): Queue
    requires i < |q.records|
  {
    var e, f := q.records[i], Failure(q, i);
    if e.retryCount + 1 > e.retryAttempts then Note(EndEntry(f, i, false, known), Offline(e.ref, e.id))
    else Retry(PublishPlaced(f, i), i, e.retryPause)
  }

  function DialDone(q: Queue, dial: nat, answered: bool, known: set<nat>): Queue {
    var q := q.(ringing := q.ringing - {dial});
    var i := IndexOfDial(q.records, dial);
    if i == |q.records| then q else if answered then Take(q, i, known) else DialFailed(q, i, known)
  }

  function RefreshFrom(q: Queue, scope: string, i: nat): Queue
    requires i <= |q.records|
    decreases |q.records| - i
  {
    if i == |q.records| then q
    else
      var e := q.records[i];
      if e.scope != scope || e.dispatching then RefreshFrom(q, scope, i + 1)
      else RefreshFrom(Schedule(q, e.id, if e.retryNotBefore > q.now then e.retryNotBefore - q.now else 0), scope, i + 1)
  }

  function Refresh(q: Queue, scope: string): Queue { RefreshFrom(q, scope, 0) }

  // A new dial to all the free extensions, which are reserved for it.
  function Dispatch(q: Queue, i: nat, free: seq<string>): Queue
    requires i < |q.records|
  {
    var e, d := q.records[i], q.nextDial;
    Note(Put(q, i, ToDispatching(e, d, free)).(ringing := q.ringing + {d}, nextDial := d + 1), Dispatched(e.id, d, q.now))
  }

  // The entry's turn. `online` says whether any extension is registered, `available` which are idle.
  function Branch(q: Queue, i: nat, online: bool, available: seq<string>, known: set<nat>): Queue
    requires i < |q.records|
  {
    var e := q.records[i];
    var free := Free(available, Reserved(q.records, e.scope));
    if !online then Note(EndEntry(q, i, false, known), Offline(e.ref, e.id))
    else if free == [] then PublishPlaced(q, i)
    else Dispatch(q, i, free)
  }

  function Turn(q: Queue, i: nat, online: bool, available: seq<string>, known: set<nat>): Queue
    requires i < |q.records|
  {
    var e := q.records[i];
    if IndexOfLeg(q, e.leg) != i || e.dispatching then q
    else if e.retryNotBefore > q.now then Schedule(q, e.id, e.retryNotBefore - q.now)
    else Branch(q, i, online, available, known)
  }

  function Fire(q: Queue, id: nat, online: bool, available: seq<string>, known: set<nat>): Queue {
    var q := q.(timers := q.timers - {id});
    var i := IndexOf(q.records, id);
    if i == |q.records| then q else Turn(q, i, online, available, known)
  }

  // ---- Everything that can happen, on a clock that does not go back ----

  datatype Step =
    | Pass(ms: nat)
    | DoEnqueue(j: Join, alive: set<nat>, known: set<nat>)
    | DoRemoveLeg(leg: nat, silent: bool, known: set<nat>)
    | DoSetCallback(leg: nat, enabled: bool)
    | DoTake(id: nat, known: set<nat>)
    | DoDialDone(dial: nat, answered: bool, known: set<nat>)
    | DoRefresh(scope: string)
    | DoFire(id: nat, online: bool, available: seq<string>, known: set<nat>)

  // A dial is finalised once, and a timer fires while it is pending, even early.
  predicate Enabled(q: Queue, s: Step) {
    match s
    case DoDialDone(dial, _, _) => dial in q.ringing
    case DoFire(id, _, _, _) => id in q.timers
    case _ => true
  }

  function Next(q: Queue, s: Step): Queue
    requires Enabled(q, s)
  {
    match s
    case Pass(ms) => q.(now := q.now + ms)
    case DoEnqueue(j, alive, known) => Enqueue(q, j, alive, known)
    case DoRemoveLeg(leg, silent, known) => RemoveLeg(q, leg, silent, known)
    case DoSetCallback(leg, enabled) => SetCallback(q, leg, enabled)
    case DoTake(id, known) => var i := IndexOf(q.records, id); if i == |q.records| then q else Take(q, i, known)
    case DoDialDone(dial, answered, known) => DialDone(q, dial, answered, known)
    case DoRefresh(scope) => Refresh(q, scope)
    case DoFire(id, online, available, known) => Fire(q, id, online, available, known)
  }
}
