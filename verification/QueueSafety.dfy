/** What every run of a queue keeps: its entries, the index of legs, tickets, timers and reservations. */
module QueueSafety {
  import opened QueueEntries
  import opened QueueSpec

  // ---- The shape of a queue ----

  // Dispatching is naming a dial; a live entry holds a ticket; the index finds the entry by its leg.
  ghost predicate EntryOk(q: Queue, e: Entry) {
    && (e.dispatching <==> e.dial.Some?)
    && (!e.dispatching ==> e.reserved == [])
    && (e.mode == Live <==> e.ticket.Some?)
    && e.id < q.nextEntry
    && e.leg in q.byLeg && q.byLeg[e.leg] == e.id
    && (e.ticket.Some? ==> e.ticket.value in q.tickets && q.tickets[e.ticket.value] == e.leg)
    && (e.dial.Some? ==> e.dial.value < q.nextDial)
  }

  ghost predicate Disjoint(a: seq<string>, b: seq<string>) { forall x :: x in a ==> x !in b }

  // Two entries share neither leg, ticket nor dial, and in one scope no extension.
  ghost predicate Apart(a: Entry, b: Entry) {
    && a.id != b.id && a.leg != b.leg
    && (a.ticket.Some? ==> a.ticket != b.ticket)
    && (a.dial.Some? ==> a.dial != b.dial)
    && (a.scope == b.scope ==> Disjoint(a.reserved, b.reserved))
  }

  ghost predicate EntriesOk(q: Queue) { forall i :: 0 <= i < |q.records| ==> EntryOk(q, q.records[i]) }

  ghost predicate AllApart(records: seq<Entry>) {
    forall i, j :: 0 <= i < |records| && 0 <= j < |records| && i != j ==> Apart(records[i], records[j])
  }

  ghost predicate Owns(records: seq<Entry>, leg: nat) { exists i :: 0 <= i < |records| && records[i].leg == leg }

  ghost predicate Holds(records: seq<Entry>, ticket: nat) { exists i :: 0 <= i < |records| && records[i].ticket == Some(ticket) }

  ghost predicate Rests(records: seq<Entry>, id: nat) { exists i :: 0 <= i < |records| && records[i].id == id && !records[i].dispatching }

  // Nothing is kept for an entry that is no longer there.
  ghost predicate NothingLeft(q: Queue) {
    && (forall leg :: leg in q.byLeg ==> Owns(q.records, leg))
    && (forall t :: t in q.tickets ==> t < q.nextTicket && Holds(q.records, t))
    && (forall id :: id in q.timers ==> Rests(q.records, id))
    && (forall d :: d in q.ringing ==> d < q.nextDial)
  }

  ghost predicate Shape(q: Queue) { EntriesOk(q) && AllApart(q.records) && NothingLeft(q) }

  lemma EntryAt(q: Queue, i: nat)
    requires EntriesOk(q) && i < |q.records|
    ensures EntryOk(q, q.records[i])
  {
  }

  lemma ApartAt(q: Queue, i: nat, j: nat)
    requires AllApart(q.records) && i < |q.records| && j < |q.records| && i != j
    ensures Apart(q.records[i], q.records[j]) && Apart(q.records[j], q.records[i])
  {
  }

  // One record changed, and whatever else changed suits it.
  lemma Replaced(q: Queue, q': Queue, i: nat, e': Entry)
    requires EntriesOk(q) && AllApart(q.records) && i < |q.records| && q'.records == q.records[i := e']
    requires EntryOk(q', e') && NothingLeft(q')
    requires forall j :: 0 <= j < |q.records| && j != i ==> EntryOk(q', q.records[j])
    requires forall j :: 0 <= j < |q.records| && j != i ==> Apart(e', q.records[j]) && Apart(q.records[j], e')
    ensures Shape(q')
  {
    hide EntryOk, Apart, NothingLeft;
  }

  // An entry that keeps its leg and ticket, and lets a dial and reservations go or not.
  ghost predicate Milder(e: Entry, e': Entry) {
    && e'.id == e.id && e'.leg == e.leg && e'.ticket == e.ticket && e'.scope == e.scope
    && (e'.dial == e.dial || e'.dial == None) && (e'.reserved == e.reserved || e'.reserved == [])
    && (e'.dispatching ==> e.dispatching)
  }

  // What other records own, hold or rest stays so when one is replaced.
  lemma ReplacedOwn(records: seq<Entry>, i: nat, e': Entry, leg: nat, ticket: nat, id: nat)
    requires i < |records|
    ensures var more := records[i := e'];
            && Owns(more, e'.leg) && (Owns(records, leg) && records[i].leg != leg ==> Owns(more, leg))
            && (e'.ticket.Some? ==> Holds(more, e'.ticket.value))
            && (Holds(records, ticket) && records[i].ticket != Some(ticket) ==> Holds(more, ticket))
            && (!e'.dispatching ==> Rests(more, e'.id)) && (Rests(records, id) && records[i].id != id ==> Rests(more, id))
  {
    var more := records[i := e'];
    assert more[i] == e';
    if k :| 0 <= k < |records| && k != i && records[k].leg == leg {
      assert more[k].leg == leg;
    }
    if k :| 0 <= k < |records| && k != i && records[k].ticket == Some(ticket) {
      assert more[k].ticket == Some(ticket);
    }
    if k :| 0 <= k < |records| && k != i && records[k].id == id && !records[k].dispatching {
      assert more[k].id == id;
    }
  }

  // Everything kept for the record replaced is kept for its replacement, or is gone.
  lemma ReplacedLeft(q: Queue, q': Queue, i: nat, e': Entry)
    requires NothingLeft(q) && i < |q.records| && q'.records == q.records[i := e'] && e'.id == q.records[i].id
    requires forall leg :: leg in q'.byLeg ==> leg == e'.leg || (leg in q.byLeg && leg != q.records[i].leg)
    requires forall t :: t in q'.tickets ==> t < q'.nextTicket && (e'.ticket == Some(t) || (t in q.tickets && q.records[i].ticket != Some(t)))
    requires forall id :: id in q'.timers ==> id in q.timers && (id == e'.id ==> !e'.dispatching)
    requires forall d :: d in q'.ringing ==> d < q'.nextDial
    ensures NothingLeft(q')
  {
    hide Owns, Holds, Rests;
    forall leg | leg in q'.byLeg ensures Owns(q'.records, leg) {
      ReplacedOwn(q.records, i, e', leg, 0, 0);
    }
    forall t | t in q'.tickets ensures Holds(q'.records, t) {
      ReplacedOwn(q.records, i, e', 0, t, 0);
    }
    forall id | id in q'.timers ensures Rests(q'.records, id) {
      ReplacedOwn(q.records, i, e', 0, 0, id);
    }
  }

  lemma MilderLeft(q: Queue, q': Queue, i: nat, e': Entry)
    requires NothingLeft(q) && AllApart(q.records) && i < |q.records| && q'.records == q.records[i := e'] && Milder(q.records[i], e')
    requires q'.byLeg == q.byLeg && q'.tickets == q.tickets && q'.nextTicket == q.nextTicket && q'.nextDial == q.nextDial
    requires q'.timers == q.timers && q'.ringing <= q.ringing
    ensures NothingLeft(q')
  {
    TimedRest(q, i);
    hide AllApart;
    ReplacedLeft(q, q', i, e');
  }

  // Only entries at rest have timers.
  lemma TimedRest(q: Queue, i: nat)
    requires NothingLeft(q) && AllApart(q.records) && i < |q.records|
    ensures q.records[i].id in q.timers ==> !q.records[i].dispatching
  {
    var id := q.records[i].id;
    if id in q.timers {
      assert Rests(q.records, id);
      var k :| 0 <= k < |q.records| && q.records[k].id == id && !q.records[k].dispatching;
      assert k == i || Apart(q.records[k], q.records[i]);
    }
  }

  lemma MilderApart(e: Entry, e': Entry, other: Entry)
    requires Milder(e, e') && Apart(e, other) && Apart(other, e)
    ensures Apart(e', other) && Apart(other, e')
  {
  }

  lemma EntryElsewhere(q: Queue, q': Queue, e: Entry)
    requires EntryOk(q, e) && q'.byLeg == q.byLeg && q'.tickets == q.tickets && q'.nextEntry == q.nextEntry && q'.nextDial == q.nextDial
    ensures EntryOk(q', e)
  {
  }

  // Such a change of one record, the rest of the queue but its dials and log left alone.
  lemma Touched(q: Queue, q': Queue, i: nat, e': Entry)
    requires Shape(q) && i < |q.records| && q'.records == q.records[i := e'] && Milder(q.records[i], e')
    requires q'.byLeg == q.byLeg && q'.tickets == q.tickets && q'.timers == q.timers && q'.ringing <= q.ringing
    requires q'.nextEntry == q.nextEntry && q'.nextTicket == q.nextTicket && q'.nextDial == q.nextDial
    requires EntryOk(q, e')
    ensures Shape(q')
  {
    MilderLeft(q, q', i, e');
    hide NothingLeft, EntryOk, Apart, Milder;
    EntryElsewhere(q, q', e');
    forall j | 0 <= j < |q.records| && j != i
      ensures EntryOk(q', q.records[j]) && Apart(e', q.records[j]) && Apart(q.records[j], e')
    {
      EntryElsewhere(q, q', q.records[j]);
      MilderApart(q.records[i], e', q.records[j]);
    }
    hide EntriesOk, AllApart;
    Replaced(q, q', i, e');
  }

  lemma AbortKeeps(q: Queue, i: nat)
    requires Shape(q) && i < |q.records|
    ensures Shape(AbortDial(q, i))
  {
    var e := q.records[i];
    assert EntryOk(q, e);
    if e.dial.Some? {
      hide Shape, EntriesOk, AllApart;
      Touched(q, AbortDial(q, i), i, ToIdle(e));
    }
  }

  // What an entry needs of the queue besides its records.
  lemma SameEntries(q: Queue, q': Queue)
    requires EntriesOk(q) && q'.records == q.records && q'.byLeg == q.byLeg && q'.tickets == q.tickets
    requires q'.nextEntry == q.nextEntry && q'.nextDial == q.nextDial
    ensures EntriesOk(q')
  {
  }

  lemma NoteKeeps(q: Queue, n: Notice)
    requires Shape(q)
    ensures Shape(Note(q, n))
  {
    SameEntries(q, Note(q, n));
    hide EntriesOk, AllApart;
  }

  lemma InterruptKeeps(q: Queue, n: Notice, leg: nat, known: set<nat>)
    requires Shape(q)
    ensures Shape(Interrupt(q, n, leg, known))
  {
    NoteKeeps(q, n);
  }

  lemma ScheduleKeeps(q: Queue, i: nat, delay: nat)
    requires Shape(q) && i < |q.records| && !q.records[i].dispatching
    ensures Shape(Schedule(q, q.records[i].id, delay))
  {
    var q' := Schedule(q, q.records[i].id, delay);
    SameEntries(q, q');
    hide EntriesOk, AllApart;
    forall id | id in q'.timers ensures Rests(q'.records, id) {
      if id == q.records[i].id {
        assert q'.records[i].id == id;
      }
    }
  }

  lemma PassKeeps(q: Queue, ms: nat)
    requires Shape(q)
    ensures Shape(q.(now := q.now + ms))
  {
    SameEntries(q, q.(now := q.now + ms));
    hide EntriesOk, AllApart;
  }

  lemma TimerGoneKeeps(q: Queue, id: nat)
    requires Shape(q)
    ensures Shape(q.(timers := q.timers - {id}))
  {
    SameEntries(q, q.(timers := q.timers - {id}));
    hide EntriesOk, AllApart;
  }

  lemma DialGoneKeeps(q: Queue, dial: nat)
    requires Shape(q)
    ensures Shape(q.(ringing := q.ringing - {dial}))
  {
    SameEntries(q, q.(ringing := q.ringing - {dial}));
    hide EntriesOk, AllApart;
  }

  lemma DelayKeeps(q: Queue, i: nat, until: nat)
    requires Shape(q) && i < |q.records|
    ensures Shape(Delay(q, i, until))
  {
    var e' := q.records[i].(retryNotBefore := until);
    assert EntryOk(q, q.records[i]);
    assert EntryOk(q, e') && Milder(q.records[i], e');
    hide EntryOk, Milder, Shape;
    Touched(q, Delay(q, i, until), i, e');
  }

  lemma AbortMeans(q: Queue, i: nat)
    requires i < |q.records| && EntryOk(q, q.records[i])
    ensures var a := AbortDial(q, i);
            && |a.records| == |q.records| && a.now == q.now
            && a.records[i].id == q.records[i].id && !a.records[i].dispatching
  {
  }

  lemma DelayMeans(q: Queue, i: nat, until: nat)
    requires i < |q.records|
    ensures var d := Delay(q, i, until);
            && |d.records| == |q.records| && d.now == q.now
            && d.records[i].id == q.records[i].id && d.records[i].dispatching == q.records[i].dispatching
  {
  }

  lemma RetryKeeps(q: Queue, i: nat, delay: nat)
    requires Shape(q) && i < |q.records|
    ensures Shape(Retry(q, i, delay))
  {
    hide AllApart, EntriesOk, NothingLeft, EntryOk, AbortDial, Delay, Schedule;
    AbortKeeps(q, i);
    EntryAt(q, i);
    AbortMeans(q, i);
    var a := AbortDial(q, i);
    DelayKeeps(a, i, q.now + delay);
    DelayMeans(a, i, q.now + delay);
    ScheduleKeeps(Delay(a, i, q.now + delay), i, delay);
  }

  lemma PlacedKeeps(q: Queue, i: nat)
    requires Shape(q) && i < |q.records|
    ensures Shape(PublishPlaced(q, i))
  {
    var e := q.records[i];
    assert EntryOk(q, e);
    if e.mode == Live && !e.placed {
      var e' := e.(placed := true);
      assert EntryOk(q, e') && Milder(e, e');
      hide EntryOk, Milder, Shape;
      Touched(q, PublishPlaced(q, i), i, e');
    }
  }

  // ---- Leaving, coming back and joining ----

  // The records without one of them.
  lemma Others(records: seq<Entry>, i: nat)
    requires i < |records|
    ensures var rest := records[..i] + records[i + 1..];
            && |rest| == |records| - 1
            && (forall k :: 0 <= k < i ==> rest[k] == records[k])
            && (forall k :: i <= k < |rest| ==> rest[k] == records[k + 1])
  {
  }

  lemma RemoveKeeps(q: Queue, i: nat)
    requires Shape(q) && i < |q.records|
    ensures Shape(Remove(q, i))
  {
    var e, q' := q.records[i], Remove(q, i);
    assert EntryOk(q, e);
    Others(q.records, i);
    assert AllApart(q'.records) by {
      hide Apart, EntriesOk, NothingLeft;
    }
    assert EntriesOk(q') by {
      forall k | 0 <= k < |q'.records| ensures EntryOk(q', q'.records[k]) {
        var j := if k < i then k else k + 1;
        assert q'.records[k] == q.records[j] && Apart(q.records[j], e) && EntryOk(q, q.records[j]);
        StillThere(q, q', e, q.records[j]);
      }
    }
    hide EntriesOk, AllApart;
    RemoveLeaves(q, i);
  }

  lemma StillThere(q: Queue, q': Queue, e: Entry, o: Entry)
    requires EntryOk(q, e) && EntryOk(q, o) && Apart(o, e)
    requires q'.byLeg == q.byLeg - {e.leg} && q'.tickets == Drop(q.tickets, e.ticket)
    requires q'.nextEntry == q.nextEntry && q'.nextDial == q.nextDial
    ensures EntryOk(q', o)
  {
  }

  lemma OthersOwn(records: seq<Entry>, i: nat, leg: nat, ticket: nat, id: nat)
    requires i < |records|
    ensures var rest := records[..i] + records[i + 1..];
            && (Owns(records, leg) && records[i].leg != leg ==> Owns(rest, leg))
            && (Holds(records, ticket) && records[i].ticket != Some(ticket) ==> Holds(rest, ticket))
            && (Rests(records, id) && records[i].id != id ==> Rests(rest, id))
  {
    var rest := records[..i] + records[i + 1..];
    forall k | 0 <= k < |records| && k != i ensures var m := if k < i then k else k - 1; rest[m] == records[k] {
      Others(records, i);
    }
    if k :| 0 <= k < |records| && k != i && records[k].leg == leg {
      assert rest[if k < i then k else k - 1].leg == leg;
    }
    if k :| 0 <= k < |records| && k != i && records[k].ticket == Some(ticket) {
      assert rest[if k < i then k else k - 1].ticket == Some(ticket);
    }
    if k :| 0 <= k < |records| && k != i && records[k].id == id && !records[k].dispatching {
      assert rest[if k < i then k else k - 1].id == id;
    }
  }

  lemma RemoveLeaves(q: Queue, i: nat)
    requires NothingLeft(q) && i < |q.records| && EntryOk(q, q.records[i])
    ensures NothingLeft(Remove(q, i))
  {
    var e, q' := q.records[i], Remove(q, i);
    assert q'.byLeg == q.byLeg - {e.leg};
    hide EntryOk, Owns, Holds, Rests;
    forall leg | leg in q'.byLeg ensures Owns(q'.records, leg) {
      OthersOwn(q.records, i, leg, 0, 0);
    }
    forall t | t in q'.tickets ensures Holds(q'.records, t) {
      OthersOwn(q.records, i, 0, t, 0);
    }
    forall id | id in q'.timers ensures Rests(q'.records, id) {
      OthersOwn(q.records, i, 0, 0, id);
    }
  }

  lemma EndKeeps(q: Queue, i: nat, silent: bool, known: set<nat>)
    requires Shape(q) && i < |q.records|
    ensures Shape(EndEntry(q, i, silent, known))
  {
    AbortKeeps(q, i);
    hide Shape;
    var a := AbortDial(q, i);
    assert |a.records| == |q.records|;
    hide AbortDial, Remove;
    RemoveKeeps(a, i);
    InterruptKeeps(Remove(a, i), LegRemoved(q.records[i].leg), q.records[i].leg, known);
  }

  lemma SettleOthers(q: Queue, i: nat, j: nat)
    requires i < |q.records| && j < |q.records| && EntryOk(q, q.records[i]) && EntryOk(q, q.records[j])
    requires Apart(q.records[i], q.records[j]) && Apart(q.records[j], q.records[i])
    ensures var e' := ToCallback(q.records[i]);
            EntryOk(Settle(q, i), q.records[j]) && Apart(e', q.records[j]) && Apart(q.records[j], e') && EntryOk(Settle(q, i), e')
  {
  }

  lemma SettleEntry(q: Queue, i: nat)
    requires i < |q.records| && EntryOk(q, q.records[i])
    ensures EntryOk(Settle(q, i), ToCallback(q.records[i]))
  {
  }

  lemma SettleKeeps(q: Queue, i: nat)
    requires Shape(q) && i < |q.records|
    ensures Shape(Settle(q, i))
  {
    hide EntryOk, Apart, AllApart, EntriesOk;
    EntryAt(q, i);
    SettleEntry(q, i);
    forall j | 0 <= j < |q.records| && j != i
      ensures EntryOk(Settle(q, i), q.records[j]) && Apart(ToCallback(q.records[i]), q.records[j]) && Apart(q.records[j], ToCallback(q.records[i]))
    {
      EntryAt(q, j);
      ApartAt(q, i, j);
      SettleOthers(q, i, j);
    }
    ReplacedLeft(q, Settle(q, i), i, ToCallback(q.records[i]));
    Replaced(q, Settle(q, i), i, ToCallback(q.records[i]));
  }

  // The index without an entry's old leg and with its new one.
  lemma Rebound(q: Queue, i: nat, leg: nat, o: nat)
    requires Shape(q) && i < |q.records| && o < |q.records| && leg !in q.byLeg
    ensures var e := q.records[i];
            var byLeg := BindOnly(q.byLeg, e.id, leg);
            && (o != i ==> q.records[o].leg in byLeg && byLeg[q.records[o].leg] == q.records[o].id)
            && e.leg !in byLeg.Keys - {leg}
  {
    assert EntryOk(q, q.records[i]) && EntryOk(q, q.records[o]);
    if o != i {
      assert Apart(q.records[o], q.records[i]);
    }
  }

  lemma RejoinedOther(q: Queue, i: nat, j: Join, o: nat)
    requires i < |q.records| && o < |q.records| && o != i && j.leg !in q.byLeg
    requires EntryOk(q, q.records[o]) && Apart(q.records[o], q.records[i]) && Apart(q.records[i], q.records[o])
    requires q.nextTicket !in q.tickets
    ensures var e', q' := Rejoined(q, i, j).records[i], Rejoined(q, i, j);
            EntryOk(q', q.records[o]) && Apart(e', q.records[o]) && Apart(q.records[o], e')
  {
  }

  lemma RejoinedOthers(q: Queue, i: nat, j: Join, o: nat)
    requires Shape(q) && i < |q.records| && o < |q.records| && o != i && j.leg !in q.byLeg
    ensures var e', q' := Rejoined(q, i, j).records[i], Rejoined(q, i, j);
            EntryOk(q', q.records[o]) && Apart(e', q.records[o]) && Apart(q.records[o], e')
  {
    hide AllApart, EntriesOk, EntryOk, Apart, Rejoined, Owns, Holds, Rests;
    assert |Rejoined(q, i, j).records| == |q.records| by { RejoinedLength(q, i, j); }
    EntryAt(q, o);
    ApartAt(q, o, i);
    RejoinedOther(q, i, j, o);
  }

  lemma RejoinedLength(q: Queue, i: nat, j: Join)
    requires i < |q.records|
    ensures |Rejoined(q, i, j).records| == |q.records|
  {
  }

  lemma RejoinedEntry(q: Queue, i: nat, j: Join)
    requires i < |q.records| && EntryOk(q, q.records[i])
    ensures var r := Rejoined(q, i, j);
            r.records == q.records[i := r.records[i]] && EntryOk(r, r.records[i])
            && !r.records[i].dispatching && r.records[i].id == q.records[i].id
  {
  }

  lemma RejoinedLeaves(q: Queue, i: nat, j: Join)
    requires Shape(q) && i < |q.records| && j.leg !in q.byLeg
    ensures NothingLeft(Rejoined(q, i, j))
  {
    hide EntriesOk, AllApart;
    EntryAt(q, i);
    Rebound(q, i, j.leg, i);
    ReplacedLeft(q, Rejoined(q, i, j), i, Rejoined(q, i, j).records[i]);
  }

  lemma RejoinKeeps(q: Queue, i: nat, j: Join, known: set<nat>)
    requires Shape(q) && i < |q.records| && j.leg !in q.byLeg
    ensures Shape(Rejoin(q, i, j, known))
  {
    hide EntryOk, EntriesOk, AllApart, Apart, NothingLeft, Rejoined, Announce;
    var r := Rejoined(q, i, j);
    EntryAt(q, i);
    RejoinedEntry(q, i, j);
    RejoinedLeaves(q, i, j);
    forall o | 0 <= o < |q.records| && o != i
      ensures EntryOk(r, q.records[o]) && Apart(r.records[i], q.records[o]) && Apart(q.records[o], r.records[i])
    {
      RejoinedOthers(q, i, j, o);
    }
    Replaced(q, r, i, r.records[i]);
    AnnounceKeeps(r, i, j.leg, known);
  }

  lemma AnnounceKeeps(q: Queue, i: nat, leg: nat, known: set<nat>)
    requires Shape(q) && i < |q.records| && !q.records[i].dispatching
    ensures Shape(Announce(q, q.records[i].id, leg, known))
  {
    var n := Note(q, Joined(q.records[i].id));
    NoteKeeps(q, Joined(q.records[i].id));
    InterruptKeeps(n, LegPlaced(leg), leg, known);
    ScheduleKeeps(Interrupt(n, LegPlaced(leg), leg, known), i, 0);
  }

  lemma CreatedOthers(q: Queue, j: Join, o: nat)
    requires Shape(q) && o < |q.records| && j.leg !in q.byLeg
    ensures var e, q' := NewEntry(q, j), Created(q, j);
            EntryOk(q', q.records[o]) && Apart(e, q.records[o]) && Apart(q.records[o], e)
  {
    assert EntryOk(q, q.records[o]);
  }

  // A record put at either end.
  lemma AddedApart(records: seq<Entry>, e: Entry, front: bool)
    requires AllApart(records) && forall o :: 0 <= o < |records| ==> Apart(e, records[o]) && Apart(records[o], e)
    ensures AllApart(if front then [e] + records else records + [e])
  {
    hide Apart;
  }

  lemma AddedOwn(records: seq<Entry>, e: Entry, front: bool, leg: nat, ticket: nat, id: nat)
    ensures var more := if front then [e] + records else records + [e];
            && Owns(more, e.leg) && (Owns(records, leg) ==> Owns(more, leg))
            && (e.ticket.Some? ==> Holds(more, e.ticket.value)) && (Holds(records, ticket) ==> Holds(more, ticket))
            && (Rests(records, id) ==> Rests(more, id))
  {
    var more := if front then [e] + records else records + [e];
    var at, shift := if front then 0 else |records|, if front then 1 else 0;
    assert more[at] == e;
    if k :| 0 <= k < |records| && records[k].leg == leg {
      assert more[k + shift] == records[k];
    }
    if k :| 0 <= k < |records| && records[k].ticket == Some(ticket) {
      assert more[k + shift] == records[k];
    }
    if k :| 0 <= k < |records| && records[k].id == id && !records[k].dispatching {
      assert more[k + shift] == records[k];
    }
  }

  lemma AddedLeft(q: Queue, q': Queue, e: Entry, front: bool)
    requires NothingLeft(q) && q'.records == (if front then [e] + q.records else q.records + [e])
    requires q'.byLeg == q.byLeg[e.leg := e.id] && q'.timers == q.timers && q'.ringing == q.ringing && q'.nextDial == q.nextDial
    requires e.ticket == Some(q.nextTicket) && q'.tickets == q.tickets[q.nextTicket := e.leg] && q'.nextTicket == q.nextTicket + 1
    ensures NothingLeft(q')
  {
    hide Owns, Holds, Rests;
    forall leg | leg in q'.byLeg ensures Owns(q'.records, leg) {
      AddedOwn(q.records, e, front, leg, 0, 0);
    }
    forall t | t in q'.tickets ensures Holds(q'.records, t) {
      AddedOwn(q.records, e, front, 0, t, 0);
    }
    forall id | id in q'.timers ensures Rests(q'.records, id) {
      AddedOwn(q.records, e, front, 0, 0, id);
    }
  }

  lemma CreatedEntry(q: Queue, j: Join)
    ensures var e, c := NewEntry(q, j), Created(q, j);
            EntryOk(c, e) && c.records == if j.front then [e] + q.records else q.records + [e]
  {
  }

  lemma CreatedLeaves(q: Queue, j: Join)
    requires NothingLeft(q)
    ensures NothingLeft(Created(q, j))
  {
    hide NothingLeft;
    AddedLeft(q, Created(q, j), NewEntry(q, j), j.front);
  }

  lemma CreatedKeeps(q: Queue, j: Join)
    requires Shape(q) && j.leg !in q.byLeg
    ensures Shape(Created(q, j))
  {
    hide NothingLeft, EntryOk, Created, NewEntry, EntriesOk, AllApart, Apart;
    var e, c := NewEntry(q, j), Created(q, j);
    CreatedEntry(q, j);
    CreatedLeaves(q, j);
    forall o | 0 <= o < |q.records| ensures EntryOk(c, q.records[o]) && Apart(e, q.records[o]) && Apart(q.records[o], e) {
      CreatedOthers(q, j, o);
    }
    AddedEntries(q, c, e, j.front);
    AddedApart(q.records, e, j.front);
  }

  lemma AddedEntries(q: Queue, q': Queue, e: Entry, front: bool)
    requires EntryOk(q', e) && forall o :: 0 <= o < |q.records| ==> EntryOk(q', q.records[o])
    requires q'.records == if front then [e] + q.records else q.records + [e]
    ensures EntriesOk(q')
  {
    hide EntryOk;
  }

  lemma CreateKeeps(q: Queue, j: Join, known: set<nat>)
    requires Shape(q) && j.leg !in q.byLeg
    ensures Shape(Create(q, j, known))
  {
    CreatedKeeps(q, j);
    var at := if j.front then 0 else |q.records|;
    var c := Created(q, j);
    assert c.records[at] == NewEntry(q, j);
    assert c.records[at].id == q.nextEntry && !c.records[at].dispatching && at < |c.records|;
    hide Shape, Created, Announce;
    AnnounceKeeps(c, at, j.leg, known);
  }

  lemma DispatchKeeps(q: Queue, i: nat, free: seq<string>)
    requires Shape(q) && i < |q.records| && q.records[i].id !in q.timers
    requires forall x :: x in free ==> x !in Reserved(q.records, q.records[i].scope)
    ensures Shape(Dispatch(q, i, free))
  {
    var e, e', q' := q.records[i], ToDispatching(q.records[i], q.nextDial, free), Dispatch(q, i, free);
    assert EntryOk(q, e) && EntryOk(q', e');
    forall o | 0 <= o < |q.records| && o != i ensures EntryOk(q', q.records[o]) && Apart(e', q.records[o]) && Apart(q.records[o], e') {
      assert EntryOk(q, q.records[o]) && Apart(e, q.records[o]) && Apart(q.records[o], e);
      ReservedElsewhere(q, i, o, free);
    }
    hide EntryOk, Apart, EntriesOk, AllApart;
    ReplacedLeft(q, q', i, e');
    hide NothingLeft;
    Replaced(q, q', i, e');
  }

  lemma ReservedElsewhere(q: Queue, i: nat, o: nat, free: seq<string>)
    requires i < |q.records| && o < |q.records| && EntryOk(q, q.records[o])
    requires forall x :: x in free ==> x !in Reserved(q.records, q.records[i].scope)
    ensures q.records[i].scope == q.records[o].scope ==> Disjoint(free, q.records[o].reserved) && Disjoint(q.records[o].reserved, free)
  {
    forall x | x in q.records[o].reserved && q.records[i].scope == q.records[o].scope ensures x in Reserved(q.records, q.records[i].scope) {
    }
  }

  // ---- Every operation ----

  lemma {:induction false} FindsOwn(q: Queue, i: nat)
    requires EntriesOk(q) && AllApart(q.records) && i < |q.records|
    ensures IndexOf(q.records, q.records[i].id) == i && IndexOfLeg(q, q.records[i].leg) == i
  {
    var k := IndexOf(q.records, q.records[i].id);
    assert EntryOk(q, q.records[i]);
    assert k == i || Apart(q.records[k], q.records[i]);
  }

  // The index names exactly the legs of the entries.
  lemma IndexFinds(q: Queue, leg: nat)
    requires Shape(q)
    ensures leg in q.byLeg <==> OwnsEntry(q, leg)
  {
    if leg in q.byLeg {
      assert Owns(q.records, leg);
      var k :| 0 <= k < |q.records| && q.records[k].leg == leg;
      FindsOwn(q, k);
    }
  }

  lemma EnqueueKeeps(q: Queue, j: Join, alive: set<nat>, known: set<nat>)
    requires Shape(q)
    ensures Shape(Enqueue(q, j, alive, known))
  {
    IndexFinds(q, j.leg);
    hide Shape, Rejoin, Create;
    var b := Best(q.records, j, alive);
    if !Refused(q, j, known) {
      if b < |q.records| {
        RejoinKeeps(q, b, j, known);
      }
      CreateKeeps(q, j, known);
    }
  }

  lemma RemoveLegKeeps(q: Queue, leg: nat, silent: bool, known: set<nat>)
    requires Shape(q)
    ensures Shape(RemoveLeg(q, leg, silent, known))
  {
    var i := IndexOfLeg(q, leg);
    if i < |q.records| {
      var e := q.records[i];
      AbortKeeps(q, i);
      EndKeeps(q, i, silent, known);
      hide Shape, EndEntry, Retry, IndexOfLeg;
      var a := AbortDial(q, i);
      assert |a.records| == |q.records|;
      hide AbortDial;
      SettleKeeps(a, i);
      var c := Settle(a, i);
      assert |c.records| == |q.records|;
      hide Settle;
      NoteKeeps(c, Aborted(e.id, q.now, e.retryPause));
      RetryKeeps(c, i, e.retryPause);
      RetryKeeps(Note(c, Aborted(e.id, q.now, e.retryPause)), i, e.retryPause);
    }
  }

  lemma SetCallbackKeeps(q: Queue, leg: nat, enabled: bool)
    requires Shape(q)
    ensures Shape(SetCallback(q, leg, enabled))
  {
    var i := IndexOfLeg(q, leg);
    if i < |q.records| {
      var e' := q.records[i].(callbackEnabled := enabled);
      assert EntryOk(q, q.records[i]);
      assert EntryOk(q, e') && Milder(q.records[i], e');
      hide EntryOk, Milder, Shape;
      Touched(q, SetCallback(q, leg, enabled), i, e');
    }
  }

  lemma TakeKeeps(q: Queue, i: nat, known: set<nat>)
    requires Shape(q) && i < |q.records|
    ensures Shape(Take(q, i, known))
  {
    hide Shape, EndEntry;
    var n := Completed(q.records[i].ref, if q.now > q.records[i].createdAt then q.now - q.records[i].createdAt else 0);
    NoteKeeps(q, n);
    EndKeeps(Note(q, n), i, false, known);
  }

  lemma FailureKeeps(q: Queue, i: nat)
    requires Shape(q) && i < |q.records|
    ensures Shape(Failure(q, i)) && |Failure(q, i).records| == |q.records|
  {
    var e' := q.records[i].(retryCount := q.records[i].retryCount + 1);
    assert EntryOk(q, q.records[i]);
    assert EntryOk(q, e') && Milder(q.records[i], e');
    hide EntryOk, Milder, Shape;
    Touched(q, Failure(q, i), i, e');
  }

  lemma DialFailedKeeps(q: Queue, i: nat, known: set<nat>)
    requires Shape(q) && i < |q.records|
    ensures Shape(DialFailed(q, i, known))
  {
    hide Shape, Failure, EndEntry, Retry, Note, PublishPlaced;
    var e, f := q.records[i], Failure(q, i);
    FailureKeeps(q, i);
    PlacedLength(f, i);
    EndKeeps(f, i, false, known);
    NoteKeeps(EndEntry(f, i, false, known), Offline(e.ref, e.id));
    PlacedKeeps(f, i);
    RetryKeeps(PublishPlaced(f, i), i, e.retryPause);
  }

  lemma DialDoneKeeps(q: Queue, dial: nat, answered: bool, known: set<nat>)
    requires Shape(q)
    ensures Shape(DialDone(q, dial, answered, known))
  {
    hide Shape, DialFailed, Take;
    DialGoneKeeps(q, dial);
    var r := q.(ringing := q.ringing - {dial});
    var i := IndexOfDial(r.records, dial);
    if i < |r.records| {
      TakeKeeps(r, i, known);
      DialFailedKeeps(r, i, known);
    }
  }

  lemma PlacedLength(q: Queue, i: nat)
    requires i < |q.records|
    ensures |PublishPlaced(q, i).records| == |q.records|
  {
  }

  lemma {:induction false} RefreshKeeps(q: Queue, scope: string, i: nat)
    requires Shape(q) && i <= |q.records|
    ensures Shape(RefreshFrom(q, scope, i))
    decreases |q.records| - i
  {
    hide Shape;
    if i < |q.records| {
      var e := q.records[i];
      if e.scope != scope || e.dispatching {
        RefreshKeeps(q, scope, i + 1);
      } else {
        var delay := if e.retryNotBefore > q.now then e.retryNotBefore - q.now else 0;
        ScheduleKeeps(q, i, delay);
        RefreshKeeps(Schedule(q, e.id, delay), scope, i + 1);
      }
    }
  }

  lemma BranchKeeps(q: Queue, i: nat, online: bool, available: seq<string>, known: set<nat>)
    requires Shape(q) && i < |q.records| && q.records[i].id !in q.timers
    ensures Shape(Branch(q, i, online, available, known))
  {
    hide Shape, EndEntry, PublishPlaced, Dispatch, Note;
    var e := q.records[i];
    EndKeeps(q, i, false, known);
    NoteKeeps(EndEntry(q, i, false, known), Offline(e.ref, e.id));
    PlacedKeeps(q, i);
    DispatchKeeps(q, i, Free(available, Reserved(q.records, e.scope)));
  }

  lemma FireKeeps(q: Queue, id: nat, online: bool, available: seq<string>, known: set<nat>)
    requires Shape(q)
    ensures Shape(Fire(q, id, online, available, known))
  {
    hide Shape, Branch, Schedule;
    TimerGoneKeeps(q, id);
    var r := q.(timers := q.timers - {id});
    var i := IndexOf(r.records, id);
    if i < |r.records| {
      if !r.records[i].dispatching && r.records[i].retryNotBefore > r.now {
        ScheduleKeeps(r, i, r.records[i].retryNotBefore - r.now);
      }
      BranchKeeps(r, i, online, available, known);
    }
  }

  lemma NextKeeps(q: Queue, s: Step)
    requires Shape(q) && Enabled(q, s)
    ensures Shape(Next(q, s))
  {
    hide Shape;
    match s
    case Pass(ms) => PassKeeps(q, ms);
    case DoEnqueue(j, alive, known) => EnqueueKeeps(q, j, alive, known);
    case DoRemoveLeg(leg, silent, known) => RemoveLegKeeps(q, leg, silent, known);
    case DoSetCallback(leg, enabled) => SetCallbackKeeps(q, leg, enabled);
    case DoTake(id, known) =>
      var i := IndexOf(q.records, id);
      if i < |q.records| { TakeKeeps(q, i, known); }
    case DoDialDone(dial, answered, known) => DialDoneKeeps(q, dial, answered, known);
    case DoRefresh(scope) => RefreshKeeps(q, scope, 0);
    case DoFire(id, online, available, known) => FireKeeps(q, id, online, available, known);
  }
}
