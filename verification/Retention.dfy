/** Entities kept alive by tickets, and freed when none has been held for a while. */
module RetentionSpec {

  datatype Option<+T> = None | Some(value: T)

  datatype Timer = Timer(due: nat, generation: nat)

  // Ticket number i is the i-th one taken; `released` says which have been given back, and `active`
  // lists the others in the order they were taken.
  datatype Retainer = Retainer(
    ttl: nat, count: int, timer: Option<Timer>, generation: nat, cleared: bool, released: seq<bool>, active: seq<nat>)

  function Begin(r: Retainer): Retainer {
    if r.cleared then r else r.(generation := r.generation + 1, timer := None, count := r.count + 1)
  }

  function End(r: Retainer, now: nat): Retainer {
    if r.cleared then r
    else
      var count := if r.count - 1 > 0 then r.count - 1 else 0;
      if count > 0 then r.(count := count)
      else r.(count := count, generation := r.generation + 1, timer := Some(Timer(now + r.ttl, r.generation + 1)))
  }

  // A new entity belongs to nobody, so its timer runs.
  function New(ttl: nat, now: nat): Retainer { End(Retainer(ttl, 0, None, 0, false, [], []), now) }

  function Retain(r: Retainer): Retainer {
    var b := Begin(r);
    b.(released := b.released + [false], active := b.active + [|b.released|])
  }

  function Without(ids: seq<nat>, id: nat): seq<nat>
    decreases |ids|
  {
    if ids == [] then [] else if ids[0] == id then ids[1..] else [ids[0]] + Without(ids[1..], id)
  }

  predicate Unreleased(r: Retainer, id: nat) { id < |r.released| && !r.released[id] }

  // Giving a ticket back again does nothing.
  function Release(r: Retainer, id: nat, now: nat): Retainer {
    if Unreleased(r, id) then End(r.(released := r.released[id := true], active := Without(r.active, id)), now) else r
  }

  function Clear(r: Retainer): Retainer {
    r.(cleared := true, generation := r.generation + 1, count := 0, timer := None)
  }

  function Fire(r: Retainer): Retainer { r.(timer := None) }

  // Whether the timer's callback reaches the entity.
  predicate Frees(r: Retainer) { r.timer.Some? && r.timer.value.generation == r.generation }

  // ---- Everything that can happen to an entity, on a clock that does not go back ----

  datatype Move = Pass(ms: nat) | Take | Give(id: nat) | Expire | Destroy

  datatype World = World(clock: nat, r: Retainer)

  predicate Enabled(w: World, m: Move) {
    match m
    case Give(id) => id < |w.r.released|
    case Expire => w.r.timer.Some? && w.clock >= w.r.timer.value.due
    case _ => true
  }

  function Next(w: World, m: Move): World {
    match m
    case Pass(ms) => w.(clock := w.clock + ms)
    case Take => w.(r := Retain(w.r))
    case Give(id) => w.(r := Release(w.r, id, w.clock))
    case Expire => w.(r := Fire(w.r))
    case Destroy => w.(r := Clear(w.r))
  }

  function After(w: World, h: seq<Move>): World
    decreases |h|
  {
    if h == [] then w else Next(After(w, h[..|h| - 1]), h[|h| - 1])
  }

  ghost predicate Legal(w: World, h: seq<Move>) {
    forall k :: 0 <= k < |h| ==> Enabled(After(w, h[..k]), h[k])
  }

  function Begun(ttl: nat, now: nat): World { World(now, New(ttl, now)) }

  function Held(released: seq<bool>): nat
    decreases |released|
  {
    if released == [] then 0 else Held(released[..|released| - 1]) + (if released[|released| - 1] then 0 else 1)
  }

  // ---- Tickets ----

  // The count is the number of tickets out, and the list names exactly those, in order.
  ghost predicate Counted(r: Retainer) {
    && (r.cleared ==> r.timer == None)
    && (!r.cleared ==> r.count == Held(r.released))
    && (forall i :: 0 <= i < |r.active| ==> Unreleased(r, r.active[i]))
    && Increasing(r.active)
    && (forall id: nat :: Unreleased(r, id) ==> id in r.active)
  }

  lemma {:induction false} HeldUpdate(released: seq<bool>, id: nat)
    requires id < |released| && !released[id]
    ensures Held(released[id := true]) == Held(released) - 1
    decreases |released|
  {
    var n := |released| - 1;
    if id < n {
      HeldUpdate(released[..n], id);
      assert released[id := true][..n] == released[..n][id := true];
    } else {
      assert released[id := true][..n] == released[..n];
    }
  }

  lemma {:induction false} HeldNone(released: seq<bool>)
    ensures Held(released) == 0 <==> forall i :: 0 <= i < |released| ==> released[i]
    decreases |released|
  {
    if released != [] {
      HeldNone(released[..|released| - 1]);
    }
  }

  ghost predicate Increasing(ids: seq<nat>) { forall i, j :: 0 <= i < j < |ids| ==> ids[i] < ids[j] }

  lemma {:induction false} WithoutMeans(ids: seq<nat>, id: nat)
    requires Increasing(ids)
    ensures Increasing(Without(ids, id))
    ensures forall x :: x in Without(ids, id) <==> x in ids && x != id
    decreases |ids|
  {
    hide Increasing;
    if ids != [] {
      var rest := ids[1..];
      assert ids == [ids[0]] + rest;
      FirstIsLeast(ids);
      if ids[0] != id {
        WithoutMeans(rest, id);
        LeastFirst(ids[0], Without(rest, id));
      }
    }
  }

  lemma FirstIsLeast(ids: seq<nat>)
    requires ids != [] && Increasing(ids)
    ensures Increasing(ids[1..]) && forall x :: x in ids[1..] ==> ids[0] < x
  {
  }

  lemma LeastFirst(x: nat, ids: seq<nat>)
    requires Increasing(ids) && forall y :: y in ids ==> x < y
    ensures Increasing([x] + ids)
  {
    forall i, j | 0 <= i < j < |[x] + ids| ensures ([x] + ids)[i] < ([x] + ids)[j] {
      assert ids[j - 1] in ids;
    }
  }

  lemma GiveCounted(r: Retainer, id: nat, now: nat)
    requires Counted(r) && Unreleased(r, id)
    ensures Counted(Release(r, id, now))
  {
    HeldUpdate(r.released, id);
    WithoutMeans(r.active, id);
    var r' := Release(r, id, now);
    assert r'.active == Without(r.active, id) && r'.released == r.released[id := true];
    hide Without, Held;
    forall i | 0 <= i < |r'.active| ensures Unreleased(r', r'.active[i]) {
      assert r'.active[i] in r'.active;
    }
    forall x: nat | Unreleased(r', x) ensures x in r'.active {
      assert Unreleased(r, x);
    }
  }

  lemma NextCounted(w: World, m: Move)
    requires Counted(w.r) && Enabled(w, m)
    ensures Counted(Next(w, m).r)
  {
    match m
    case Take => TakeCounted(w.r);
    case Give(id) => if Unreleased(w.r, id) { GiveCounted(w.r, id, w.clock); }
    case _ =>
  }

  lemma TakeCounted(r: Retainer)
    requires Counted(r)
    ensures Counted(Retain(r))
  {
    var r' := Retain(r);
    assert r'.released[..|r.released|] == r.released;
    forall id: nat | Unreleased(r', id) ensures id in r'.active {
      assert id < |r.released| ==> Unreleased(r, id);
      assert id == |r.released| ==> r'.active[|r.active|] == id;
    }
  }

  // ---- The timer ----

  // Nobody has held a ticket since the state after k moves, nor has the entity been destroyed.
  ghost predicate IdleFrom(w: World, h: seq<Move>, k: nat) {
    k <= |h| && forall j :: k <= j <= |h| ==> var r := After(w, h[..j]).r; !r.cleared && Held(r.released) == 0
  }

  ghost predicate ExpiredSinceTake(h: seq<Move>) {
    exists k :: 0 <= k < |h| && h[k] == Expire && forall j :: k < j < |h| ==> h[j] != Take
  }

  // A pending timer was set when the last ticket was given back, and is for a whole TTL from then.
  ghost predicate TimerOk(w: World, h: seq<Move>) {
    var now := After(w, h);
    match now.r.timer
    case None => true
    case Some(t) =>
      && t.generation == now.r.generation
      && exists k: nat :: IdleFrom(w, h, k) && After(w, h[..k]).clock + now.r.ttl == t.due
  }

  // It is pending exactly while no ticket is out, unless it has expired since the last one was taken.
  ghost predicate PendingOk(r: Retainer, h: seq<Move>) {
    && (r.timer.Some? <==> !r.cleared && Held(r.released) == 0 && !ExpiredSinceTake(h))
    && (!r.cleared && Held(r.released) > 0 ==> !ExpiredSinceTake(h))
  }

  lemma ExpiredNext(h: seq<Move>)
    requires h != []
    ensures var m, before := h[|h| - 1], h[..|h| - 1];
            ExpiredSinceTake(h) <==> m == Expire || (m != Take && ExpiredSinceTake(before))
  {
    var n := |h| - 1;
    var m, before := h[n], h[..n];
    assert forall j :: 0 <= j < n ==> before[j] == h[j];
    if m != Take && m != Expire {
      if ExpiredSinceTake(before) {
        var k :| 0 <= k < n && before[k] == Expire && forall j :: k < j < n ==> before[j] != Take;
        assert h[k] == Expire;
      }
      if ExpiredSinceTake(h) {
        var k :| 0 <= k < |h| && h[k] == Expire && forall j :: k < j < |h| ==> h[j] != Take;
        assert before[k] == Expire;
      }
    }
  }

  lemma NextPending(w: World, h: seq<Move>, m: Move)
    requires Counted(w.r) && PendingOk(w.r, h) && Enabled(w, m)
    ensures PendingOk(Next(w, m).r, h + [m])
  {
    assert (h + [m])[..|h|] == h;
    ExpiredNext(h + [m]);
    hide ExpiredSinceTake;
    match m
    case Take =>
      assert Retain(w.r).released[..|w.r.released|] == w.r.released;
    case Give(id) =>
      if Unreleased(w.r, id) {
        HeldUpdate(w.r.released, id);
      }
    case _ =>
  }

  lemma AfterPrefix(w: World, h: seq<Move>, m: Move, k: nat)
    requires k <= |h|
    ensures After(w, (h + [m])[..k]) == After(w, h[..k])
  {
    assert (h + [m])[..k] == h[..k];
  }

  lemma AfterLast(w: World, h: seq<Move>, m: Move)
    ensures After(w, h + [m]) == Next(After(w, h), m)
  {
    assert (h + [m])[..|h|] == h;
  }

  // One more move that leaves the entity idle.
  lemma IdleGrows(w: World, h: seq<Move>, m: Move, k: nat)
    requires IdleFrom(w, h, k)
    requires var r := Next(After(w, h), m).r; !r.cleared && Held(r.released) == 0
    ensures IdleFrom(w, h + [m], k)
  {
    hide After, Next, Held;
    var g := h + [m];
    AfterLast(w, h, m);
    assert g[..|g|] == g;
    forall j | k <= j <= |g| ensures var r := After(w, g[..j]).r; !r.cleared && Held(r.released) == 0 {
      if j <= |h| {
        AfterPrefix(w, h, m, j);
      }
    }
  }

  lemma IdleStarts(w: World, h: seq<Move>)
    requires var r := After(w, h).r; !r.cleared && Held(r.released) == 0
    ensures IdleFrom(w, h, |h|)
  {
    assert h[..|h|] == h;
  }

  lemma NextTimer(w: World, h: seq<Move>, m: Move)
    requires TimerOk(w, h) && Counted(After(w, h).r) && PendingOk(After(w, h).r, h) && Enabled(After(w, h), m)
    ensures TimerOk(w, h + [m])
  {
    var now, g := After(w, h), h + [m];
    AfterLast(w, h, m);
    var next := Next(now, m);
    NextPending(now, h, m);
    if next.r.timer.Some? {
      assert !next.r.cleared && Held(next.r.released) == 0;
      if next.r.timer == now.r.timer {
        var k: nat :| IdleFrom(w, h, k) && After(w, h[..k]).clock + now.r.ttl == now.r.timer.value.due;
        IdleGrows(w, h, m, k);
        AfterPrefix(w, h, m, k);
      } else {
        IdleStarts(w, g);
        assert g[..|g|] == g;
      }
    }
  }

  ghost predicate Inv(w: World, h: seq<Move>) {
    Counted(After(w, h).r) && PendingOk(After(w, h).r, h) && TimerOk(w, h)
  }

  lemma {:induction false} RunKeeps(ttl: nat, now: nat, h: seq<Move>)
    requires Legal(Begun(ttl, now), h)
    ensures Inv(Begun(ttl, now), h)
    decreases |h|
  {
    hide Inv, Next, Legal, Enabled, Begun;
    var w := Begun(ttl, now);
    if h == [] {
      BeginsOk(ttl, now);
    } else {
      var n := |h| - 1;
      LegalBefore(w, h);
      RunKeeps(ttl, now, h[..n]);
      assert h == h[..n] + [h[n]];
      StepKeeps(w, h[..n], h[n]);
    }
  }

  lemma BeginsOk(ttl: nat, now: nat)
    ensures Inv(Begun(ttl, now), [])
  {
    IdleStarts(Begun(ttl, now), []);
  }

  lemma LegalBefore(w: World, h: seq<Move>)
    requires Legal(w, h) && h != []
    ensures var n := |h| - 1; Legal(w, h[..n]) && Enabled(After(w, h[..n]), h[n])
  {
    hide Enabled, After;
    var n := |h| - 1;
    assert forall k :: 0 <= k < n ==> h[..n][..k] == h[..k];
  }

  lemma StepKeeps(w: World, h: seq<Move>, m: Move)
    requires Inv(w, h) && Enabled(After(w, h), m)
    ensures Inv(w, h + [m])
  {
    hide Counted, PendingOk, TimerOk, Enabled, Next;
    AfterLast(w, h, m);
    NextCounted(After(w, h), m);
    NextPending(After(w, h), h, m);
    NextTimer(w, h, m);
  }

  /** Until destruction the count is the number of tickets out, whatever the order and repetition of
      releases; and the timer is pending exactly while that number is zero and it has not expired. */
  lemma CountAndTimer(ttl: nat, now: nat, h: seq<Move>)
    requires Legal(Begun(ttl, now), h)
    ensures var r := After(Begun(ttl, now), h).r;
            && (!r.cleared ==> r.count == Held(r.released))
            && (r.timer.Some? <==> !r.cleared && Held(r.released) == 0 && !ExpiredSinceTake(h))
            && (forall id: nat :: id in r.active <==> Unreleased(r, id))
  {
    RunKeeps(ttl, now, h);
  }

  /** An expiring timer always reaches the entity, and only after a whole TTL in which no ticket was
      out and the entity was not destroyed. */
  lemma FreedAfterIdleTtl(ttl: nat, now: nat, h: seq<Move>)
    requires Legal(Begun(ttl, now), h) && Enabled(After(Begun(ttl, now), h), Expire)
    ensures Frees(After(Begun(ttl, now), h).r)
    ensures exists k: nat :: IdleFrom(Begun(ttl, now), h, k)
                       && After(Begun(ttl, now), h[..k]).clock + ttl <= After(Begun(ttl, now), h).clock
  {
    var w := Begun(ttl, now);
    RunKeeps(ttl, now, h);
    SameTtl(w, h);
    var r := After(w, h).r;
    var k: nat :| IdleFrom(w, h, k) && After(w, h[..k]).clock + r.ttl == r.timer.value.due;
  }

  /** The timer is set for exactly a whole TTL from the moment the last ticket is given back, or the entity
      was made, and not before; taking a ticket stops it. */
  lemma LastTicketStartsTheTimer(ttl: nat, now: nat, h: seq<Move>, id: nat)
    requires Legal(Begun(ttl, now), h) && !After(Begun(ttl, now), h).r.cleared && Unreleased(After(Begun(ttl, now), h).r, id)
    ensures var w := After(Begun(ttl, now), h);
            var r, out := Next(w, Give(id)).r, Held(w.r.released);
            && out > 0 && r.count == out - 1 && !Unreleased(r, id)
            && (out == 1 ==> r.timer.Some? && r.timer.value.due == w.clock + ttl)
            && (out > 1 ==> r.timer == None)
            && Next(w, Take).r.timer == None && Next(w, Take).r.count == out + 1
    ensures New(ttl, now).timer.Some? && New(ttl, now).timer.value.due == now + ttl
  {
    hide After, Next;
    RunKeeps(ttl, now, h);
    SameTtl(Begun(ttl, now), h);
    GivenMeans(After(Begun(ttl, now), h), id);
  }

  lemma GivenMeans(w: World, id: nat)
    requires Counted(w.r) && !w.r.cleared && Unreleased(w.r, id) && (w.r.timer.Some? ==> Held(w.r.released) == 0)
    ensures var r, out := Next(w, Give(id)).r, Held(w.r.released);
            && out > 0 && r.count == out - 1 && !Unreleased(r, id)
            && (out == 1 ==> r.timer.Some? && r.timer.value.due == w.clock + w.r.ttl)
            && (out > 1 ==> r.timer == None)
            && Next(w, Take).r.timer == None && Next(w, Take).r.count == out + 1
  {
    HeldUpdate(w.r.released, id);
  }

  lemma {:induction false} SameTtl(w: World, h: seq<Move>)
    ensures After(w, h).r.ttl == w.r.ttl
    decreases |h|
  {
    if h != [] {
      SameTtl(w, h[..|h| - 1]);
    }
  }

  // ---- Several tickets given back at once ----

  function ReleaseAll(r: Retainer, ids: seq<nat>, now: nat): Retainer
    decreases |ids|
  {
    if ids == [] then r else ReleaseAll(Release(r, ids[0], now), ids[1..], now)
  }

  // Two tickets may be given back in either order.
  lemma ReleaseSwaps(r: Retainer, a: nat, b: nat, now: nat)
    requires Counted(r)
    ensures Release(Release(r, a, now), b, now) == Release(Release(r, b, now), a, now)
  {
    if a != b && Unreleased(r, a) && Unreleased(r, b) {
      GiveCounted(r, a, now);
      GiveCounted(r, b, now);
      HeldUpdate(r.released, a);
      HeldUpdate(r.released, b);
      var ra, rb := r.released[a := true], r.released[b := true];
      HeldUpdate(ra, b);
      assert ra[b := true] == rb[a := true];
      WithoutSwaps(r.active, a, b);
    }
  }

  lemma {:induction false} WithoutSwaps(ids: seq<nat>, a: nat, b: nat)
    ensures Without(Without(ids, a), b) == Without(Without(ids, b), a)
    decreases |ids|
  {
    if ids != [] && a != b {
      WithoutSwaps(ids[1..], a, b);
    }
  }

  lemma {:induction false} ReleaseAllCounted(r: Retainer, ids: seq<nat>, now: nat)
    requires Counted(r)
    ensures Counted(ReleaseAll(r, ids, now))
    ensures forall x: nat :: Unreleased(ReleaseAll(r, ids, now), x) <==> Unreleased(r, x) && x !in ids
    decreases |ids|
  {
    if ids != [] {
      var r1 := Release(r, ids[0], now);
      if Unreleased(r, ids[0]) {
        GiveCounted(r, ids[0], now);
      }
      assert ids == [ids[0]] + ids[1..];
      ReleaseAllCounted(r1, ids[1..], now);
    }
  }

  lemma {:induction false} ReleaseFirst(r: Retainer, id: nat, ids: seq<nat>, now: nat)
    requires Counted(r) && id in ids
    ensures ReleaseAll(Release(r, id, now), ids, now) == ReleaseAll(r, ids, now)
    decreases |ids|
  {
    hide Counted, Release;
    if ids[0] == id {
      ReleaseTwice(r, id, now);
    } else {
      assert ids == [ids[0]] + ids[1..];
      ReleaseSwaps(r, id, ids[0], now);
      ReleaseCounted(r, ids[0], now);
      ReleaseFirst(Release(r, ids[0], now), id, ids[1..], now);
    }
  }

  lemma ReleaseTwice(r: Retainer, id: nat, now: nat)
    ensures Release(Release(r, id, now), id, now) == Release(r, id, now)
  {
  }

  lemma ReleaseCounted(r: Retainer, id: nat, now: nat)
    requires Counted(r)
    ensures Counted(Release(r, id, now))
  {
    if Unreleased(r, id) {
      GiveCounted(r, id, now);
    }
  }

  lemma {:induction false} NothingToRelease(r: Retainer, ids: seq<nat>, now: nat)
    requires forall x :: x in ids ==> !Unreleased(r, x)
    ensures ReleaseAll(r, ids, now) == r
    decreases |ids|
  {
    if ids != [] {
      NothingToRelease(r, ids[1..], now);
    }
  }

  lemma {:induction false} Absorbed(r: Retainer, ids: seq<nat>, others: seq<nat>, now: nat)
    requires Counted(r) && forall x :: x in ids ==> x in others
    ensures ReleaseAll(ReleaseAll(r, ids, now), others, now) == ReleaseAll(r, others, now)
    decreases |ids|
  {
    if ids != [] {
      ReleaseCounted(r, ids[0], now);
      Absorbed(Release(r, ids[0], now), ids[1..], others, now);
      ReleaseFirst(r, ids[0], others, now);
    }
  }

  /** Neither the order nor the repetition of releases in one turn matters. */
  lemma ReleaseAllUnordered(r: Retainer, ids: seq<nat>, others: seq<nat>, now: nat)
    requires Counted(r) && forall x :: x in ids <==> x in others
    ensures ReleaseAll(r, ids, now) == ReleaseAll(r, others, now)
  {
    ReleaseAllCounted(r, ids, now);
    NothingToRelease(ReleaseAll(r, ids, now), others, now);
    Absorbed(r, ids, others, now);
  }
}

module Retention {
  import opened RetentionSpec

  class RetainedEntity {
    const ttlMs: nat
    var activeOperationCount: int
    var freeTimer: Option<Timer>
    var retentionGeneration: nat
    var cleared: bool
    var ticketReleased: seq<bool>
    var activeTickets: seq<nat>

    function State(): Retainer
      reads this
    {
      Retainer(ttlMs, activeOperationCount, freeTimer, retentionGeneration, cleared, ticketReleased, activeTickets)
    }

    constructor (ttl: nat, now: nat)
      ensures State() == New(ttl, now)
    {
      ttlMs := ttl;
      activeOperationCount, freeTimer, retentionGeneration, cleared := 0, None, 0, false;
      ticketReleased, activeTickets := [], [];
      new;
      OpEnd(now);
    }

    method Retain() returns (ticket: nat)
      modifies this
      ensures State() == RetentionSpec.Retain(old(State())) && ticket == |old(ticketReleased)|
    {
      OpBegin();
      ticket := |ticketReleased|;
      ticketReleased := ticketReleased + [false];
      activeTickets := activeTickets + [ticket];
    }

    method ReleaseTicket(ticket: nat, now: nat)
      modifies this
      ensures State() == Release(old(State()), ticket, now)
    {
      if ticket >= |ticketReleased| || ticketReleased[ticket] {
        return;
      }
      ticketReleased := ticketReleased[ticket := true];
      activeTickets := Without(activeTickets, ticket);
      OpEnd(now);
    }

    method OpBegin()
      modifies this
      ensures State() == Begin(old(State()))
    {
      if cleared {
        return;
      }
      retentionGeneration := retentionGeneration + 1;
      freeTimer := None;
      activeOperationCount := activeOperationCount + 1;
    }

    method OpEnd(now: nat)
      modifies this
      ensures State() == End(old(State()), now)
    {
      if cleared {
        return;
      }
      activeOperationCount := if activeOperationCount - 1 > 0 then activeOperationCount - 1 else 0;
      if activeOperationCount > 0 {
        return;
      }
      retentionGeneration := retentionGeneration + 1;
      freeTimer := Some(Timer(now + ttlMs, retentionGeneration));
    }

    // The timer's callback; `frees` says whether the entity's own handler runs.
    method TimerFires() returns (frees: bool)
      requires freeTimer.Some?
      modifies this
      ensures State() == Fire(old(State())) && frees == Frees(old(State()))
    {
      var generation := freeTimer.value.generation;
      freeTimer := None;
      frees := generation == retentionGeneration;
    }

    method ClearRetention()
      modifies this
      ensures State() == Clear(old(State()))
    {
      cleared := true;
      retentionGeneration := retentionGeneration + 1;
      activeOperationCount := 0;
      freeTimer := None;
    }
  }

  // The tickets of one entity among those of several.
  function IdsOf(tickets: seq<(RetainedEntity, nat)>, e: RetainedEntity): seq<nat>
    decreases |tickets|
  {
    if tickets == [] then []
    else if tickets[0].0 == e then [tickets[0].1] + IdsOf(tickets[1..], e)
    else IdsOf(tickets[1..], e)
  }

  /** Several tickets that are given back as one, once. */
  class CombinedTicket {
    const tickets: seq<(RetainedEntity, nat)>
    var released: bool

    constructor (all: seq<(RetainedEntity, nat)>)
      ensures tickets == all && !released
    {
      tickets, released := all, false;
    }

    ghost function Entities(): set<object>
    {
      set i | 0 <= i < |tickets| :: tickets[i].0
    }

    method Release(now: nat)
      modifies this, Entities()
      ensures released
      ensures forall e: RetainedEntity :: e in Entities() ==>
                old(allocated(e)) && e.State() == if old(released) then old(e.State()) else ReleaseAll(old(e.State()), IdsOf(tickets, e), now)
    {
      if released {
        return;
      }
      released := true;
      var i := 0;
      assert tickets[0..] == tickets;
      while i < |tickets|
        invariant 0 <= i <= |tickets| && released
        invariant forall e: RetainedEntity :: e in Entities() ==>
                    ReleaseAll(old(e.State()), IdsOf(tickets, e), now) == ReleaseAll(e.State(), IdsOf(tickets[i..], e), now)
      {
        tickets[i].0.ReleaseTicket(tickets[i].1, now);
        i := i + 1;
      }
    }
  }
}
