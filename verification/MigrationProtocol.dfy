/** Any number of callers working on legs under per-leg locks, waiting for migrations with and
    without a lock, and migrating legs, interleaved at every await. */
module MigrationProtocol {
  import opened JsText
  import opened LockSpec
  import opened MigrationSpec

  // Locking a blank leg throws before anything happens.
  type Leg = t: Text | Trim(t) != [] ghost witness [0x61]

  // What a caller does between two points where it holds no lock: wait for the leg it has locked
  // and work on it; wait for legs without a lock; lock several legs and not wait; migrate a leg.
  datatype Section = Guarded(leg: Leg) | Free(legs: seq<Text>) | Many(legs: seq<Text>) | Migration(leg: Leg)

  function Locks(c: Section): seq<Text> {
    match c
    case Free(_) => []
    case Many(legs) => SectionKeys(legs)
    case Guarded(leg) => [Trim(leg)]
    case Migration(leg) => [Trim(leg)]
  }

  // Waiting takes the legs as they are, each non-empty one once, in ascending order.
  function Sorted(legs: seq<Text>): (r: seq<Text>)
    ensures forall x :: x in r <==> x != [] && x in legs
    decreases |legs|
  {
    if legs == [] then []
    else
      var rest := Sorted(legs[1..]);
      assert legs == [legs[0]] + legs[1..];
      InsertHas(legs[0], rest);
      if legs[0] == [] then rest else Insert(legs[0], rest)
  }

  lemma {:induction false} InsertHas(k: Text, ks: seq<Text>)
    ensures forall x :: x in Insert(k, ks) <==> x == k || x in ks
    decreases |ks|
  {
    if ks != [] {
      InsertHas(k, ks[1..]);
      assert ks == [ks[0]] + ks[1..];
    }
  }

  function Waits(c: Section): seq<Text> {
    match c
    case Guarded(leg) => Sorted([leg])
    case Free(legs) => Sorted(legs)
    case _ => []
  }

  datatype Phase = Locking | Checking | Waiting | Running | Migrating | Releasing

  // A caller holds the first `held` locks of its current section, and `todo` are the legs it has
  // still to find at rest.
  datatype Task = Task(job: seq<Section>, held: nat, todo: seq<Text>, phase: Phase)

  datatype State = State(tasks: seq<Task>, owners: map<Text, nat>, board: Board)

  // A free lock may go to any caller that asks. `moves` says whether a migration passes the checks
  // that do not concern the board. Stop is the shutdown of the service, at any moment.
  datatype Move = Go(t: nat, moves: bool) | Stop

  function Start(jobs: seq<seq<Section>>): State {
    State(seq(|jobs|, i requires 0 <= i < |jobs| => Task(jobs[i], 0, [], Locking)), map[], QUIET)
  }

  predicate Enabled(s: State, m: Move) {
    match m
    case Stop => true
    case Go(t, _) =>
      && t < |s.tasks| && s.tasks[t].job != [] && s.tasks[t].phase != Waiting
      && !LockBlocked(s, s.tasks[t])
  }

  predicate WantsLock(task: Task) {
    task.job != [] && task.phase == Locking && task.held < |Locks(task.job[0])|
  }

  predicate LockBlocked(s: State, task: Task) {
    WantsLock(task) && Locks(task.job[0])[task.held] in s.owners
  }

  function Wake(tasks: seq<Task>, woken: set<nat>): seq<Task> {
    seq(|tasks|, i requires 0 <= i < |tasks| => if i in woken then tasks[i].(phase := Checking) else tasks[i])
  }

  function Everyone(b: Board): set<nat> {
    set leg, c | leg in b.waiters && c in b.waiters[leg] :: c
  }

  function Put(s: State, t: nat, task: Task): State
    requires t < |s.tasks|
  {
    s.(tasks := s.tasks[t := task])
  }

  function Finish(s: State, t: nat, leg: Text): State
    requires t < |s.tasks|
  {
    var woken := set c | c in Woken(s.board, leg);
    State(Wake(s.tasks, woken)[t := s.tasks[t].(phase := Releasing)], s.owners, End(s.board, leg))
  }

  function Step(s: State, m: Move): State
    requires Enabled(s, m)
  {
    match m
    case Stop => State(Wake(s.tasks, Everyone(s.board)), s.owners, QUIET)
    case Go(t, moves) => StepTask(s, t, moves)
  }

  function StepTask(s: State, t: nat, moves: bool): State
    requires Enabled(s, Go(t, moves))
  {
    var task := s.tasks[t];
    var c := task.job[0];
    match task.phase
    case Locking =>
      if task.held < |Locks(c)| then
        Put(s, t, task.(held := task.held + 1)).(owners := s.owners[Locks(c)[task.held] := t])
      else Put(s, t, task.(phase := Checking, todo := Waits(c)))
    case Checking =>
      if task.todo == [] then Put(s, t, task.(phase := Running))
      else if task.todo[0] in s.board.migrating then
        Put(s, t, task.(phase := Waiting)).(board := Register(s.board, task.todo[0], t))
      else Put(s, t, task.(todo := task.todo[1..]))
    case Running =>
      if c.Migration? && moves && c.leg !in s.board.migrating then
        Put(s, t, task.(phase := Migrating)).(board := Begin(s.board, c.leg))
      else Put(s, t, task.(phase := Releasing))
    case Migrating => if c.Migration? then Finish(s, t, c.leg) else s
    case Releasing =>
      if 0 < task.held <= |Locks(c)| then
        Put(s, t, task.(held := task.held - 1)).(owners := s.owners - {Locks(c)[task.held - 1]})
      else Put(s, t, Task(task.job[1..], 0, [], Locking))
    case Waiting => s
  }

  // ---- What every step keeps ----

  ghost predicate Holds(task: Task, k: Text) {
    task.job != [] && task.held <= |Locks(task.job[0])| && k in Locks(task.job[0])[..task.held]
  }

  ghost predicate Awaits(task: Task, leg: Text) {
    task.job != [] && task.phase == Waiting && task.todo != [] && task.todo[0] == leg
  }

  ghost predicate Moves(task: Task, leg: Text) {
    task.job != [] && task.phase == Migrating && task.job[0].Migration? && task.job[0].leg == leg
  }

  ghost predicate TaskOk(task: Task) {
    if task.job == [] then task.phase == Locking && task.held == 0
    else
      var c := task.job[0];
      && task.held <= |Locks(c)|
      && (task.phase != Locking && task.phase != Releasing ==> task.held == |Locks(c)|)
      && (task.phase == Waiting ==> task.todo != [])
      && (task.phase == Checking || task.phase == Waiting ==> forall leg :: leg in task.todo ==> leg in Waits(c))
      && (task.phase == Migrating ==> c.Migration?)
  }

  // A lock's owner is the one caller that holds it.
  ghost predicate KeyOk(s: State, k: Text) {
    && (k in s.owners ==> s.owners[k] < |s.tasks|)
    && (forall t :: 0 <= t < |s.tasks| ==> (Holds(s.tasks[t], k) <==> k in s.owners && s.owners[k] == t))
  }

  // A leg is marked only while a caller is moving it.
  ghost predicate MarkOk(s: State, leg: Text) {
    leg in s.board.migrating ==> exists t :: 0 <= t < |s.tasks| && Moves(s.tasks[t], leg)
  }

  // Exactly the blocked callers are registered, each once, and only for a leg that is marked.
  ghost predicate QueueOk(s: State, leg: Text) {
    var ws := WaitersOf(s.board, leg);
    && (leg in s.board.waiters ==> ws != [] && leg in s.board.migrating)
    && (forall i :: 0 <= i < |ws| ==> ws[i] < |s.tasks| && Awaits(s.tasks[ws[i]], leg))
    && (forall i, j :: 0 <= i < j < |ws| ==> ws[i] != ws[j])
    && (forall t :: 0 <= t < |s.tasks| && Awaits(s.tasks[t], leg) ==> t in ws)
  }

  ghost predicate LegOk(s: State, leg: Text) { MarkOk(s, leg) && QueueOk(s, leg) }

  ghost predicate Inv(s: State) {
    && (forall t :: 0 <= t < |s.tasks| ==> TaskOk(s.tasks[t]))
    && (forall k: Text :: KeyOk(s, k))
    && (forall leg: Text :: LegOk(s, leg))
  }

  lemma StartKeeps(jobs: seq<seq<Section>>)
    ensures Inv(Start(jobs))
  {
    var s := Start(jobs);
    forall k: Text ensures KeyOk(s, k) {}
    forall leg: Text ensures LegOk(s, leg) {}
  }

  lemma LocksAscend(c: Section)
    ensures Ascending(Locks(c))
  {
    if c.Many? {
      SectionKeysSorted(c.legs);
    }
  }

  // Ascending keys do not repeat, so holding one more adds just that key.
  lemma HoldsNext(task: Task, k: Text)
    requires WantsLock(task)
    ensures var key := Locks(task.job[0])[task.held];
            (Holds(task.(held := task.held + 1), k) <==> Holds(task, k) || k == key) && !Holds(task, key)
  {
    var ks, h := Locks(task.job[0]), task.held;
    LocksAscend(task.job[0]);
    assert ks[..h + 1] == ks[..h] + [ks[h]];
    LessTotal(ks[h], ks[h]);
    forall i | 0 <= i < |ks[..h]| ensures ks[..h][i] != ks[h] {
      assert Less(ks[i], ks[h]);
    }
  }

  // What a caller holds depends on its current section and its count only.
  lemma HoldsSame(a: Task, b: Task, k: Text)
    requires a.job == b.job && a.held == b.held
    ensures Holds(a, k) <==> Holds(b, k)
  {
  }

  lemma KeyFrame(s: State, s': State, k: Text)
    requires KeyOk(s, k) && |s'.tasks| == |s.tasks|
    requires (k in s'.owners <==> k in s.owners) && (k in s.owners ==> s'.owners[k] == s.owners[k])
    requires forall t :: 0 <= t < |s.tasks| ==> (Holds(s'.tasks[t], k) <==> Holds(s.tasks[t], k))
    ensures KeyOk(s', k)
  {
    hide Holds;
  }

  lemma TakeKeepsKey(s: State, t: nat, k: Text)
    requires Enabled(s, Go(t, true)) && WantsLock(s.tasks[t]) && KeyOk(s, k)
    ensures KeyOk(StepTask(s, t, true), k)
  {
    var task := s.tasks[t];
    HoldsNext(task, k);
    hide Holds;
  }

  lemma FreeKeepsKey(s: State, t: nat, k: Text)
    requires Enabled(s, Go(t, true)) && s.tasks[t].phase == Releasing && TaskOk(s.tasks[t]) && s.tasks[t].held > 0 && KeyOk(s, k)
    ensures KeyOk(StepTask(s, t, true), k)
  {
    var task := s.tasks[t];
    var less := task.(held := task.held - 1, phase := Locking);
    HoldsNext(less, k);
    HoldsSame(less, task.(held := task.held - 1), k);
    HoldsSame(less.(held := task.held), task, k);
    hide Holds;
  }

  lemma WakeKeepsKey(s: State, s': State, woken: set<nat>, k: Text)
    requires KeyOk(s, k) && s'.owners == s.owners && s'.tasks == Wake(s.tasks, woken)
    ensures KeyOk(s', k)
  {
    forall a | 0 <= a < |s.tasks| ensures Holds(s'.tasks[a], k) <==> Holds(s.tasks[a], k) {
      HoldsSame(s'.tasks[a], s.tasks[a], k);
    }
    hide KeyOk;
    KeyFrame(s, s', k);
  }

  // A step of a caller that neither takes nor releases a lock.
  lemma QuietKeepsKey(s: State, t: nat, moves: bool, k: Text)
    requires Enabled(s, Go(t, moves)) && TaskOk(s.tasks[t]) && KeyOk(s, k) && !WantsLock(s.tasks[t])
    requires s.tasks[t].phase == Releasing ==> s.tasks[t].held == 0
    ensures KeyOk(StepTask(s, t, moves), k)
  {
    var task := s.tasks[t];
    hide KeyOk, Locks, Waits;
    if task.phase == Migrating {
      var woken := set c | c in Woken(s.board, task.job[0].leg);
      var mid := State(Wake(s.tasks, woken), s.owners, s.board);
      WakeKeepsKey(s, mid, woken, k);
      HoldsSame(mid.tasks[t], task.(phase := Releasing), k);
      KeyFrame(mid, StepTask(s, t, moves), k);
    } else {
      KeyFrame(s, StepTask(s, t, moves), k);
    }
  }

  lemma StepKeepsKey(s: State, m: Move, k: Text)
    requires Inv(s) && Enabled(s, m)
    ensures KeyOk(Step(s, m), k)
  {
    assert KeyOk(s, k);
    if m == Stop {
      hide Inv, KeyOk;
      WakeKeepsKey(s, Step(s, m), Everyone(s.board), k);
    } else {
      assert TaskOk(s.tasks[m.t]);
      hide Inv, KeyOk, TaskOk, Holds;
      if WantsLock(s.tasks[m.t]) {
        TakeKeepsKey(s, m.t, k);
      } else if s.tasks[m.t].phase == Releasing && s.tasks[m.t].held > 0 {
        FreeKeepsKey(s, m.t, k);
      } else {
        QuietKeepsKey(s, m.t, m.moves, k);
      }
    }
  }

  lemma LegFrame(s: State, s': State, leg: Text)
    requires LegOk(s, leg) && |s'.tasks| == |s.tasks|
    requires leg in s'.board.migrating <==> leg in s.board.migrating
    requires leg in s'.board.waiters <==> leg in s.board.waiters
    requires WaitersOf(s'.board, leg) == WaitersOf(s.board, leg)
    requires forall t :: 0 <= t < |s.tasks| ==> (Awaits(s'.tasks[t], leg) <==> Awaits(s.tasks[t], leg))
    requires forall t :: 0 <= t < |s.tasks| && leg in s.board.migrating && Moves(s.tasks[t], leg) ==> Moves(s'.tasks[t], leg)
    ensures LegOk(s', leg)
  {
    hide Awaits, Moves;
    assert QueueOk(s', leg) by { hide MarkOk; }
    assert MarkOk(s', leg) by { hide QueueOk, WaitersOf; }
  }

  lemma RegisterKeepsLeg(s: State, s': State, t: nat, leg: Text)
    requires LegOk(s, leg) && |s'.tasks| == |s.tasks| && t < |s.tasks| && leg in s.board.migrating
    requires s'.board == Register(s.board, leg, t)
    requires !Awaits(s.tasks[t], leg) && Awaits(s'.tasks[t], leg) && !Moves(s.tasks[t], leg)
    requires forall a :: 0 <= a < |s.tasks| && a != t ==> s'.tasks[a] == s.tasks[a]
    ensures LegOk(s', leg)
  {
    hide Awaits, Moves;
    assert MarkOk(s', leg) by {
      hide QueueOk;
      var a :| 0 <= a < |s.tasks| && Moves(s.tasks[a], leg);
      assert Moves(s'.tasks[a], leg);
    }
    assert QueueOk(s', leg) by {
      hide MarkOk;
      var ws := WaitersOf(s.board, leg);
      assert WaitersOf(s'.board, leg) == ws + [t];
      assert (ws + [t])[|ws|] == t;
    }
  }

  lemma BeginKeepsLeg(s: State, s': State, t: nat, leg: Text)
    requires LegOk(s, leg) && |s'.tasks| == |s.tasks| && t < |s.tasks| && leg !in s.board.migrating
    requires s'.board == Begin(s.board, leg) && Moves(s'.tasks[t], leg)
    requires forall a :: 0 <= a < |s.tasks| ==> (Awaits(s'.tasks[a], leg) <==> Awaits(s.tasks[a], leg))
    ensures LegOk(s', leg)
  {
    hide Awaits, Moves;
  }

  // Nobody is left waiting for a leg whose mark and queue have gone.
  lemma QuietLeg(s: State, leg: Text)
    requires leg !in s.board.migrating && leg !in s.board.waiters
    requires forall a :: 0 <= a < |s.tasks| ==> !Awaits(s.tasks[a], leg)
    ensures LegOk(s, leg)
  {
  }

  lemma FinishKeepsLeg(s: State, t: nat, end: Text, leg: Text)
    requires LegOk(s, end) && LegOk(s, leg) && t < |s.tasks| && Moves(s.tasks[t], end)
    ensures LegOk(Finish(s, t, end), leg)
  {
    var s' := Finish(s, t, end);
    assert forall a :: 0 <= a < |s.tasks| && a in Woken(s.board, end) ==> Awaits(s.tasks[a], end);
    if leg == end {
      if end in s.board.migrating {
        QuietLeg(s', leg);
      } else {
        QuietLeg(s', leg);
      }
    } else {
      hide LegOk, QueueOk, MarkOk;
      LegFrame(s, s', leg);
    }
  }

  lemma StopKeepsLeg(s: State, leg: Text)
    requires Inv(s)
    ensures LegOk(Step(s, Stop), leg)
  {
    var s' := Step(s, Stop);
    assert LegOk(s, leg);
    hide Inv;
    forall a | 0 <= a < |s.tasks| ensures !Awaits(s'.tasks[a], leg) {
      if Awaits(s.tasks[a], leg) {
        assert leg in s.board.waiters && a in s.board.waiters[leg];
        assert a in Everyone(s.board);
      }
    }
    QuietLeg(s', leg);
  }

  lemma StepKeepsLeg(s: State, m: Move, leg: Text)
    requires Inv(s) && Enabled(s, m)
    ensures LegOk(Step(s, m), leg)
  {
    if m == Stop {
      StopKeepsLeg(s, leg);
    } else {
      var task := s.tasks[m.t];
      assert TaskOk(task) && LegOk(s, leg);
      if task.phase == Migrating {
        assert LegOk(s, task.job[0].leg);
        FinishKeepsLeg(s, m.t, task.job[0].leg, leg);
      } else {
        hide Inv;
        GoKeepsLeg(s, m.t, m.moves, leg);
      }
    }
  }

  lemma GoKeepsLeg(s: State, t: nat, moves: bool, leg: Text)
    requires Enabled(s, Go(t, moves)) && s.tasks[t].phase != Migrating && LegOk(s, leg)
    ensures LegOk(StepTask(s, t, moves), leg)
  {
    var task := s.tasks[t];
    var s' := StepTask(s, t, moves);
    hide LegOk, Locks, Waits;
    if task.phase == Checking && task.todo != [] && task.todo[0] in s.board.migrating && task.todo[0] == leg {
      RegisterKeepsLeg(s, s', t, leg);
    } else if task.phase == Running && s'.tasks[t].phase == Migrating && task.job[0].leg == leg {
      BeginKeepsLeg(s, s', t, leg);
    } else {
      LegFrame(s, s', leg);
    }
  }

  lemma WokenWait(s: State, leg: Text, t: nat)
    requires LegOk(s, leg) && t in Woken(s.board, leg)
    ensures t < |s.tasks| && s.tasks[t].job != [] && s.tasks[t].phase == Waiting
  {
  }

  lemma GoKeepsTask(s: State, t: nat, moves: bool)
    requires Enabled(s, Go(t, moves)) && TaskOk(s.tasks[t])
    ensures t < |StepTask(s, t, moves).tasks| && TaskOk(StepTask(s, t, moves).tasks[t])
  {
    hide Locks, Waits;
  }

  lemma StepKeepsTask(s: State, m: Move, a: nat)
    requires Inv(s) && Enabled(s, m) && a < |s.tasks|
    ensures a < |Step(s, m).tasks| && TaskOk(Step(s, m).tasks[a])
  {
    assert TaskOk(s.tasks[a]);
    if m == Stop {
      if a in Everyone(s.board) {
        var leg :| leg in s.board.waiters && a in s.board.waiters[leg];
        assert LegOk(s, leg);
        hide Inv, LegOk;
        WokenWait(s, leg, a);
      }
    } else if m.t == a {
      GoKeepsTask(s, a, m.moves);
    } else {
      var task := s.tasks[m.t];
      assert TaskOk(task);
      if task.phase == Migrating {
        var leg := task.job[0].leg;
        assert LegOk(s, leg);
        hide Inv, LegOk;
        if a in Woken(s.board, leg) {
          WokenWait(s, leg, a);
        }
      }
    }
  }

  lemma StepLength(s: State, m: Move)
    requires Enabled(s, m)
    ensures |Step(s, m).tasks| == |s.tasks|
  {
  }

  lemma StepKeeps(s: State, m: Move)
    requires Inv(s) && Enabled(s, m)
    ensures Inv(Step(s, m)) && |Step(s, m).tasks| == |s.tasks|
  {
    hide Step, TaskOk, KeyOk, LegOk;
    var s' := Step(s, m);
    StepLength(s, m);
    forall a | 0 <= a < |s.tasks| ensures TaskOk(s'.tasks[a]) {
      StepKeepsTask(s, m, a);
    }
    forall k: Text ensures KeyOk(s', k) {
      StepKeepsKey(s, m, k);
    }
    forall leg: Text ensures LegOk(s', leg) {
      StepKeepsLeg(s, m, leg);
    }
  }

  // ---- Every run ----

  ghost predicate Runs(s: State, schedule: seq<Move>)
    decreases |schedule|
  {
    schedule == [] || (Enabled(s, schedule[0]) && Runs(Step(s, schedule[0]), schedule[1..]))
  }

  function After(s: State, schedule: seq<Move>): State
    requires Runs(s, schedule)
    decreases |schedule|
  {
    if schedule == [] then s else After(Step(s, schedule[0]), schedule[1..])
  }

  lemma {:induction false} RunKeeps(s: State, schedule: seq<Move>)
    requires Inv(s) && Runs(s, schedule)
    ensures Inv(After(s, schedule)) && |After(s, schedule).tasks| == |s.tasks|
    decreases |schedule|
  {
    hide Inv, Step;
    if schedule != [] {
      StepKeeps(s, schedule[0]);
      RunKeeps(Step(s, schedule[0]), schedule[1..]);
    }
  }

  // A caller past the locking of its section owns that section's locks.
  lemma Inside(s: State, t: nat, k: Text)
    requires Inv(s) && t < |s.tasks| && s.tasks[t].job != []
    requires var ks := Locks(s.tasks[t].job[0]); s.tasks[t].held == |ks| && k in ks
    ensures k in s.owners && s.owners[k] == t
  {
    assert KeyOk(s, k);
    var ks := Locks(s.tasks[t].job[0]);
    assert ks[..|ks|] == ks;
    assert Holds(s.tasks[t], k);
  }

  /** A leg is marked only while the caller moving it holds that leg's lock. */
  lemma MarkedUnderLock(jobs: seq<seq<Section>>, schedule: seq<Move>, leg: Text)
    requires Runs(Start(jobs), schedule)
    ensures var s := After(Start(jobs), schedule);
            leg in s.board.migrating ==>
              && Trim(leg) in s.owners && s.owners[Trim(leg)] < |s.tasks|
              && Moves(s.tasks[s.owners[Trim(leg)]], leg)
  {
    StartKeeps(jobs);
    RunKeeps(Start(jobs), schedule);
    MarkedByOwner(After(Start(jobs), schedule), leg);
  }

  lemma MarkedByOwner(s: State, leg: Text)
    requires Inv(s)
    ensures leg in s.board.migrating ==>
              && Trim(leg) in s.owners && s.owners[Trim(leg)] < |s.tasks|
              && Moves(s.tasks[s.owners[Trim(leg)]], leg)
  {
    assert LegOk(s, leg) && KeyOk(s, Trim(leg));
    if leg in s.board.migrating {
      var t :| 0 <= t < |s.tasks| && Moves(s.tasks[t], leg);
      assert TaskOk(s.tasks[t]);
      assert Holds(s.tasks[t], Trim(leg));
    }
  }

  /** Waiting for a leg's migration under that leg's own lock never blocks: the caller neither
      waits nor is about to. */
  lemma OwnLockNeverBlocks(jobs: seq<seq<Section>>, schedule: seq<Move>, t: nat)
    requires Runs(Start(jobs), schedule) && t < |jobs|
    requires var task := After(Start(jobs), schedule).tasks; t < |task| && task[t].job != [] && task[t].job[0].Guarded?
    ensures var s := After(Start(jobs), schedule);
            && s.tasks[t].phase != Waiting
            && (s.tasks[t].phase == Checking && s.tasks[t].todo != [] ==> s.tasks[t].todo[0] !in s.board.migrating)
  {
    StartKeeps(jobs);
    RunKeeps(Start(jobs), schedule);
    var s := After(Start(jobs), schedule);
    var task := s.tasks[t];
    assert TaskOk(task);
    if (task.phase == Waiting || task.phase == Checking) && task.todo != [] {
      var leg := task.todo[0];
      assert leg in task.todo && leg in Sorted([task.job[0].leg]) && LegOk(s, leg);
      if task.phase == Waiting {
        assert Awaits(task, leg);
      }
      if leg in s.board.migrating {
        var a :| 0 <= a < |s.tasks| && Moves(s.tasks[a], leg);
        assert TaskOk(s.tasks[a]);
        Inside(s, t, Trim(leg));
        Inside(s, a, Trim(leg));
        assert false;
      }
    }
  }

  /** A migration that reaches the mark always gets it: the refusal in beginning one is never taken. */
  lemma BeginNeverRefused(jobs: seq<seq<Section>>, schedule: seq<Move>, t: nat)
    requires Runs(Start(jobs), schedule)
    requires var tasks := After(Start(jobs), schedule).tasks;
             t < |tasks| && tasks[t].job != [] && tasks[t].job[0].Migration? && tasks[t].phase == Running
    ensures var s := After(Start(jobs), schedule); s.tasks[t].job[0].leg !in s.board.migrating
  {
    StartKeeps(jobs);
    RunKeeps(Start(jobs), schedule);
    var s := After(Start(jobs), schedule);
    var leg := s.tasks[t].job[0].leg;
    assert LegOk(s, leg) && TaskOk(s.tasks[t]);
    if leg in s.board.migrating {
      var a :| 0 <= a < |s.tasks| && Moves(s.tasks[a], leg);
      assert TaskOk(s.tasks[a]);
      Inside(s, t, Trim(leg));
      Inside(s, a, Trim(leg));
      assert false;
    }
  }

  /** No lost wake-up: a caller is blocked on a leg exactly while it is registered for it, and then
      the leg is still marked. */
  lemma BlockedMeansRegistered(jobs: seq<seq<Section>>, schedule: seq<Move>, t: nat, leg: Text)
    requires Runs(Start(jobs), schedule) && t < |jobs|
    ensures var s := After(Start(jobs), schedule);
            && |s.tasks| == |jobs|
            && (Awaits(s.tasks[t], leg) <==> Registered(s.board, leg, t))
            && (leg in s.board.waiters ==> s.board.waiters[leg] != [] && leg in s.board.migrating)
  {
    StartKeeps(jobs);
    RunKeeps(Start(jobs), schedule);
    assert LegOk(After(Start(jobs), schedule), leg);
  }

  // ---- No deadlock ----

  ghost function Wanted(s: State): set<Text> {
    set t | 0 <= t < |s.tasks| && WantsLock(s.tasks[t]) :: Locks(s.tasks[t].job[0])[s.tasks[t].held]
  }

  /** Unless every job is done some caller can move: a waiter has a migration under way that can,
      and the owner of the greatest wanted lock is not after another one. */
  lemma NeverStuck(s: State)
    requires Inv(s)
    requires exists t :: 0 <= t < |s.tasks| && s.tasks[t].job != []
    ensures exists t :: Enabled(s, Go(t, false))
  {
    var t :| 0 <= t < |s.tasks| && s.tasks[t].job != [];
    if a :| 0 <= a < |s.tasks| && s.tasks[a].job != [] && s.tasks[a].phase == Waiting {
      assert TaskOk(s.tasks[a]);
      var leg := s.tasks[a].todo[0];
      assert Awaits(s.tasks[a], leg) && LegOk(s, leg);
      var b :| 0 <= b < |s.tasks| && Moves(s.tasks[b], leg);
      assert Enabled(s, Go(b, false));
    } else if LockBlocked(s, s.tasks[t]) {
      assert Locks(s.tasks[t].job[0])[s.tasks[t].held] in Wanted(s);
      OwnerMoves(s);
    } else {
      assert Enabled(s, Go(t, false));
    }
  }

  lemma OwnerMoves(s: State)
    requires Inv(s) && Wanted(s) != {}
    requires forall a :: 0 <= a < |s.tasks| && s.tasks[a].job != [] ==> s.tasks[a].phase != Waiting
    ensures exists t :: Enabled(s, Go(t, false))
  {
    var k := Greatest(Wanted(s));
    var w :| 0 <= w < |s.tasks| && WantsLock(s.tasks[w]) && Locks(s.tasks[w].job[0])[s.tasks[w].held] == k;
    assert KeyOk(s, k);
    if k !in s.owners {
      assert Enabled(s, Go(w, false));
    } else {
      var a := s.owners[k];
      var owner := s.tasks[a];
      assert Holds(owner, k);
      hide Inv, KeyOk;
      if WantsLock(owner) {
        var ks, h := Locks(owner.job[0]), owner.held;
        assert ks[h] in Wanted(s);
        LocksAscend(owner.job[0]);
        var i :| 0 <= i < |ks[..h]| && ks[..h][i] == k;
        assert Less(ks[i], ks[h]);
        LessTotal(k, ks[h]);
        assert false;
      }
      assert Enabled(s, Go(a, false));
    }
  }

  // ---- Termination ----

  // What a section costs, and what its end costs once it runs; n is the number of callers.
  function Tail(c: Section, n: nat): nat { |Locks(c)| + n + 3 }

  function Rest(job: seq<Section>, n: nat): nat
    decreases |job|
  {
    if job == [] then 0 else Tail(job[0], n) + |Locks(job[0])| + 2 * |Waits(job[0])| + 2 + Rest(job[1..], n)
  }

  function Weight(task: Task, n: nat): nat {
    if task.job == [] then 0
    else
      var c, rest := task.job[0], Rest(task.job[1..], n);
      var missing := if task.held < |Locks(c)| then |Locks(c)| - task.held else 0;
      match task.phase
      case Locking => rest + Tail(c, n) + 2 * |Waits(c)| + 2 + missing
      case Checking => rest + Tail(c, n) + 2 * |task.todo| + 1
      case Waiting => rest + Tail(c, n) + 2 * |task.todo|
      case Running => rest + Tail(c, n)
      case Migrating => rest + |Locks(c)| + n + 2
      case Releasing => rest + task.held + 1
  }

  function Measure(tasks: seq<Task>, n: nat): nat
    decreases |tasks|
  {
    if tasks == [] then 0 else Weight(tasks[0], n) + Measure(tasks[1..], n)
  }

  lemma {:induction false} MeasureUpdate(tasks: seq<Task>, t: nat, task: Task, n: nat)
    requires t < |tasks|
    ensures Measure(tasks[t := task], n) == Measure(tasks, n) - Weight(tasks[t], n) + Weight(task, n)
    decreases |tasks|
  {
    hide Weight;
    if t == 0 {
      assert tasks[0 := task][1..] == tasks[1..];
    } else {
      MeasureUpdate(tasks[1..], t - 1, task, n);
      assert tasks[t := task][1..] == tasks[1..][t - 1 := task];
    }
  }

  // Waking costs at most one move a caller.
  lemma {:induction false} WakeCosts(tasks: seq<Task>, woken: seq<Task>, n: nat)
    requires |woken| == |tasks|
    requires forall i :: 0 <= i < |tasks| ==>
               woken[i] == tasks[i] || (tasks[i].job != [] && tasks[i].phase == Waiting && woken[i] == tasks[i].(phase := Checking))
    ensures Measure(woken, n) <= Measure(tasks, n) + |tasks|
    decreases |tasks|
  {
    hide Rest, Tail;
    if tasks != [] {
      WakeCosts(tasks[1..], woken[1..], n);
    }
  }

  lemma FinishFalls(s: State, t: nat, leg: Text)
    requires t < |s.tasks| && LegOk(s, leg) && Moves(s.tasks[t], leg) && TaskOk(s.tasks[t])
    ensures Measure(Finish(s, t, leg).tasks, |s.tasks|) < Measure(s.tasks, |s.tasks|)
  {
    var n := |s.tasks|;
    var woken := Wake(s.tasks, set c | c in Woken(s.board, leg));
    forall i | 0 <= i < n && i in Woken(s.board, leg) ensures s.tasks[i].job != [] && s.tasks[i].phase == Waiting {
      WokenWait(s, leg, i);
    }
    hide Measure, LegOk, Rest, Locks;
    assert woken[t] == s.tasks[t];
    assert Weight(s.tasks[t], n) == Weight(s.tasks[t].(phase := Releasing), n) + n + 1;
    hide Weight, TaskOk, Moves, Woken;
    WakeCosts(s.tasks, woken, n);
    MeasureUpdate(woken, t, s.tasks[t].(phase := Releasing), n);
  }

  lemma GoFalls(s: State, t: nat, moves: bool)
    requires Enabled(s, Go(t, moves)) && TaskOk(s.tasks[t]) && s.tasks[t].phase != Migrating
    ensures Measure(StepTask(s, t, moves).tasks, |s.tasks|) < Measure(s.tasks, |s.tasks|)
  {
    hide Measure, Locks, Waits;
    var s' := StepTask(s, t, moves);
    MeasureUpdate(s.tasks, t, s'.tasks[t], |s.tasks|);
  }

  /** A move of a caller lowers the measure, and a shutdown raises it by at most the number of callers. */
  lemma StepFalls(s: State, m: Move)
    requires Inv(s) && Enabled(s, m)
    ensures m.Go? ==> Measure(Step(s, m).tasks, |s.tasks|) < Measure(s.tasks, |s.tasks|)
    ensures Measure(Step(s, Stop).tasks, |s.tasks|) <= Measure(s.tasks, |s.tasks|) + |s.tasks|
  {
    if m.Go? {
      var task := s.tasks[m.t];
      assert TaskOk(task);
      if task.phase == Migrating {
        assert LegOk(s, task.job[0].leg);
        FinishFalls(s, m.t, task.job[0].leg);
      } else {
        GoFalls(s, m.t, m.moves);
      }
    }
    StopCosts(s);
  }

  lemma StopCosts(s: State)
    requires Inv(s)
    ensures Measure(Step(s, Stop).tasks, |s.tasks|) <= Measure(s.tasks, |s.tasks|) + |s.tasks|
  {
    forall i | 0 <= i < |s.tasks| && i in Everyone(s.board) ensures s.tasks[i].job != [] && s.tasks[i].phase == Waiting {
      var leg :| leg in s.board.waiters && i in s.board.waiters[leg];
      assert LegOk(s, leg);
      WokenWait(s, leg, i);
    }
    WakeCosts(s.tasks, Step(s, Stop).tasks, |s.tasks|);
  }

  function Stops(schedule: seq<Move>): nat
    decreases |schedule|
  {
    if schedule == [] then 0 else (if schedule[0] == Stop then 1 else 0) + Stops(schedule[1..])
  }

  lemma {:induction false} RunFalls(s: State, schedule: seq<Move>)
    requires Inv(s) && Runs(s, schedule)
    ensures var n := |s.tasks|;
            |schedule| + Measure(After(s, schedule).tasks, n) <= Measure(s.tasks, n) + (n + 1) * Stops(schedule)
    decreases |schedule|
  {
    hide Inv, Step, Measure, Enabled;
    if schedule != [] {
      var s1 := Step(s, schedule[0]);
      StepKeeps(s, schedule[0]);
      StepFalls(s, schedule[0]);
      RunFalls(s1, schedule[1..]);
      var n, d := |s.tasks|, Stops(schedule[1..]);
      assert schedule[0] == Stop ==> (n + 1) * Stops(schedule) == (n + 1) * d + n + 1;
    }
  }

  /** Every run is bounded in advance but for shutdowns, each of which can add one move a caller;
      and a run in which no caller can go on has finished every job. */
  lemma AllFinish(jobs: seq<seq<Section>>, schedule: seq<Move>)
    requires Runs(Start(jobs), schedule)
    ensures |schedule| <= Measure(Start(jobs).tasks, |jobs|) + (|jobs| + 1) * Stops(schedule)
    ensures var s := After(Start(jobs), schedule);
            (forall t :: !Enabled(s, Go(t, false))) ==> forall t :: 0 <= t < |s.tasks| ==> s.tasks[t].job == []
  {
    StartKeeps(jobs);
    RunKeeps(Start(jobs), schedule);
    RunFalls(Start(jobs), schedule);
    var s := After(Start(jobs), schedule);
    if exists t :: 0 <= t < |s.tasks| && s.tasks[t].job != [] {
      NeverStuck(s);
    }
  }
}
