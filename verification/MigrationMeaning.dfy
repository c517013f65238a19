/** What each move of a caller does, told by legs, marks and phases alone. */
module MigrationMeaning {
  import opened JsText
  import opened LockSpec
  import opened MigrationSpec
  import opened MigrationProtocol

  ghost predicate Reachable(s: State) { exists jobs, schedule :: Runs(Start(jobs), schedule) && After(Start(jobs), schedule) == s }

  lemma ReachableOk(s: State)
    requires Reachable(s)
    ensures Inv(s)
  {
    hide Inv;
    var jobs, schedule :| Runs(Start(jobs), schedule) && After(Start(jobs), schedule) == s;
    StartKeeps(jobs);
    RunKeeps(Start(jobs), schedule);
  }

  // A caller whose turn it is, at the given phase of its section.
  ghost predicate At(s: State, t: nat, phase: Phase) { t < |s.tasks| && s.tasks[t].job != [] && s.tasks[t].phase == phase }

  // Nothing changed but one caller's own state.
  ghost predicate OnlyTask(s: State, s': State, t: nat) {
    t < |s.tasks| && |s'.tasks| == |s.tasks| && forall a :: 0 <= a < |s.tasks| && a != t ==> s'.tasks[a] == s.tasks[a]
  }

  /** While a caller has locked a leg to wait for it and to work on it, nobody is moving that leg. */
  lemma WorkIsUndisturbed(s: State, t: nat)
    requires Reachable(s) && t < |s.tasks| && s.tasks[t].job != [] && s.tasks[t].job[0].Guarded? && s.tasks[t].held == 1
    ensures s.tasks[t].job[0].leg !in s.board.migrating
  {
    ReachableOk(s);
    var leg := s.tasks[t].job[0].leg;
    MarkedByOwner(s, leg);
    Inside(s, t, Trim(leg));
  }

  // ---- Locking ----

  // The legs a section has to find at rest: each non-empty one once, in ascending order.
  ghost predicate ToCheck(c: Section, todo: seq<Text>) {
    match c
    case Guarded(leg) => todo == [leg]
    case Free(legs) => Ascending(todo) && forall x :: x in todo <==> x in legs && x != []
    case _ => todo == []
  }

  // The locks a section takes: those of its trimmed, non-blank legs, each once, in ascending order.
  ghost predicate ToLock(c: Section, locks: seq<Text>) {
    match c
    case Free(_) => locks == []
    case Many(legs) => Ascending(locks) && forall k :: k in locks <==> k != [] && exists i :: 0 <= i < |legs| && Trim(legs[i]) == k
    case Guarded(leg) => locks == [Trim(leg)]
    case Migration(leg) => locks == [Trim(leg)]
  }

  lemma {:induction false} SortedMeans(legs: seq<Text>)
    ensures Ascending(Sorted(legs))
    decreases |legs|
  {
    if legs != [] {
      SortedMeans(legs[1..]);
      if legs[0] != [] {
        InsertSorts(legs[0], Sorted(legs[1..]));
      }
    }
  }

  lemma {:induction false} TrimmedEmpty(leg: Text)
    requires Trim(leg) != []
    ensures leg != []
  {
  }

  lemma SortedOne(leg: Leg)
    ensures Sorted([leg]) == [leg]
  {
    TrimmedEmpty(leg);
    assert [leg][1..] == [];
    assert Sorted([]) == [] && Insert(leg, []) == [leg];
  }

  lemma LocksMean(c: Section)
    ensures ToLock(c, Locks(c))
  {
    hide SectionKeys, Trim;
    if c.Many? {
      SectionKeysSorted(c.legs);
    }
  }

  lemma WaitsMean(c: Section)
    ensures ToCheck(c, Waits(c))
  {
    hide Sorted;
    match c
    case Guarded(leg) => SortedOne(leg);
    case Free(legs) => SortedMeans(legs);
    case _ =>
  }

  /** A caller takes the locks of its section one after the other, each while it is free, and then looks at
      the legs it has to find at rest. */
  lemma LockingMeans(s: State, t: nat, moves: bool, locks: seq<Text>)
    requires Reachable(s) && At(s, t, Locking) && locks == Locks(s.tasks[t].job[0])
    ensures ToLock(s.tasks[t].job[0], locks) && s.tasks[t].held <= |locks|
    ensures Enabled(s, Go(t, moves)) <==> s.tasks[t].held < |locks| ==> locks[s.tasks[t].held] !in s.owners
    ensures Enabled(s, Go(t, moves)) ==>
              var s', h := Step(s, Go(t, moves)), s.tasks[t].held;
              && OnlyTask(s, s', t) && s'.board == s.board && s'.tasks[t].job == s.tasks[t].job
              && (h < |locks| ==> s'.owners == s.owners[locks[h] := t] && s'.tasks[t].held == h + 1 && s'.tasks[t].phase == Locking)
              && (h == |locks| ==> s'.owners == s.owners && s'.tasks[t].phase == Checking && ToCheck(s.tasks[t].job[0], s'.tasks[t].todo))
  {
    hide KeyOk, LegOk, Locks, Waits, ToLock, ToCheck;
    ReachableOk(s);
    LocksMean(s.tasks[t].job[0]);
    WaitsMean(s.tasks[t].job[0]);
  }

  // ---- Waiting ----

  /** A caller goes on to its work when it has found every leg at rest: one that is being moved makes it
      wait, last in that leg's line, and one that is not is struck off. */
  lemma CheckingMeans(s: State, t: nat, moves: bool)
    requires Reachable(s) && At(s, t, Checking)
    ensures Enabled(s, Go(t, moves))
    ensures var s', task := Step(s, Go(t, moves)), s.tasks[t];
            && OnlyTask(s, s', t) && s'.owners == s.owners && s'.board.migrating == s.board.migrating
            && if task.todo == [] then s'.board == s.board && s'.tasks[t] == task.(phase := Running)
               else if task.todo[0] in s.board.migrating then
                 && s'.tasks[t] == task.(phase := Waiting)
                 && WaitersOf(s'.board, task.todo[0]) == WaitersOf(s.board, task.todo[0]) + [t]
                 && forall leg :: leg != task.todo[0] ==> WaitersOf(s'.board, leg) == WaitersOf(s.board, leg)
               else s'.board == s.board && s'.tasks[t] == task.(todo := task.todo[1..])
  {
  }

  // ---- Migrating ----

  /** A migration marks its leg, and only that one, when the other checks let it; and otherwise gives up
      without a mark. */
  lemma MigrationMeans(s: State, t: nat, moves: bool)
    requires Reachable(s) && At(s, t, Running) && s.tasks[t].job[0].Migration?
    ensures Enabled(s, Go(t, moves))
    ensures var s', task := Step(s, Go(t, moves)), s.tasks[t];
            && OnlyTask(s, s', t) && s'.owners == s.owners && s'.board.waiters == s.board.waiters
            && s'.board.migrating == (if moves then s.board.migrating + {task.job[0].leg} else s.board.migrating)
            && s'.tasks[t] == task.(phase := if moves then Migrating else Releasing)
  {
    ReachableOk(s);
    var jobs, schedule :| Runs(Start(jobs), schedule) && After(Start(jobs), schedule) == s;
    BeginNeverRefused(jobs, schedule, t);
  }

  /** Work of any other kind is over with one move, and touches no mark. */
  lemma WorkMeans(s: State, t: nat, moves: bool)
    requires At(s, t, Running) && !s.tasks[t].job[0].Migration?
    ensures Enabled(s, Go(t, moves)) && Step(s, Go(t, moves)) == s.(tasks := s.tasks[t := s.tasks[t].(phase := Releasing)])
  {
  }

  /** The end of a migration takes its mark away and no other, and sends exactly the callers that waited for
      that leg back to look at it again. */
  lemma EndingMeans(s: State, t: nat, moves: bool)
    requires Reachable(s) && At(s, t, Migrating)
    ensures s.tasks[t].job[0].Migration? && Enabled(s, Go(t, moves))
    ensures var s', leg := Step(s, Go(t, moves)), s.tasks[t].job[0].leg;
            && s'.owners == s.owners && s'.board.migrating == s.board.migrating - {leg}
            && WaitersOf(s'.board, leg) == [] && (forall other :: other != leg ==> WaitersOf(s'.board, other) == WaitersOf(s.board, other))
            && |s'.tasks| == |s.tasks| && s'.tasks[t] == s.tasks[t].(phase := Releasing)
            && forall a :: 0 <= a < |s.tasks| && a != t ==>
                 s'.tasks[a] == if Awaits(s.tasks[a], leg) then s.tasks[a].(phase := Checking) else s.tasks[a]
  {
    hide KeyOk;
    ReachableOk(s);
    MovedIsMarked(s, t);
    var leg := s.tasks[t].job[0].leg;
    assert LegOk(s, leg);
    hide MarkOk;
    forall a | 0 <= a < |s.tasks| ensures a in Woken(s.board, leg) <==> Awaits(s.tasks[a], leg) {
    }
  }

  // A leg that is being moved is marked.
  lemma MovedIsMarked(s: State, t: nat)
    requires Reachable(s) && At(s, t, Migrating)
    ensures s.tasks[t].job[0].Migration?
    ensures WaitersOf(s.board, s.tasks[t].job[0].leg) != [] ==> s.tasks[t].job[0].leg in s.board.migrating
  {
    hide KeyOk;
    ReachableOk(s);
    assert TaskOk(s.tasks[t]) && LegOk(s, s.tasks[t].job[0].leg);
  }

  /** Shutting down takes every mark away and sends everyone who waits back to look again. */
  lemma StopMeans(s: State, a: nat)
    requires Reachable(s) && a < |s.tasks|
    ensures var s' := Step(s, Stop);
            && s'.owners == s.owners && s'.board.migrating == {} && s'.board.waiters == map[]
            && |s'.tasks| == |s.tasks|
            && s'.tasks[a] == if s.tasks[a].job != [] && s.tasks[a].phase == Waiting then s.tasks[a].(phase := Checking) else s.tasks[a]
  {
    hide KeyOk;
    ReachableOk(s);
    var task := s.tasks[a];
    if task.job != [] && task.phase == Waiting {
      assert TaskOk(task);
      var leg := task.todo[0];
      assert Awaits(task, leg) && LegOk(s, leg);
      assert leg in s.board.waiters;
    }
    if a in Everyone(s.board) {
      EveryoneWaits(s, a);
    }
  }

  lemma EveryoneWaits(s: State, a: nat)
    requires Inv(s) && a in Everyone(s.board)
    ensures a < |s.tasks| && s.tasks[a].job != [] && s.tasks[a].phase == Waiting
  {
    var leg :| leg in s.board.waiters && a in s.board.waiters[leg];
    assert LegOk(s, leg);
  }

  // ---- Releasing ----

  /** Locks are released one by one, the last taken first; then comes the caller's next section. */
  lemma ReleasingMeans(s: State, t: nat, moves: bool, locks: seq<Text>)
    requires Reachable(s) && At(s, t, Releasing) && locks == Locks(s.tasks[t].job[0])
    ensures Enabled(s, Go(t, moves))
    ensures var s', task := Step(s, Go(t, moves)), s.tasks[t];
            && OnlyTask(s, s', t) && s'.board == s.board && task.held <= |locks|
            && (task.held > 0 ==> s'.owners == s.owners - {locks[task.held - 1]} && s'.tasks[t] == task.(held := task.held - 1))
            && (task.held == 0 ==> s'.owners == s.owners && s'.tasks[t] == Task(task.job[1..], 0, [], Locking))
  {
    hide KeyOk, LegOk, Locks;
    ReachableOk(s);
    assert TaskOk(s.tasks[t]);
  }
}
