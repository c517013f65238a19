/** Any number of sections, each locking its keys one after the other in ascending order and
    releasing them in reverse, interleaved at every await: one owner a key, ownership in request
    order, no deadlock, and an end. */
module LockProtocol {
  import opened JsText
  import opened LockSpec

  datatype Phase = Acquiring | Waiting | Running | Releasing | Done

  // A section holds the first `held` of its keys.
  datatype Task = Task(keys: seq<Text>, held: nat, phase: Phase)

  // The lock map makes a lock on first use, so an absent lock is a free one. The two logs record
  // who asked for each key and who was given it.
  datatype State = State(
    tasks: seq<Task>,
    locks: map<Text, Lock<nat>>,
    requested: map<Text, seq<nat>>,
    granted: map<Text, seq<nat>>)

  function LockOf(s: State, k: Text): Lock<nat> { if k in s.locks then s.locks[k] else FREE }

  function LogOf(log: map<Text, seq<nat>>, k: Text): seq<nat> { if k in log then log[k] else [] }

  function Start(sections: seq<seq<Text>>): State {
    State(seq(|sections|, i requires 0 <= i < |sections| => Task(SectionKeys(sections[i]), 0, Acquiring)), map[], map[], map[])
  }

  // A task can move unless it waits for a release or is done.
  predicate Enabled(s: State, t: nat) {
    t < |s.tasks| && s.tasks[t].phase != Waiting && s.tasks[t].phase != Done
  }

  function Request(s: State, t: nat, k: Text): State
    requires t < |s.tasks|
  {
    var task, l := s.tasks[t], LockOf(s, k);
    var requested := s.requested[k := LogOf(s.requested, k) + [t]];
    var locks := s.locks[k := Acquire(l, t)];
    if l.locked then State(s.tasks[t := task.(phase := Waiting)], locks, requested, s.granted)
    else State(s.tasks[t := task.(held := task.held + 1)], locks, requested, s.granted[k := LogOf(s.granted, k) + [t]])
  }

  // The first waiter, if there is one, owns the key from the release on.
  function Hand(s: State, t: nat, k: Text): State
    requires t < |s.tasks| && s.tasks[t].held > 0
  {
    var task, l := s.tasks[t], LockOf(s, k);
    var tasks := s.tasks[t := task.(held := task.held - 1)];
    var locks := s.locks[k := Release(l)];
    match Next(l)
    case None => State(tasks, locks, s.requested, s.granted)
    case Some(w) =>
      if w < |tasks| then
        State(tasks[w := tasks[w].(held := tasks[w].held + 1, phase := Acquiring)], locks, s.requested,
              s.granted[k := LogOf(s.granted, k) + [w]])
      else s
  }

  function Step(s: State, t: nat): State
    requires Enabled(s, t)
  {
    var task := s.tasks[t];
    match task.phase
    case Acquiring =>
      if task.held < |task.keys| then Request(s, t, task.keys[task.held])
      else s.(tasks := s.tasks[t := task.(phase := Running)])
    case Running => s.(tasks := s.tasks[t := task.(phase := Releasing)])
    case Releasing =>
      if 0 < task.held <= |task.keys| then Hand(s, t, task.keys[task.held - 1])
      else s.(tasks := s.tasks[t := task.(phase := Done)])
    case _ => s
  }

  // ---- What every step keeps ----

  ghost predicate Holds(task: Task, k: Text) {
    task.held <= |task.keys| && k in task.keys[..task.held]
  }

  ghost predicate Wants(task: Task, k: Text) {
    task.phase == Waiting && task.held < |task.keys| && task.keys[task.held] == k
  }

  ghost predicate TaskOk(task: Task) {
    && Ascending(task.keys) && task.held <= |task.keys|
    && (task.phase == Waiting ==> task.held < |task.keys|)
    && (task.phase == Running ==> task.held == |task.keys|)
    && (task.phase == Done ==> task.held == 0)
  }

  // One owner, and locked exactly while owned.
  ghost predicate OneOwner(s: State, k: Text) {
    && (forall a, b :: 0 <= a < |s.tasks| && 0 <= b < |s.tasks| && Holds(s.tasks[a], k) && Holds(s.tasks[b], k) ==> a == b)
    && (LockOf(s, k).locked <==> exists a :: 0 <= a < |s.tasks| && Holds(s.tasks[a], k))
  }

  // The queue is exactly the tasks that wait for the key, each once, and a queue means a lock.
  ghost predicate QueueOk(s: State, k: Text) {
    var l := LockOf(s, k);
    && (l.waiters != [] ==> l.locked)
    && (forall i, j :: 0 <= i < j < |l.waiters| ==> l.waiters[i] != l.waiters[j])
    && (forall i :: 0 <= i < |l.waiters| ==> l.waiters[i] < |s.tasks| && Wants(s.tasks[l.waiters[i]], k))
    && (forall t :: 0 <= t < |s.tasks| && Wants(s.tasks[t], k) ==> t in l.waiters)
  }

  // Ownership goes in request order: granted so far, then those still queued.
  ghost predicate InOrder(s: State, k: Text) {
    LogOf(s.requested, k) == LogOf(s.granted, k) + LockOf(s, k).waiters
  }

  ghost predicate KeyOk(s: State, k: Text) { OneOwner(s, k) && QueueOk(s, k) && InOrder(s, k) }

  ghost predicate Inv(s: State) {
    && (forall t :: 0 <= t < |s.tasks| ==> TaskOk(s.tasks[t]))
    && (forall k: Text :: KeyOk(s, k))
  }

  lemma StartKeeps(sections: seq<seq<Text>>)
    ensures Inv(Start(sections))
  {
    var s := Start(sections);
    forall t | 0 <= t < |s.tasks| ensures TaskOk(s.tasks[t]) {
      SectionKeysSorted(sections[t]);
    }
    forall k: Text ensures KeyOk(s, k) {
    }
  }

  // A key appears once in ascending keys, so holding one more adds just that key.
  lemma HoldsNext(task: Task, k: Text)
    requires Ascending(task.keys) && task.held < |task.keys|
    ensures Holds(task.(held := task.held + 1), k) <==> Holds(task, k) || k == task.keys[task.held]
    ensures !Holds(task, task.keys[task.held])
  {
    var ks, h := task.keys, task.held;
    assert ks[..h + 1] == ks[..h] + [ks[h]];
    LessTotal(ks[h], ks[h]);
    forall i | 0 <= i < |ks[..h]| ensures ks[..h][i] != ks[h] {
      assert Less(ks[i], ks[h]);
    }
  }

  lemma RequestKeepsKey(s: State, t: nat, k: Text)
    requires Inv(s) && Enabled(s, t) && s.tasks[t].phase == Acquiring && s.tasks[t].held < |s.tasks[t].keys|
    ensures KeyOk(Step(s, t), k)
  {
    var task := s.tasks[t];
    var key := task.keys[task.held];
    assert KeyOk(s, k) && TaskOk(task);
    HoldsNext(task, k);
    hide Inv, TaskOk, Holds, OneOwner, QueueOk, InOrder;
    if k != key {
      OthersSame(s, Step(s, t), k, t);
    } else if LockOf(s, key).locked {
      QueuedKeepsKey(s, t);
    } else {
      TakenKeepsKey(s, t);
    }
  }

  lemma QueuedKeepsKey(s: State, t: nat)
    requires t < |s.tasks| && s.tasks[t].phase == Acquiring && s.tasks[t].held < |s.tasks[t].keys|
    requires var k := s.tasks[t].keys[s.tasks[t].held]; KeyOk(s, k) && LockOf(s, k).locked
    ensures var k := s.tasks[t].keys[s.tasks[t].held]; KeyOk(Request(s, t, k), k)
  {
    var k := s.tasks[t].keys[s.tasks[t].held];
    QueuedSameKey(s, Request(s, t, k), t, k);
  }

  lemma QueuedSameKey(s: State, s': State, t: nat, k: Text)
    requires KeyOk(s, k) && LockOf(s, k).locked
    requires |s'.tasks| == |s.tasks| && t < |s.tasks|
    requires LockOf(s', k) == Acquire(LockOf(s, k), t)
    requires LogOf(s'.requested, k) == LogOf(s.requested, k) + [t] && LogOf(s'.granted, k) == LogOf(s.granted, k)
    requires Holds(s'.tasks[t], k) == Holds(s.tasks[t], k) && !Wants(s.tasks[t], k) && Wants(s'.tasks[t], k)
    requires forall a :: 0 <= a < |s.tasks| && a != t ==> s'.tasks[a] == s.tasks[a]
    ensures KeyOk(s', k)
  {
    hide Holds, Wants, QueueOk, InOrder;
    QueuedGrows(s, s', t, k);
    QueuedInOrder(s, s', t, k);
    var a :| 0 <= a < |s.tasks| && Holds(s.tasks[a], k);
    assert Holds(s'.tasks[a], k);
  }

  lemma QueuedInOrder(s: State, s': State, t: nat, k: Text)
    requires InOrder(s, k) && LockOf(s, k).locked && LockOf(s', k) == Acquire(LockOf(s, k), t)
    requires LogOf(s'.requested, k) == LogOf(s.requested, k) + [t] && LogOf(s'.granted, k) == LogOf(s.granted, k)
    ensures InOrder(s', k)
  {
    hide LogOf, LockOf;
    var given, ws := LogOf(s.granted, k), LockOf(s, k).waiters;
    assert given + (ws + [t]) == (given + ws) + [t];
  }

  lemma QueuedGrows(s: State, s': State, t: nat, k: Text)
    requires QueueOk(s, k) && LockOf(s, k).locked && |s'.tasks| == |s.tasks| && t < |s.tasks|
    requires LockOf(s', k) == Acquire(LockOf(s, k), t) && !Wants(s.tasks[t], k) && Wants(s'.tasks[t], k)
    requires forall a :: 0 <= a < |s.tasks| && a != t ==> s'.tasks[a] == s.tasks[a]
    ensures QueueOk(s', k)
  {
    hide Wants, LockOf;
    var ws, ws' := LockOf(s, k).waiters, LockOf(s', k).waiters;
    assert ws' == ws + [t] && ws'[|ws|] == t;
    assert forall i :: 0 <= i < |ws| ==> ws'[i] == ws[i] && ws[i] != t;
  }

  lemma TakenKeepsKey(s: State, t: nat)
    requires t < |s.tasks| && s.tasks[t].phase == Acquiring && TaskOk(s.tasks[t]) && s.tasks[t].held < |s.tasks[t].keys|
    requires var k := s.tasks[t].keys[s.tasks[t].held]; KeyOk(s, k) && !LockOf(s, k).locked
    ensures var k := s.tasks[t].keys[s.tasks[t].held]; KeyOk(Request(s, t, k), k)
  {
    var k := s.tasks[t].keys[s.tasks[t].held];
    HoldsNext(s.tasks[t], k);
    hide TaskOk, Holds, OneOwner, QueueOk, InOrder;
    TakenSameKey(s, Request(s, t, k), t, k);
  }

  lemma TakenSameKey(s: State, s': State, t: nat, k: Text)
    requires KeyOk(s, k) && !LockOf(s, k).locked
    requires |s'.tasks| == |s.tasks| && t < |s.tasks|
    requires LockOf(s', k) == Acquire(LockOf(s, k), t)
    requires LogOf(s'.requested, k) == LogOf(s.requested, k) + [t] && LogOf(s'.granted, k) == LogOf(s.granted, k) + [t]
    requires Holds(s'.tasks[t], k) && !Wants(s'.tasks[t], k)
    requires forall a :: 0 <= a < |s.tasks| && a != t ==> s'.tasks[a] == s.tasks[a]
    ensures KeyOk(s', k)
  {
    hide Holds, Wants;
    assert LockOf(s, k).waiters == [] && LockOf(s', k).waiters == [];
    assert OneOwner(s', k) by {
      hide QueueOk, InOrder;
    }
    assert InOrder(s', k) by {
      hide QueueOk, OneOwner;
      assert LogOf(s.granted, k) + [] == LogOf(s.granted, k);
      assert LogOf(s'.granted, k) + [] == LogOf(s'.granted, k);
    }
    assert QueueOk(s', k) by {
      hide InOrder, OneOwner;
    }
    hide OneOwner, QueueOk, InOrder;
  }

  // A step that leaves a key's lock alone, and every task's holding and wanting of it.
  lemma OthersSame(s: State, s': State, k: Text, t: nat)
    requires KeyOk(s, k) && |s'.tasks| == |s.tasks|
    requires LockOf(s', k) == LockOf(s, k)
    requires LogOf(s'.requested, k) == LogOf(s.requested, k) && LogOf(s'.granted, k) == LogOf(s.granted, k)
    requires forall a :: 0 <= a < |s.tasks| ==> (Holds(s'.tasks[a], k) <==> Holds(s.tasks[a], k))
    requires forall a :: 0 <= a < |s.tasks| ==> (Wants(s'.tasks[a], k) <==> Wants(s.tasks[a], k))
    ensures KeyOk(s', k)
  {
    if LockOf(s, k).locked {
      var a :| 0 <= a < |s.tasks| && Holds(s.tasks[a], k);
      assert Holds(s'.tasks[a], k);
    }
  }

  // Releasing a key nobody waits for.
  lemma FreedKeepsKey(s: State, t: nat, k: Text, key: Text)
    requires t < |s.tasks| && 0 < s.tasks[t].held <= |s.tasks[t].keys| && TaskOk(s.tasks[t]) && s.tasks[t].phase == Releasing
    requires key == s.tasks[t].keys[s.tasks[t].held - 1]
    requires KeyOk(s, k) && LockOf(s, key).waiters == []
    ensures KeyOk(Hand(s, t, key), k)
  {
    var less := s.tasks[t].(held := s.tasks[t].held - 1);
    var s' := Hand(s, t, key);
    HoldsNext(less, k);
    assert less.(held := less.held + 1) == s.tasks[t];
    hide TaskOk;
    if k != key {
      OthersSame(s, s', k, t);
    } else {
      assert Holds(s.tasks[t], k);
    }
  }

  // Releasing a key the first waiter takes over.
  lemma HandedKeepsKey(s: State, t: nat, w: nat, k: Text, key: Text)
    requires t < |s.tasks| && 0 < s.tasks[t].held <= |s.tasks[t].keys| && TaskOk(s.tasks[t]) && s.tasks[t].phase == Releasing
    requires key == s.tasks[t].keys[s.tasks[t].held - 1]
    requires w < |s.tasks| && TaskOk(s.tasks[w]) && Wants(s.tasks[w], key) && Next(LockOf(s, key)) == Some(w)
    requires KeyOk(s, k)
    ensures KeyOk(Hand(s, t, key), k)
  {
    var less := s.tasks[t].(held := s.tasks[t].held - 1);
    var more := s.tasks[w].(held := s.tasks[w].held + 1);
    var s' := Hand(s, t, key);
    HoldsNext(less, k);
    assert less.(held := less.held + 1) == s.tasks[t];
    HoldsNext(s.tasks[w], k);
    hide TaskOk;
    assert s'.tasks[t] == less && s'.tasks[w] == more.(phase := Acquiring);
    assert Holds(s'.tasks[w], k) <==> Holds(more, k);
    if k != key {
      OthersSame(s, s', k, t);
    } else {
      HandedSameKey(s, s', t, w, k);
    }
  }

  lemma HandedSameKey(s: State, s': State, t: nat, w: nat, k: Text)
    requires KeyOk(s, k) && Next(LockOf(s, k)) == Some(w) && t != w
    requires |s'.tasks| == |s.tasks| && t < |s.tasks| && w < |s.tasks|
    requires LockOf(s', k) == Release(LockOf(s, k))
    requires LogOf(s'.requested, k) == LogOf(s.requested, k) && LogOf(s'.granted, k) == LogOf(s.granted, k) + [w]
    requires Holds(s.tasks[t], k) && !Holds(s'.tasks[t], k) && Holds(s'.tasks[w], k)
    requires !Wants(s.tasks[t], k) && !Wants(s'.tasks[t], k) && !Wants(s'.tasks[w], k)
    requires forall a :: 0 <= a < |s.tasks| && a != t && a != w ==> s'.tasks[a] == s.tasks[a]
    ensures KeyOk(s', k)
  {
    hide Holds, Wants;
    var l := LockOf(s, k);
    assert l.waiters == [w] + l.waiters[1..];
    assert OneOwner(s', k) by {
      hide InOrder;
    }
    assert InOrder(s', k) by {
      hide QueueOk, OneOwner;
      assert LogOf(s.granted, k) + ([w] + l.waiters[1..]) == (LogOf(s.granted, k) + [w]) + l.waiters[1..];
    }
    assert QueueOk(s', k) by {
      hide InOrder, OneOwner;
      forall i | 0 <= i < |l.waiters[1..]| ensures l.waiters[1..][i] != w && l.waiters[1..][i] != t {
        assert l.waiters[1..][i] == l.waiters[i + 1];
      }
    }
  }

  // Who is first in line for a locked key.
  lemma FirstWaiter(s: State, key: Text)
    requires Inv(s)
    ensures var l := LockOf(s, key);
            l.waiters != [] ==> l.waiters[0] < |s.tasks| && Wants(s.tasks[l.waiters[0]], key) && TaskOk(s.tasks[l.waiters[0]])
  {
    assert KeyOk(s, key);
  }

  lemma HandKeepsKey(s: State, t: nat, k: Text)
    requires Inv(s) && Enabled(s, t) && s.tasks[t].phase == Releasing && s.tasks[t].held > 0
    ensures KeyOk(Step(s, t), k)
  {
    var task := s.tasks[t];
    assert TaskOk(task) && KeyOk(s, k);
    var key := task.keys[task.held - 1];
    FirstWaiter(s, key);
    hide Inv, KeyOk, TaskOk, Holds;
    if LockOf(s, key).waiters == [] {
      FreedKeepsKey(s, t, k, key);
    } else {
      HandedKeepsKey(s, t, LockOf(s, key).waiters[0], k, key);
    }
  }

  lemma StepKeepsKey(s: State, t: nat, k: Text)
    requires Inv(s) && Enabled(s, t)
    ensures KeyOk(Step(s, t), k)
  {
    var task := s.tasks[t];
    assert KeyOk(s, k);
    if task.phase == Acquiring && task.held < |task.keys| {
      RequestKeepsKey(s, t, k);
    } else if task.phase == Releasing && task.held > 0 {
      HandKeepsKey(s, t, k);
    } else {
      OthersSame(s, Step(s, t), k, t);
    }
  }

  lemma StepKeepsTasks(s: State, t: nat)
    requires Inv(s) && Enabled(s, t)
    ensures |Step(s, t).tasks| == |s.tasks|
    ensures forall a :: 0 <= a < |s.tasks| ==> TaskOk(Step(s, t).tasks[a])
  {
    hide KeyOk, LockOf;
    var task := s.tasks[t];
    if task.phase == Releasing && task.held > 0 {
      FirstWaiter(s, task.keys[task.held - 1]);
    }
  }

  lemma StepKeeps(s: State, t: nat)
    requires Inv(s) && Enabled(s, t)
    ensures Inv(Step(s, t))
  {
    StepKeepsTasks(s, t);
    forall k: Text ensures KeyOk(Step(s, t), k) {
      StepKeepsKey(s, t, k);
    }
  }

  // ---- Every run ----

  // A schedule names the task that moves at each turn.
  ghost predicate Runs(s: State, schedule: seq<nat>)
    decreases |schedule|
  {
    schedule == [] || (Enabled(s, schedule[0]) && Runs(Step(s, schedule[0]), schedule[1..]))
  }

  function After(s: State, schedule: seq<nat>): State
    requires Runs(s, schedule)
    decreases |schedule|
  {
    if schedule == [] then s else After(Step(s, schedule[0]), schedule[1..])
  }

  lemma {:induction false} RunKeeps(s: State, schedule: seq<nat>)
    requires Inv(s) && Runs(s, schedule)
    ensures Inv(After(s, schedule))
    decreases |schedule|
  {
    hide Inv, Step;
    if schedule != [] {
      StepKeeps(s, schedule[0]);
      RunKeeps(Step(s, schedule[0]), schedule[1..]);
    }
  }

  /** In every reachable state a key has at most one owner, is locked exactly while owned, and is
      handed on in request order. */
  lemma ExclusiveAndFair(sections: seq<seq<Text>>, schedule: seq<nat>, k: Text)
    requires Runs(Start(sections), schedule)
    ensures KeyOk(After(Start(sections), schedule), k)
  {
    StartKeeps(sections);
    RunKeeps(Start(sections), schedule);
  }

  /** While a section runs it owns each of its keys: those asked for, trimmed and not blank. So no two
      that have a key in common run at the same time; and one that is done owns nothing. */
  lemma BodyOwnsItsKeys(sections: seq<seq<Text>>, schedule: seq<nat>, t: nat, k: Text)
    requires Runs(Start(sections), schedule) && t < |sections|
    ensures var s := After(Start(sections), schedule);
            && |s.tasks| == |sections|
            && (s.tasks[t].phase == Running && k in s.tasks[t].keys ==>
                  LockOf(s, k).locked && forall a :: 0 <= a < |s.tasks| && a != t && s.tasks[a].phase == Running ==> k !in s.tasks[a].keys)
            && (s.tasks[t].phase == Done ==> s.tasks[t].held == 0)
            && (k in s.tasks[t].keys <==> k != [] && exists i :: 0 <= i < |sections[t]| && Trim(sections[t][i]) == k)
  {
    StartKeeps(sections);
    RunKeeps(Start(sections), schedule);
    KeysStay(Start(sections), schedule);
    SectionKeysSorted(sections[t]);
    hide Inv, TaskOk, KeyOk, OneOwner, Holds, LockOf;
    var s := After(Start(sections), schedule);
    InvAt(s, t, k);
    if s.tasks[t].phase == Running && k in s.tasks[t].keys {
      RunningHolds(s, t, k);
      forall a | 0 <= a < |s.tasks| && a != t && s.tasks[a].phase == Running ensures k !in s.tasks[a].keys {
        InvAt(s, a, k);
        RunningHolds(s, a, k);
        OnlyOwner(s, t, a, k);
      }
      OwnedIsLocked(s, t, k);
    }
  }

  lemma InvAt(s: State, t: nat, k: Text)
    requires Inv(s) && t < |s.tasks|
    ensures TaskOk(s.tasks[t]) && KeyOk(s, k) && OneOwner(s, k)
    ensures s.tasks[t].phase == Done ==> s.tasks[t].held == 0
  {
  }

  lemma RunningHolds(s: State, t: nat, k: Text)
    requires t < |s.tasks| && TaskOk(s.tasks[t]) && s.tasks[t].phase == Running
    ensures k in s.tasks[t].keys <==> Holds(s.tasks[t], k)
  {
    assert s.tasks[t].keys[..|s.tasks[t].keys|] == s.tasks[t].keys;
  }

  lemma OnlyOwner(s: State, a: nat, b: nat, k: Text)
    requires a < |s.tasks| && b < |s.tasks| && a != b && OneOwner(s, k) && Holds(s.tasks[a], k)
    ensures !Holds(s.tasks[b], k)
  {
  }

  lemma OwnedIsLocked(s: State, t: nat, k: Text)
    requires t < |s.tasks| && OneOwner(s, k) && Holds(s.tasks[t], k)
    ensures LockOf(s, k).locked
  {
  }

  // The keys of a section do not change.
  ghost predicate SameKeys(s: State, t: State) {
    |t.tasks| == |s.tasks| && forall a :: 0 <= a < |s.tasks| ==> t.tasks[a].keys == s.tasks[a].keys
  }

  lemma {:induction false} KeysStay(s: State, schedule: seq<nat>)
    requires Runs(s, schedule)
    ensures SameKeys(s, After(s, schedule))
    decreases |schedule|
  {
    if schedule != [] {
      KeysStay(Step(s, schedule[0]), schedule[1..]);
    }
  }

  // ---- No deadlock ----

  ghost function Wanted(s: State): set<Text> {
    set t | 0 <= t < |s.tasks| && s.tasks[t].phase == Waiting && s.tasks[t].held < |s.tasks[t].keys| :: s.tasks[t].keys[s.tasks[t].held]
  }

  /** Unless every section is done, some section can move: the owner of the greatest wanted key
      does not wait. */
  lemma NeverStuck(s: State)
    requires Inv(s)
    requires exists t :: 0 <= t < |s.tasks| && s.tasks[t].phase != Done
    ensures exists t :: Enabled(s, t)
  {
    var t :| 0 <= t < |s.tasks| && s.tasks[t].phase != Done;
    if s.tasks[t].phase != Waiting {
      assert Enabled(s, t);
    } else {
      assert s.tasks[t].keys[s.tasks[t].held] in Wanted(s);
      var k := Greatest(Wanted(s));
      var w :| 0 <= w < |s.tasks| && s.tasks[w].phase == Waiting && s.tasks[w].held < |s.tasks[w].keys| && s.tasks[w].keys[s.tasks[w].held] == k;
      assert Wants(s.tasks[w], k) && KeyOk(s, k);
      var a :| 0 <= a < |s.tasks| && Holds(s.tasks[a], k);
      var owner := s.tasks[a];
      assert TaskOk(owner);
      if owner.phase == Waiting {
        var next := owner.keys[owner.held];
        assert next in Wanted(s);
        var i :| 0 <= i < |owner.keys[..owner.held]| && owner.keys[..owner.held][i] == k;
        assert Less(owner.keys[i], next);
        LessTotal(k, next);
        assert false;
      }
      assert Enabled(s, a);
    }
  }

  // ---- Termination ----

  // How many moves a section can still take part in.
  function Weight(task: Task): nat {
    var n := |task.keys|;
    var missing := if task.held < n then n - task.held else 0;
    match task.phase
    case Acquiring => 3 * missing + n + 3
    case Waiting => 3 * missing + n + 2
    case Running => n + 2
    case Releasing => task.held + 1
    case Done => 0
  }

  function Measure(tasks: seq<Task>): nat
    decreases |tasks|
  {
    if tasks == [] then 0 else Weight(tasks[0]) + Measure(tasks[1..])
  }

  lemma {:induction false} MeasureUpdate(tasks: seq<Task>, t: nat, task: Task)
    requires t < |tasks|
    ensures Measure(tasks[t := task]) == Measure(tasks) - Weight(tasks[t]) + Weight(task)
    decreases |tasks|
  {
    hide Weight;
    if t == 0 {
      assert tasks[0 := task][1..] == tasks[1..];
    } else {
      MeasureUpdate(tasks[1..], t - 1, task);
      assert tasks[t := task][1..] == tasks[1..][t - 1 := task];
    }
  }

  lemma StepFalls(s: State, t: nat)
    requires Inv(s) && Enabled(s, t)
    ensures Measure(Step(s, t).tasks) < Measure(s.tasks)
  {
    hide Measure, KeyOk, Hand;
    var task := s.tasks[t];
    assert TaskOk(task);
    if task.phase == Releasing && task.held > 0 {
      FirstWaiter(s, task.keys[task.held - 1]);
      HandFalls(s, t, task.keys[task.held - 1]);
    } else {
      MeasureUpdate(s.tasks, t, Step(s, t).tasks[t]);
    }
  }

  lemma HandFalls(s: State, t: nat, key: Text)
    requires t < |s.tasks| && s.tasks[t].phase == Releasing && s.tasks[t].held > 0
    requires var l := LockOf(s, key);
             l.waiters != [] ==> l.waiters[0] < |s.tasks| && Wants(s.tasks[l.waiters[0]], key)
    ensures Measure(Hand(s, t, key).tasks) < Measure(s.tasks)
  {
    hide Measure;
    var l := LockOf(s, key);
    var less := s.tasks[t].(held := s.tasks[t].held - 1);
    MeasureUpdate(s.tasks, t, less);
    if l.waiters != [] {
      var tasks, w := s.tasks[t := less], l.waiters[0];
      MeasureUpdate(tasks, w, tasks[w].(held := tasks[w].held + 1, phase := Acquiring));
    }
  }

  lemma {:induction false} RunFalls(s: State, schedule: seq<nat>)
    requires Inv(s) && Runs(s, schedule)
    ensures |schedule| + Measure(After(s, schedule).tasks) <= Measure(s.tasks)
    decreases |schedule|
  {
    hide Inv, Step, Measure;
    if schedule != [] {
      StepKeeps(s, schedule[0]);
      StepFalls(s, schedule[0]);
      RunFalls(Step(s, schedule[0]), schedule[1..]);
    }
  }

  /** Every run ends, after a number of moves bounded in advance, and a run that cannot go on has
      finished every section. */
  lemma AllFinish(sections: seq<seq<Text>>, schedule: seq<nat>)
    requires Runs(Start(sections), schedule)
    ensures |schedule| <= Measure(Start(sections).tasks)
    ensures var s := After(Start(sections), schedule);
            (forall t :: !Enabled(s, t)) ==> forall t :: 0 <= t < |s.tasks| ==> s.tasks[t].phase == Done
  {
    StartKeeps(sections);
    RunKeeps(Start(sections), schedule);
    RunFalls(Start(sections), schedule);
    var s := After(Start(sections), schedule);
    if exists t :: 0 <= t < |s.tasks| && s.tasks[t].phase != Done {
      NeverStuck(s);
    }
  }
}
