/** Whole runs of a dial. */
module DialRuns {
  import opened DialSpec
  import opened DialSafety

  ghost predicate Runs(s: State, steps: seq<Step>)
    decreases |steps|
  {
    steps == [] || (Enabled(s, steps[0]) && Runs(Next(s, steps[0]), steps[1..]))
  }

  function After(s: State, steps: seq<Step>): State
    requires Runs(s, steps)
    decreases |steps|
  {
    if steps == [] then s else After(Next(s, steps[0]), steps[1..])
  }

  lemma {:induction false} RunKeeps(s: State, steps: seq<Step>)
    requires Ok(s) && Runs(s, steps)
    ensures Ok(After(s, steps)) && SameSetup(s, After(s, steps))
    decreases |steps|
  {
    hide Ok, Next;
    if steps != [] {
      NextKeeps(s, steps[0]);
      RunKeeps(Next(s, steps[0]), steps[1..]);
    }
  }

  // A dial as it is reached: how it was set up, and what has happened since.
  datatype Setup = Setup(strategy: Strategy, limited: bool, targets: seq<nat>, firstLeg: nat, deaf: set<nat>)

  function Begun(c: Setup): State { Create(c.strategy, c.limited, c.targets, c.firstLeg, c.deaf) }

  ghost predicate Happens(c: Setup, steps: seq<Step>) { Runs(Begun(c), steps) }

  function Reached(c: Setup, steps: seq<Step>): State
    requires Happens(c, steps)
  {
    After(Begun(c), steps)
  }

  lemma ReachedOk(c: Setup, steps: seq<Step>)
    requires Happens(c, steps)
    ensures var s := Reached(c, steps); Ok(s) && s.dial.strategy == c.strategy && s.dial.targets == c.targets && s.deaf == c.deaf
  {
    hide Ok, Create;
    CreateKeeps(c.strategy, c.limited, c.targets, c.firstLeg, c.deaf);
    RunKeeps(Begun(c), steps);
  }

  // ---- What holds of every reachable dial ----

  /** A sequential dial makes one attempt at a time, and none while its gap runs. */
  lemma OneAttemptAtATime(c: Setup, steps: seq<Step>)
    requires Happens(c, steps) && c.strategy == Sequential
    ensures var d := Reached(c, steps).dial; |d.active| <= 1 && (d.gap ==> d.active == [])
  {
    ReachedOk(c, steps);
  }

  /** Attempts go to the targets in order and none is lost or tried twice: until the dial is
      finalised, attempts made and targets pending make up the list. */
  lemma TargetsAreConserved(c: Setup, steps: seq<Step>)
    requires Happens(c, steps)
    ensures var d := Reached(c, steps).dial;
            && Distinct(d.attempts) && |d.started| == |d.attempts| <= |c.targets|
            && (forall i :: 0 <= i < |d.attempts| ==> d.started[i] == (d.attempts[i], c.targets[i]))
            && (d.finalized == None ==> c.targets == seq(|d.attempts|, i requires 0 <= i < |d.attempts| => d.started[i].1) + d.pending)
  {
    ReachedOk(c, steps);
    var d := Reached(c, steps).dial;
    var made := seq(|d.attempts|, i requires 0 <= i < |d.attempts| => d.started[i].1);
    assert made == c.targets[..|d.attempts|];
  }

  /** The dial holds a ticket on exactly the legs it owns, whatever was thrown. */
  lemma TicketsAreOwned(c: Setup, steps: seq<Step>, leg: nat)
    requires Happens(c, steps)
    ensures var d := Reached(c, steps).dial; leg in d.tickets <==> leg in d.active
  {
    ReachedOk(c, steps);
  }

  /** The destroy handler of the dial runs once if it is finalised and else not at all, and that of a
      leg at most once, however the calls come back. */
  lemma HandlersRunOnce(c: Setup, steps: seq<Step>, leg: nat)
    requires Happens(c, steps)
    ensures var s := Reached(c, steps);
            && s.dial.runs == (if s.dial.finalized.Some? then 1 else 0)
            && (leg in s.legs ==> s.legs[leg].runs <= 1 && (s.legs[leg].ended || !s.legs[leg].registered ==> s.legs[leg].runs == 1))
  {
    ReachedOk(c, steps);
  }

  /** An attempt the dial has given up has had its leg destroyed, unless it won; and a dial whose
      destruction returned owns, holds, awaits and times nothing. */
  lemma GivenUpMeansEnded(c: Setup, steps: seq<Step>, leg: nat)
    requires Happens(c, steps) && leg in Reached(c, steps).dial.attempts
    ensures var s := Reached(c, steps);
            && leg in s.legs
            && (leg !in s.dial.active ==> s.legs[leg].runs == 1 || (s.dial.finalized == Some(Answered) && s.dial.winner == Some(leg)))
            && (s.dial.settled ==> Clean(s.dial))
  {
    ReachedOk(c, steps);
    var s := Reached(c, steps);
    assert Accounted(s, leg);
    if s.dial.settled {
      SettledIsClean(s.dial);
    }
  }

  lemma SettledIsClean(d: Dial)
    requires DialOk(d) && d.settled
    ensures Clean(d)
  {
    assert d.tickets == {};
  }

  // ---- Answers ----

  /** A leg's answer finalises the dial as answered if and only if every other attempt it ever made
      can still be found; otherwise hanging one of them up throws, and the dial is left unfinalised. */
  lemma AnswerFinalisesExactly(c: Setup, steps: seq<Step>, leg: nat)
    requires Happens(c, steps)
    requires var s := Reached(c, steps); s.dial.finalized == None && leg in s.dial.attempts && Registered(s, leg)
    ensures var s, t := Reached(c, steps), Next(Reached(c, steps), DoAnswer(leg));
            && (t.dial.finalized == Some(Answered) <==> forall x :: x in s.dial.attempts && x != leg ==> Registered(s, x))
            && (t.dial.finalized == Some(Answered) ==> t.dial.winner == Some(leg) && Clean(t.dial))
            && (t.dial.finalized != Some(Answered) ==> t.dial.finalized == None)
  {
    hide MarkAnswered, LegsOk, OwnsOk, TargetsOk, SequentialOk, AttemptsOk;
    ReachedOk(c, steps);
    var s := Reached(c, steps);
    StatusKeeps(s, leg);
    var t := s.(legs := s.legs[leg := s.legs[leg].(ended := false)]);
    MarkAnsweredKeeps(t, leg);
    assert forall x :: Registered(t, x) == Registered(s, x);
  }

  // Two legs rung at once, as the dial begins.
  lemma TwoBegin(c: Setup)
    requires c == Setup(Parallel, false, [0, 1], 0, c.deaf)
    ensures var s := Begun(c);
            && s.dial.attempts == [0, 1] && s.dial.active == [0, 1] && s.dial.tickets == {0, 1}
            && s.dial.finalized == None && s.dial.registered && !s.dial.settled && s.deaf == c.deaf
            && s.legs == map[0 := Leg(false, true, 0, false), 1 := Leg(false, true, 0, false)] && Ok(s)
  {
    CreateKeeps(c.strategy, c.limited, c.targets, c.firstLeg, c.deaf);
    hide Ok;
    var s0 := State(Dial(Parallel, false, [0, 1], [0, 1], [], [], {}, [], None, None, false, {}, true, 0, false), map[], 0, c.deaf, {});
    var s1 := StartNext(s0);
    var s2 := StartNext(s1);
    assert s1.dial.pending == [1] && s2.dial.pending == [];
    assert StartAll(s2) == s2 && StartAll(s1) == s2 && StartAll(s0) == s2;
  }

  /** So an answer can come to nothing: of two legs rung at once the first declines and is gone, the
      second answers, and the dial stays unfinalised. */
  lemma AnswerCanBeLost(c: Setup)
    requires c == Setup(Parallel, false, [0, 1], 0, {})
    ensures var steps := [DoReject(0), DoDetach(0), DoAnswer(1)];
            && Happens(c, steps)
            && Reached(c, steps).dial.finalized == None
  {
    hide Ok, MarkAnswered, Hangup, DestroyLeg, Finalize, StartAll;
    var s := Begun(c);
    TwoBegin(c);
    var r := Next(s, DoReject(0));
    NextKeeps(s, DoReject(0));
    DeclineMeans(s);
    var d := Next(r, DoDetach(0));
    NextKeeps(r, DoDetach(0));
    var a := Next(d, DoAnswer(1));
    StatusKeeps(d, 1);
    var t := d.(legs := d.legs[1 := d.legs[1].(ended := false)]);
    MarkAnsweredKeeps(t, 1);
    assert 0 in t.dial.attempts && !Registered(t, 0);
    FinalMeans(MarkAnswered(t, 1).s);
    var steps := [DoReject(0), DoDetach(0), DoAnswer(1)];
    assert steps[1..] == [DoDetach(0), DoAnswer(1)] && steps[1..][1..] == [DoAnswer(1)] && steps[1..][1..][1..] == [];
    assert Runs(a, []) && After(a, []) == a;
    assert Runs(d, [DoAnswer(1)]) && After(d, [DoAnswer(1)]) == a;
    assert Runs(r, [DoDetach(0), DoAnswer(1)]) && After(r, [DoDetach(0), DoAnswer(1)]) == a;
  }

  lemma FinalMeans(s: State)
    requires s.dial.finalized != Some(Answered) && (s.dial.finalized.Some? ==> s.dial.finalized == Some(Answered))
    ensures s.dial.finalized == None
  {
  }

  lemma DeclineMeans(s: State)
    requires s.dial.attempts == [0, 1] && s.dial.active == [0, 1] && s.dial.finalized == None && s.dial.registered
    requires s.legs == map[0 := Leg(false, true, 0, false), 1 := Leg(false, true, 0, false)]
    ensures var r := Next(s, DoReject(0));
            && r.dial.attempts == [0, 1] && r.dial.active == [1] && r.dial.finalized == None && r.dial.registered
            && 0 in r.legs && r.legs[0].settled && r.legs[0].registered && 1 in r.legs && r.legs[1].registered
  {
    hide DestroyLeg, Finalize;
    var t := Release(ClearTimeout(s, 0), 0);
    assert Without([0, 1], 0) == [1] by {
      assert [0, 1][1..] == [1] && [1][1..] == [];
    }
    QuietHangup(t, 0);
  }
}
