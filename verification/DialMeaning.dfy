/** What each event does to a dial: when it goes on, when it fails and when it is answered. */
module DialMeaning {
  import opened DialSpec
  import opened DialSafety
  import opened DialRuns
  import opened DialEndings

  // ---- The beginning ----

  // The first n attempts, made in order on new legs.
  ghost predicate Attempted(s: State, targets: seq<nat>, firstLeg: nat, n: nat) {
    && n <= |targets| && |s.dial.attempts| == |s.dial.started| == n
    && (forall i :: 0 <= i < n ==> s.dial.attempts[i] == firstLeg + i && s.dial.started[i] == (firstLeg + i, targets[i]))
    && s.dial.active == s.dial.attempts && s.dial.pending == targets[n..] && s.nextLeg == firstLeg + n
    && (forall x :: x in s.dial.attempts ==> x in s.legs && s.legs[x] == Leg(false, true, 0, false))
    && s.dial.winner == None && s.dial.finalized == None && !s.dial.gap
  }

  lemma StartAttempted(s: State, targets: seq<nat>, firstLeg: nat, n: nat)
    requires Attempted(s, targets, firstLeg, n) && n < |targets|
    ensures Attempted(StartNext(s), targets, firstLeg, n + 1)
    ensures StartNext(s).dial.timers == if s.dial.strategy == Sequential && s.dial.limited then s.dial.timers + {firstLeg + n} else s.dial.timers
  {
  }

  lemma {:induction false} StartAllAttempted(s: State, targets: seq<nat>, firstLeg: nat, n: nat)
    requires Attempted(s, targets, firstLeg, n) && s.dial.strategy == Parallel
    ensures Attempted(StartAll(s), targets, firstLeg, |targets|) && StartAll(s).dial.timers == s.dial.timers
    decreases |targets| - n
  {
    if n < |targets| {
      StartAttempted(s, targets, firstLeg, n);
      StartAllAttempted(StartNext(s), targets, firstLeg, n + 1);
    }
  }

  /** A parallel dial begins with all its targets, a sequential one with the first, timed if so set up. */
  lemma BegunMeans(c: Setup)
    requires c.targets != []
    ensures Attempted(Begun(c), c.targets, c.firstLeg, if c.strategy == Parallel then |c.targets| else 1)
    ensures Begun(c).dial.timers == if c.strategy == Sequential && c.limited then {c.firstLeg} else {}
  {
    hide Attempted;
    var s := State(Dial(c.strategy, c.limited, c.targets, c.targets, [], [], {}, [], None, None, false, {}, true, 0, false),
                   map[], c.firstLeg, c.deaf, {});
    NoneAttempted(c, s);
    if c.strategy == Parallel {
      StartAllAttempted(s, c.targets, c.firstLeg, 0);
    } else {
      StartAttempted(s, c.targets, c.firstLeg, 0);
    }
  }

  lemma NoneAttempted(c: Setup, s: State)
    requires s == State(Dial(c.strategy, c.limited, c.targets, c.targets, [], [], {}, [], None, None, false, {}, true, 0, false),
                        map[], c.firstLeg, c.deaf, {})
    ensures Attempted(s, c.targets, c.firstLeg, 0)
  {
  }

  // ---- An attempt ends ----

  // The attempt is declined, runs out of time, or its leg ends and the end is reported.
  ghost predicate EndsAttempt(s: State, step: Step, leg: nat) {
    && leg in s.dial.active && Registered(s, leg)
    && (step == DoReject(leg) || step == DoTimeout(leg) || (step == DoHangup(leg) && leg !in s.deaf))
  }

  // Another target is to be tried before the dial may fail.
  predicate ToTry(d: Dial) { d.strategy == Sequential && d.pending != [] }

  lemma HangupReports(s: State, leg: nat)
    requires Ok(s) && leg in s.dial.active && Registered(s, leg) && leg !in s.deaf
    ensures Hangup(s, leg).s.dial == Reported(s.dial, leg)
  {
    hide Ok, LegEnded, Live, Settle, Reported;
    ActiveMeans(s, leg);
    HeardLives(s, leg);
    ReportMeans(Ending(s, leg), leg);
    EndingSettles(s, LegEnded(Ending(s, leg), leg), leg);
  }

  lemma HeardLives(s: State, leg: nat)
    requires Ok(s) && leg in s.dial.active && leg !in s.deaf
    ensures leg in s.legs && !s.legs[leg].ended && !s.legs[leg].settled
  {
    assert Heard(s, leg);
  }

  lemma RejectReports(s: State, leg: nat)
    requires Ok(s) && s.dial.finalized == None && leg in s.dial.active && Registered(s, leg)
    ensures MarkRejected(s, leg).s.dial == Reported(s.dial, leg)
  {
    hide Ok, Hangup, DestroyDial;
    OkParts(s);
    DroppedHangup(s, leg);
    var h := Hangup(Release(ClearTimeout(s, leg), leg), leg).s;
    if h.dial.active == [] {
      OkParts(h);
      EmptyDestroy(h);
    }
  }

  lemma EndingReports(s: State, step: Step, leg: nat)
    requires Ok(s) && Enabled(s, step) && s.dial.finalized == None && EndsAttempt(s, step, leg)
    ensures Next(s, step).dial == Reported(s.dial, leg)
  {
    hide Ok, Reported, Hangup, MarkRejected;
    ActiveMeans(s, leg);
    if step == DoHangup(leg) {
      HangupReports(s, leg);
    } else {
      RejectReports(s, leg);
    }
  }

  /** While other attempts are under way, one that ends is given up and nothing else about the dial
      changes. When the last one ends, a sequential dial with targets left waits for its gap with all of
      them still pending; and any other dial fails, and is cleared away. */
  lemma AttemptEndMeans(c: Setup, steps: seq<Step>, step: Step, leg: nat)
    requires Happens(c, steps)
    requires var s := Reached(c, steps); Enabled(s, step) && s.dial.finalized == None && EndsAttempt(s, step, leg)
    ensures var s, t := Reached(c, steps), Next(Reached(c, steps), step);
            var d, d' := s.dial, t.dial;
            && d'.attempts == d.attempts && d'.started == d.started && d'.winner == d.winner
            && (forall x :: x in d'.active <==> x in d.active && x != leg)
            && (if exists x :: x in d.active && x != leg then d'.finalized == None && d'.gap == d.gap && d'.pending == d.pending
                else if c.strategy == Sequential && d.pending != [] then d'.finalized == None && d'.gap && d'.pending == d.pending
                else d'.finalized == Some(Failed) && Clean(d'))
            && leg in t.legs && t.legs[leg].runs == 1
  {
    hide Next, Enabled, Reported, Ok, Clean;
    ReachedOk(c, steps);
    var s := Reached(c, steps);
    NextKeeps(s, step);
    OkParts(s);
    EndingReports(s, step, leg);
    ReportedMeans(s.dial, leg);
    ActiveMeans(s, leg);
    GivenUpRan(Next(s, step), leg);
    if Next(s, step).dial.settled {
      OkParts(Next(s, step));
      SettledIsClean(Next(s, step).dial);
    }
  }

  lemma ReportedMeans(d: Dial, leg: nat)
    requires leg in d.active && d.finalized == None
    ensures var d' := Reported(d, leg);
            && d'.attempts == d.attempts && d'.started == d.started && d'.winner == d.winner
            && (forall x :: x in d'.active <==> x in d.active && x != leg)
            && (if exists x :: x in d.active && x != leg then d'.finalized == None && d'.gap == d.gap && d'.pending == d.pending
                else if ToTry(d) then d'.finalized == None && d'.gap && d'.pending == d.pending
                else d'.finalized == Some(Failed) && d'.settled)
  {
    var rest := Without(d.active, leg);
    if rest != [] {
      assert rest[0] in rest;
    }
  }

  lemma GivenUpRan(s: State, leg: nat)
    requires Ok(s) && leg in s.dial.attempts && leg !in s.dial.active && s.dial.finalized != Some(Answered)
    ensures leg in s.legs && s.legs[leg].runs == 1
  {
    assert Accounted(s, leg);
  }

  // ---- The gap ----

  /** When the gap is over, the next target in line is tried, on a new leg, and nothing else is under way. */
  lemma GapMeans(c: Setup, steps: seq<Step>)
    requires Happens(c, steps) && Enabled(Reached(c, steps), DoGap)
    ensures var s, t := Reached(c, steps), Next(Reached(c, steps), DoGap);
            var d, d', n := s.dial, t.dial, |s.dial.attempts|;
            && n < |c.targets| && d'.attempts == d.attempts + [s.nextLeg] && d'.started == d.started + [(s.nextLeg, c.targets[n])]
            && d'.active == [s.nextLeg] && d'.pending == c.targets[n + 1..] && !d'.gap && d'.finalized == None
            && t.legs == s.legs[s.nextLeg := Leg(false, true, 0, false)]
            && (s.nextLeg in d'.timers <==> d.limited || s.nextLeg in d.timers)
  {
    hide Ok;
    ReachedOk(c, steps);
    var s := Reached(c, steps);
    OkParts(s);
    hide LegsOk, OwnsOk, AttemptsOk;
    assert s.dial.pending[0] == c.targets[|s.dial.attempts|];
    assert s.dial.pending[1..] == c.targets[|s.dial.attempts| + 1..];
  }

  // ---- When a dial fails ----

  ghost predicate LastEnds(s: State, leg: nat) { Registered(s, leg) && (forall x :: x in s.dial.active ==> x == leg) && !ToTry(s.dial) }

  // Breaking the dial, or the failure of a leg it owns, or the end of the last attempt with no target left.
  ghost predicate FailsBy(s: State, step: Step) {
    match step
    case DoBreak => true
    case DoFreeTtl => true
    case DoFail(leg) => leg in s.dial.active && Registered(s, leg)
    case DoReject(leg) => leg in s.dial.attempts && LastEnds(s, leg)
    case DoTimeout(leg) => LastEnds(s, leg)
    case DoHangup(leg) => leg in s.dial.active && leg !in s.deaf && LastEnds(s, leg)
    case _ => false
  }

  lemma RejectFails(s: State, leg: nat)
    requires Ok(s) && s.dial.finalized == None
    ensures MarkRejected(s, leg).s.dial.finalized == (if LastEnds(s, leg) then Some(Failed) else None)
  {
    hide Ok, Hangup, DestroyDial;
    OkParts(s);
    DroppedHangup(s, leg);
    DropMeans(s, leg);
    DestroyFails(Hangup(Release(ClearTimeout(s, leg), leg), leg).s);
  }

  lemma DestroyFails(s: State)
    requires Ok(s) && s.dial.finalized == None
    ensures DestroyDial(s, Failed).s.dial.finalized == Some(Failed)
  {
    hide DestroyDial, Ok;
    DestroyKeeps(s, Failed);
  }

  lemma FailFails(s: State, leg: nat)
    requires Ok(s) && s.dial.finalized == None
    ensures Fail(s, leg).s.dial.finalized == (if leg in s.dial.active && Registered(s, leg) then Some(Failed) else None)
  {
    hide Ok, Hangup, DestroyDial;
    OkParts(s);
    DroppedHangup(s, leg);
    DropMeans(s, leg);
    DestroyFails(Hangup(Release(ClearTimeout(s, leg), leg), leg).s);
  }

  lemma HangupFails(s: State, leg: nat)
    requires Ok(s) && s.dial.finalized == None
    ensures Hangup(s, leg).s.dial.finalized == (if leg in s.dial.active && leg !in s.deaf && LastEnds(s, leg) then Some(Failed) else None)
  {
    hide Ok, Hangup, Reported;
    HangupMeans(s, leg);
    if leg in s.dial.active {
      ReportedMeans(s.dial, leg);
      if Registered(s, leg) {
        if leg in s.deaf { DeafHangup(s, leg); } else { HangupReports(s, leg); }
      }
    }
  }

  lemma DeafHangup(s: State, leg: nat)
    requires leg in s.deaf
    ensures Hangup(s, leg).s.dial == s.dial
  {
    hide LegEnded, Live;
  }

  lemma DetachSame(s: State, leg: nat)
    requires leg in s.legs
    ensures s.(legs := s.legs[leg := s.legs[leg].(registered := false)]).dial == s.dial
  {
  }

  /** A step makes an unfinalised dial fail if and only if it breaks the dial or lets it lapse, reports the
      failure of a leg that the dial owns and that can be found, or ends its last attempt, on a leg that can
      be found, with no target left to try. A sequential dial with targets left is not failed by its
      attempts. */
  lemma FailsExactly(c: Setup, steps: seq<Step>, step: Step)
    requires Happens(c, steps) && Enabled(Reached(c, steps), step) && Reached(c, steps).dial.finalized == None
    ensures Next(Reached(c, steps), step).dial.finalized == Some(Failed) <==> FailsBy(Reached(c, steps), step)
  {
    hide Ok, MarkAnswered, MarkRejected, MarkFailed, GapFires, Hangup, DestroyDial, LastEnds, Fail;
    ReachedOk(c, steps);
    StepFails(Reached(c, steps), step);
  }

  lemma StepFails(s: State, step: Step)
    requires Ok(s) && Enabled(s, step) && s.dial.finalized == None
    ensures Next(s, step).dial.finalized == Some(Failed) <==> FailsBy(s, step)
  {
    hide Ok, MarkAnswered, MarkRejected, MarkFailed, GapFires, Hangup, DestroyDial, LastEnds, Fail;
    OkParts(s);
    match step
    case DoAnswer(leg) =>
      if Registered(s, leg) {
        StatusKeeps(s, leg);
        MarkAnsweredKeeps(s.(legs := s.legs[leg := s.legs[leg].(ended := false)]), leg);
      }
    case DoBridge(leg) => MarkAnsweredKeeps(s, leg);
    case DoReject(leg) =>
      RejectFails(s, leg);
      HangupFails(s, leg);
      OwnedAttempts(s, leg);
    case DoFail(leg) => FailFails(s, leg);
    case DoTimeout(leg) => RejectFails(s, leg);
    case DoGap => GapStarts(s);
    case DoHangup(leg) => HangupFails(s, leg);
    case DoDetach(leg) => DetachSame(s, leg);
    case DoBreak => DestroyFails(s);
    case DoFreeTtl => DestroyFails(s);
  }

  lemma OwnedAttempts(s: State, leg: nat)
    requires Ok(s)
    ensures leg in s.dial.active ==> leg in s.dial.attempts
  {
  }

  // ---- When a dial is answered ----

  ghost predicate AnsweredBy(s: State, step: Step) {
    match step
    case DoAnswer(leg) => leg in s.dial.attempts && forall x :: x in s.dial.attempts ==> Registered(s, x)
    case DoBridge(leg) =>
      && leg in s.dial.active && s.dial.winner == None && (Registered(s, leg) || leg in s.winnerTickets)
      && forall x :: x in s.dial.attempts && x != leg ==> Registered(s, x)
    case _ => false
  }

  /** A step makes an unfinalised dial answered if and only if one of its legs answers, or a leg it owns is
      bridged before any has won, and every attempt can be found. That leg is then the winner: it is left
      alone, and a ticket is held on it; every other attempt's leg has been destroyed. */
  lemma AnsweredExactly(c: Setup, steps: seq<Step>, step: Step)
    requires Happens(c, steps) && Enabled(Reached(c, steps), step) && Reached(c, steps).dial.finalized == None
    ensures Next(Reached(c, steps), step).dial.finalized == Some(Answered) <==> AnsweredBy(Reached(c, steps), step)
    ensures AnsweredBy(Reached(c, steps), step) ==>
              var s, t := Reached(c, steps), Next(Reached(c, steps), step);
              && t.dial.winner == Some(step.leg) && Clean(t.dial) && t.dial.attempts == s.dial.attempts
              && step.leg in s.legs && step.leg in t.legs && step.leg in t.winnerTickets
              && t.legs[step.leg] == (if step.DoAnswer? then s.legs[step.leg].(ended := false) else s.legs[step.leg])
              && forall x :: x in s.dial.attempts && x != step.leg ==> x in t.legs && t.legs[x].runs == 1
  {
    hide Ok, MarkAnswered, MarkRejected, MarkFailed, GapFires, Hangup, DestroyDial, Fail, Clean, FailsBy;
    ReachedOk(c, steps);
    var s := Reached(c, steps);
    NextKeeps(s, step);
    StepAnswers(s, step);
    if AnsweredBy(s, step) {
      OthersRan(Next(s, step), step.leg);
      StepSpares(s, step);
    }
  }

  // The leg is as it was, and so is the ticket on it.
  ghost predicate Spared(s: State, t: State, leg: nat) {
    leg in s.legs && leg in t.legs && t.legs[leg] == s.legs[leg] && (leg in s.winnerTickets ==> leg in t.winnerTickets)
  }

  lemma HangupSpares(s: State, other: nat, leg: nat)
    requires Ok(s) && leg in s.legs && other != leg
    ensures Spared(s, Hangup(Release(s, other), other).s, leg)
  {
    hide Ok, Hangup;
    ReleaseKeeps(s, other);
    QuietHangup(Release(s, other), other);
  }

  lemma {:induction false} LosersSpare(s: State, legs: seq<nat>, winner: nat)
    requires Ok(s) && winner in s.legs
    ensures Spared(s, HangupLosers(s, legs, winner).s, winner)
    decreases |legs|
  {
    hide Ok, Hangup, Release, OkBut;
    if legs != [] {
      if legs[0] == winner {
        LosersSpare(s, legs[1..], winner);
      } else {
        HangupSpares(s, legs[0], winner);
        ReleaseKeeps(s, legs[0]);
        HangupKeeps(Release(s, legs[0]), legs[0]);
        LosersSpare(Hangup(Release(s, legs[0]), legs[0]).s, legs[1..], winner);
      }
    }
  }

  lemma {:induction false} AllSpare(s: State, legs: seq<nat>, winner: nat)
    requires Ok(s) && winner in s.legs && s.dial.finalized == Some(Answered) && s.dial.winner == Some(winner)
    ensures Spared(s, HangupAll(s, legs, Answered).s, winner)
    decreases |legs|
  {
    hide Ok, Hangup, OkBut;
    if legs != [] {
      var t := Release(s, legs[0]);
      if legs[0] == winner {
        ReleaseWinner(s, winner);
        AllSpare(t, legs[1..], winner);
      } else {
        HangupSpares(s, legs[0], winner);
        ReleaseKeeps(s, legs[0]);
        HangupKeeps(t, legs[0]);
        AllSpare(Hangup(t, legs[0]).s, legs[1..], winner);
      }
    }
  }

  lemma DestroySpares(s: State, leg: nat)
    requires Ok(s) && s.dial.finalized == None && s.dial.winner == Some(leg) && leg in s.legs
    ensures Spared(s, DestroyDial(s, Answered).s, leg)
  {
    hide Ok, HangupAll;
    OkParts(s);
    BeginKeeps(s, Answered);
    AllSpare(Begin(s, Answered), s.dial.active, leg);
  }

  lemma AnswerSpares(s: State, leg: nat)
    requires Ok(s) && s.dial.registered && s.dial.finalized == None && leg in s.legs && (Registered(s, leg) || leg in s.winnerTickets)
    ensures var r := MarkAnswered(s, leg).s; r.dial.finalized == Some(Answered) ==> Spared(s, r, leg) && leg in r.winnerTickets
  {
    hide Ok, HangupLosers, DestroyDial;
    var t := ClearTimeout(s, leg);
    ClearTimeoutKeeps(s, leg);
    OkParts(t);
    var v := t.(dial := t.dial.(winner := Some(leg)), winnerTickets := t.winnerTickets + {leg});
    FlagsKeep(t, v);
    LosersKeep(v, s.dial.attempts, leg);
    LosersSpare(v, s.dial.attempts, leg);
    var l := HangupLosers(v, s.dial.attempts, leg);
    OkParts(l.s);
    DestroySpares(l.s, leg);
    assert MarkAnswered(s, leg) == if l.threw then l else DestroyDial(l.s, Answered);
  }

  lemma StepSpares(s: State, step: Step)
    requires Ok(s) && Enabled(s, step) && s.dial.finalized == None && AnsweredBy(s, step)
    ensures var t := Next(s, step);
            t.dial.finalized == Some(Answered) ==>
              && step.leg in s.legs && step.leg in t.legs && step.leg in t.winnerTickets
              && t.legs[step.leg] == (if step.DoAnswer? then s.legs[step.leg].(ended := false) else s.legs[step.leg])
  {
    hide Ok, MarkAnswered, LegsOk, OwnsOk, TargetsOk, SequentialOk;
    OkParts(s);
    if step.DoAnswer? {
      StatusKeeps(s, step.leg);
      AnswerSpares(s.(legs := s.legs[step.leg := s.legs[step.leg].(ended := false)]), step.leg);
    } else {
      OwnedHasLeg(s, step.leg);
      AnswerSpares(s, step.leg);
    }
  }

  lemma OwnedHasLeg(s: State, leg: nat)
    requires Ok(s) && leg in s.dial.active
    ensures leg in s.legs && s.dial.registered
  {
    assert Heard(s, leg);
  }

  lemma OthersRan(s: State, leg: nat)
    requires Ok(s) && s.dial.active == [] && s.dial.winner == Some(leg)
    ensures forall x :: x in s.dial.attempts && x != leg ==> x in s.legs && s.legs[x].runs == 1
  {
    forall x | x in s.dial.attempts && x != leg ensures x in s.legs && s.legs[x].runs == 1 {
      assert Accounted(s, x);
    }
  }

  lemma StepAnswers(s: State, step: Step)
    requires Ok(s) && Enabled(s, step) && s.dial.finalized == None
    ensures var t := Next(s, step);
            && (t.dial.finalized == Some(Answered) <==> AnsweredBy(s, step))
            && (AnsweredBy(s, step) ==> t.dial.winner == Some(step.leg) && Clean(t.dial) && t.dial.active == [] && t.dial.attempts == s.dial.attempts)
  {
    hide Ok, MarkAnswered, MarkRejected, MarkFailed, GapFires, Hangup, DestroyDial, LastEnds, Fail, FailsBy;
    OkParts(s);
    match step
    case DoAnswer(leg) =>
      if Registered(s, leg) {
        StatusKeeps(s, leg);
        var t := s.(legs := s.legs[leg := s.legs[leg].(ended := false)]);
        MarkAnsweredKeeps(t, leg);
        assert forall x :: Registered(t, x) == Registered(s, x);
      }
    case DoBridge(leg) => MarkAnsweredKeeps(s, leg);
    case DoReject(leg) =>
      RejectFails(s, leg);
      HangupFails(s, leg);
    case DoFail(leg) => FailFails(s, leg);
    case DoTimeout(leg) => RejectFails(s, leg);
    case DoGap => GapStarts(s);
    case DoHangup(leg) => HangupFails(s, leg);
    case DoDetach(leg) => DetachSame(s, leg);
    case DoBreak => DestroyFails(s);
    case DoFreeTtl => DestroyFails(s);
  }

  /** The ticket on a winner's leg is given back when the leg ends and the end is reported. */
  lemma WinnerIsReleased(c: Setup, steps: seq<Step>, leg: nat)
    requires Happens(c, steps)
    requires var s := Reached(c, steps); Registered(s, leg) && !s.legs[leg].ended && !s.legs[leg].settled && leg !in s.deaf
    ensures leg !in Next(Reached(c, steps), DoHangup(leg)).winnerTickets
  {
    hide Ok, LegEnded, Live, Settle, Reported;
    ReachedOk(c, steps);
    var s := Reached(c, steps);
    var t := Ending(s, leg);
    if leg in s.dial.active {
      ActiveMeans(s, leg);
      ReportMeans(t, leg);
    } else {
      QuietReport(t, leg);
    }
    EndingSettles(s, LegEnded(t, leg), leg);
    assert Hangup(s, leg).s == Settle(LegEnded(t, leg), leg);
  }

  // ---- Every target is tried first ----

  // Steps that fail a dial outright, however many targets are left.
  predicate Outright(step: Step) { step.DoBreak? || step.DoFreeTtl? || step.DoFail? }

  // A parallel dial has nothing pending, and one that failed has made an attempt at every target.
  ghost predicate Exhausting(s: State) {
    && (s.dial.strategy == Parallel ==> |s.dial.attempts| == |s.dial.targets|)
    && (s.dial.finalized == Some(Failed) ==> |s.dial.attempts| == |s.dial.targets|)
  }

  lemma StepExhausts(s: State, step: Step)
    requires Ok(s) && Enabled(s, step) && Exhausting(s) && !Outright(step)
    ensures Exhausting(Next(s, step))
  {
    hide Ok, Next;
    NextKeeps(s, step);
    var t := Next(s, step);
    NoMoreAttempts(t);
    if s.dial.finalized.Some? {
      FinalisedStays(s, step);
    } else {
      StepFails(s, step);
      NothingToTry(s, step);
    }
  }

  lemma NoMoreAttempts(s: State)
    requires Ok(s)
    ensures |s.dial.attempts| <= |s.dial.targets|
  {
  }

  lemma NothingToTry(s: State, step: Step)
    requires Ok(s) && Enabled(s, step) && s.dial.finalized == None && !Outright(step) && Exhausting(s)
    ensures FailsBy(s, step) ==> |s.dial.attempts| == |s.dial.targets|
  {
    hide LegsOk, OwnsOk, AttemptsOk;
  }

  lemma {:induction false} RunExhausts(s: State, steps: seq<Step>)
    requires Ok(s) && Runs(s, steps) && Exhausting(s) && forall i :: 0 <= i < |steps| ==> !Outright(steps[i])
    ensures Exhausting(After(s, steps))
    decreases |steps|
  {
    hide Ok, Next, Enabled, Exhausting;
    if steps != [] {
      NextKeeps(s, steps[0]);
      StepExhausts(s, steps[0]);
      RunExhausts(Next(s, steps[0]), steps[1..]);
    }
  }

  /** A dial that fails, and was neither broken nor left to lapse nor told that an attempt had failed
      outright, has first made an attempt at every target, in order. */
  lemma FailsOnlyWhenExhausted(c: Setup, steps: seq<Step>)
    requires Happens(c, steps) && c.targets != [] && Reached(c, steps).dial.finalized == Some(Failed)
    requires forall i :: 0 <= i < |steps| ==> !Outright(steps[i])
    ensures var d := Reached(c, steps).dial;
            |d.started| == |c.targets| && forall i :: 0 <= i < |c.targets| ==> d.started[i].1 == c.targets[i]
  {
    hide Begun, Clean, Ok;
    BegunOpen(c);
    BegunExhausts(c);
    ReachedOk(c, steps);
    RunExhausts(Begun(c), steps);
    TargetsAreConserved(c, steps);
  }

  lemma BegunExhausts(c: Setup)
    requires c.targets != []
    ensures Exhausting(Begun(c))
  {
    hide Begun;
    BegunMeans(c);
    CreatedWith(c);
  }

  lemma CreatedWith(c: Setup)
    ensures Begun(c).dial.strategy == c.strategy && Begun(c).dial.targets == c.targets
  {
    CreateKeeps(c.strategy, c.limited, c.targets, c.firstLeg, c.deaf);
  }

  /** Two targets in turn: the first is declined, the dial waits, and then rings the second. */
  lemma SecondIsTried(c: Setup)
    requires c == Setup(Sequential, false, [7, 9], 0, {})
    ensures var steps := [DoReject(0), DoGap];
            && Happens(c, steps)
            && var d := Reached(c, steps).dial; |d.started| == 2 && d.started[0] == (0, 7) && d.started[1].1 == 9 && d.active == [d.started[1].0] && d.finalized == None
  {
    hide Begun, Next, Ok;
    var steps, none, one := [DoReject(0), DoGap], [], [DoReject(0)];
    var s := Begun(c);
    BegunMeans(c);
    assert s.dial.attempts[0] == 0 && s.dial.attempts == [0] && s.dial.started == [(0, 7)];
    assert Runs(s, none) && After(s, none) == s;
    AttemptEndMeans(c, none, DoReject(0), 0);
    var r := Next(s, DoReject(0));
    assert one[1..] == [] && Runs(r, none) && After(r, none) == r;
    assert Runs(s, one) && After(s, one) == r;
    assert r.dial.gap;
    GapMeans(c, one);
    var g := Next(r, DoGap);
    assert steps[1..] == [DoGap] && [DoGap][1..] == [];
    assert Runs(g, none) && After(g, none) == g;
    assert Runs(r, [DoGap]) && After(r, [DoGap]) == g;
  }
}
