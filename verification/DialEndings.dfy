/** How a dial ends: what finalising it leaves behind, and when it can no longer end by itself. */
module DialEndings {
  import opened DialSpec
  import opened DialSafety
  import opened DialRuns

  // ---- What finalising leaves behind ----

  // Every leg the dial owns can be found, but for one that wins as it is bridged.
  ghost predicate AllFound(s: State, step: Step) {
    forall x :: x in s.dial.active ==> Registered(s, x) || step == DoBridge(x)
  }

  // Hanging up a leg is no business of the dial, or is reported to it.
  lemma HangupMeans(s: State, leg: nat)
    requires Ok(s)
    ensures var h := Hangup(s, leg).s;
            h.deaf == s.deaf && (h.dial == s.dial || (leg in s.dial.active && Registered(s, leg) && h.dial == Reported(s.dial, leg)))
  {
    hide Ok, LegEnded, Live, Settle, Reported;
    if leg !in s.dial.active {
      QuietHangup(s, leg);
    } else if Registered(s, leg) && !s.legs[leg].ended && !s.legs[leg].settled {
      ActiveMeans(s, leg);
      ReportMeans(Ending(s, leg), leg);
      EndingSettles(s, if leg in s.deaf then Ending(s, leg) else LegEnded(Ending(s, leg), leg), leg);
    } else if Registered(s, leg) && !s.legs[leg].ended {
      SettledDestroy(s, leg);
    }
  }

  // A finalised dial keeps its outcome, and what was not cleared away never is.
  lemma FinalisedStays(s: State, step: Step)
    requires Ok(s) && Enabled(s, step) && s.dial.finalized.Some?
    ensures var t := Next(s, step); t.dial.finalized == s.dial.finalized && t.dial.settled == s.dial.settled
  {
    hide Ok, Hangup, DestroyDial, StartNext, HangupLosers;
    match step
    case DoReject(leg) => HangupMeans(s, leg);
    case DoHangup(leg) => HangupMeans(s, leg);
    case _ =>
  }

  // A hang-up that finalises the dial was of the last leg it owned.
  lemma HangupEnds(s: State, leg: nat)
    requires Ok(s) && s.dial.finalized == None && Hangup(s, leg).s.dial.finalized.Some?
    ensures Hangup(s, leg).s.dial.settled && forall x :: x in s.dial.active ==> Registered(s, x)
  {
    hide Ok, Hangup;
    HangupMeans(s, leg);
    LastOwned(s.dial.active, leg);
  }

  lemma LastOwned(legs: seq<nat>, leg: nat)
    ensures Without(legs, leg) == [] ==> forall x :: x in legs ==> x == leg
  {
    assert forall x :: x in legs && x != leg ==> x in Without(legs, leg);
  }

  lemma RejectEnds(s: State, leg: nat)
    requires Ok(s) && s.dial.finalized == None && MarkRejected(s, leg).s.dial.finalized.Some?
    ensures MarkRejected(s, leg).s.dial.settled && forall x :: x in s.dial.active ==> Registered(s, x)
  {
    hide Ok, Hangup, DestroyDial;
    OkParts(s);
    DroppedHangup(s, leg);
    var h := Hangup(Release(ClearTimeout(s, leg), leg), leg);
    LastOwned(s.dial.active, leg);
    OkParts(h.s);
    EmptyEnds(h.s);
    assert leg !in s.dial.attempts ==> leg !in s.dial.active;
  }

  // With nobody to hang up nothing can be thrown.
  lemma EmptyEnds(s: State)
    requires Ok(s) && s.dial.active == [] && s.dial.finalized == None
    ensures DestroyDial(s, Failed).s.dial.settled
  {
    hide DestroyDial;
    EmptyDestroy(s);
  }

  lemma FailEnds(s: State, leg: nat)
    requires Ok(s) && s.dial.finalized == None && Fail(s, leg).s.dial.finalized.Some?
    ensures Fail(s, leg).s.dial.settled <==> forall x :: x in s.dial.active ==> Registered(s, x)
  {
    hide Ok, Hangup, DestroyDial;
    OkParts(s);
    DroppedHangup(s, leg);
    var h := Hangup(Release(ClearTimeout(s, leg), leg), leg).s;
    OkParts(h);
    DestroyEnds(h);
    assert forall x :: x in s.dial.active ==> x == leg || x in h.dial.active;
  }

  lemma DestroyEnds(s: State)
    requires Ok(s) && s.dial.finalized == None
    ensures var t := DestroyDial(s, Failed).s;
            t.dial.finalized.Some? && (t.dial.settled <==> forall x :: x in s.dial.active ==> Registered(s, x))
  {
    hide Ok, DestroyDial;
    DestroyKeeps(s, Failed);
    OkParts(DestroyDial(s, Failed).s);
  }

  // The end of the gap always finds a target to try.
  lemma GapStarts(s: State)
    requires Ok(s) && s.dial.gap
    ensures GapFires(s).dial.finalized == None
  {
    hide DestroyDial;
  }

  // The step that finalises a dial gets through its destruction exactly when all legs can be found.
  lemma EndsSettled(s: State, step: Step)
    requires Ok(s) && Enabled(s, step) && s.dial.finalized == None && Next(s, step).dial.finalized.Some?
    ensures Next(s, step).dial.settled <==> AllFound(s, step)
  {
    hide Ok, MarkAnswered, MarkRejected, MarkFailed, GapFires, Hangup, DestroyDial;
    OkParts(s);
    match step
    case DoAnswer(leg) =>
      StatusKeeps(s, leg);
      var t := s.(legs := s.legs[leg := s.legs[leg].(ended := false)]);
      MarkAnsweredKeeps(t, leg);
      assert forall x :: Registered(t, x) == Registered(s, x);
    case DoBridge(leg) => MarkAnsweredKeeps(s, leg);
    case DoReject(leg) =>
      if s.dial.registered && leg in s.dial.attempts { RejectEnds(s, leg); } else { HangupEnds(s, leg); }
    case DoFail(leg) => FailEnds(s, leg);
    case DoTimeout(leg) => RejectEnds(s, leg);
    case DoGap => GapStarts(s);
    case DoHangup(leg) => HangupEnds(s, leg);
    case DoDetach(leg) =>
    case DoBreak => DestroyEnds(s);
    case DoFreeTtl => DestroyEnds(s);
  }

  // A leg that could not be found when the dial was finalised.
  ghost predicate Missed(s: State, steps: seq<Step>)
    requires Runs(s, steps)
    decreases |steps|
  {
    steps != [] &&
    var t := Next(s, steps[0]);
    (s.dial.finalized == None && t.dial.finalized.Some? && !AllFound(s, steps[0])) || Missed(t, steps[1..])
  }

  lemma {:induction false} FinalisedRuns(s: State, steps: seq<Step>)
    requires Ok(s) && Runs(s, steps) && s.dial.finalized.Some?
    ensures var t := After(s, steps); t.dial.finalized == s.dial.finalized && t.dial.settled == s.dial.settled && !Missed(s, steps)
    decreases |steps|
  {
    hide Ok, Next, Enabled;
    if steps != [] {
      NextKeeps(s, steps[0]);
      FinalisedStays(s, steps[0]);
      FinalisedRuns(Next(s, steps[0]), steps[1..]);
    }
  }

  lemma {:induction false} RunEnds(s: State, steps: seq<Step>)
    requires Ok(s) && Runs(s, steps) && s.dial.finalized == None
    ensures After(s, steps).dial.finalized.Some? ==> (After(s, steps).dial.settled <==> !Missed(s, steps))
    decreases |steps|
  {
    hide Ok, Next, Enabled, AllFound;
    if steps != [] {
      var t := Next(s, steps[0]);
      NextKeeps(s, steps[0]);
      if t.dial.finalized.Some? {
        EndsSettled(s, steps[0]);
        FinalisedRuns(t, steps[1..]);
      } else {
        RunEnds(t, steps[1..]);
      }
    }
  }

  lemma {:induction false} StartAllOpen(s: State)
    ensures var t := StartAll(s);
            && t.dial.finalized == s.dial.finalized && t.deaf == s.deaf
            && (s.dial.active != [] || s.dial.pending != [] ==> t.dial.active != [])
    decreases |s.dial.pending|
  {
    if s.dial.pending != [] {
      StartAllOpen(StartNext(s));
    }
  }

  lemma BegunOpen(c: Setup)
    ensures var s := Begun(c); Ok(s) && s.dial.finalized == None && s.deaf == c.deaf && (c.targets != [] ==> s.dial.active != [])
  {
    CreateKeeps(c.strategy, c.limited, c.targets, c.firstLeg, c.deaf);
    hide Ok;
    var s := State(Dial(c.strategy, c.limited, c.targets, c.targets, [], [], {}, [], None, None, false, {}, true, 0, false),
                   map[], c.firstLeg, c.deaf, {});
    StartAllOpen(s);
  }

  // ---- A finalised dial ----

  /** Whatever finalises a dial clears it away if and only if every leg it owns can be found just before. */
  lemma EndsCleanExactly(c: Setup, steps: seq<Step>, step: Step)
    requires Happens(c, steps) && Enabled(Reached(c, steps), step)
    requires Reached(c, steps).dial.finalized == None && Next(Reached(c, steps), step).dial.finalized.Some?
    ensures Clean(Next(Reached(c, steps), step).dial) <==> AllFound(Reached(c, steps), step)
  {
    hide Next, Enabled, AllFound;
    ReachedOk(c, steps);
    var s := Reached(c, steps);
    NextKeeps(s, step);
    EndsSettled(s, step);
    if Next(s, step).dial.settled {
      SettledIsClean(Next(s, step).dial);
    }
  }

  /** A finalised dial owns, holds, awaits and times nothing, and has left the registry, if and only if
      every leg it owned could be found when it was finalised. */
  lemma FinalisedCleanExactly(c: Setup, steps: seq<Step>)
    requires Happens(c, steps) && Reached(c, steps).dial.finalized.Some?
    ensures Clean(Reached(c, steps).dial) <==> !Missed(Begun(c), steps)
  {
    hide Begun;
    BegunOpen(c);
    ReachedOk(c, steps);
    RunEnds(Begun(c), steps);
    if Reached(c, steps).dial.settled {
      SettledIsClean(Reached(c, steps).dial);
    }
  }

  // With no leg deaf, an owned leg can be found.
  lemma OwnedAreFound(s: State, leg: nat)
    requires Ok(s) && s.deaf == {} && leg in s.dial.active
    ensures Registered(s, leg)
  {
    assert Heard(s, leg);
  }

  lemma {:induction false} NeverMissed(s: State, steps: seq<Step>)
    requires Ok(s) && Runs(s, steps) && s.deaf == {}
    ensures !Missed(s, steps)
    decreases |steps|
  {
    hide Ok, Next, Enabled;
    if steps != [] {
      forall x | x in s.dial.active ensures Registered(s, x) {
        OwnedAreFound(s, x);
      }
      NextKeeps(s, steps[0]);
      NeverMissed(Next(s, steps[0]), steps[1..]);
    }
  }

  /** When every leg's end is reported, a finalised dial has no attempt ticket, active attempt, pending
      target or timer left, and every attempt that did not win has had its leg destroyed. */
  lemma FinalisedIsClean(c: Setup, steps: seq<Step>, leg: nat)
    requires Happens(c, steps) && c.deaf == {} && Reached(c, steps).dial.finalized.Some?
    ensures var s := Reached(c, steps);
            && Clean(s.dial)
            && (leg in s.dial.attempts ==>
                  leg in s.legs && (s.legs[leg].runs == 1 || (s.dial.finalized == Some(Answered) && s.dial.winner == Some(leg))))
  {
    hide Begun, Clean, Ok;
    BegunOpen(c);
    FinalisedCleanExactly(c, steps);
    NeverMissed(Begun(c), steps);
    CleanMeans(Reached(c, steps).dial);
    if leg in Reached(c, steps).dial.attempts {
      GivenUpMeansEnded(c, steps, leg);
    }
  }

  lemma CleanMeans(d: Dial)
    requires Clean(d)
    ensures d.active == []
  {
  }

  /** When a leg's end goes unreported it is otherwise: of two legs rung at once the first ends unheard
      and is gone, the dial is broken, and the second goes on ringing for a finalised dial that is never
      cleared away. */
  lemma BrokenDialRings(c: Setup)
    requires c == Setup(Parallel, false, [0, 1], 0, {0})
    ensures var steps := [DoHangup(0), DoDetach(0), DoBreak];
            && Happens(c, steps)
            && var s := Reached(c, steps);
            && s.dial.finalized == Some(Failed) && s.dial.registered && s.dial.active == [1] && 1 in s.dial.tickets
            && Registered(s, 1) && !s.legs[1].ended && s.legs[1].runs == 0
  {
    hide StartAll, Hangup, DestroyDial;
    TwoBegin(c);
    var s := Begun(c);
    UnheardMeans(s);
    var h := Next(s, DoHangup(0));
    var d := Next(h, DoDetach(0));
    BreakThrows(d);
    var b := Next(d, DoBreak);
    var steps := [DoHangup(0), DoDetach(0), DoBreak];
    assert steps[1..] == [DoDetach(0), DoBreak] && steps[1..][1..] == [DoBreak] && steps[1..][1..][1..] == [];
    assert Runs(b, []) && After(b, []) == b;
    assert Runs(d, [DoBreak]) && After(d, [DoBreak]) == b;
    assert Runs(h, [DoDetach(0), DoBreak]) && After(h, [DoDetach(0), DoBreak]) == b;
  }

  lemma UnheardMeans(s: State)
    requires s.deaf == {0} && 0 in s.legs && s.legs[0] == Leg(false, true, 0, false)
    ensures Hangup(s, 0) == Out(s.(legs := s.legs[0 := Leg(true, true, 1, true)]), false)
  {
    hide LegEnded, Live;
    EndingSettles(s, Ending(s, 0), 0);
  }

  lemma BreakThrows(s: State)
    requires s.dial.attempts == [0, 1] && s.dial.active == [0, 1] && s.dial.finalized == None && s.dial.registered && !s.dial.settled
    requires !Registered(s, 0)
    ensures var b := Begin(s, Failed); DestroyDial(s, Failed) == Out(Release(b, 0), true)
    ensures Without([0, 1], 0) == [1]
  {
    hide Live;
    assert [0, 1][1..] == [1] && [1][1..] == [];
    assert Without([1], 0) == [1];
    var b := Begin(s, Failed);
    assert Hangup(Release(b, 0), 0) == Out(Release(b, 0), true);
    assert HangupAll(b, [0, 1], Failed) == Out(Release(b, 0), true);
  }

  // ---- A dial that can no longer end by itself ----

  // Not finalised, with no attempt under way and none scheduled.
  ghost predicate Stranded(d: Dial) { d.finalized == None && d.active == [] && !d.gap }

  predicate Missing(s: State, x: nat, winner: nat) { x != winner && !Registered(s, x) }

  // Hanging up the other attempts in turn gives up all that the dial owns, and then throws.
  ghost predicate LosesAll(s: State, winner: nat) {
    var a := s.dial.attempts;
    && (exists x :: x in a && Missing(s, x, winner))
    && (forall i, j :: 0 <= i < |a| && 0 <= j < |a| && a[i] in s.dial.active && Missing(s, a[j], winner) ==> i <= j)
  }

  // A late answer of a leg given up, or the end of the last attempt when its leg cannot be found.
  ghost predicate Strands(s: State, step: Step) {
    && s.dial.finalized == None && !s.dial.gap
    && match step
       case DoAnswer(leg) => Registered(s, leg) && leg in s.dial.attempts && leg !in s.dial.active && LosesAll(s, leg)
       case DoReject(leg) => LastMissing(s, leg)
       case DoFail(leg) => LastMissing(s, leg)
       case DoTimeout(leg) => LastMissing(s, leg)
       case _ => false
  }

  ghost predicate LastMissing(s: State, leg: nat) {
    leg in s.dial.active && !Registered(s, leg) && forall x :: x in s.dial.active ==> x == leg
  }

  // What is owned when the first missing leg throws.
  lemma {:induction false} LosersLeave(s: State, legs: seq<nat>, winner: nat, k: nat)
    requires Ok(s) && k < |legs| && Missing(s, legs[k], winner) && forall i :: 0 <= i < k ==> !Missing(s, legs[i], winner)
    requires forall x :: x in legs ==> x in s.dial.attempts
    ensures var r := HangupLosers(s, legs, winner);
            r.threw && forall x :: x in r.s.dial.active <==> x in s.dial.active && (x == winner || x !in legs[..k + 1])
    decreases k
  {
    hide Ok, Release, Hangup, OkBut;
    assert legs == [legs[0]] + legs[1..];
    assert legs[..k + 1] == [legs[0]] + legs[1..][..k];
    if legs[0] == winner {
      LosersLeave(s, legs[1..], winner, k - 1);
    } else {
      var leg, t := legs[0], Release(s, legs[0]);
      OkParts(s);
      ReleaseMeans(s, leg);
      ReleaseKeeps(s, leg);
      HangupKeeps(t, leg);
      var h := Hangup(t, leg);
      if k > 0 {
        assert !Missing(s, legs[0], winner);
        assert forall i :: 0 <= i < k - 1 ==> legs[1..][i] == legs[i + 1];
        LosersLeave(h.s, legs[1..], winner, k - 1);
      }
    }
  }

  lemma ReleaseMeans(s: State, leg: nat)
    requires leg in s.dial.attempts
    ensures var t := Release(s, leg);
            && t.legs == s.legs && t.dial.attempts == s.dial.attempts
            && forall x :: x in t.dial.active <==> x in s.dial.active && x != leg
  {
  }

  lemma {:induction false} FirstMissing(s: State, legs: seq<nat>, winner: nat) returns (k: nat)
    requires exists x :: x in legs && Missing(s, x, winner)
    ensures k < |legs| && Missing(s, legs[k], winner) && forall i :: 0 <= i < k ==> !Missing(s, legs[i], winner)
  {
    k := 0;
    while !Missing(s, legs[k], winner)
      invariant k < |legs| && forall i :: 0 <= i < k ==> !Missing(s, legs[i], winner)
      decreases |legs| - k
    {
      k := k + 1;
    }
  }

  lemma AnswerStrands(s: State, leg: nat)
    requires Ok(s) && s.dial.finalized == None && !Stranded(s.dial) && Registered(s, leg) && leg in s.dial.attempts
    ensures Stranded(MarkAnswered(s, leg).s.dial) <==> Strands(s, DoAnswer(leg))
  {
    hide Ok, HangupLosers, Finalize;
    OkParts(s);
    MarkAnsweredKeeps(s, leg);
    if leg !in s.dial.active && exists x :: x in s.dial.attempts && Missing(s, x, leg) {
      ThrownAnswer(s, leg);
    }
  }

  // Hanging the others up throws, and the dial has given up those that came before.
  lemma ThrownAnswer(s: State, leg: nat)
    requires Ok(s) && s.dial.finalized == None && s.dial.registered && Registered(s, leg) && leg in s.dial.attempts && leg !in s.dial.active
    requires exists x :: x in s.dial.attempts && Missing(s, x, leg)
    ensures var d := MarkAnswered(s, leg).s.dial;
            d.finalized == None && d.gap == s.dial.gap && (d.active == [] <==> LosesAll(s, leg))
  {
    hide Ok, HangupLosers, Finalize, OwnsOk, LosesAll;
    var t := ClearTimeout(s, leg);
    ClearTimeoutKeeps(s, leg);
    OkParts(t);
    var v := t.(dial := t.dial.(winner := Some(leg)), winnerTickets := t.winnerTickets + {leg});
    FlagsKeep(t, v);
    var a := s.dial.attempts;
    LosersKeep(v, a, leg);
    assert forall x :: Missing(v, x, leg) == Missing(s, x, leg);
    var k := FirstMissing(v, a, leg);
    LosersLeave(v, a, leg, k);
    var l := HangupLosers(v, a, leg);
    assert MarkAnswered(s, leg) == l;
    assert l.s.dial.active == [] <==> forall x :: x in s.dial.active ==> x in a[..k + 1] by {
      assert l.s.dial.active != [] ==> l.s.dial.active[0] in l.s.dial.active;
    }
    OwnedBeforeMissing(s, leg, k);
  }

  lemma OwnedBeforeMissing(s: State, leg: nat, k: nat)
    requires Ok(s) && k < |s.dial.attempts| && Missing(s, s.dial.attempts[k], leg)
    requires forall i :: 0 <= i < k ==> !Missing(s, s.dial.attempts[i], leg)
    ensures LosesAll(s, leg) <==> forall x :: x in s.dial.active ==> x in s.dial.attempts[..k + 1]
  {
    hide LegsOk, AttemptsOk, TargetsOk, SequentialOk, FinalOk, Missing;
    var a := s.dial.attempts;
    if LosesAll(s, leg) {
      forall x | x in s.dial.active ensures x in a[..k + 1] {
        var i :| 0 <= i < |a| && a[i] == x;
        assert i <= k;
        assert a[..k + 1][i] == x;
      }
    }
    if forall x :: x in s.dial.active ==> x in a[..k + 1] {
      forall i, j | 0 <= i < |a| && 0 <= j < |a| && a[i] in s.dial.active && Missing(s, a[j], leg) ensures i <= j {
        var m :| 0 <= m < k + 1 && a[..k + 1][m] == a[i];
        assert a[m] == a[i];
      }
    }
  }

  // A leg given up and hung up, on the way to the gap or to failure.
  lemma DropStrands(s: State, leg: nat)
    requires Ok(s) && s.dial.finalized == None && !Stranded(s.dial)
    ensures Stranded(MarkRejected(s, leg).s.dial) <==> !s.dial.gap && LastMissing(s, leg)
    ensures leg in s.dial.active ==> (Stranded(MarkFailed(s, leg).s.dial) <==> !s.dial.gap && LastMissing(s, leg))
  {
    hide Ok, Hangup, DestroyDial;
    OkParts(s);
    DroppedHangup(s, leg);
    var h := Hangup(Release(ClearTimeout(s, leg), leg), leg);
    OkParts(h.s);
    DestroyEnds(h.s);
    DropMeans(s, leg);
  }

  lemma DropMeans(s: State, leg: nat)
    requires OwnsOk(s.dial)
    ensures var d := Release(ClearTimeout(s, leg), leg).dial;
            && d.finalized == s.dial.finalized && d.gap == s.dial.gap && d.registered == s.dial.registered
            && (d.active == [] <==> forall x :: x in s.dial.active ==> x == leg)
  {
    LastOwned(s.dial.active, leg);
    var active := Release(ClearTimeout(s, leg), leg).dial.active;
    if active != [] {
      assert active[0] in active;
    }
  }

  /** A step strands a dial if and only if it is a late answer that gives up all that is under way, or
      ends the last attempt when its leg cannot be found. */
  lemma StrandsExactly(s: State, step: Step)
    requires Ok(s) && Enabled(s, step) && !Stranded(s.dial)
    ensures Stranded(Next(s, step).dial) <==> Strands(s, step)
  {
    hide Ok, MarkAnswered, MarkRejected, MarkFailed, GapFires, Hangup, DestroyDial, LosesAll, LastMissing, Reported;
    OkParts(s);
    if s.dial.finalized.Some? {
      FinalisedStays(s, step);
    } else {
      match step
      case DoAnswer(leg) =>
        if Registered(s, leg) {
          StatusKeeps(s, leg);
          var t := s.(legs := s.legs[leg := s.legs[leg].(ended := false)]);
          assert forall x, w :: Missing(t, x, w) == Missing(s, x, w);
          SameLosses(s, t, leg);
          if leg in s.dial.attempts { AnswerStrands(t, leg); }
        }
      case DoBridge(leg) => if leg in s.dial.active { BridgeKeepsOwned(s, leg); }
      case DoReject(leg) =>
        DropStrands(s, leg);
        HangupStays(s, leg);
        if LastMissing(s, leg) { LastOwnedIsAttempt(s, leg); }
      case DoFail(leg) =>
        DropStrands(s, leg);
        if LastMissing(s, leg) { LastOwnedIsAttempt(s, leg); }
      case DoTimeout(leg) => DropStrands(s, leg);
      case DoGap => GapNeverStrands(s);
      case DoHangup(leg) => HangupStays(s, leg);
      case DoDetach(leg) =>
      case DoBreak => DestroyEnds(s);
      case DoFreeTtl => DestroyEnds(s);
    }
  }

  lemma SameLosses(s: State, t: State, leg: nat)
    requires s.dial == t.dial && forall x, w :: Missing(t, x, w) == Missing(s, x, w)
    ensures LosesAll(s, leg) == LosesAll(t, leg)
  {
  }

  lemma LastOwnedIsAttempt(s: State, leg: nat)
    requires Ok(s) && LastMissing(s, leg)
    ensures leg in s.dial.active && leg in s.dial.attempts
  {
  }

  lemma HangupStays(s: State, leg: nat)
    requires Ok(s) && !Stranded(s.dial)
    ensures !Stranded(Hangup(s, leg).s.dial)
  {
    hide Ok, Hangup;
    HangupMeans(s, leg);
  }

  lemma GapNeverStrands(s: State)
    requires Ok(s) && s.dial.gap
    ensures !Stranded(GapFires(s).dial)
  {
    hide Ok, DestroyDial;
    OkParts(s);
    var t := s.(dial := s.dial.(gap := false));
    FlagsKeep(s, t);
    StartKeeps(t);
    DestroyEnds(StartNext(t));
  }

  // A bridged leg stays owned unless the dial is finalised.
  lemma BridgeKeepsOwned(s: State, leg: nat)
    requires Ok(s) && s.dial.registered && s.dial.finalized == None && leg in s.dial.active
    ensures !Stranded(MarkAnswered(s, leg).s.dial)
  {
    hide Ok, HangupLosers, DestroyDial;
    var t := ClearTimeout(s, leg);
    ClearTimeoutKeeps(s, leg);
    OkParts(t);
    var v := t.(dial := t.dial.(winner := Some(leg)), winnerTickets := t.winnerTickets + {leg});
    FlagsKeep(t, v);
    LosersKeep(v, s.dial.attempts, leg);
    var l := HangupLosers(v, s.dial.attempts, leg).s;
    OkParts(l);
    DestroyKeeps(l, Answered);
  }

  // In every state of the run an attempt is under way or scheduled, or the dial is finalised.
  ghost predicate UnderWay(s: State, steps: seq<Step>)
    requires Runs(s, steps)
    decreases |steps|
  {
    !Stranded(s.dial) && (steps == [] || UnderWay(Next(s, steps[0]), steps[1..]))
  }

  ghost predicate NoneStrands(s: State, steps: seq<Step>)
    requires Runs(s, steps)
    decreases |steps|
  {
    steps == [] || (!Strands(s, steps[0]) && NoneStrands(Next(s, steps[0]), steps[1..]))
  }

  lemma {:induction false} RunUnderWay(s: State, steps: seq<Step>)
    requires Ok(s) && Runs(s, steps) && !Stranded(s.dial)
    ensures UnderWay(s, steps) <==> NoneStrands(s, steps)
    decreases |steps|
  {
    hide Ok, Next, Enabled, Strands, Stranded;
    if steps != [] {
      NextKeeps(s, steps[0]);
      StrandsExactly(s, steps[0]);
      if !Strands(s, steps[0]) {
        RunUnderWay(Next(s, steps[0]), steps[1..]);
      }
    }
  }

  /** Until a dial is finalised an attempt is under way or the next one scheduled, all through a run, if
      and only if none of its steps strands it. */
  lemma NeverStrandedExactly(c: Setup, steps: seq<Step>)
    requires Happens(c, steps) && c.targets != []
    ensures UnderWay(Begun(c), steps) <==> NoneStrands(Begun(c), steps)
  {
    hide Begun;
    BegunOpen(c);
    RunUnderWay(Begun(c), steps);
  }

  /** When every leg's end is reported, only the late answer of a leg given up strands a dial. */
  lemma OnlyLateAnswersStrand(c: Setup, steps: seq<Step>, step: Step)
    requires Happens(c, steps) && c.deaf == {} && Strands(Reached(c, steps), step)
    ensures step.DoAnswer? && step.leg in Reached(c, steps).dial.attempts && step.leg !in Reached(c, steps).dial.active
  {
    ReachedOk(c, steps);
    var s := Reached(c, steps);
    hide Ok;
    if step.DoReject? || step.DoFail? || step.DoTimeout? {
      OwnedAreFound(s, step.leg);
    }
  }

  // Declining an attempt that can be found, while another is under way.
  lemma DeclineLeaves(s: State, leg: nat)
    requires Ok(s) && s.dial.finalized == None && leg in s.dial.attempts && Registered(s, leg) && Without(s.dial.active, leg) != []
    ensures var t := Next(s, DoReject(leg));
            && Ok(t) && t.dial == Release(ClearTimeout(s, leg), leg).dial && t.legs.Keys >= s.legs.Keys
            && t.legs[leg].settled && forall x :: Registered(t, x) == Registered(s, x)
  {
    hide Ok, Hangup, Finalize;
    OkParts(s);
    DroppedHangup(s, leg);
    var t := Next(s, DoReject(leg));
    GivenUpSettled(t, leg);
    QuietHangup(Release(ClearTimeout(s, leg), leg), leg);
  }

  lemma GivenUpSettled(s: State, leg: nat)
    requires Ok(s) && s.dial.finalized == None && leg in s.dial.attempts && leg !in s.dial.active
    ensures leg in s.legs && s.legs[leg].settled
  {
    assert Accounted(s, leg);
  }

  lemma ThreeBegin(c: Setup)
    requires c == Setup(Parallel, false, [0, 1, 2], 0, {})
    ensures var s := Begun(c);
            && s.dial.attempts == [0, 1, 2] && s.dial.active == [0, 1, 2] && s.dial.finalized == None && !s.dial.gap
            && Registered(s, 0) && Registered(s, 1) && Registered(s, 2)
  {
    var s0 := State(Dial(Parallel, false, [0, 1, 2], [0, 1, 2], [], [], {}, [], None, None, false, {}, true, 0, false), map[], 0, {}, {});
    var s1 := StartNext(s0);
    var s2 := StartNext(s1);
    var s3 := StartNext(s2);
    assert s1.dial.pending == [1, 2] && s2.dial.pending == [2] && s3.dial.pending == [];
    assert StartAll(s3) == s3 && StartAll(s2) == s3 && StartAll(s1) == s3 && StartAll(s0) == s3;
  }

  /** It does happen: of three legs rung at once the first and the last decline, the last is gone, and
      then the first answers; the second is hung up, and nothing is left to ring or to finalise. */
  lemma LateAnswerStrands(c: Setup)
    requires c == Setup(Parallel, false, [0, 1, 2], 0, {})
    ensures var steps := [DoReject(0), DoReject(2), DoDetach(2), DoAnswer(0)];
            Happens(c, steps) && Stranded(Reached(c, steps).dial)
  {
    hide Ok, Next, Begun, Strands, Stranded;
    ThreeBegin(c);
    BegunOpen(c);
    var s := Begun(c);
    FirstDeclines(s);
    var r := Next(s, DoReject(0));
    LastDeclines(r);
    var q := Next(r, DoReject(2));
    LastIsGone(q);
    var d := Next(q, DoDetach(2));
    FirstAnswersLate(d);
    StrandsExactly(d, DoAnswer(0));
    var a := Next(d, DoAnswer(0));
    var steps := [DoReject(0), DoReject(2), DoDetach(2), DoAnswer(0)];
    assert steps[1..] == [DoReject(2), DoDetach(2), DoAnswer(0)] && steps[1..][1..] == [DoDetach(2), DoAnswer(0)];
    assert steps[1..][1..][1..] == [DoAnswer(0)] && steps[1..][1..][1..][1..] == [];
    assert Runs(a, []) && After(a, []) == a;
    assert Runs(d, [DoAnswer(0)]) && After(d, [DoAnswer(0)]) == a;
    assert Runs(q, [DoDetach(2), DoAnswer(0)]) && After(q, [DoDetach(2), DoAnswer(0)]) == a;
    assert Runs(r, steps[1..]) && After(r, steps[1..]) == a;
  }

  // What declining does to what is owned, attempted and found.
  ghost predicate Owning(s: State, active: seq<nat>, found: set<nat>) {
    && Ok(s) && s.dial.attempts == [0, 1, 2] && s.dial.active == active && s.dial.finalized == None && !s.dial.gap
    && forall x :: 0 <= x < 3 ==> (Registered(s, x) <==> x in found)
  }

  lemma FirstDeclines(s: State)
    requires Owning(s, [0, 1, 2], {0, 1, 2})
    ensures Owning(Next(s, DoReject(0)), [1, 2], {0, 1, 2})
  {
    hide Ok, Next;
    assert Without([0, 1, 2], 0) == [1, 2] by {
      assert [0, 1, 2][1..] == [1, 2] && [1, 2][1..] == [2] && [2][1..] == [];
    }
    DeclineLeaves(s, 0);
  }

  lemma LastDeclines(s: State)
    requires Owning(s, [1, 2], {0, 1, 2})
    ensures Owning(Next(s, DoReject(2)), [1], {0, 1, 2}) && Enabled(Next(s, DoReject(2)), DoDetach(2))
  {
    hide Ok, Next;
    assert Without([1, 2], 2) == [1] by {
      assert [1, 2][1..] == [2] && [2][1..] == [];
    }
    DeclineLeaves(s, 2);
  }

  lemma LastIsGone(s: State)
    requires Owning(s, [1], {0, 1, 2}) && Enabled(s, DoDetach(2))
    ensures Owning(Next(s, DoDetach(2)), [1], {0, 1})
  {
    hide Ok;
    DetachKeeps(s, 2);
  }

  lemma FirstAnswersLate(s: State)
    requires Owning(s, [1], {0, 1})
    ensures !Stranded(s.dial) && Strands(s, DoAnswer(0))
  {
    hide Ok;
    assert 2 in s.dial.attempts && Missing(s, 2, 0);
  }
}
