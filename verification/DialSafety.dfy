/** What every run of a dial keeps, exceptions and calls that come back included. */
module DialSafety {
  import opened DialSpec

  ghost predicate Distinct(legs: seq<nat>) { forall i, j :: 0 <= i < j < |legs| ==> legs[i] != legs[j] }

  // A leg's handler runs at most once; only then may it read as ended or leave the registry.
  ghost predicate LegOk(l: Leg) {
    && l.runs <= 1 && (l.settled <==> l.runs == 1) && (l.ended ==> l.settled) && (!l.registered ==> l.settled)
  }

  ghost predicate LegsOk(s: State) { forall l :: l in s.legs ==> l < s.nextLeg && LegOk(s.legs[l]) }

  // The dial owns attempts of its own, and holds a ticket on exactly those it owns.
  ghost predicate OwnsOk(d: Dial) {
    && Distinct(d.attempts)
    && (forall x :: x in d.active ==> x in d.attempts)
    && (forall x :: x in d.tickets <==> x in d.active)
  }

  // Attempts were made to the targets in order, and the rest is pending until the dial is destroyed.
  ghost predicate TargetsOk(d: Dial) {
    && |d.started| == |d.attempts| <= |d.targets|
    && (forall i :: 0 <= i < |d.attempts| ==> d.started[i] == (d.attempts[i], d.targets[i]))
    && d.pending == if d.settled then [] else d.targets[|d.attempts|..]
  }

  // One attempt at a time, and none while the gap runs.
  ghost predicate SequentialOk(d: Dial) {
    && (d.strategy == Sequential ==> |d.active| <= 1)
    && (d.gap ==> d.strategy == Sequential && d.active == [] && d.pending != [] && d.finalized == None)
  }

  ghost predicate FinalOk(d: Dial) {
    && d.runs == (if d.finalized.Some? then 1 else 0)
    && (d.finalized.Some? ==> d.timers == {})
    && (d.settled ==> d.finalized.Some? && d.active == [])
    && (d.registered <==> !d.settled)
    && (d.finalized == Some(Answered) ==> d.winner.Some?)
  }

  ghost predicate DialOk(d: Dial) { OwnsOk(d) && TargetsOk(d) && SequentialOk(d) && FinalOk(d) }

  // Every attempt is owned, or its leg has been destroyed, or it has won.
  ghost predicate Accounted(s: State, a: nat) {
    && a in s.legs
    && (a in s.dial.active || s.legs[a].runs == 1 || (s.dial.finalized == Some(Answered) && s.dial.winner == Some(a)))
  }

  // An owned leg whose end was reported is still alive.
  ghost predicate Heard(s: State, a: nat) { a in s.legs && (s.legs[a].runs == 0 || a in s.deaf) }

  ghost predicate AttemptsOk(s: State) {
    && (forall a :: a in s.dial.attempts ==> Accounted(s, a))
    && (forall a :: a in s.dial.active ==> Heard(s, a))
  }

  ghost predicate Ok(s: State) { LegsOk(s) && DialOk(s.dial) && AttemptsOk(s) }

  // What the dial was set up with, and what it has begun.
  ghost predicate SameSetup(s: State, t: State) {
    && s.dial.attempts <= t.dial.attempts
    && t.dial.strategy == s.dial.strategy && t.dial.targets == s.dial.targets && t.dial.limited == s.dial.limited && t.deaf == s.deaf
  }

  // ---- Hanging up a leg the dial does not own ----

  // The leg as hanging it up leaves it.
  function HungUp(l: Leg): Leg {
    if !l.registered || l.ended || l.settled then l else l.(ended := true, runs := l.runs + 1, settled := true)
  }

  // The report finds no attempt.
  lemma QuietReport(s: State, leg: nat)
    requires leg !in s.dial.active
    ensures LegEnded(s, leg) == s.(winnerTickets := s.winnerTickets - {leg})
  {
    hide Finalize, Live;
  }

  lemma EndingSettles(s: State, t: State, leg: nat)
    requires leg in s.legs && t.legs == Ending(s, leg).legs
    ensures Settle(t, leg) == t.(legs := s.legs[leg := s.legs[leg].(ended := true, runs := s.legs[leg].runs + 1, settled := true)])
  {
    var l := s.legs[leg].(ended := true, runs := s.legs[leg].runs + 1, settled := true);
    assert t.legs[leg := l] == s.legs[leg := l];
  }

  lemma QuietDestroy(s: State, leg: nat)
    requires leg !in s.dial.active && leg in s.legs && !s.legs[leg].ended
    ensures var t, l := DestroyLeg(s, leg), s.legs[leg];
            && t == s.(legs := t.legs, winnerTickets := t.winnerTickets)
            && (forall x :: x != leg ==> (x in t.winnerTickets <==> x in s.winnerTickets))
            && t.legs == if l.settled then s.legs else s.legs[leg := l.(ended := true, runs := l.runs + 1, settled := true)]
  {
    hide LegEnded, Live, Settle;
    var t := Ending(s, leg);
    QuietReport(t, leg);
    EndingSettles(s, if leg in s.deaf then t else LegEnded(t, leg), leg);
  }

  // The dial is left alone.
  lemma QuietHangup(s: State, leg: nat)
    requires leg !in s.dial.active
    ensures var h := Hangup(s, leg);
            && h.threw == !Registered(s, leg)
            && h.s == s.(legs := h.s.legs, winnerTickets := h.s.winnerTickets)
            && (forall x :: x != leg ==> (x in h.s.winnerTickets <==> x in s.winnerTickets))
            && h.s.legs == if leg in s.legs then s.legs[leg := HungUp(s.legs[leg])] else s.legs
  {
    hide DestroyLeg, Live;
    if leg in s.legs {
      assert s.legs[leg := s.legs[leg]] == s.legs;
      if !s.legs[leg].ended {
        QuietDestroy(s, leg);
      }
    }
  }

  lemma {:induction false} WithoutDistinct(legs: seq<nat>, leg: nat)
    requires Distinct(legs)
    ensures |Without(legs, leg)| == |legs| - (if leg in legs then 1 else 0)
    decreases |legs|
  {
    if legs != [] {
      assert legs == [legs[0]] + legs[1..];
      assert forall i :: 1 <= i < |legs| ==> legs[0] != legs[i];
      WithoutDistinct(legs[1..], leg);
    }
  }

  // Giving a leg up keeps everything but that the leg may be neither owned nor destroyed.
  ghost predicate OkBut(s: State, leg: nat) {
    && LegsOk(s) && DialOk(s.dial)
    && (forall a :: a in s.dial.attempts && a != leg ==> Accounted(s, a))
    && (leg in s.dial.attempts ==> leg in s.legs)
    && (forall a :: a in s.dial.active ==> Heard(s, a))
  }

  lemma ReleaseKeeps(s: State, leg: nat)
    requires Ok(s)
    ensures OkBut(Release(s, leg), leg) && leg !in Release(s, leg).dial.active
  {
    var t := Release(s, leg);
    if s.dial.active == [] {
      assert t.dial.active == [];
    }
    forall a | a in t.dial.attempts && a != leg ensures Accounted(t, a) {
      assert Accounted(s, a);
    }
    forall a | a in t.dial.active ensures Heard(t, a) {
      assert Heard(s, a);
    }
    if leg in s.dial.attempts {
      assert Accounted(s, leg);
    }
  }

  lemma HangupKeeps(s: State, leg: nat)
    requires OkBut(s, leg) && leg !in s.dial.active
    ensures var h := Hangup(s, leg); Ok(h.s) && h.s.dial == s.dial && h.s.deaf == s.deaf && h.threw == !Registered(s, leg)
    ensures forall l :: Registered(Hangup(s, leg).s, l) == Registered(s, l)
  {
    hide DialOk;
    QuietHangup(s, leg);
    var t := Hangup(s, leg).s;
    forall a | a in t.dial.attempts ensures Accounted(t, a) {
      if a != leg {
        assert Accounted(s, a);
      }
    }
    forall a | a in t.dial.active ensures Heard(t, a) {
      assert Heard(s, a);
    }
  }

  // ---- Destroying the dial ----

  // A leg that is hung up when the dial is destroyed, and cannot be found.
  predicate Blocks(s: State, leg: nat, verdict: Verdict) {
    !(verdict == Answered && s.dial.winner == Some(leg)) && !Registered(s, leg)
  }

  // Only the legs owned change, and only to fewer.
  ghost predicate Dropped(d: Dial, d': Dial) {
    d' == d.(active := d'.active, tickets := d'.tickets) && forall x :: x in d'.active ==> x in d.active
  }

  lemma ReleaseDrops(s: State, leg: nat)
    requires OwnsOk(s.dial)
    ensures Dropped(s.dial, Release(s, leg).dial) && Release(s, leg) == s.(dial := Release(s, leg).dial) && leg !in Release(s, leg).dial.active
  {
  }

  lemma ReleaseWinner(s: State, leg: nat)
    requires Ok(s) && s.dial.finalized == Some(Answered) && s.dial.winner == Some(leg)
    ensures Ok(Release(s, leg))
  {
    hide LegsOk, DialOk;
    ReleaseKeeps(s, leg);
    if leg in s.dial.attempts {
      assert Accounted(s, leg);
    }
  }

  lemma {:induction false} HangupAllKeeps(s: State, legs: seq<nat>, verdict: Verdict)
    requires Ok(s) && s.dial.finalized == Some(verdict)
    ensures var r := HangupAll(s, legs, verdict);
            && Ok(r.s) && Dropped(s.dial, r.s.dial) && r.s.deaf == s.deaf
            && (r.threw <==> exists x :: x in legs && Blocks(s, x, verdict))
            && (!r.threw ==> forall x :: x in legs ==> x !in r.s.dial.active)
    decreases |legs|
  {
    hide Ok, Release, Hangup, OkBut;
    if legs != [] {
      assert legs == [legs[0]] + legs[1..];
      var leg, t := legs[0], Release(s, legs[0]);
      OkParts(s);
      ReleaseDrops(s, leg);
      if verdict == Answered && t.dial.winner == Some(leg) {
        ReleaseWinner(s, leg);
        HangupAllKeeps(t, legs[1..], verdict);
        assert forall x :: Blocks(t, x, verdict) == Blocks(s, x, verdict);
      } else {
        ReleaseKeeps(s, leg);
        HangupKeeps(t, leg);
        var h := Hangup(t, leg);
        if !h.threw {
          HangupAllKeeps(h.s, legs[1..], verdict);
          assert forall x :: Blocks(h.s, x, verdict) == Blocks(s, x, verdict);
        } else {
          assert Blocks(s, leg, verdict);
        }
      }
    }
  }

  lemma OkParts(s: State)
    requires Ok(s)
    ensures LegsOk(s) && OwnsOk(s.dial) && TargetsOk(s.dial) && SequentialOk(s.dial) && FinalOk(s.dial) && AttemptsOk(s)
  {
  }

  lemma BeginKeeps(s: State, verdict: Verdict)
    requires Ok(s) && s.dial.finalized == None && (verdict == Answered ==> s.dial.winner.Some?)
    ensures Ok(Begin(s, verdict))
  {
    var t := Begin(s, verdict);
    forall a | a in t.dial.attempts ensures Accounted(t, a) {
      assert Accounted(s, a);
    }
    forall a | a in t.dial.active ensures Heard(t, a) {
      assert Heard(s, a);
    }
  }

  lemma EndKeeps(s: State)
    requires Ok(s) && s.dial.finalized.Some? && s.dial.active == []
    ensures Ok(End(s))
  {
    var t := End(s);
    forall a | a in t.dial.attempts ensures Accounted(t, a) {
      assert Accounted(s, a);
    }
  }

  // A dial that has been cleared away: nothing owned, held, pending or timed.
  ghost predicate Clean(d: Dial) {
    d.active == [] && d.tickets == {} && d.pending == [] && d.timers == {} && !d.gap && !d.registered && d.settled
  }

  /** Destroying a dial clears it away unless a leg it owns, and would hang up, cannot be found. */
  lemma DestroyKeeps(s: State, verdict: Verdict)
    requires Ok(s) && s.dial.finalized == None && (verdict == Answered ==> s.dial.winner.Some?)
    ensures var r := DestroyDial(s, verdict);
            && Ok(r.s) && r.s.dial.finalized == Some(verdict) && r.s.dial.runs == 1 && r.s.dial.winner == s.dial.winner
            && r.s.dial.attempts == s.dial.attempts && SameSetup(s, r.s)
            && (r.threw <==> exists x :: x in s.dial.active && Blocks(s, x, verdict))
            && (!r.threw <==> Clean(r.s.dial))
  {
    hide Ok, HangupAll;
    OkParts(s);
    BeginKeeps(s, verdict);
    var b := Begin(s, verdict);
    HangupAllKeeps(b, s.dial.active, verdict);
    assert forall x :: Blocks(b, x, verdict) == Blocks(s, x, verdict);
    var r := HangupAll(b, s.dial.active, verdict);
    OkParts(r.s);
    if !r.threw {
      assert r.s.dial.active == [] || r.s.dial.active[0] in r.s.dial.active;
      EndKeeps(r.s);
      OkParts(End(r.s));
    }
  }

  lemma FinalizeKeeps(s: State, verdict: Verdict)
    requires Ok(s) && (verdict == Answered ==> s.dial.winner.Some?)
    ensures Ok(Finalize(s, verdict).s) && SameSetup(s, Finalize(s, verdict).s)
  {
    hide Ok, DestroyDial;
    if s.dial.finalized == None {
      DestroyKeeps(s, verdict);
    }
  }

  // ---- A leg of the dial ends ----

  function Reported(d: Dial, leg: nat): Dial {
    var t := d.(timers := d.timers - {leg}, active := Without(d.active, leg), tickets := d.tickets - {leg});
    if t.finalized.Some? || t.active != [] then t
    else if t.strategy == Sequential && t.pending != [] then t.(gap := true)
    else t.(gap := false, timers := {}, runs := t.runs + 1, finalized := Some(Failed),
            pending := [], active := [], registered := false, settled := true)
  }

  // Finalising a dial that owns nothing hangs nobody up.
  lemma EmptyDestroy(s: State)
    requires s.dial.active == [] && !s.dial.settled
    ensures DestroyDial(s, Failed) == Out(End(Begin(s, Failed)), false)
  {
    hide Hangup, Release, Live;
  }

  lemma ReportMeans(s: State, leg: nat)
    requires leg in s.dial.active && s.dial.registered && !s.dial.settled && leg in s.dial.attempts
    ensures LegEnded(s, leg) == s.(dial := Reported(s.dial, leg), winnerTickets := s.winnerTickets - {leg})
  {
    hide DestroyDial, Live;
    var w := s.(winnerTickets := s.winnerTickets - {leg});
    var t := Release(ClearTimeout(w, leg), leg);
    if t.dial.active == [] {
      EmptyDestroy(t);
    }
  }

  // Everything but that the leg, just destroyed, is still owned.
  ghost predicate OkToReport(s: State, leg: nat) {
    && LegsOk(s) && DialOk(s.dial) && leg in s.legs && s.legs[leg].runs == 1
    && (forall a :: a in s.dial.attempts ==> Accounted(s, a))
    && (forall a :: a in s.dial.active && a != leg ==> Heard(s, a))
  }

  lemma ReportedKeeps(s: State, leg: nat)
    requires OkToReport(s, leg) && leg in s.dial.active && s.dial.registered
    ensures Ok(s.(dial := Reported(s.dial, leg), winnerTickets := s.winnerTickets - {leg}))
  {
    hide LegsOk, DialOk;
    var t := s.(dial := Reported(s.dial, leg), winnerTickets := s.winnerTickets - {leg});
    LegsKept(s, t);
    ReportedDial(s.dial, leg);
    forall a | a in t.dial.attempts ensures Accounted(t, a) {
      assert Accounted(s, a);
    }
    forall a | a in t.dial.active ensures Heard(t, a) {
      assert Heard(s, a);
    }
  }

  lemma LegsKept(s: State, t: State)
    requires LegsOk(s) && t.legs == s.legs && t.nextLeg == s.nextLeg
    ensures LegsOk(t)
  {
  }

  lemma ReportedDial(d: Dial, leg: nat)
    requires DialOk(d) && leg in d.active && d.registered
    ensures DialOk(Reported(d, leg))
  {
    assert d.finalized == Some(Answered) ==> d.winner.Some?;
  }

  // Hanging up a leg the dial owns, or any other.
  lemma OwnedHangup(s: State, leg: nat)
    requires Ok(s) && leg in s.dial.active
    ensures Ok(Hangup(s, leg).s) && SameSetup(s, Hangup(s, leg).s)
  {
    hide DestroyLeg, Live, LegsOk, DialOk, AttemptsOk;
    if Registered(s, leg) && !s.legs[leg].ended && !s.legs[leg].settled {
      OwnedDestroy(s, leg);
    } else if Registered(s, leg) && !s.legs[leg].ended {
      SettledDestroy(s, leg);
    }
  }

  lemma SettledDestroy(s: State, leg: nat)
    requires leg in s.legs && !s.legs[leg].ended && s.legs[leg].settled
    ensures DestroyLeg(s, leg) == s
  {
    hide LegEnded, Live, Settle;
  }

  // The leg destroyed, and on record as such.
  function Destroyed(s: State, leg: nat): State
    requires leg in s.legs
  {
    s.(legs := s.legs[leg := s.legs[leg].(ended := true, runs := s.legs[leg].runs + 1, settled := true)])
  }

  lemma OwnedDestroy(s: State, leg: nat)
    requires Ok(s) && leg in s.dial.active && leg in s.legs && !s.legs[leg].ended && !s.legs[leg].settled
    ensures Ok(DestroyLeg(s, leg)) && SameSetup(s, DestroyLeg(s, leg))
  {
    hide LegEnded, Live, Settle, Ok;
    OkParts(s);
    ActiveMeans(s, leg);
    var t, d := Ending(s, leg), Destroyed(s, leg);
    ReportMeans(t, leg);
    EndingSettles(s, if leg in s.deaf then t else LegEnded(t, leg), leg);
    DestroyedKeeps(s, leg);
    if leg !in s.deaf {
      ReportedKeeps(d, leg);
      assert DestroyLeg(s, leg) == d.(dial := Reported(d.dial, leg), winnerTickets := d.winnerTickets - {leg});
    }
  }

  lemma ActiveMeans(s: State, leg: nat)
    requires Ok(s) && leg in s.dial.active
    ensures leg in s.dial.attempts && s.dial.registered && !s.dial.settled && leg in s.legs
  {
    assert Heard(s, leg);
  }

  // A leg whose end is about to be reported, or never will be.
  lemma DestroyedKeeps(s: State, leg: nat)
    requires Ok(s) && leg in s.legs && !s.legs[leg].settled && leg in s.dial.active
    ensures OkToReport(Destroyed(s, leg), leg) && (leg in s.deaf ==> Ok(Destroyed(s, leg)))
  {
    hide DialOk;
    var t := Destroyed(s, leg);
    forall a | a in t.dial.attempts ensures Accounted(t, a) {
      assert Accounted(s, a);
    }
    forall a | a in t.dial.active && a != leg ensures Heard(t, a) {
      assert Heard(s, a);
    }
  }

  lemma AnyHangup(s: State, leg: nat)
    requires Ok(s)
    ensures Ok(Hangup(s, leg).s) && SameSetup(s, Hangup(s, leg).s)
  {
    hide Hangup, LegsOk, DialOk;
    if leg in s.dial.active {
      OwnedHangup(s, leg);
    } else {
      OkButSame(s, leg);
      HangupKeeps(s, leg);
    }
  }

  lemma OkButSame(s: State, leg: nat)
    requires Ok(s)
    ensures OkBut(s, leg)
  {
    if leg in s.dial.attempts {
      assert Accounted(s, leg);
    }
  }

  // ---- Operations ----

  lemma ClearTimeoutKeeps(s: State, leg: nat)
    requires Ok(s)
    ensures Ok(ClearTimeout(s, leg))
  {
    hide LegsOk;
    LegsKept(s, ClearTimeout(s, leg));
    var t := ClearTimeout(s, leg);
    forall a | a in t.dial.attempts ensures Accounted(t, a) {
      assert Accounted(s, a);
    }
    forall a | a in t.dial.active ensures Heard(t, a) {
      assert Heard(s, a);
    }
  }

  // A change of flags that ownership and outcome do not depend on.
  lemma FlagsKeep(s: State, t: State)
    requires Ok(s) && t.legs == s.legs && t.nextLeg == s.nextLeg && t.deaf == s.deaf
    requires t.dial == s.dial.(gap := t.dial.gap, winner := t.dial.winner) && s.dial.finalized == None
    requires t.dial.gap ==> s.dial.strategy == Sequential && s.dial.active == [] && s.dial.pending != []
    ensures Ok(t)
  {
    hide LegsOk;
    LegsKept(s, t);
    forall a | a in t.dial.attempts ensures Accounted(t, a) {
      assert Accounted(s, a);
    }
    forall a | a in t.dial.active ensures Heard(t, a) {
      assert Heard(s, a);
    }
  }

  lemma {:induction false} LosersKeep(s: State, legs: seq<nat>, winner: nat)
    requires Ok(s)
    ensures var r := HangupLosers(s, legs, winner);
            && Ok(r.s) && Dropped(s.dial, r.s.dial) && r.s.deaf == s.deaf
            && (r.threw <==> exists x :: x in legs && x != winner && !Registered(s, x))
            && (winner in s.dial.active ==> winner in r.s.dial.active)
            && (!r.threw ==> forall x :: x in legs && x != winner ==> x !in r.s.dial.active)
            && (forall x :: Registered(r.s, x) == Registered(s, x))
    decreases |legs|
  {
    hide Ok, Release, Hangup, OkBut;
    if legs != [] {
      assert legs == [legs[0]] + legs[1..];
      if legs[0] == winner {
        LosersKeep(s, legs[1..], winner);
      } else {
        var leg, t := legs[0], Release(s, legs[0]);
        OkParts(s);
        ReleaseDrops(s, leg);
        ReleaseOthers(s, leg, winner);
        ReleaseKeeps(s, leg);
        HangupKeeps(t, leg);
        var h := Hangup(t, leg);
        if !h.threw {
          LosersKeep(h.s, legs[1..], winner);
        }
      }
    }
  }

  lemma ReleaseOthers(s: State, leg: nat, other: nat)
    requires leg != other
    ensures other in s.dial.active ==> other in Release(s, leg).dial.active
    ensures forall x :: Registered(Release(s, leg), x) == Registered(s, x)
  {
  }

  // What a leg's answer comes to, once the leg is found.
  lemma MarkAnsweredKeeps(s: State, leg: nat)
    requires Ok(s) && s.dial.registered && s.dial.finalized == None
    ensures var r := MarkAnswered(s, leg);
            && Ok(r.s) && SameSetup(s, r.s)
            && (r.s.dial.finalized.Some? ==> r.s.dial.finalized == Some(Answered) && r.s.dial.winner == Some(leg) && Clean(r.s.dial))
            && (r.s.dial.finalized.Some? ==> forall x :: x in s.dial.attempts && x != leg ==> Registered(s, x))
            && (r.s.dial.finalized == Some(Answered) <==>
                  (Registered(s, leg) || leg in s.winnerTickets) && forall x :: x in s.dial.attempts && x != leg ==> Registered(s, x))
            && (r.s.dial.finalized.Some? ==> r.s.dial.attempts == s.dial.attempts)
            && (Registered(s, leg) ==>
                  && (leg in s.dial.active && r.s.dial.finalized == None ==> leg in r.s.dial.active))
  {
    hide Ok, HangupLosers, DestroyDial, ClearTimeout;
    var t := ClearTimeout(s, leg);
    ClearTimeoutKeeps(s, leg);
    ClearTimeoutMeans(s, leg);
    var w := t.(dial := t.dial.(winner := Some(leg)));
    OkParts(t);
    FlagsKeep(t, w);
    if leg in w.winnerTickets || Registered(w, leg) {
      var v := w.(winnerTickets := w.winnerTickets + {leg});
      FlagsKeep(w, v);
      LosersKeep(v, w.dial.attempts, leg);
      var l := HangupLosers(v, w.dial.attempts, leg);
      if !l.threw {
        OkParts(l.s);
        DestroyKeeps(l.s, Answered);
      }
    }
  }

  lemma ClearTimeoutMeans(s: State, leg: nat)
    ensures ClearTimeout(s, leg) == s.(dial := s.dial.(timers := ClearTimeout(s, leg).dial.timers))
  {
  }

  // The leg's status may come back from ended, but not its life.
  lemma StatusKeeps(s: State, leg: nat)
    requires Ok(s) && leg in s.legs
    ensures Ok(s.(legs := s.legs[leg := s.legs[leg].(ended := false)]))
  {
    hide DialOk;
    var t := s.(legs := s.legs[leg := s.legs[leg].(ended := false)]);
    forall a | a in t.dial.attempts ensures Accounted(t, a) {
      assert Accounted(s, a);
    }
    forall a | a in t.dial.active ensures Heard(t, a) {
      assert Heard(s, a);
    }
  }

  lemma AnswerKeeps(s: State, leg: nat)
    requires Ok(s)
    ensures Ok(Answer(s, leg).s) && SameSetup(s, Answer(s, leg).s)
  {
    hide Ok, MarkAnswered;
    if Registered(s, leg) {
      StatusKeeps(s, leg);
      var t := s.(legs := s.legs[leg := s.legs[leg].(ended := false)]);
      MarkAnsweredAny(t, leg);
    }
  }

  lemma MarkAnsweredAny(s: State, leg: nat)
    requires Ok(s)
    ensures Ok(MarkAnswered(s, leg).s) && SameSetup(s, MarkAnswered(s, leg).s)
  {
    hide Ok, HangupLosers, ClearTimeout, Finalize;
    if s.dial.registered && s.dial.finalized == None {
      MarkAnsweredKeeps(s, leg);
    }
  }

  // A leg given up and hung up.
  lemma DroppedHangup(s: State, leg: nat)
    requires Ok(s)
    ensures var h := Hangup(Release(ClearTimeout(s, leg), leg), leg);
            && Ok(h.s) && h.threw == !Registered(s, leg) && h.s.dial == Release(ClearTimeout(s, leg), leg).dial && h.s.deaf == s.deaf
    ensures forall l :: Registered(Hangup(Release(ClearTimeout(s, leg), leg), leg).s, l) == Registered(s, l)
  {
    hide Ok, OkBut, Hangup;
    ClearTimeoutKeeps(s, leg);
    ReleaseKeeps(ClearTimeout(s, leg), leg);
    HangupKeeps(Release(ClearTimeout(s, leg), leg), leg);
  }

  lemma MarkRejectedKeeps(s: State, leg: nat)
    requires Ok(s)
    ensures Ok(MarkRejected(s, leg).s) && SameSetup(s, MarkRejected(s, leg).s)
  {
    hide Ok, Hangup, Finalize;
    if s.dial.registered && s.dial.finalized == None {
      DroppedHangup(s, leg);
      var h := Hangup(Release(ClearTimeout(s, leg), leg), leg);
      FinalizeKeeps(h.s, Failed);
      if h.s.dial.active == [] && h.s.dial.strategy == Sequential && h.s.dial.pending != [] {
        FlagsKeep(h.s, SetGap(h.s));
      }
    }
  }

  lemma MarkFailedKeeps(s: State, leg: nat)
    requires Ok(s)
    ensures Ok(MarkFailed(s, leg).s) && SameSetup(s, MarkFailed(s, leg).s)
  {
    hide Ok, Hangup, Finalize;
    if s.dial.registered && s.dial.finalized == None {
      DroppedHangup(s, leg);
      FinalizeKeeps(Hangup(Release(ClearTimeout(s, leg), leg), leg).s, Failed);
    }
  }

  lemma StartKeeps(s: State)
    requires Ok(s) && s.dial.finalized == None && !s.dial.gap && (s.dial.strategy == Sequential ==> s.dial.active == [])
    ensures Ok(StartNext(s)) && StartNext(s).dial.finalized == None && !StartNext(s).dial.gap && SameSetup(s, StartNext(s))
  {
    hide TargetsOk, OwnsOk, AttemptsOk;
    if s.dial.pending != [] {
      StartTargets(s);
      StartOwns(s);
      StartAttempts(s);
    }
  }

  lemma StartAttempts(s: State)
    requires AttemptsOk(s) && s.dial.pending != []
    ensures AttemptsOk(StartNext(s))
  {
    var t := StartNext(s);
    forall a | a in t.dial.attempts ensures Accounted(t, a) {
      assert a == s.nextLeg || Accounted(s, a);
    }
    forall a | a in t.dial.active ensures Heard(t, a) {
      assert a == s.nextLeg || Heard(s, a);
    }
  }

  lemma StartTargets(s: State)
    requires TargetsOk(s.dial) && !s.dial.settled && s.dial.pending != []
    ensures TargetsOk(StartNext(s).dial)
  {
  }

  lemma StartOwns(s: State)
    requires Ok(s) && s.dial.pending != []
    ensures OwnsOk(StartNext(s).dial)
  {
    forall i | 0 <= i < |s.dial.attempts| ensures s.dial.attempts[i] < s.nextLeg {
      assert s.dial.attempts[i] in s.dial.attempts && Accounted(s, s.dial.attempts[i]);
    }
  }

  lemma {:induction false} StartAllKeeps(s: State)
    requires Ok(s) && s.dial.finalized == None && !s.dial.gap && s.dial.strategy == Parallel
    ensures Ok(StartAll(s)) && SameSetup(s, StartAll(s))
    decreases |s.dial.pending|
  {
    hide Ok;
    if s.dial.pending != [] {
      StartKeeps(s);
      StartAllKeeps(StartNext(s));
    }
  }

  lemma CreateKeeps(strategy: Strategy, limited: bool, targets: seq<nat>, nextLeg: nat, deaf: set<nat>)
    ensures var s := Create(strategy, limited, targets, nextLeg, deaf);
            Ok(s) && s.dial.strategy == strategy && s.dial.targets == targets && s.deaf == deaf
  {
    var s := State(Dial(strategy, limited, targets, targets, [], [], {}, [], None, None, false, {}, true, 0, false), map[], nextLeg, deaf, {});
    assert Ok(s);
    if strategy == Parallel {
      StartAllKeeps(s);
    } else {
      StartKeeps(s);
    }
  }

  lemma GapKeeps(s: State)
    requires Ok(s) && s.dial.gap
    ensures Ok(GapFires(s)) && SameSetup(s, GapFires(s))
  {
    hide Ok, Finalize, StartNext;
    OkParts(s);
    var t := s.(dial := s.dial.(gap := false));
    FlagsKeep(s, t);
    StartKeeps(t);
    FinalizeKeeps(StartNext(t), Failed);
  }

  lemma DetachKeeps(s: State, leg: nat)
    requires Ok(s) && leg in s.legs && s.legs[leg].settled
    ensures Ok(s.(legs := s.legs[leg := s.legs[leg].(registered := false)]))
  {
    hide DialOk;
    var t := s.(legs := s.legs[leg := s.legs[leg].(registered := false)]);
    forall a | a in t.dial.attempts ensures Accounted(t, a) {
      assert Accounted(s, a);
    }
    forall a | a in t.dial.active ensures Heard(t, a) {
      assert Heard(s, a);
    }
  }

  lemma NextKeeps(s: State, step: Step)
    requires Ok(s) && Enabled(s, step)
    ensures Ok(Next(s, step)) && SameSetup(s, Next(s, step))
  {
    hide Ok, MarkAnswered, Answer, MarkRejected, MarkFailed, GapFires, Hangup, Finalize, DestroyDial;
    match step
    case DoAnswer(leg) => AnswerKeeps(s, leg);
    case DoBridge(leg) => MarkAnsweredAny(s, leg);
    case DoReject(leg) =>
      MarkRejectedKeeps(s, leg);
      AnyHangup(s, leg);
    case DoFail(leg) => MarkFailedKeeps(s, leg);
    case DoTimeout(leg) => MarkRejectedKeeps(s, leg);
    case DoGap => GapKeeps(s);
    case DoHangup(leg) => AnyHangup(s, leg);
    case DoDetach(leg) => DetachKeeps(s, leg);
    case DoBreak => FinalizeKeeps(s, Failed);
    case DoFreeTtl => DestroyKeeps(s, Failed);
  }
}
