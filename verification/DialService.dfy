/** A dial as it runs: its attempts and timers change in place, legs that end call back while the call
    that ended them is still running, and a leg that cannot be found makes a call throw. */
module Dials {
  import opened DialSpec
  import D = DialSpec

  class DialRecord {
    const strategy: Strategy
    const limited: bool
    const targets: seq<nat>
    var pendingTargets: seq<nat>
    var attemptLegIds: seq<nat>
    var activeAttemptLegIds: seq<nat>
    var attemptRetentions: set<nat>
    var started: seq<(nat, nat)>
    var winnerLegId: Option<nat>
    var finalizedAs: Option<Verdict>
    var gapTimer: bool
    var attemptTimeoutTimers: set<nat>
    var registered: bool
    var handlerRuns: nat
    var destroySettled: bool

    function State(): Dial
      reads this
    {
      Dial(strategy, limited, targets, pendingTargets, attemptLegIds, activeAttemptLegIds, attemptRetentions, started,
           winnerLegId, finalizedAs, gapTimer, attemptTimeoutTimers, registered, handlerRuns, destroySettled)
    }

    constructor (s: Strategy, limit: bool, all: seq<nat>)
      ensures State() == Dial(s, limit, all, all, [], [], {}, [], None, None, false, {}, true, 0, false)
    {
      strategy, limited, targets, pendingTargets := s, limit, all, all;
      attemptLegIds, activeAttemptLegIds, attemptRetentions, started := [], [], {}, [];
      winnerLegId, finalizedAs, gapTimer, attemptTimeoutTimers := None, None, false, {};
      registered, handlerRuns, destroySettled := true, 0, false;
    }

    method AddAttemptLeg(leg: nat)
      modifies this`attemptLegIds, this`activeAttemptLegIds, this`attemptRetentions
      ensures attemptLegIds == old(attemptLegIds) + [leg] && activeAttemptLegIds == old(activeAttemptLegIds) + [leg]
      ensures attemptRetentions == old(attemptRetentions) + {leg}
    {
      attemptLegIds := attemptLegIds + [leg];
      activeAttemptLegIds := activeAttemptLegIds + [leg];
      attemptRetentions := attemptRetentions + {leg};
    }

    method ReleaseAttemptRetention(leg: nat) returns (released: bool)
      modifies this`attemptRetentions
      ensures attemptRetentions == old(attemptRetentions) - {leg} && released == (leg in old(attemptRetentions))
    {
      released := leg in attemptRetentions;
      attemptRetentions := attemptRetentions - {leg};
    }

    method ReleaseAttemptOwnership(leg: nat) returns (owned: bool)
      modifies this`activeAttemptLegIds
      ensures owned == (leg in attemptLegIds)
      ensures activeAttemptLegIds == if leg in attemptLegIds then Without(old(activeAttemptLegIds), leg) else old(activeAttemptLegIds)
    {
      if leg !in attemptLegIds {
        return false;
      }
      activeAttemptLegIds := Without(activeAttemptLegIds, leg);
      return true;
    }

    method ClearTimers()
      modifies this`gapTimer, this`attemptTimeoutTimers
      ensures !gapTimer && attemptTimeoutTimers == {}
    {
      gapTimer := false;
      attemptTimeoutTimers := {};
    }
  }

  /** The services around one dial, with the legs they share. */
  class DialService {
    const dial: DialRecord
    var legs: map<nat, Leg>
    var nextLeg: nat
    const deaf: set<nat>
    var winnerLegRetentions: set<nat>

    ghost function State(): D.State
      reads this, dial
    {
      D.State(dial.State(), legs, nextLeg, deaf, winnerLegRetentions)
    }

    constructor (strategy: Strategy, limited: bool, targets: seq<nat>, firstLeg: nat, lost: set<nat>)
      ensures fresh(dial)
      ensures State() == Create(strategy, limited, targets, firstLeg, lost)
    {
      dial := new DialRecord(strategy, limited, targets);
      legs, nextLeg, deaf, winnerLegRetentions := map[], firstLeg, lost, {};
      new;
      if strategy == Parallel {
        while dial.pendingTargets != []
          invariant StartAll(State()) == Create(strategy, limited, targets, firstLeg, lost) && fresh(dial)
          decreases |dial.pendingTargets|
        {
          StartNextAttempt();
        }
      } else {
        StartNextAttempt();
      }
    }

    method StartNextAttempt()
      modifies this, dial
      ensures State() == StartNext(old(State()))
    {
      if dial.pendingTargets == [] {
        return;
      }
      var target := dial.pendingTargets[0];
      dial.pendingTargets := dial.pendingTargets[1..];
      var leg := nextLeg;
      nextLeg := nextLeg + 1;
      legs := legs[leg := Leg(false, true, 0, false)];
      dial.AddAttemptLeg(leg);
      dial.started := dial.started + [(leg, target)];
      if dial.strategy == Sequential && dial.limited {
        dial.attemptTimeoutTimers := dial.attemptTimeoutTimers + {leg};
      }
    }

    method ClearAttemptTimeout(leg: nat)
      modifies dial`attemptTimeoutTimers
      ensures State() == ClearTimeout(old(State()), leg)
    {
      dial.attemptTimeoutTimers := dial.attemptTimeoutTimers - {leg};
    }

    method ReleaseAttempt(leg: nat)
      modifies dial`activeAttemptLegIds, dial`attemptRetentions
      ensures State() == Release(old(State()), leg)
    {
      var owned := dial.ReleaseAttemptOwnership(leg);
      if owned {
        var released := dial.ReleaseAttemptRetention(leg);
      }
    }

    method HangupLeg(leg: nat) returns (threw: bool)
      modifies this, dial
      ensures Out(State(), threw) == Hangup(old(State()), leg)
      decreases Live(State()), 1, 0
    {
      if leg !in legs || !legs[leg].registered {
        return true;
      }
      if legs[leg].ended {
        return false;
      }
      DestroyLeg(leg);
      return false;
    }

    method DestroyLeg(leg: nat)
      requires leg in legs && !legs[leg].ended
      modifies this, dial
      ensures State() == D.DestroyLeg(old(State()), leg)
      decreases Live(State()), 0, 0
    {
      if legs[leg].settled {
        return;
      }
      ghost var s := State();
      legs := legs[leg := legs[leg].(ended := true, runs := legs[leg].runs + 1)];
      assert State() == Ending(s, leg);
      assert leg in Live(s) && leg !in Live(State());
      assert Live(State()) < Live(s);
      if leg !in deaf {
        HandleAttemptLegEnded(leg);
      }
      if leg in legs {
        legs := legs[leg := legs[leg].(settled := true)];
      }
    }

    // What it throws is caught by the one who reports.
    method HandleAttemptLegEnded(leg: nat)
      modifies this, dial
      ensures State() == LegEnded(old(State()), leg)
      decreases Live(State()), 5, 0
    {
      winnerLegRetentions := winnerLegRetentions - {leg};
      if !dial.registered || leg !in dial.activeAttemptLegIds {
        return;
      }
      ClearAttemptTimeout(leg);
      ReleaseAttempt(leg);
      if dial.finalizedAs.Some? || |dial.activeAttemptLegIds| > 0 {
        return;
      }
      if dial.strategy == Sequential && |dial.pendingTargets| > 0 {
        dial.gapTimer := true;
        return;
      }
      var threw := FinalizeDial(Failed);
    }

    method FinalizeDial(verdict: Verdict) returns (threw: bool)
      modifies this, dial
      ensures Out(State(), threw) == Finalize(old(State()), verdict)
      decreases Live(State()), 4, 0
    {
      if !dial.registered || dial.finalizedAs.Some? {
        return false;
      }
      threw := DestroyDial(verdict);
    }

    method MarkFinalized(verdict: Verdict)
      modifies dial
      ensures State() == Begin(old(State()), verdict)
    {
      dial.ClearTimers();
      if dial.finalizedAs == None {
        dial.finalizedAs := Some(verdict);
      }
      dial.handlerRuns := dial.handlerRuns + 1;
    }

    method Detach()
      modifies dial
      ensures State() == End(old(State()))
    {
      dial.pendingTargets, dial.activeAttemptLegIds := [], [];
      dial.registered, dial.destroySettled := false, true;
    }

    method DestroyDial(verdict: Verdict) returns (threw: bool)
      modifies this, dial
      ensures Out(State(), threw) == D.DestroyDial(old(State()), verdict)
      decreases Live(State()), 3, 0
    {
      hide HangupAll, End;
      if dial.destroySettled {
        return false;
      }
      MarkFinalized(verdict);
      threw := HandleDialDestroy(dial.activeAttemptLegIds, verdict);
      if !threw {
        Detach();
      }
    }

    // The legs owned when the handler began are given up one by one, and hung up but for the winner.
    method HandleDialDestroy(owned: seq<nat>, verdict: Verdict) returns (threw: bool)
      modifies this, dial
      ensures Out(State(), threw) == HangupAll(old(State()), owned, verdict)
      decreases Live(State()), 2, 0
    {
      hide Hangup, Release;
      var i := 0;
      while i < |owned|
        invariant 0 <= i <= |owned| && Live(State()) <= Live(old(State()))
        invariant HangupAll(State(), owned[i..], verdict) == HangupAll(old(State()), owned, verdict)
        decreases |owned| - i
      {
        assert owned[i..][0] == owned[i] && owned[i..][1..] == owned[i + 1..];
        ReleaseAttempt(owned[i]);
        if !(verdict == Answered && dial.winnerLegId == Some(owned[i])) {
          threw := HangupLeg(owned[i]);
          if threw {
            return;
          }
        }
        i := i + 1;
      }
      return false;
    }

    // ---- What happens to the dial ----

    method MarkAttemptAnswered(leg: nat) returns (threw: bool)
      modifies this, dial
      ensures Out(State(), threw) == MarkAnswered(old(State()), leg)
    {
      hide HangupLosers, Finalize;
      if !dial.registered {
        return true;
      }
      if dial.finalizedAs.Some? {
        return false;
      }
      ClearAttemptTimeout(leg);
      dial.winnerLegId := Some(leg);
      if leg !in winnerLegRetentions {
        if leg !in legs || !legs[leg].registered {
          return true;
        }
        winnerLegRetentions := winnerLegRetentions + {leg};
      }
      assert winnerLegRetentions + {leg} == winnerLegRetentions;
      assert winnerLegRetentions == old(winnerLegRetentions) + {leg};
      threw := HangupAllLosers(leg);
      if !threw {
        threw := FinalizeDial(Answered);
      }
    }

    method HangupAllLosers(winner: nat) returns (threw: bool)
      modifies this, dial
      ensures Out(State(), threw) == HangupLosers(old(State()), old(dial.attemptLegIds), winner)
    {
      hide Hangup, Release;
      var all := dial.attemptLegIds;
      var i := 0;
      while i < |all|
        invariant 0 <= i <= |all|
        invariant HangupLosers(State(), all[i..], winner) == HangupLosers(old(State()), all, winner)
      {
        assert all[i..][0] == all[i] && all[i..][1..] == all[i + 1..];
        if all[i] != winner {
          ReleaseAttempt(all[i]);
          threw := HangupLeg(all[i]);
          if threw {
            return;
          }
        }
        i := i + 1;
      }
      return false;
    }

    method AnswerLeg(leg: nat) returns (threw: bool)
      modifies this, dial
      ensures Out(State(), threw) == Answer(old(State()), leg)
    {
      hide MarkAnswered;
      if leg !in legs || !legs[leg].registered {
        return true;
      }
      legs := legs[leg := legs[leg].(ended := false)];
      if dial.registered && leg in dial.attemptLegIds {
        threw := MarkAttemptAnswered(leg);
      } else {
        threw := false;
      }
    }

    method MarkAttemptBridged(leg: nat) returns (threw: bool)
      modifies this, dial
      ensures Out(State(), threw) == Bridged(old(State()), leg)
    {
      hide MarkAnswered;
      if !dial.registered {
        return true;
      }
      if dial.finalizedAs.Some? || dial.winnerLegId.Some? || leg !in dial.activeAttemptLegIds {
        return false;
      }
      threw := MarkAttemptAnswered(leg);
    }

    method MarkAttemptRejected(leg: nat) returns (threw: bool)
      modifies this, dial
      ensures Out(State(), threw) == MarkRejected(old(State()), leg)
    {
      hide Hangup, Finalize, Release;
      if !dial.registered {
        return true;
      }
      if dial.finalizedAs.Some? {
        return false;
      }
      ClearAttemptTimeout(leg);
      ReleaseAttempt(leg);
      threw := HangupLeg(leg);
      if threw || |dial.activeAttemptLegIds| > 0 {
        return;
      }
      if dial.strategy == Sequential && |dial.pendingTargets| > 0 {
        dial.gapTimer := true;
        return;
      }
      threw := FinalizeDial(Failed);
    }

    method MarkAttemptFailed(leg: nat) returns (threw: bool)
      modifies this, dial
      ensures Out(State(), threw) == MarkFailed(old(State()), leg)
    {
      hide Hangup, Finalize, Release;
      if !dial.registered {
        return true;
      }
      if dial.finalizedAs.Some? {
        return false;
      }
      ClearAttemptTimeout(leg);
      ReleaseAttempt(leg);
      threw := HangupLeg(leg);
      if !threw {
        threw := FinalizeDial(Failed);
      }
    }

    method ReportAttemptFailed(leg: nat) returns (threw: bool)
      modifies this, dial
      ensures Out(State(), threw) == Fail(old(State()), leg)
    {
      hide MarkFailed;
      if !dial.registered || leg !in dial.activeAttemptLegIds {
        return false;
      }
      threw := MarkAttemptFailed(leg);
    }

    method GapTimerFires()
      modifies this, dial
      ensures State() == GapFires(old(State()))
    {
      hide Finalize, StartNext;
      dial.gapTimer := false;
      if dial.finalizedAs.Some? {
        return;
      }
      StartNextAttempt();
      if |dial.activeAttemptLegIds| == 0 && |dial.pendingTargets| == 0 {
        var threw := FinalizeDial(Failed);
      }
    }
  }
}
