/** One dial: its attempts, the legs they make, and everything that can happen to either, down to the
    calls that come back while another is still running. */
module DialSpec {

  datatype Option<+T> = None | Some(value: T)

  datatype Strategy = Parallel | Sequential

  datatype Verdict = Answered | Failed

  // A leg's destroy handler has run `runs` times; `settled` says that destroying it has returned
  // once; `ended` is its status; `registered` that it can still be found.
  datatype Leg = Leg(ended: bool, registered: bool, runs: nat, settled: bool)

  // Targets are numbered by their place. `attempts` are the legs ever made, `active` those the dial
  // owns, `tickets` the legs it holds a ticket on, `timers` those with a time limit.
  datatype Dial = Dial(
    strategy: Strategy, limited: bool, targets: seq<nat>, pending: seq<nat>,
    attempts: seq<nat>, active: seq<nat>, tickets: set<nat>, started: seq<(nat, nat)>,
    winner: Option<nat>, finalized: Option<Verdict>, gap: bool, timers: set<nat>,
    registered: bool, runs: nat, settled: bool)

  // `deaf` are the legs whose end is never reported to the dial, because an earlier listener failed.
  datatype State = State(dial: Dial, legs: map<nat, Leg>, nextLeg: nat, deaf: set<nat>, winnerTickets: set<nat>)

  // A call either returns or throws.
  datatype Out = Out(s: State, threw: bool)

  function Without(legs: seq<nat>, leg: nat): (r: seq<nat>)
    ensures forall x :: x in r <==> x in legs && x != leg
    ensures |r| <= |legs|
    decreases |legs|
  {
    if legs == [] then []
    else
      assert legs == [legs[0]] + legs[1..];
      if legs[0] == leg then Without(legs[1..], leg) else [legs[0]] + Without(legs[1..], leg)
  }

  function Live(s: State): set<nat> { set l | l in s.legs && !s.legs[l].ended }

  function Registered(s: State, leg: nat): bool { leg in s.legs && s.legs[leg].registered }

  // The dial gives the leg up, with its ticket.
  function Release(s: State, leg: nat): State {
    if leg in s.dial.attempts then s.(dial := s.dial.(active := Without(s.dial.active, leg), tickets := s.dial.tickets - {leg})) else s
  }

  function ClearTimeout(s: State, leg: nat): State { s.(dial := s.dial.(timers := s.dial.timers - {leg})) }

  function SetGap(s: State): State { s.(dial := s.dial.(gap := true)) }

  // ---- Ending legs and finalising the dial call each other ----

  function Hangup(s: State, leg: nat): (r: Out)
    ensures Live(r.s) <= Live(s)
    decreases Live(s), 1, 0
  {
    if !Registered(s, leg) then Out(s, true)
    else if s.legs[leg].ended then Out(s, false)
    else Out(DestroyLeg(s, leg), false)
  }

  function Ending(s: State, leg: nat): State
    requires leg in s.legs
  {
    s.(legs := s.legs[leg := s.legs[leg].(ended := true, runs := s.legs[leg].runs + 1)])
  }

  // The status changes first, the handler runs, and only then is it on record that it has.
  function DestroyLeg(s: State, leg: nat): (r: State)
    requires leg in s.legs && !s.legs[leg].ended
    ensures Live(r) <= Live(s)
    decreases Live(s), 0, 0
  {
    var l := s.legs[leg];
    if l.settled then s
    else
      var t := Ending(s, leg);
      assert leg in Live(s) && leg !in Live(t);
      assert Live(t) < Live(s);
      var u := if leg in s.deaf then t else LegEnded(t, leg);
      Settle(u, leg)
  }

  function Settle(s: State, leg: nat): (r: State)
    ensures Live(r) <= Live(s)
  {
    if leg in s.legs then s.(legs := s.legs[leg := s.legs[leg].(settled := true)]) else s
  }

  // Throwing here is caught by the one who reports.
  function LegEnded(s: State, leg: nat): (r: State)
    ensures Live(r) <= Live(s)
    decreases Live(s), 5, 0
  {
    var s := s.(winnerTickets := s.winnerTickets - {leg});
    if !s.dial.registered || leg !in s.dial.active then s
    else
      var t := Release(ClearTimeout(s, leg), leg);
      if t.dial.finalized.Some? || t.dial.active != [] then t
      else if t.dial.strategy == Sequential && t.dial.pending != [] then SetGap(t)
      else Finalize(t, Failed).s
  }

  function Finalize(s: State, verdict: Verdict): (r: Out)
    ensures Live(r.s) <= Live(s)
    decreases Live(s), 4, 0
  {
    if !s.dial.registered || s.dial.finalized.Some? then Out(s, false) else DestroyDial(s, verdict)
  }

  function Begin(s: State, verdict: Verdict): State {
    s.(dial := s.dial.(gap := false, timers := {}, runs := s.dial.runs + 1,
                       finalized := if s.dial.finalized.Some? then s.dial.finalized else Some(verdict)))
  }

  function End(s: State): State {
    s.(dial := s.dial.(pending := [], active := [], registered := false, settled := true))
  }

  // A handler that throws leaves the dial registered and not settled.
  function DestroyDial(s: State, verdict: Verdict): (r: Out)
    ensures Live(r.s) <= Live(s)
    decreases Live(s), 3, 0
  {
    if s.dial.settled then Out(s, false)
    else
      var r := HangupAll(Begin(s, verdict), s.dial.active, verdict);
      if r.threw then r else Out(End(r.s), false)
  }

  // The winner of an answered dial is given up but not hung up.
  function HangupAll(s: State, legs: seq<nat>, verdict: Verdict): (r: Out)
    ensures Live(r.s) <= Live(s)
    decreases Live(s), 2, |legs|
  {
    if legs == [] then Out(s, false)
    else
      var t := Release(s, legs[0]);
      if verdict == Answered && t.dial.winner == Some(legs[0]) then HangupAll(t, legs[1..], verdict)
      else
        var h := Hangup(t, legs[0]);
        if h.threw then h else HangupAll(h.s, legs[1..], verdict)
  }

  // ---- Operations ----

  function StartNext(s: State): State {
    if s.dial.pending == [] then s
    else
      var leg, d := s.nextLeg, s.dial;
      s.(nextLeg := leg + 1, legs := s.legs[leg := Leg(false, true, 0, false)],
         dial := d.(pending := d.pending[1..], attempts := d.attempts + [leg], active := d.active + [leg],
                    tickets := d.tickets + {leg}, started := d.started + [(leg, d.pending[0])],
                    timers := if d.strategy == Sequential && d.limited then d.timers + {leg} else d.timers))
  }

  function StartAll(s: State): State
    decreases |s.dial.pending|
  {
    if s.dial.pending == [] then s else StartAll(StartNext(s))
  }

  function Create(strategy: Strategy, limited: bool, targets: seq<nat>, nextLeg: nat, deaf: set<nat>): State {
    var s := State(Dial(strategy, limited, targets, targets, [], [], {}, [], None, None, false, {}, true, 0, false),
                   map[], nextLeg, deaf, {});
    if strategy == Parallel then StartAll(s) else StartNext(s)
  }

  // Every attempt ever made but the winner is given up and hung up, in order.
  function HangupLosers(s: State, legs: seq<nat>, winner: nat): Out
    decreases |legs|
  {
    if legs == [] then Out(s, false)
    else if legs[0] == winner then HangupLosers(s, legs[1..], winner)
    else
      var h := Hangup(Release(s, legs[0]), legs[0]);
      if h.threw then h else HangupLosers(h.s, legs[1..], winner)
  }

  function MarkAnswered(s: State, leg: nat): Out {
    if !s.dial.registered then Out(s, true)
    else if s.dial.finalized.Some? then Out(s, false)
    else
      var t := ClearTimeout(s, leg);
      var w := t.(dial := t.dial.(winner := Some(leg)));
      if leg !in w.winnerTickets && !Registered(w, leg) then Out(w, true)
      else
        var l := HangupLosers(w.(winnerTickets := w.winnerTickets + {leg}), w.dial.attempts, leg);
        if l.threw then l else Finalize(l.s, Answered)
  }

  // Answering sets the leg's status, even back from ended, and fails for a leg that cannot be found.
  function Answer(s: State, leg: nat): Out {
    if !Registered(s, leg) then Out(s, true)
    else
      var t := s.(legs := s.legs[leg := s.legs[leg].(ended := false)]);
      if s.dial.registered && leg in s.dial.attempts then MarkAnswered(t, leg) else Out(t, false)
  }

  function Bridged(s: State, leg: nat): Out {
    if !s.dial.registered then Out(s, true)
    else if s.dial.finalized.Some? || s.dial.winner.Some? || leg !in s.dial.active then Out(s, false)
    else MarkAnswered(s, leg)
  }

  function MarkRejected(s: State, leg: nat): Out {
    if !s.dial.registered then Out(s, true)
    else if s.dial.finalized.Some? then Out(s, false)
    else
      var h := Hangup(Release(ClearTimeout(s, leg), leg), leg);
      if h.threw || h.s.dial.active != [] then h
      else if h.s.dial.strategy == Sequential && h.s.dial.pending != [] then Out(SetGap(h.s), false)
      else Finalize(h.s, Failed)
  }

  // A rejection that belongs to no dial just hangs up.
  function Reject(s: State, leg: nat): Out {
    if s.dial.registered && leg in s.dial.attempts then MarkRejected(s, leg) else Hangup(s, leg)
  }

  function MarkFailed(s: State, leg: nat): Out {
    if !s.dial.registered then Out(s, true)
    else if s.dial.finalized.Some? then Out(s, false)
    else
      var h := Hangup(Release(ClearTimeout(s, leg), leg), leg);
      if h.threw then h else Finalize(h.s, Failed)
  }

  // Signalling reports the failure of a leg only to a dial that owns it.
  function Fail(s: State, leg: nat): Out {
    if !s.dial.registered || leg !in s.dial.active then Out(s, false) else MarkFailed(s, leg)
  }

  function GapFires(s: State): State {
    var t := s.(dial := s.dial.(gap := false));
    if t.dial.finalized.Some? then t
    else
      var u := StartNext(t);
      if u.dial.active == [] && u.dial.pending == [] then Finalize(u, Failed).s else u
  }

  // ---- Everything that can happen ----

  datatype Step =
    | DoAnswer(leg: nat) | DoBridge(leg: nat) | DoReject(leg: nat) | DoFail(leg: nat)
    | DoTimeout(leg: nat) | DoGap | DoHangup(leg: nat) | DoDetach(leg: nat) | DoBreak | DoFreeTtl

  // A leg leaves the registry some time after its handler has run. A destroyed dial has no free TTL.
  predicate Enabled(s: State, step: Step) {
    match step
    case DoTimeout(leg) => leg in s.dial.timers
    case DoGap => s.dial.gap
    case DoDetach(leg) => Registered(s, leg) && s.legs[leg].settled
    case DoFreeTtl => s.dial.finalized == None
    case _ => true
  }

  function Next(s: State, step: Step): State
    requires Enabled(s, step)
  {
    match step
    case DoAnswer(leg) => Answer(s, leg).s
    case DoBridge(leg) => Bridged(s, leg).s
    case DoReject(leg) => Reject(s, leg).s
    case DoFail(leg) => Fail(s, leg).s
    case DoTimeout(leg) => MarkRejected(s, leg).s
    case DoGap => GapFires(s)
    case DoHangup(leg) => Hangup(s, leg).s
    case DoDetach(leg) => s.(legs := s.legs[leg := s.legs[leg].(registered := false)])
    case DoBreak => Finalize(s, Failed).s
    case DoFreeTtl => DestroyDial(s, Failed).s
  }
}
