/** What a wait reports and what it holds, told by the rules and the text typed alone, with multi-digit
    fallback on as well as off. */
module LegWaitMeaning {
  import opened JsText
  import opened LegWaitSpec

  // ---- Rules and texts ----

  ghost predicate FirstOf(rules: seq<Rule>, k: nat, t: Text) {
    k < |rules| && rules[k].pattern == t && forall j :: 0 <= j < k ==> rules[j].pattern != t
  }

  ghost predicate Known(rules: seq<Rule>, t: Text) { exists k :: 0 <= k < |rules| && rules[k].pattern == t }

  ghost predicate Begun(rules: seq<Rule>, t: Text) { exists k :: 0 <= k < |rules| && t <= rules[k].pattern }

  ghost predicate GoesOn(rules: seq<Rule>, t: Text) { exists k :: 0 <= k < |rules| && t <= rules[k].pattern && t != rules[k].pattern }

  // The text is a rule, and there is nothing to wait for.
  ghost predicate Final(o: Options, t: Text) { Known(o.rules, t) && (!GoesOn(o.rules, t) || o.interdigitMs == 0) }

  // The text is p and the terminator.
  predicate Terminated(o: Options, t: Text, p: Text) { o.multi && o.terminator != [] && t == p + o.terminator }

  // The first rule with the pattern is reported, under its name.
  ghost predicate IsRule(out: Option<Output>, leg: nat, rules: seq<Rule>, p: Text) {
    exists k: nat :: FirstOf(rules, k, p) && out == Some(Matched(leg, p, p, rules[k].name))
  }

  // What the terminator makes of the digits before it: a rule, or else the fallback, or else nothing.
  ghost predicate IsAnswer(out: Option<Output>, leg: nat, o: Options, p: Text) {
    if Known(o.rules, p) then IsRule(out, leg, o.rules, p)
    else out == if o.fallback then Some(Fallback(leg, p, Some(o.terminator))) else None
  }

  lemma RuleFound(rules: seq<Rule>, t: Text)
    ensures FirstRule(rules, t).Some? <==> Known(rules, t)
    ensures FirstRule(rules, t).Some? ==> FirstRule(rules, t).value.pattern == t
    ensures FirstRule(rules, t).Some? ==> forall leg :: IsRule(Some(Match(leg, t, FirstRule(rules, t).value)), leg, rules, t)
    ensures Live(rules, t) <==> Begun(rules, t)
    ensures Extends(rules, t) <==> GoesOn(rules, t)
  {
    FirstAt(rules, t);
    if GoesOn(rules, t) {
      var k :| 0 <= k < |rules| && t <= rules[k].pattern && t != rules[k].pattern;
      assert t < rules[k].pattern;
    }
    if Extends(rules, t) {
      var k :| 0 <= k < |rules| && t < rules[k].pattern;
      assert t <= rules[k].pattern && t != rules[k].pattern;
    }
  }

  lemma {:induction false} FirstAt(rules: seq<Rule>, t: Text)
    ensures match FirstRule(rules, t)
            case Some(r) => exists k: nat :: FirstOf(rules, k, t) && rules[k] == r
            case None => !Known(rules, t)
    decreases |rules|
  {
    if rules != [] {
      var rest := rules[1..];
      FirstAt(rest, t);
      if rules[0].pattern == t {
        assert FirstOf(rules, 0, t);
      } else {
        forall k: nat | FirstOf(rest, k, t) ensures FirstOf(rules, k + 1, t) && rules[k + 1] == rest[k] {
          assert forall j :: 1 <= j < k + 1 ==> rules[j] == rest[j - 1];
        }
        assert forall k :: 1 <= k < |rules| ==> rules[k] == rest[k - 1];
      }
    }
  }

  // ---- One piece of digits ----

  /** What a piece of digits comes to, by the digits held and the piece together. */
  lemma PieceMeans(leg: nat, held: Text, d: Text, at: nat, o: Options, p: Text)
    ensures var r, t := ProcessEvent(leg, held, Dtmf(d, at), o), held + d;
            && (Final(o, t) ==> IsRule(r.output, leg, o.rules, t))
            && (!Final(o, t) && Terminated(o, t, p) ==> IsAnswer(r.output, leg, o, p) && (r.output == None ==> r.digits == []))
            && (!Final(o, t) && !Ends(o, t) ==>
                  if !Begun(o.rules, t) && o.fallback && (!o.multi || o.interdigitMs == 0) then r.output == Some(Fallback(leg, t, None))
                  else r.output == None && r.digits == if o.multi || Begun(o.rules, t) then t else [])
            && (r.more <==> o.interdigitMs > 0 && !Final(o, t) && !Ends(o, t) && (Begun(o.rules, t) || (o.multi && r.output == None)))
  {
    hide FirstRule, Live, Extends, Known, Begun, GoesOn, IsRule, FirstOf;
    var t := held + d;
    RuleFound(o.rules, t);
    TerminatorTells(o, t, p);
    if Ends(o, t) {
      RuleFound(o.rules, Strip(t, o.terminator));
    }
  }

  predicate Ends(o: Options, t: Text) { o.multi && o.terminator != [] && EndsWith(t, o.terminator) }

  lemma TerminatorTells(o: Options, t: Text, p: Text)
    ensures Terminated(o, t, p) ==> Ends(o, t) && Strip(t, o.terminator) == p
  {
  }

  /** A leg's end is always reported, and an interruption exactly when its reason was asked for; neither
      an interruption not asked for nor anything else touches the digits held. */
  lemma EventsMean(leg: nat, held: Text, reason: Text, at: nat, o: Options)
    ensures ProcessEvent(leg, held, Ended(reason, at), o).output == Some(Hangup(leg, reason))
    ensures var r := ProcessEvent(leg, held, Interrupted(reason, at), o);
            r.output == (if reason in o.reasons then Some(Interrupt(leg, reason)) else None) && r.digits == held && !r.more
    ensures var r := ProcessEvent(leg, held, Other, o); r.output == None && r.digits == held && !r.more
  {
  }

  // ---- Typing with multi-digit fallback on ----

  // The text typed so far makes the wait report something, or start over.
  ghost predicate Settles(o: Options, t: Text) {
    Final(o, t) || Ends(o, t) || (o.fallback && !Begun(o.rules, t) && o.interdigitMs == 0)
  }

  ghost predicate OnTheWay(o: Options, arrivals: seq<Arrival>, leg: nat) {
    forall n :: 0 < n < |arrivals| ==> !Settles(o, TypedText(arrivals[..n], leg))
  }

  // All that is typed is held, while nothing settles.
  lemma {:induction false} Holding(s: Setup, w: Wait, leg: nat, arrivals: seq<Arrival>)
    requires s.options.multi && DigitsOf(w, leg) == [] && Typed(arrivals, leg)
    requires forall n :: 0 < n <= |arrivals| ==> !Settles(s.options, TypedText(arrivals[..n], leg))
    ensures Quiet(s, w, arrivals) && DigitsOf(After(s, w, arrivals), leg) == TypedText(arrivals, leg)
    decreases |arrivals|
  {
    if arrivals != [] {
      var n := |arrivals| - 1;
      var before := arrivals[..n];
      TypedNext(arrivals, leg);
      assert forall m :: 0 <= m <= n ==> before[..m] == arrivals[..m];
      assert arrivals[..n + 1] == arrivals;
      Holding(s, w, leg, before);
      hide TypedText, Settles, ProcessEvent, After;
      PieceHeld(leg, TypedText(before, leg), arrivals[n].event.digits, arrivals[n].event.at, s.options);
    }
  }

  lemma PieceHeld(leg: nat, held: Text, d: Text, at: nat, o: Options)
    requires o.multi && !Settles(o, held + d)
    ensures var r := ProcessEvent(leg, held, Dtmf(d, at), o); r.output == None && r.digits == held + d
  {
    hide ProcessEvent, Final, Begun, IsRule, IsAnswer, Ends;
    PieceMeans(leg, held, d, at, o, []);
  }

  // Up to the last piece all is held, and the last piece decides.
  lemma LastPiece(s: Setup, w: Wait, leg: nat, arrivals: seq<Arrival>)
    requires s.options.multi && DigitsOf(w, leg) == [] && Typed(arrivals, leg) && arrivals != [] && OnTheWay(s.options, arrivals, leg)
    ensures var n := |arrivals| - 1;
            var held, e := TypedText(arrivals[..n], leg), arrivals[n].event;
            var r := ProcessEvent(leg, held, e, s.options);
            && e.Dtmf? && held + e.digits == TypedText(arrivals, leg)
            && Run(s, w, arrivals) == r.output
            && (r.output == None ==> Quiet(s, w, arrivals) && DigitsOf(After(s, w, arrivals), leg) == r.digits)
  {
    var n := |arrivals| - 1;
    var before := arrivals[..n];
    TypedNext(arrivals, leg);
    assert forall m :: 0 <= m <= n ==> before[..m] == arrivals[..m];
    Holding(s, w, leg, before);
    hide TypedText, Settles, ProcessEvent;
    var a := arrivals[n];
    assert a == Arrive(leg, a.event);
    if Outcome(s, After(s, w, before), a).Some? {
      RunStops(s, w, arrivals, n);
    } else {
      RunQuiet(s, w, arrivals);
    }
  }

  /** Typing p and the terminator, in any pieces, with nothing settled on the way, reports the first rule
      whose pattern is p; when no rule is p, the fallback digits p and the terminator, if fallback is on;
      and otherwise the wait goes on with no digits held for the leg. */
  lemma TerminatorReports(s: Setup, w: Wait, leg: nat, arrivals: seq<Arrival>, p: Text)
    requires s.options.multi && s.options.terminator != [] && DigitsOf(w, leg) == []
    requires Typed(arrivals, leg) && arrivals != [] && OnTheWay(s.options, arrivals, leg)
    requires TypedText(arrivals, leg) == p + s.options.terminator && !Final(s.options, p + s.options.terminator)
    ensures IsAnswer(Run(s, w, arrivals), leg, s.options, p)
    ensures Run(s, w, arrivals) == None ==> Quiet(s, w, arrivals) && DigitsOf(After(s, w, arrivals), leg) == []
  {
    LastPiece(s, w, leg, arrivals);
    hide TypedText, ProcessEvent, Run, Quiet, After, IsAnswer, Final, OnTheWay;
    var n := |arrivals| - 1;
    PieceMeans(leg, TypedText(arrivals[..n], leg), arrivals[n].event.digits, arrivals[n].event.at, s.options, p);
  }

  /** With multi-digit fallback on, a text typed without a terminator is reported as a rule when it is one
      and nothing is left to wait for; as fallback when no rule begins so and nothing is waited for; and
      otherwise it is held whole, even if no rule begins so. */
  lemma TypingMeans(s: Setup, w: Wait, leg: nat, arrivals: seq<Arrival>)
    requires s.options.multi && DigitsOf(w, leg) == []
    requires Typed(arrivals, leg) && arrivals != [] && OnTheWay(s.options, arrivals, leg) && !Ends(s.options, TypedText(arrivals, leg))
    ensures var t, r := TypedText(arrivals, leg), Run(s, w, arrivals);
            if Final(s.options, t) then IsRule(r, leg, s.options.rules, t)
            else if !Begun(s.options.rules, t) && s.options.fallback && s.options.interdigitMs == 0 then r == Some(Fallback(leg, t, None))
            else r == None && Quiet(s, w, arrivals) && DigitsOf(After(s, w, arrivals), leg) == t
  {
    LastPiece(s, w, leg, arrivals);
    hide TypedText, ProcessEvent, Run, Quiet, After, IsRule, Final, OnTheWay, Begun, Ends;
    var n := |arrivals| - 1;
    PieceMeans(leg, TypedText(arrivals[..n], leg), arrivals[n].event.digits, arrivals[n].event.at, s.options, []);
  }

  // ---- Silence ----

  /** What silence makes of the digits a leg holds, when they end in no terminator: the first rule that
      they are, or else the fallback if it is on, or else nothing. */
  lemma SilenceMeans(leg: nat, digits: Text, o: Options)
    requires !Ends(o, digits)
    ensures var r := FinalizeDigits(leg, digits, o);
            if digits == [] then r == None
            else if Known(o.rules, digits) then IsRule(r, leg, o.rules, digits)
            else r == if o.fallback then Some(Fallback(leg, digits, None)) else None
  {
    hide FirstRule, Known, IsRule;
    RuleFound(o.rules, digits);
  }

  /** The clock ends a wait no sooner than its deadline; and when no leg has anything to report then, the
      wait times out, on the leg asked for first. */
  lemma ClockMeans(s: Setup, w: Wait, now: nat)
    ensures now < w.deadline ==> Outcome(s, w, Clock(now)) == None
    ensures now >= w.deadline && (forall i :: 0 <= i < |s.live| ==> FinalizeDigits(s.live[i], DigitsOf(w, s.live[i]), s.options) == None) ==>
              Outcome(s, w, Clock(now)) == Some(TimedOut(s.first))
  {
    hide FinalizeDigits, DigitsOf;
    FinalizeMeans(s.live, w, s.options);
  }

  /** A wait in which nothing arrives lasts for its timeout, and then times out. */
  lemma IdleWait(s: Setup, start: nat, timeoutMs: nat, now: nat)
    ensures Run(s, Start(start, timeoutMs), [Clock(now)]) == if now < start + timeoutMs then None else Some(TimedOut(s.first))
  {
    var w := Start(start, timeoutMs);
    ClockMeans(s, w, now);
    assert [Clock(now)][1..] == [] && Run(s, Next(s, w, Clock(now)), []) == None;
  }

  // ---- Typing with multi-digit fallback off ----

  /** With multi-digit fallback off, a piece after which no rule begins so is reported as fallback at once
      if fallback is on, and otherwise makes the leg start over with no digits. */
  lemma StrayDigits(s: Setup, w: Wait, leg: nat, d: Text, at: nat)
    requires !s.options.multi && !Begun(s.options.rules, DigitsOf(w, leg) + d)
    ensures var a, t := Arrive(leg, Dtmf(d, at)), DigitsOf(w, leg) + d;
            if s.options.fallback then Outcome(s, w, a) == Some(Fallback(leg, t, None))
            else Outcome(s, w, a) == None && DigitsOf(Next(s, w, a), leg) == []
  {
    hide ProcessEvent, IsRule;
    PieceMeans(leg, DigitsOf(w, leg), d, at, s.options, []);
    KnownIsBegun(s.options.rules, DigitsOf(w, leg) + d);
  }

  lemma KnownIsBegun(rules: seq<Rule>, t: Text)
    ensures Known(rules, t) ==> Begun(rules, t)
  {
  }

  /** Rules 12 and 123, terminator #, fallback on: 1, 2, # reports the rule 12; 1, 4, # reports 14 as
      fallback, ended by #. */
  lemma TerminatorExample(o: Options, third: Unit)
    requires o.rules == [Rule([0x31, 0x32], [0x61]), Rule([0x31, 0x32, 0x33], [0x62])]
    requires o.multi && o.fallback && o.terminator == [0x23] && o.interdigitMs > 0 && third in [0x32, 0x34]
    ensures var typed := [Arrive(0, Dtmf([0x31], 100)), Arrive(0, Dtmf([third], 200)), Arrive(0, Dtmf([0x23], 300))];
            Run(Setup(0, [0], o), Start(0, 30000), typed) ==
            Some(if third == 0x32 then Matched(0, [0x31, 0x32], [0x31, 0x32], [0x61]) else Fallback(0, [0x31, third], Some([0x23])))
  {
    var s, w0 := Setup(0, [0], o), Start(0, 30000);
    var typed := [Arrive(0, Dtmf([0x31], 100)), Arrive(0, Dtmf([third], 200)), Arrive(0, Dtmf([0x23], 300))];
    hide ProcessEvent;
    var one: Text, two: Text := [0x31], [0x31, third];
    assert [] + one == one && one + [third] == two;
    ExampleTexts(o, third);
    PieceHeld(0, [], one, 100, o);
    PieceHeld(0, one, [third], 200, o);
    var w1 := Next(s, w0, typed[0]);
    var w2 := Next(s, w1, typed[1]);
    PieceMeans(0, two, [0x23], 300, o, two);
    assert Outcome(s, w2, typed[2]) == ProcessEvent(0, two, Dtmf([0x23], 300), o).output;
    assert typed[1..] == [typed[1], typed[2]] && typed[1..][1..] == [typed[2]];
    assert Run(s, w2, [typed[2]]) == Outcome(s, w2, typed[2]);
    assert Run(s, w1, typed[1..]) == Run(s, w2, [typed[2]]);
  }

  lemma ExampleTexts(o: Options, third: Unit)
    requires o.rules == [Rule([0x31, 0x32], [0x61]), Rule([0x31, 0x32, 0x33], [0x62])]
    requires o.multi && o.fallback && o.terminator == [0x23] && o.interdigitMs > 0 && third in [0x32, 0x34]
    ensures !Settles(o, [0x31]) && !Settles(o, [0x31, third]) && !Final(o, [0x31, third] + [0x23])
    ensures Known(o.rules, [0x31, third]) <==> third == 0x32
    ensures third == 0x32 ==> FirstOf(o.rules, 0, [0x31, third]) && forall k: nat :: FirstOf(o.rules, k, [0x31, third]) ==> k == 0
    ensures Terminated(o, [0x31, third] + [0x23], [0x31, third])
  {
    var a, b := o.rules[0].pattern, o.rules[1].pattern;
    var two: Text := [0x31, third];
    Differ(a, b, third);
    if third == 0x32 {
      assert two == a;
      assert two <= b && two != b;
      assert GoesOn(o.rules, two);
    }
  }

  lemma Differ(a: Text, b: Text, third: Unit)
    requires a == [0x31, 0x32] && b == [0x31, 0x32, 0x33] && third in [0x32, 0x34]
    ensures a != [0x31] && b != [0x31] && b != [0x31, third] && (a == [0x31, third] <==> third == 0x32)
    ensures a != [0x31, third] + [0x23] && b != [0x31, third] + [0x23]
  {
    assert ([0x31, third] + [0x23])[2] == 0x23;
    assert [0x31, third][1] == third && a[1] == 0x32;
  }
}
