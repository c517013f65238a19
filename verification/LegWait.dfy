/** Waiting for digits: what one event does to a leg's digits, what silence makes of them, and the
    wait that folds both over everything that arrives on its legs. */
module LegWaitSpec {
  import opened JsText

  datatype Option<+T> = None | Some(value: T)

  datatype RawRule = Rule(pattern: Text, name: Text)

  // Rules are trimmed, and a rule without a pattern or a label (its name here) is ignored.
  type Rule = r: RawRule | r.pattern != [] && r.name != [] witness Rule([0x31], [0x31])

  function NormalRules(raw: seq<RawRule>): seq<Rule>
    decreases |raw|
  {
    if raw == [] then []
    else
      var r := Rule(Trim(raw[0].pattern), Trim(raw[0].name));
      if r.pattern != [] && r.name != [] then [r] + NormalRules(raw[1..]) else NormalRules(raw[1..])
  }

  datatype Options = Options(
    rules: seq<Rule>, interdigitMs: nat, reasons: set<Text>, fallback: bool, multi: bool, terminator: Text)

  datatype Event = Ended(reason: Text, at: nat) | Interrupted(reason: Text, at: nat) | Dtmf(digits: Text, at: nat) | Other

  datatype Output =
    | Matched(leg: nat, digits: Text, pattern: Text, name: Text)
    | Fallback(leg: nat, digits: Text, terminatedBy: Option<Text>)
    | Interrupt(leg: nat, reason: Text)
    | Hangup(leg: nat, reason: Text)
    | TimedOut(leg: nat)

  // A zero time stands for no digit.
  datatype Result = Result(digits: Text, output: Option<Output>, lastDigitAt: nat, more: bool)

  function FirstRule(rules: seq<Rule>, digits: Text): Option<Rule>
    decreases |rules|
  {
    if rules == [] then None
    else if rules[0].pattern == digits then Some(rules[0]) else FirstRule(rules[1..], digits)
  }

  // Some rule begins with these digits.
  predicate Live(rules: seq<Rule>, digits: Text) {
    exists i :: 0 <= i < |rules| && digits <= rules[i].pattern
  }

  // Some rule begins with these digits and goes on.
  predicate Extends(rules: seq<Rule>, digits: Text) {
    exists i :: 0 <= i < |rules| && digits < rules[i].pattern
  }

  predicate EndsWith(s: Text, t: Text) { |t| <= |s| && s[|s| - |t|..] == t }

  function Strip(s: Text, t: Text): Text
    requires EndsWith(s, t)
  {
    s[..|s| - |t|]
  }

  function Match(leg: nat, digits: Text, rule: Rule): Output { Matched(leg, digits, rule.pattern, rule.name) }

  // The digits typed so far end in the terminator.
  function Terminate(leg: nat, stripped: Text, o: Options): Option<Output> {
    var rule := FirstRule(o.rules, stripped);
    if rule.Some? then Some(Match(leg, stripped, rule.value))
    else if o.fallback then Some(Fallback(leg, stripped, Some(o.terminator)))
    else None
  }

  function ProcessDigits(leg: nat, next: Text, at: nat, o: Options): Result {
    var exact := FirstRule(o.rules, next);
    var noWait := o.interdigitMs == 0;
    if exact.Some? && (!Extends(o.rules, next) || noWait) then
      Result(next, Some(Match(leg, next, exact.value)), at, false)
    else if o.multi && o.terminator != [] && EndsWith(next, o.terminator) then
      var stripped := Strip(next, o.terminator);
      var output := Terminate(leg, stripped, o);
      Result(if output.Some? then stripped else [], output, at, false)
    else if !Live(o.rules, next) && o.fallback && (!o.multi || noWait) then
      Result(next, Some(Fallback(leg, next, None)), at, false)
    else if Live(o.rules, next) || o.multi then
      Result(next, None, at, !noWait)
    else
      Result([], None, 0, false)
  }

  function ProcessEvent(leg: nat, digits: Text, e: Event, o: Options): Result {
    match e
    case Ended(reason, _) => Result(digits, Some(Hangup(leg, reason)), 0, false)
    case Interrupted(reason, _) => Result(digits, if reason in o.reasons then Some(Interrupt(leg, reason)) else None, 0, false)
    case Dtmf(d, at) => ProcessDigits(leg, digits + d, at, o)
    case Other => Result(digits, None, 0, false)
  }

  function FinalizeDigits(leg: nat, digits: Text, o: Options): Option<Output> {
    if digits == [] then None
    else
      var rule := FirstRule(o.rules, digits);
      if rule.Some? then Some(Match(leg, digits, rule.value))
      else
        var ended := if o.multi && o.terminator != [] && EndsWith(digits, o.terminator) && |digits| > |o.terminator|
                     then Terminate(leg, Strip(digits, o.terminator), o) else None;
        if ended.Some? then ended else if o.fallback then Some(Fallback(leg, digits, None)) else None
  }

  // ---- A wait over several legs ----

  // `live` are the legs that still exist, in the order asked for; `first` is the leg asked for first.
  datatype Setup = Setup(first: nat, live: seq<nat>, options: Options)

  datatype Wait = Wait(digits: map<nat, Text>, lastAt: map<nat, nat>, deadline: nat)

  // An event taken from a leg, or a look at the clock, which ends the wait once the deadline has come.
  datatype Arrival = Arrive(leg: nat, event: Event) | Clock(now: nat)

  function DigitsOf(w: Wait, leg: nat): Text { if leg in w.digits then w.digits[leg] else [] }

  function LastAt(w: Wait, leg: nat): nat { if leg in w.lastAt then w.lastAt[leg] else 0 }

  function Start(now: nat, timeoutMs: nat): Wait { Wait(map[], map[], now + timeoutMs) }

  function Finalize(live: seq<nat>, w: Wait, o: Options): Option<Output>
    decreases |live|
  {
    if live == [] then None
    else
      var output := FinalizeDigits(live[0], DigitsOf(w, live[0]), o);
      if output.Some? then output else Finalize(live[1..], w, o)
  }

  function AfterEvent(s: Setup, w: Wait, leg: nat, e: Event): Wait {
    var r := ProcessEvent(leg, DigitsOf(w, leg), e, s.options);
    var last := if r.lastDigitAt != 0 then r.lastDigitAt else LastAt(w, leg);
    var deadline := if r.output == None && r.more && s.options.interdigitMs > 0 && last > 0 then last + s.options.interdigitMs else w.deadline;
    Wait(w.digits[leg := r.digits], w.lastAt[leg := last], deadline)
  }

  function Next(s: Setup, w: Wait, a: Arrival): Wait {
    match a
    case Arrive(leg, e) => AfterEvent(s, w, leg, e)
    case Clock(_) => w
  }

  function Outcome(s: Setup, w: Wait, a: Arrival): Option<Output> {
    match a
    case Arrive(leg, e) => ProcessEvent(leg, DigitsOf(w, leg), e, s.options).output
    case Clock(now) =>
      if now < w.deadline then None
      else
        var output := Finalize(s.live, w, s.options);
        if output.Some? then output else Some(TimedOut(s.first))
  }

  // The wait ends with its first outcome.
  function Run(s: Setup, w: Wait, arrivals: seq<Arrival>): Option<Output>
    decreases |arrivals|
  {
    if arrivals == [] then None
    else if Outcome(s, w, arrivals[0]).Some? then Outcome(s, w, arrivals[0])
    else Run(s, Next(s, w, arrivals[0]), arrivals[1..])
  }

  // ---- A wait that has not ended ----

  function After(s: Setup, w: Wait, arrivals: seq<Arrival>): Wait
    decreases |arrivals|
  {
    if arrivals == [] then w else Next(s, After(s, w, arrivals[..|arrivals| - 1]), arrivals[|arrivals| - 1])
  }

  // No arrival so far was an outcome.
  ghost predicate Quiet(s: Setup, w: Wait, arrivals: seq<Arrival>)
    decreases |arrivals|
  {
    arrivals == [] ||
    (Quiet(s, w, arrivals[..|arrivals| - 1]) && Outcome(s, After(s, w, arrivals[..|arrivals| - 1]), arrivals[|arrivals| - 1]) == None)
  }

  // ---- The digits since the last reset, told without the wait ----

  function DigitsOn(arrivals: seq<Arrival>, leg: nat): seq<Text>
    decreases |arrivals|
  {
    if arrivals == [] then []
    else
      var a, before := arrivals[|arrivals| - 1], DigitsOn(arrivals[..|arrivals| - 1], leg);
      if a.Arrive? && a.leg == leg && a.event.Dtmf? then before + [a.event.digits] else before
  }

  function Join(ds: seq<Text>): Text
    decreases |ds|
  {
    if ds == [] then [] else Join(ds[..|ds| - 1]) + ds[|ds| - 1]
  }

  // Digits start over after the digits since the previous start began no rule.
  function LastReset(rules: seq<Rule>, ds: seq<Text>): (k: nat)
    ensures k <= |ds|
    decreases |ds|
  {
    if ds == [] then 0
    else
      var k := LastReset(rules, ds[..|ds| - 1]);
      if Live(rules, Join(ds[k..])) then k else |ds|
  }

  function Since(rules: seq<Rule>, ds: seq<Text>): Text { Join(ds[LastReset(rules, ds)..]) }

  lemma JoinLast(ds: seq<Text>, d: Text)
    ensures Join(ds + [d]) == Join(ds) + d
  {
    assert (ds + [d])[..|ds|] == ds;
  }

  // One more piece of digits.
  lemma SinceNext(rules: seq<Rule>, ds: seq<Text>, d: Text)
    ensures var next := Since(rules, ds) + d;
            Since(rules, ds + [d]) == if Live(rules, next) then next else []
  {
    var more, k := ds + [d], LastReset(rules, ds);
    assert more[..|ds|] == ds && more[k..] == ds[k..] + [d];
    JoinLast(ds[k..], d);
    assert more[|more|..] == [];
  }

  // With multi-digit fallback off, a piece of digits does one of three things.
  lemma SingleDigits(leg: nat, next: Text, at: nat, o: Options)
    requires !o.multi
    ensures var r := ProcessDigits(leg, next, at, o);
            && (r.output == None ==> r.digits == if Live(o.rules, next) then next else [])
            && (r.output.Some? && r.output.value.Matched? ==>
                  var rule := FirstRule(o.rules, next);
                  rule.Some? && r.output.value == Match(leg, next, rule.value) && (!Extends(o.rules, next) || o.interdigitMs == 0))
  {
  }

  lemma {:induction false} BufferIsSince(s: Setup, w: Wait, arrivals: seq<Arrival>, leg: nat)
    requires !s.options.multi && Quiet(s, w, arrivals) && DigitsOf(w, leg) == []
    ensures DigitsOf(After(s, w, arrivals), leg) == Since(s.options.rules, DigitsOn(arrivals, leg))
    decreases |arrivals|
  {
    if arrivals != [] {
      var before, a := arrivals[..|arrivals| - 1], arrivals[|arrivals| - 1];
      BufferIsSince(s, w, before, leg);
      if a.Arrive? && a.leg == leg && a.event.Dtmf? {
        SinceNext(s.options.rules, DigitsOn(before, leg), a.event.digits);
        SingleDigits(leg, DigitsOf(After(s, w, before), leg) + a.event.digits, a.event.at, s.options);
      }
    }
  }

  lemma SliceOfTake<T>(s: seq<T>, n: nat, i: nat, j: nat)
    requires i <= j <= n <= |s|
    ensures s[..n][i..j] == s[i..j]
  {
  }

  /** What starting over means: since the last reset the digits have begun some rule throughout, and
      the digits that were reset, taken from an earlier start, began none. */
  lemma {:induction false} SinceMeans(rules: seq<Rule>, ds: seq<Text>)
    ensures var k := LastReset(rules, ds);
            && (forall j :: k < j <= |ds| ==> Live(rules, Join(ds[k..j])))
            && (k > 0 ==> exists i :: 0 <= i < k && !Live(rules, Join(ds[i..k])))
    decreases |ds|
  {
    if ds != [] {
      var before := ds[..|ds| - 1];
      var k, k' := LastReset(rules, before), LastReset(rules, ds);
      assert k' == if Live(rules, Join(ds[k..])) then k else |ds|;
      SinceMeans(rules, before);
      hide LastReset, Live, Join;
      assert ds[k..|ds|] == ds[k..];
      if k' == k {
        forall i, j | 0 <= i <= j < |ds| ensures ds[i..j] == before[i..j] {
          SliceOfTake(ds, |ds| - 1, i, j);
        }
      } else {
        assert !Live(rules, Join(ds[k..k']));
      }
    }
  }

  /** With multi-digit fallback off a leg's digits are those since its last reset: empty, or the
      beginning of some rule. */
  lemma DigitsBeginARule(s: Setup, now: nat, timeoutMs: nat, arrivals: seq<Arrival>, leg: nat)
    requires !s.options.multi && Quiet(s, Start(now, timeoutMs), arrivals)
    ensures var digits := DigitsOf(After(s, Start(now, timeoutMs), arrivals), leg);
            && digits == Since(s.options.rules, DigitsOn(arrivals, leg))
            && (digits == [] || Live(s.options.rules, digits))
  {
    BufferIsSince(s, Start(now, timeoutMs), arrivals, leg);
    var ds := DigitsOn(arrivals, leg);
    SinceMeans(s.options.rules, ds);
    var k := LastReset(s.options.rules, ds);
    assert ds[k..|ds|] == ds[k..];
  }

  // The first rule with this pattern, told by position.
  lemma {:induction false} FirstRuleMeans(rules: seq<Rule>, digits: Text)
    ensures match FirstRule(rules, digits)
            case None => forall i :: 0 <= i < |rules| ==> rules[i].pattern != digits
            case Some(r) => exists i :: 0 <= i < |rules| && rules[i] == r && r.pattern == digits && forall j :: 0 <= j < i ==> rules[j].pattern != digits
    decreases |rules|
  {
    if rules != [] && rules[0].pattern != digits {
      FirstRuleMeans(rules[1..], digits);
      if FirstRule(rules, digits).Some? {
        var i :| 0 <= i < |rules[1..]| && rules[1..][i] == FirstRule(rules, digits).value && forall j :: 0 <= j < i ==> rules[1..][j].pattern != digits;
        assert rules[i + 1] == rules[1..][i];
        forall j | 0 <= j < i + 1 ensures rules[j].pattern != digits {
          assert j > 0 ==> rules[j] == rules[1..][j - 1];
        }
      } else {
        forall i | 0 <= i < |rules| ensures rules[i].pattern != digits {
          assert i > 0 ==> rules[i] == rules[1..][i - 1];
        }
      }
    }
  }

  // What the end of a wait looked like just before.
  ghost predicate EndsAt(s: Setup, w: Wait, arrivals: seq<Arrival>, n: nat, output: Output) {
    n < |arrivals| && Quiet(s, w, arrivals[..n]) && Outcome(s, After(s, w, arrivals[..n]), arrivals[n]) == Some(output)
  }

  lemma {:induction false} AfterHead(s: Setup, w: Wait, arrivals: seq<Arrival>)
    requires arrivals != []
    ensures After(s, w, arrivals) == After(s, Next(s, w, arrivals[0]), arrivals[1..])
    ensures Quiet(s, w, arrivals) <==> Outcome(s, w, arrivals[0]) == None && Quiet(s, Next(s, w, arrivals[0]), arrivals[1..])
    decreases |arrivals|
  {
    var n := |arrivals| - 1;
    hide Next, Outcome;
    if n == 0 {
      assert arrivals[..0] == [];
    } else {
      AfterHead(s, w, arrivals[..n]);
      assert arrivals[..n][1..] == arrivals[1..][..n - 1];
      assert arrivals[1..][n - 1] == arrivals[n];
    }
  }

  ghost predicate Ends(s: Setup, w: Wait, arrivals: seq<Arrival>, output: Output) {
    exists n: nat :: EndsAt(s, w, arrivals, n, output)
  }

  /** A wait ends with the first arrival that is an outcome, and goes on while there is none. */
  lemma {:induction false} RunEnds(s: Setup, w: Wait, arrivals: seq<Arrival>)
    ensures var r := Run(s, w, arrivals); if r == None then Quiet(s, w, arrivals) else Ends(s, w, arrivals, r.value)
    decreases |arrivals|
  {
    if arrivals != [] {
      hide Outcome, Next;
      assert arrivals[..0] == [] && After(s, w, []) == w;
      var first := Outcome(s, w, arrivals[0]);
      if first.Some? {
        assert EndsAt(s, w, arrivals, 0, first.value);
        assert Ends(s, w, arrivals, first.value);
      } else {
        var w', rest := Next(s, w, arrivals[0]), arrivals[1..];
        RunEnds(s, w', rest);
        AfterHead(s, w, arrivals);
        if Run(s, w', rest).Some? {
          var output := Run(s, w', rest).value;
          var n: nat :| EndsAt(s, w', rest, n, output);
          AfterHead(s, w, arrivals[..n + 1]);
          assert arrivals[..n + 1][1..] == rest[..n] && arrivals[..n + 1][0] == arrivals[0];
          hide Quiet, After;
          assert EndsAt(s, w, arrivals, n + 1, output);
        }
      }
    }
  }

  // Why a wait may report a match: the digits are those since the leg's last reset, the rule is the
  // first that equals them, and either no rule goes on from them, or the interdigit timeout is zero,
  // or the deadline has passed in silence.
  ghost predicate Justified(s: Setup, w: Wait, before: seq<Arrival>, last: Arrival, leg: nat, digits: Text, pattern: Text, name: Text) {
    var rules := s.options.rules;
    && pattern == digits && digits != [] && FirstRule(rules, digits) == Some(Rule(pattern, name))
    && match last
       case Arrive(g, e) =>
         && g == leg && e.Dtmf? && digits == Since(rules, DigitsOn(before, leg)) + e.digits
         && (!Extends(rules, digits) || s.options.interdigitMs == 0)
       case Clock(now) =>
         now >= After(s, w, before).deadline && leg in s.live && digits == Since(rules, DigitsOn(before, leg))
  }

  lemma EventJustified(s: Setup, w: Wait, before: seq<Arrival>, leg: nat, e: Event, m: Output)
    requires !s.options.multi && Quiet(s, w, before) && DigitsOf(w, leg) == []
    requires Outcome(s, After(s, w, before), Arrive(leg, e)) == Some(m) && m.Matched?
    ensures Justified(s, w, before, Arrive(leg, e), m.leg, m.digits, m.pattern, m.name)
  {
    BufferIsSince(s, w, before, leg);
    hide After, Quiet, Since, DigitsOn, Extends, Live;
    FirstRuleMeans(s.options.rules, m.digits);
  }

  lemma ClockJustified(s: Setup, w: Wait, before: seq<Arrival>, now: nat, m: Output)
    requires !s.options.multi && Quiet(s, w, before) && w.digits == map[]
    requires Outcome(s, After(s, w, before), Clock(now)) == Some(m) && m.Matched?
    ensures Justified(s, w, before, Clock(now), m.leg, m.digits, m.pattern, m.name)
  {
    var w' := After(s, w, before);
    FinalizeMeans(s.live, w', s.options);
    BufferIsSince(s, w, before, m.leg);
    hide After, Quiet, Since, DigitsOn, Finalize;
    FirstRuleMeans(s.options.rules, m.digits);
  }

  /** With multi-digit fallback off, every match a wait reports is justified. */
  lemma MatchIsJustified(s: Setup, now: nat, timeoutMs: nat, arrivals: seq<Arrival>)
    requires !s.options.multi
    requires var r := Run(s, Start(now, timeoutMs), arrivals); r.Some? && r.value.Matched?
    ensures var w, m := Start(now, timeoutMs), Run(s, Start(now, timeoutMs), arrivals).value;
            exists n: nat :: n < |arrivals| && Quiet(s, w, arrivals[..n])
                       && Justified(s, w, arrivals[..n], arrivals[n], m.leg, m.digits, m.pattern, m.name)
  {
    var w := Start(now, timeoutMs);
    RunEnds(s, w, arrivals);
    var m := Run(s, w, arrivals).value;
    var n: nat :| EndsAt(s, w, arrivals, n, m);
    hide Quiet, Run, Justified, Outcome, After;
    match arrivals[n]
    case Arrive(leg, e) => EventJustified(s, w, arrivals[..n], leg, e, m);
    case Clock(at) => ClockJustified(s, w, arrivals[..n], at, m);
  }

  // Silence takes the legs in order, and the first that has something to say speaks.
  lemma {:induction false} FinalizeMeans(live: seq<nat>, w: Wait, o: Options)
    ensures match Finalize(live, w, o)
            case None => forall i :: 0 <= i < |live| ==> FinalizeDigits(live[i], DigitsOf(w, live[i]), o) == None
            case Some(output) =>
              exists i :: 0 <= i < |live| && FinalizeDigits(live[i], DigitsOf(w, live[i]), o) == Some(output)
                    && forall j :: 0 <= j < i ==> FinalizeDigits(live[j], DigitsOf(w, live[j]), o) == None
    decreases |live|
  {
    hide FinalizeDigits, DigitsOf;
    if live != [] && FinalizeDigits(live[0], DigitsOf(w, live[0]), o) == None {
      FinalizeMeans(live[1..], w, o);
      if Finalize(live, w, o).Some? {
        var output := Finalize(live, w, o).value;
        var i :| 0 <= i < |live[1..]| && FinalizeDigits(live[1..][i], DigitsOf(w, live[1..][i]), o) == Some(output)
               && forall j :: 0 <= j < i ==> FinalizeDigits(live[1..][j], DigitsOf(w, live[1..][j]), o) == None;
        assert live[i + 1] == live[1..][i];
        forall j | 0 <= j < i + 1 ensures FinalizeDigits(live[j], DigitsOf(w, live[j]), o) == None {
          assert j > 0 ==> live[j] == live[1..][j - 1];
        }
      } else {
        forall i | 0 <= i < |live| ensures FinalizeDigits(live[i], DigitsOf(w, live[i]), o) == None {
          assert i > 0 ==> live[i] == live[1..][i - 1];
        }
      }
    }
  }

  // ---- Every rule can be typed ----

  // Pieces of digits, none empty, all on one leg.
  ghost predicate Typed(arrivals: seq<Arrival>, leg: nat) {
    forall i :: 0 <= i < |arrivals| ==>
      arrivals[i].Arrive? && arrivals[i].leg == leg && arrivals[i].event.Dtmf? && arrivals[i].event.digits != []
  }

  function TypedText(arrivals: seq<Arrival>, leg: nat): Text { Join(DigitsOn(arrivals, leg)) }

  // What was typed so far is a rule that is reported at once.
  predicate Immediate(o: Options, typed: Text) {
    FirstRule(o.rules, typed).Some? && (!Extends(o.rules, typed) || o.interdigitMs == 0)
  }

  lemma TypedNext(arrivals: seq<Arrival>, leg: nat)
    requires Typed(arrivals, leg) && arrivals != []
    ensures var n := |arrivals| - 1;
            TypedText(arrivals, leg) == TypedText(arrivals[..n], leg) + arrivals[n].event.digits
  {
    JoinLast(DigitsOn(arrivals[..|arrivals| - 1], leg), arrivals[|arrivals| - 1].event.digits);
  }

  lemma {:induction false} TypedGrows(arrivals: seq<Arrival>, leg: nat, n: nat)
    requires Typed(arrivals, leg) && n < |arrivals|
    ensures TypedText(arrivals[..n], leg) < TypedText(arrivals, leg)
    decreases |arrivals|
  {
    var m := |arrivals| - 1;
    TypedNext(arrivals, leg);
    if n < m {
      TypedGrows(arrivals[..m], leg, n);
      assert arrivals[..m][..n] == arrivals[..n];
    }
  }

  lemma LiveBefore(rules: seq<Rule>, t: Text, p: Text)
    requires Live(rules, p) && t <= p
    ensures Live(rules, t)
  {
    var i :| 0 <= i < |rules| && p <= rules[i].pattern;
    assert t <= rules[i].pattern;
  }

  // Typing towards a rule, with nothing reported on the way.
  lemma {:induction false} Typing(s: Setup, w: Wait, leg: nat, arrivals: seq<Arrival>, p: Text)
    requires !s.options.multi && DigitsOf(w, leg) == [] && Typed(arrivals, leg)
    requires Live(s.options.rules, p) && TypedText(arrivals, leg) <= p
    requires forall n :: 0 < n <= |arrivals| ==> !Immediate(s.options, TypedText(arrivals[..n], leg))
    ensures Quiet(s, w, arrivals) && DigitsOf(After(s, w, arrivals), leg) == TypedText(arrivals, leg)
    decreases |arrivals|
  {
    if arrivals != [] {
      var n := |arrivals| - 1;
      var before := arrivals[..n];
      TypedNext(arrivals, leg);
      assert forall m :: 0 <= m <= n ==> before[..m] == arrivals[..m];
      assert arrivals[..n + 1] == arrivals;
      Typing(s, w, leg, before, p);
      var t := TypedText(arrivals, leg);
      LiveBefore(s.options.rules, t, p);
      hide TypedText, Extends, Live, FirstRule, After;
      SingleDigits(leg, t, arrivals[n].event.at, s.options);
    }
  }

  // The text typed is a rule no sooner than its last piece, or sooner but only on the way to a longer one.
  ghost predicate FirstStop(o: Options, arrivals: seq<Arrival>, leg: nat) {
    forall n :: 0 < n < |arrivals| ==> !Immediate(o, TypedText(arrivals[..n], leg))
  }

  /** With multi-digit fallback off, typing a rule's pattern in any pieces on a leg without pending
      digits reports that pattern if and only if no shorter part typed on the way is reported at
      once and no other rule goes on from the pattern (or the interdigit timeout is zero). */
  lemma RuleIsReported(s: Setup, w: Wait, leg: nat, arrivals: seq<Arrival>, p: Text)
    requires !s.options.multi && DigitsOf(w, leg) == [] && Typed(arrivals, leg)
    requires FirstRule(s.options.rules, p).Some? && TypedText(arrivals, leg) == p
    ensures Run(s, w, arrivals) == Some(Match(leg, p, FirstRule(s.options.rules, p).value))
       <==> FirstStop(s.options, arrivals, leg) && Immediate(s.options, p)
  {
    FirstRuleMeans(s.options.rules, p);
    assert Live(s.options.rules, p);
    assert p != [];
    var k := FirstReport(s, w, leg, arrivals, p, 1);
    if k < |arrivals| {
      TypedGrows(arrivals, leg, k);
    }
    assert arrivals[..|arrivals|] == arrivals;
  }

  // The first part typed that is reported, or one more than there are.
  lemma {:induction false} FirstReport(s: Setup, w: Wait, leg: nat, arrivals: seq<Arrival>, p: Text, from: nat) returns (k: nat)
    requires !s.options.multi && DigitsOf(w, leg) == [] && Typed(arrivals, leg) && 1 <= from <= |arrivals| + 1
    requires Live(s.options.rules, p) && TypedText(arrivals, leg) == p
    requires forall n :: 0 < n < from ==> !Immediate(s.options, TypedText(arrivals[..n], leg))
    ensures from <= k <= |arrivals| + 1
    ensures forall n :: 0 < n < k ==> !Immediate(s.options, TypedText(arrivals[..n], leg))
    ensures if k == |arrivals| + 1 then Run(s, w, arrivals) == None
            else var t := TypedText(arrivals[..k], leg);
                 Immediate(s.options, t) && Run(s, w, arrivals) == Some(Match(leg, t, FirstRule(s.options.rules, t).value))
    decreases |arrivals| + 1 - from
  {
    if from == |arrivals| + 1 {
      k := from;
      Typing(s, w, leg, arrivals, p);
      RunQuiet(s, w, arrivals);
    } else if Immediate(s.options, TypedText(arrivals[..from], leg)) {
      k := from;
      StopsHere(s, w, leg, arrivals, p, from);
    } else {
      k := FirstReport(s, w, leg, arrivals, p, from + 1);
    }
  }

  lemma ReportsAtOnce(s: Setup, w: Wait, leg: nat, e: Event, t: Text)
    requires e.Dtmf? && DigitsOf(w, leg) + e.digits == t && Immediate(s.options, t)
    ensures Outcome(s, w, Arrive(leg, e)) == Some(Match(leg, t, FirstRule(s.options.rules, t).value))
  {
    hide Live, Extends, FirstRule;
  }

  // Up to the piece before, the wait has gone on and the leg holds what was typed.
  lemma TypedBefore(s: Setup, w: Wait, leg: nat, arrivals: seq<Arrival>, p: Text, k: nat)
    requires !s.options.multi && DigitsOf(w, leg) == [] && Typed(arrivals, leg) && k < |arrivals|
    requires Live(s.options.rules, p) && TypedText(arrivals, leg) == p
    requires forall n :: 0 < n <= k ==> !Immediate(s.options, TypedText(arrivals[..n], leg))
    ensures Quiet(s, w, arrivals[..k])
    ensures DigitsOf(After(s, w, arrivals[..k]), leg) + arrivals[k].event.digits == TypedText(arrivals[..k + 1], leg)
  {
    var before, upTo := arrivals[..k], arrivals[..k + 1];
    assert Typed(before, leg) && Typed(upTo, leg);
    hide TypedText, Typed, Immediate, Live, Quiet, After, DigitsOf;
    forall m | 0 <= m <= k ensures before[..m] == arrivals[..m] {
      SliceOfTake(arrivals, k, 0, m);
    }
    TypedGrows(arrivals, leg, k);
    assert upTo[..k] == before && upTo[k] == arrivals[k];
    TypedNext(upTo, leg);
    Typing(s, w, leg, before, p);
  }

  lemma StopsHere(s: Setup, w: Wait, leg: nat, arrivals: seq<Arrival>, p: Text, k: nat)
    requires !s.options.multi && DigitsOf(w, leg) == [] && Typed(arrivals, leg) && 1 <= k <= |arrivals|
    requires Live(s.options.rules, p) && TypedText(arrivals, leg) == p
    requires forall n :: 0 < n < k ==> !Immediate(s.options, TypedText(arrivals[..n], leg))
    requires Immediate(s.options, TypedText(arrivals[..k], leg))
    ensures var t := TypedText(arrivals[..k], leg);
            Run(s, w, arrivals) == Some(Match(leg, t, FirstRule(s.options.rules, t).value))
  {
    var t, a := TypedText(arrivals[..k], leg), arrivals[k - 1];
    TypedBefore(s, w, leg, arrivals, p, k - 1);
    assert a == Arrive(leg, a.event) && a.event.Dtmf?;
    hide TypedText, Typed, Quiet, After, Live, Extends, Run, FirstRule, DigitsOf, Outcome;
    ReportsAtOnce(s, After(s, w, arrivals[..k - 1]), leg, a.event, t);
    RunStops(s, w, arrivals, k - 1);
  }

  lemma {:induction false} RunQuiet(s: Setup, w: Wait, arrivals: seq<Arrival>)
    requires Quiet(s, w, arrivals)
    ensures Run(s, w, arrivals) == None
    decreases |arrivals|
  {
    if arrivals != [] {
      AfterHead(s, w, arrivals);
      RunQuiet(s, Next(s, w, arrivals[0]), arrivals[1..]);
    }
  }

  lemma {:induction false} RunStops(s: Setup, w: Wait, arrivals: seq<Arrival>, n: nat)
    requires n < |arrivals| && Quiet(s, w, arrivals[..n]) && Outcome(s, After(s, w, arrivals[..n]), arrivals[n]).Some?
    ensures Run(s, w, arrivals) == Outcome(s, After(s, w, arrivals[..n]), arrivals[n])
    decreases |arrivals|
  {
    if n == 0 {
      assert arrivals[..0] == [];
    } else {
      AfterHead(s, w, arrivals[..n]);
      assert arrivals[..n][1..] == arrivals[1..][..n - 1] && arrivals[..n][0] == arrivals[0];
      hide Outcome, Next, After, Quiet;
      RunStops(s, Next(s, w, arrivals[0]), arrivals[1..], n - 1);
    }
  }

  // Typing on one leg leaves what the others have typed.
  lemma {:induction false} OthersKeepDigits(s: Setup, w: Wait, leg: nat, arrivals: seq<Arrival>)
    requires Typed(arrivals, leg)
    ensures forall l: nat :: l != leg ==> DigitsOf(After(s, w, arrivals), l) == DigitsOf(w, l)
    decreases |arrivals|
  {
    hide ProcessEvent;
    if arrivals != [] {
      OthersKeepDigits(s, w, leg, arrivals[..|arrivals| - 1]);
    }
  }

  // Silence reports a leg's own digits, and only for the first leg that has something to say.
  lemma {:induction false} SilenceAt(live: seq<nat>, w: Wait, o: Options, k: nat)
    requires k < |live| && live[k] !in live[..k] && FinalizeDigits(live[k], DigitsOf(w, live[k]), o).Some?
    ensures Finalize(live, w, o) == FinalizeDigits(live[k], DigitsOf(w, live[k]), o)
       <==> forall j :: 0 <= j < k ==> FinalizeDigits(live[j], DigitsOf(w, live[j]), o) == None
    decreases k
  {
    hide DigitsOf;
    if k > 0 {
      assert live[0] in live[..k] && live[..k] == [live[0]] + live[1..][..k - 1];
      ReportsItself(live[0], DigitsOf(w, live[0]), o);
      ReportsItself(live[k], DigitsOf(w, live[k]), o);
      hide FinalizeDigits;
      SilenceAt(live[1..], w, o, k - 1);
      assert forall j :: 1 <= j < k ==> live[j] == live[1..][j - 1];
    }
  }

  lemma ReportsItself(leg: nat, digits: Text, o: Options)
    ensures var r := FinalizeDigits(leg, digits, o); r.Some? ==> r.value.leg == leg
  {
    hide EndsWith, FirstRule;
  }

  /** With a positive interdigit timeout no shorter rule gets in the way: a pattern no rule goes on
      from is reported with its last piece; any other waits, and silence reports it if and only if no
      leg asked before has anything to report. */
  lemma EveryRuleCanBeTyped(s: Setup, w: Wait, leg: nat, arrivals: seq<Arrival>, p: Text, now: nat, k: nat)
    requires !s.options.multi && s.options.interdigitMs > 0 && DigitsOf(w, leg) == [] && Typed(arrivals, leg)
    requires FirstRule(s.options.rules, p).Some? && TypedText(arrivals, leg) == p
    requires k < |s.live| && s.live[k] == leg && leg !in s.live[..k]
    ensures var m := Some(Match(leg, p, FirstRule(s.options.rules, p).value));
            if !Extends(s.options.rules, p) then Run(s, w, arrivals) == m
            else
              && Quiet(s, w, arrivals)
              && (now >= After(s, w, arrivals).deadline ==>
                    (Outcome(s, After(s, w, arrivals), Clock(now)) == m
                     <==> forall j :: 0 <= j < k ==> FinalizeDigits(s.live[j], DigitsOf(w, s.live[j]), s.options) == None))
  {
    var rules := s.options.rules;
    ShorterWait(s, leg, arrivals, p);
    hide TypedText, Live, Typed;
    if !Extends(rules, p) {
      RuleIsReported(s, w, leg, arrivals, p);
    } else {
      assert arrivals[..|arrivals|] == arrivals;
      Typing(s, w, leg, arrivals, p);
      var w' := After(s, w, arrivals);
      assert DigitsOf(w', leg) == p;
      OthersKeepDigits(s, w, leg, arrivals);
      assert FinalizeDigits(leg, p, s.options) == Some(Match(leg, p, FirstRule(rules, p).value));
      assert forall j :: 0 <= j < k ==> s.live[..k][j] == s.live[j] && s.live[j] != leg;
      SilenceAt(s.live, w', s.options, k);
      ReportsItself(leg, p, s.options);
    }
  }

  // No part typed on the way is reported at once, since the whole goes on from it.
  lemma ShorterWait(s: Setup, leg: nat, arrivals: seq<Arrival>, p: Text)
    requires s.options.interdigitMs > 0 && Typed(arrivals, leg)
    requires FirstRule(s.options.rules, p).Some? && TypedText(arrivals, leg) == p
    ensures p != [] && Live(s.options.rules, p)
    ensures forall n :: 0 < n < |arrivals| ==> !Immediate(s.options, TypedText(arrivals[..n], leg))
  {
    var rules := s.options.rules;
    FirstRuleMeans(rules, p);
    var i :| 0 <= i < |rules| && rules[i].pattern == p;
    forall n | 0 < n < |arrivals| ensures !Immediate(s.options, TypedText(arrivals[..n], leg)) {
      TypedGrows(arrivals, leg, n);
      assert TypedText(arrivals[..n], leg) < rules[i].pattern;
      assert Extends(rules, TypedText(arrivals[..n], leg));
    }
  }

  // ---- With multi-digit fallback on ----

  lemma NextHasNoTerminator(s: Setup, w: Wait, a: Arrival, leg: nat)
    requires s.options.multi && s.options.terminator != [] && Outcome(s, w, a) == None
    requires !EndsWith(DigitsOf(w, leg), s.options.terminator)
    ensures !EndsWith(DigitsOf(Next(s, w, a), leg), s.options.terminator)
  {
    hide Live, Extends, FirstRule, Finalize;
  }

  /** A terminator never waits in a leg's digits, so silence never has to strip one. */
  lemma {:induction false} TerminatorNeverWaits(s: Setup, w: Wait, arrivals: seq<Arrival>, leg: nat)
    requires s.options.multi && s.options.terminator != [] && Quiet(s, w, arrivals)
    requires !EndsWith(DigitsOf(w, leg), s.options.terminator)
    ensures var digits, o := DigitsOf(After(s, w, arrivals), leg), s.options;
            && !EndsWith(digits, o.terminator)
            && FinalizeDigits(leg, digits, o) == FinalizeDigits(leg, digits, o.(multi := false))
    decreases |arrivals|
  {
    hide EndsWith, DigitsOf, Next, Outcome;
    if arrivals != [] {
      var n := |arrivals| - 1;
      TerminatorNeverWaits(s, w, arrivals[..n], leg);
      NextHasNoTerminator(s, After(s, w, arrivals[..n]), arrivals[n], leg);
    }
  }

  // ---- The deadline ----

  // An event after which its leg waits for more digits.
  predicate Awaits(s: Setup, w: Wait, a: Arrival) {
    a.Arrive? && ProcessEvent(a.leg, DigitsOf(w, a.leg), a.event, s.options).more
  }

  // The last awaiting event is number i - 1, or there is none and i is zero.
  ghost predicate LastAwaiting(s: Setup, w: Wait, arrivals: seq<Arrival>, i: nat) {
    && i <= |arrivals|
    && (i > 0 ==> Awaits(s, After(s, w, arrivals[..i - 1]), arrivals[i - 1]))
    && forall j :: i <= j < |arrivals| ==> !Awaits(s, After(s, w, arrivals[..j]), arrivals[j])
  }

  lemma DeadlineNext(s: Setup, w: Wait, a: Arrival)
    requires a.Arrive? && a.event.Dtmf? ==> a.event.at > 0
    ensures Awaits(s, w, a) ==> a.event.Dtmf? && Next(s, w, a).deadline == a.event.at + s.options.interdigitMs
    ensures !Awaits(s, w, a) ==> Next(s, w, a).deadline == w.deadline
  {
  }

  /** The deadline of a wait is its timeout until some event leaves its leg waiting for more digits,
      and from then on the interdigit timeout after the last such event, whatever time was left. */
  lemma {:induction false} DeadlineMeans(s: Setup, w: Wait, arrivals: seq<Arrival>) returns (i: nat)
    requires forall j :: 0 <= j < |arrivals| && arrivals[j].Arrive? && arrivals[j].event.Dtmf? ==> arrivals[j].event.at > 0
    ensures LastAwaiting(s, w, arrivals, i)
    ensures i > 0 ==> arrivals[i - 1].Arrive? && arrivals[i - 1].event.Dtmf?
    ensures After(s, w, arrivals).deadline == if i == 0 then w.deadline else arrivals[i - 1].event.at + s.options.interdigitMs
    decreases |arrivals|
  {
    i := 0;
    if arrivals != [] {
      var n := |arrivals| - 1;
      var before, w' := arrivals[..n], After(s, w, arrivals[..n]);
      i := DeadlineMeans(s, w, before);
      DeadlineNext(s, w', arrivals[n]);
      assert After(s, w, arrivals) == Next(s, w', arrivals[n]);
      hide Awaits, Next, After;
      if Awaits(s, w', arrivals[n]) {
        i := |arrivals|;
      } else {
        AwaitingBefore(s, w, arrivals, i);
      }
    }
  }

  lemma AwaitingBefore(s: Setup, w: Wait, arrivals: seq<Arrival>, i: nat)
    requires arrivals != [] && LastAwaiting(s, w, arrivals[..|arrivals| - 1], i)
    requires !Awaits(s, After(s, w, arrivals[..|arrivals| - 1]), arrivals[|arrivals| - 1])
    ensures LastAwaiting(s, w, arrivals, i)
  {
    hide Awaits, After;
    var before := arrivals[..|arrivals| - 1];
    assert forall j :: 0 <= j < |arrivals| ==> before[..j] == arrivals[..j];
  }

  /** So digits that come to nothing can end a wait early: 1 begins the only rule 12, 9 resets it,
      and a wait of half a minute is over one second after the 1. */
  lemma AbandonedDigitsShortenTheWait()
    ensures var o := Options([Rule([0x31, 0x32], [0x78])], 1000, {}, false, false, []);
            var typed := [Arrive(0, Dtmf([0x31], 100)), Arrive(0, Dtmf([0x39], 200)), Clock(1100)];
            Run(Setup(0, [0], o), Start(0, 30000), typed) == Some(TimedOut(0))
  {
    var rules: seq<Rule> := [Rule([0x31, 0x32], [0x78])];
    var o := Options(rules, 1000, {}, false, false, []);
    var one: Text, other: Text := [0x31], [0x31, 0x39];
    assert one < rules[0].pattern;
    assert Live(rules, one) && FirstRule(rules, one) == None;
    assert other[1] != rules[0].pattern[1];
    assert !Live(rules, other) && FirstRule(rules, other) == None;
    var s := Setup(0, [0], o);
    var w0 := Start(0, 30000);
    assert [] + one == one && one + [0x39] == other;
    var w1 := Next(s, w0, Arrive(0, Dtmf([0x31], 100)));
    assert w1 == Wait(map[0 := one], map[0 := 100], 1100);
    var w2 := Next(s, w1, Arrive(0, Dtmf([0x39], 200)));
    assert w2.deadline == 1100 && DigitsOf(w2, 0) == [];
    assert Outcome(s, w2, Clock(1100)) == Some(TimedOut(0));
  }
}

module LegWaiting {
  import opened JsText
  import opened LegWaitSpec

  // Silence asks each leg in turn.
  method FinalizeAll(live: seq<nat>, w: Wait, o: Options) returns (output: Option<Output>)
    ensures output == Finalize(live, w, o)
  {
    var i := 0;
    while i < |live|
      invariant 0 <= i <= |live| && Finalize(live, w, o) == Finalize(live[i..], w, o)
    {
      output := FinalizeDigits(live[i], DigitsOf(w, live[i]), o);
      if output.Some? {
        return;
      }
      i := i + 1;
    }
    return None;
  }

  /** The waiting loop over all that arrives; None when the arrivals run out before an outcome. */
  method WaitForEvent(s: Setup, start: nat, timeoutMs: nat, arrivals: seq<Arrival>) returns (output: Option<Output>)
    ensures output == Run(s, Start(start, timeoutMs), arrivals)
  {
    var digits: map<nat, Text>, lastAt: map<nat, nat> := map[], map[];
    var deadline: nat := start + timeoutMs;
    var i := 0;
    while i < |arrivals|
      invariant 0 <= i <= |arrivals|
      invariant Run(s, Start(start, timeoutMs), arrivals) == Run(s, Wait(digits, lastAt, deadline), arrivals[i..])
    {
      var a := arrivals[i];
      ghost var w := Wait(digits, lastAt, deadline);
      assert arrivals[i..][0] == a && arrivals[i..][1..] == arrivals[i + 1..];
      match a {
        case Arrive(leg, e) =>
          var result := ProcessEvent(leg, if leg in digits then digits[leg] else [], e, s.options);
          if result.output.Some? {
            return result.output;
          }
          digits := digits[leg := result.digits];
          lastAt := lastAt[leg := if result.lastDigitAt != 0 then result.lastDigitAt else if leg in lastAt then lastAt[leg] else 0];
          if result.more && s.options.interdigitMs > 0 && lastAt[leg] > 0 {
            deadline := lastAt[leg] + s.options.interdigitMs;
          }
        case Clock(now) =>
          if now >= deadline {
            output := FinalizeAll(s.live, Wait(digits, lastAt, deadline), s.options);
            if output == None {
              output := Some(TimedOut(s.first));
            }
            return;
          }
      }
      assert Wait(digits, lastAt, deadline) == Next(s, w, a);
      i := i + 1;
    }
    return None;
  }
}
