/** Debouncing of digits heard in the audio: which tones count as key presses. */
module InbandDtmfSpec {

  type Digit = c: char | c in "0123456789ABCD*#" witness '0'

  datatype Option<+T> = None | Some(value: T)

  // Milliseconds.
  const MIN_FRAME := 10.0
  const MIN_START := 40.0
  const MIN_END := 40.0
  const SUPPRESS := 500.0

  // One call: audio with the digit its spectrum shows, or word of a digit signalled out of band.
  datatype Input = Frame(tone: Option<Digit>, duration: real, now: real) | External(now: real)

  // A frame lasts at least one millisecond, and clocks do not show negative times.
  ghost predicate Timed(h: seq<Input>) {
    forall i :: 0 <= i < |h| && h[i].Frame? ==> h[i].duration >= 1.0 && h[i].now >= 0.0
  }

  // Too short a frame shows nothing.
  function Heard(f: Input): Option<Digit> {
    if f.External? || f.duration < MIN_FRAME then None else f.tone
  }

  datatype Detector = Detector(
    candidate: Option<Digit>, candidateFor: real, active: Option<Digit>, gap: real, suppressUntil: real)

  const FRESH: Detector := Detector(None, 0.0, None, 0.0, 0.0)

  function Max(a: real, b: real): real { if a < b then b else a }

  function Cleared(d: Detector): Detector { Detector(None, 0.0, None, 0.0, d.suppressUntil) }

  function Feed(d: Detector, f: Input): Detector
    requires f.Frame?
  {
    var digit := Heard(f);
    if d.suppressUntil > f.now then Cleared(d)
    else if d.active.Some? then
      if digit == d.active then d.(gap := 0.0)
      else if d.gap + f.duration < MIN_END then d.(gap := d.gap + f.duration)
      else Detector(digit, if digit.Some? then f.duration else 0.0, None, 0.0, d.suppressUntil)
    else if digit == None then d.(candidate := None, candidateFor := 0.0)
    else
      var lasted := if digit == d.candidate then d.candidateFor + f.duration else f.duration;
      if lasted >= MIN_START then d.(candidate := digit, candidateFor := lasted, active := digit, gap := 0.0)
      else d.(candidate := digit, candidateFor := lasted)
  }

  // The digit a frame completes.
  function Emits(d: Detector, f: Input): Option<Digit> {
    if f.External? || d.suppressUntil > f.now || Heard(f) == d.active || d.gap + f.duration < MIN_END then None
    else d.active
  }

  function Next(d: Detector, i: Input): Detector {
    if i.Frame? then Feed(d, i) else Cleared(d.(suppressUntil := Max(d.suppressUntil, i.now + SUPPRESS)))
  }

  function After(h: seq<Input>): Detector
    decreases |h|
  {
    if h == [] then FRESH else Next(After(h[..|h| - 1]), h[|h| - 1])
  }

  // The digit reported by call e of a history.
  function EmittedAt(h: seq<Input>, e: nat): Option<Digit>
    requires e < |h|
  {
    Emits(After(h[..e]), h[e])
  }

  // ---- What counts as a press ----

  function Length(h: seq<Input>, lo: nat, hi: nat): real
    requires lo <= hi <= |h|
    decreases hi
  {
    if lo == hi then 0.0 else Length(h, lo, hi - 1) + (if h[hi - 1].Frame? then h[hi - 1].duration else 0.0)
  }

  // A frame counts unless a digit signalled out of band silences it.
  ghost predicate Counts(h: seq<Input>, i: nat)
    requires i < |h|
  {
    h[i].Frame? && forall k :: 0 <= k < i && h[k].External? ==> h[k].now + SUPPRESS <= h[i].now
  }

  ghost predicate AllCount(h: seq<Input>, lo: nat, hi: nat)
    requires hi <= |h|
  {
    forall i :: lo <= i < hi ==> Counts(h, i)
  }

  // Every frame counts and shows the digit.
  ghost predicate Tone(h: seq<Input>, lo: nat, hi: nat, digit: Digit)
    requires hi <= |h|
  {
    forall i :: lo <= i < hi ==> Counts(h, i) && Heard(h[i]) == Some(digit)
  }

  // Every frame counts and none shows the digit.
  ghost predicate Gap(h: seq<Input>, lo: nat, hi: nat, digit: Digit)
    requires hi <= |h|
  {
    forall i :: lo <= i < hi ==> Counts(h, i) && Heard(h[i]) != Some(digit)
  }

  // An unbroken tone of at least 40 ms, then no out-of-band word, and since `quiet` an unbroken gap.
  ghost predicate Press(h: seq<Input>, start: nat, held: nat, quiet: nat, hi: nat, digit: Digit) {
    && start < held <= quiet <= hi <= |h|
    && Tone(h, start, held, digit) && Length(h, start, held) >= MIN_START
    && AllCount(h, held, quiet) && Heard(h[quiet - 1]) == Some(digit)
    && Gap(h, quiet, hi, digit)
  }

  // ---- What the fields mean ----

  ghost predicate CandidateOk(h: seq<Input>, d: Detector) {
    match d.candidate
    case None => true
    case Some(digit) =>
      d.active == None ==> exists lo: nat :: lo < |h| && Tone(h, lo, |h|, digit) && Length(h, lo, |h|) == d.candidateFor
  }

  ghost predicate ActiveOk(h: seq<Input>, d: Detector) {
    match d.active
    case None => true
    case Some(digit) =>
      && 0.0 <= d.gap < MIN_END
      && exists start: nat, held: nat, quiet: nat :: Press(h, start, held, quiet, |h|, digit) && Length(h, quiet, |h|) == d.gap
  }

  // From suppressUntil on, and never before it, frames count again.
  ghost predicate SuppressOk(h: seq<Input>, d: Detector) {
    && (forall k :: 0 <= k < |h| && h[k].External? ==> h[k].now + SUPPRESS <= d.suppressUntil)
    && (d.suppressUntil == 0.0 || exists k :: 0 <= k < |h| && h[k].External? && h[k].now + SUPPRESS == d.suppressUntil)
  }

  // ---- A longer history says the same of its beginning ----

  lemma {:induction false} LengthPrefix(h: seq<Input>, i: Input, lo: nat, hi: nat)
    requires lo <= hi <= |h|
    ensures Length(h + [i], lo, hi) == Length(h, lo, hi)
    decreases hi
  {
    if lo < hi {
      LengthPrefix(h, i, lo, hi - 1);
    }
  }

  lemma CountsPrefix(h: seq<Input>, i: Input, k: nat)
    requires k < |h|
    ensures Counts(h + [i], k) == Counts(h, k) && (h + [i])[k] == h[k]
  {
    assert forall j :: 0 <= j < |h| ==> (h + [i])[j] == h[j];
  }

  lemma PressPrefix(h: seq<Input>, i: Input, start: nat, held: nat, quiet: nat, hi: nat, digit: Digit)
    requires Press(h, start, held, quiet, hi, digit)
    ensures Press(h + [i], start, held, quiet, hi, digit)
  {
    LengthPrefix(h, i, start, held);
    forall k: nat | k < |h| ensures Counts(h + [i], k) == Counts(h, k) && (h + [i])[k] == h[k] {
      CountsPrefix(h, i, k);
    }
    hide Counts;
  }

  lemma TonePrefix(h: seq<Input>, i: Input, lo: nat, digit: Digit)
    requires lo <= |h| && Tone(h, lo, |h|, digit)
    ensures Tone(h + [i], lo, |h|, digit)
  {
    forall k: nat | k < |h| ensures Counts(h + [i], k) == Counts(h, k) && (h + [i])[k] == h[k] {
      CountsPrefix(h, i, k);
    }
    hide Counts;
  }

  // Whether a new frame counts is what the detector tests.
  lemma CountsNow(h: seq<Input>, d: Detector, f: Input)
    requires SuppressOk(h, d) && f.Frame? && f.now >= 0.0
    ensures Counts(h + [f], |h|) <==> d.suppressUntil <= f.now
  {
    var g := h + [f];
    if d.suppressUntil != 0.0 {
      var k :| 0 <= k < |h| && h[k].External? && h[k].now + SUPPRESS == d.suppressUntil;
      assert g[k] == h[k];
    }
    assert forall k :: 0 <= k < |h| ==> g[k] == h[k];
  }

  // ---- Every history ----

  ghost predicate Inv(h: seq<Input>, d: Detector) {
    CandidateOk(h, d) && ActiveOk(h, d) && SuppressOk(h, d)
  }

  lemma SuppressNext(h: seq<Input>, d: Detector, i: Input)
    requires SuppressOk(h, d)
    ensures SuppressOk(h + [i], Next(d, i))
  {
    var g, d' := h + [i], Next(d, i);
    assert g[|h|] == i && forall k :: 0 <= k < |h| ==> g[k] == h[k];
    if d.suppressUntil != 0.0 {
      var k :| 0 <= k < |h| && h[k].External? && h[k].now + SUPPRESS == d.suppressUntil;
      assert g[k].External? && g[k].now + SUPPRESS == d.suppressUntil;
    }
  }

  // One more frame of a tone.
  lemma ToneGrows(h: seq<Input>, f: Input, lo: nat, digit: Digit)
    requires lo <= |h| && Tone(h, lo, |h|, digit) && f.Frame? && Heard(f) == Some(digit) && Counts(h + [f], |h|)
    ensures Tone(h + [f], lo, |h| + 1, digit) && Length(h + [f], lo, |h| + 1) == Length(h, lo, |h|) + f.duration
  {
    TonePrefix(h, f, lo, digit);
    LengthPrefix(h, f, lo, |h|);
    hide Counts;
  }

  // One more frame while a digit is held: its own tone again, or more of the gap.
  lemma PressGrows(h: seq<Input>, f: Input, start: nat, held: nat, quiet: nat, digit: Digit)
    requires Press(h, start, held, quiet, |h|, digit) && f.Frame? && Counts(h + [f], |h|)
    ensures Heard(f) == Some(digit) ==> Press(h + [f], start, held, |h| + 1, |h| + 1, digit)
    ensures Heard(f) != Some(digit) ==>
              && Press(h + [f], start, held, quiet, |h| + 1, digit)
              && Length(h + [f], quiet, |h| + 1) == Length(h, quiet, |h|) + f.duration
  {
    PressPrefix(h, f, start, held, quiet, |h|, digit);
    LengthPrefix(h, f, quiet, |h|);
    hide Counts;
  }

  lemma NextKeeps(h: seq<Input>, d: Detector, i: Input)
    requires Inv(h, d) && (i.Frame? ==> i.duration >= 1.0 && i.now >= 0.0)
    ensures Inv(h + [i], Next(d, i))
  {
    SuppressNext(h, d, i);
    if i.Frame? && d.suppressUntil <= i.now {
      CountsNow(h, d, i);
      hide SuppressOk;
      if d.active.Some? {
        HeldKeeps(h, d, i);
      } else {
        IdleKeeps(h, d, i);
      }
    }
  }

  lemma HeldKeeps(h: seq<Input>, d: Detector, f: Input)
    requires ActiveOk(h, d) && f.Frame? && f.duration >= 1.0 && d.suppressUntil <= f.now && d.active.Some?
    requires Counts(h + [f], |h|)
    ensures CandidateOk(h + [f], Feed(d, f)) && ActiveOk(h + [f], Feed(d, f))
  {
    var g, d' := h + [f], Feed(d, f);
    var digit := d.active.value;
    var start: nat, held: nat, quiet: nat :| Press(h, start, held, quiet, |h|, digit) && Length(h, quiet, |h|) == d.gap;
    PressGrows(h, f, start, held, quiet, digit);
    if d'.candidate.Some? && d'.active == None {
      ToneGrows(h, f, |h|, d'.candidate.value);
    }
    hide Press, Counts;
    if d'.active.Some? && Heard(f) == d.active {
      assert Length(g, |g|, |g|) == 0.0;
    }
  }

  lemma IdleKeeps(h: seq<Input>, d: Detector, f: Input)
    requires CandidateOk(h, d) && f.Frame? && f.duration >= 1.0 && d.suppressUntil <= f.now && d.active == None
    requires Counts(h + [f], |h|)
    ensures CandidateOk(h + [f], Feed(d, f)) && ActiveOk(h + [f], Feed(d, f))
  {
    var g, d' := h + [f], Feed(d, f);
    if Heard(f).Some? {
      var digit := Heard(f).value;
      var lo: nat := |h|;
      if Heard(f) == d.candidate {
        var from: nat :| from < |h| && Tone(h, from, |h|, digit) && Length(h, from, |h|) == d.candidateFor;
        lo := from;
      }
      ToneGrows(h, f, lo, digit);
      assert Tone(g, lo, |g|, digit) && Length(g, lo, |g|) == d'.candidateFor;
      hide Tone, Counts;
      if d'.active.Some? {
        StartsPress(g, lo, digit);
      }
    }
  }

  lemma StartsPress(g: seq<Input>, lo: nat, digit: Digit)
    requires lo < |g| && Tone(g, lo, |g|, digit) && Length(g, lo, |g|) >= MIN_START
    ensures Press(g, lo, |g|, |g|, |g|, digit) && Length(g, |g|, |g|) == 0.0
  {
  }

  lemma {:induction false} RunKeeps(h: seq<Input>)
    requires Timed(h)
    ensures Inv(h, After(h))
    decreases |h|
  {
    if h != [] {
      var g, i := h[..|h| - 1], h[|h| - 1];
      RunKeeps(g);
      hide Inv, After, Next;
      NextKeeps(g, After(g), i);
      assert g + [i] == h;
      AfterLast(h);
    }
  }

  lemma AfterLast(h: seq<Input>)
    requires h != []
    ensures After(h) == Next(After(h[..|h| - 1]), h[|h| - 1])
  {
  }

  // A press that the last call of the history completes.
  ghost predicate Completes(h: seq<Input>, start: nat, held: nat, quiet: nat, digit: Digit) {
    && h != [] && quiet < |h| && Press(h, start, held, quiet, |h|, digit)
    && Length(h, quiet, |h| - 1) < MIN_END <= Length(h, quiet, |h|)
  }

  ghost predicate Pressed(h: seq<Input>, digit: Digit) {
    exists start: nat, held: nat, quiet: nat :: Completes(h, start, held, quiet, digit)
  }

  /** Every digit reported was pressed: an unbroken tone of at least 40 ms, no out-of-band word
      since, and with this very frame the unbroken gap after it reaches 40 ms. */
  lemma ReportedWasPressed(h: seq<Input>, e: nat)
    requires Timed(h) && e < |h| && EmittedAt(h, e).Some?
    ensures Pressed(h[..e + 1], EmittedAt(h, e).value)
  {
    var g, f, d := h[..e], h[e], After(h[..e]);
    RunKeeps(g);
    assert Inv(g, d);
    CountsNow(g, d, f);
    var digit := EmittedAt(h, e).value;
    var start: nat, held: nat, quiet: nat :| Press(g, start, held, quiet, |g|, digit) && Length(g, quiet, |g|) == d.gap;
    PressGrows(g, f, start, held, quiet, digit);
    LengthPrefix(g, f, quiet, e);
    assert g + [f] == h[..e + 1];
    assert Completes(h[..e + 1], start, held, quiet, digit);
  }

  // ---- Long enough presses are reported ----

  // How far an unbroken tone that has lasted so long has brought the detector.
  ghost predicate Rising(d: Detector, digit: Digit, lasted: real) {
    match d.active
    case Some(other) => (other == digit && (lasted == 0.0 || d.gap == 0.0)) || (other != digit && lasted <= d.gap < MIN_END)
    case None => lasted == 0.0 || (d.candidate == Some(digit) && lasted - MIN_END < d.candidateFor <= MIN_START)
  }

  lemma RisingNext(d: Detector, digit: Digit, lasted: real, f: Input)
    requires Rising(d, digit, lasted) && f.Frame? && Heard(f) == Some(digit) && d.suppressUntil <= f.now
    requires lasted >= 0.0 && d.candidateFor >= 0.0 && 1.0 <= f.duration <= MIN_START
    ensures Rising(Feed(d, f), digit, lasted + f.duration)
  {
  }

  // A history cut short.
  lemma {:induction false} LengthCut(h: seq<Input>, n: nat, lo: nat, hi: nat)
    requires lo <= hi <= n <= |h|
    ensures Length(h[..n], lo, hi) == Length(h, lo, hi)
    decreases hi
  {
    if lo < hi {
      LengthCut(h, n, lo, hi - 1);
    }
  }

  lemma CountsCut(h: seq<Input>, k: nat)
    requires Timed(h) && k < |h| && Counts(h, k)
    ensures After(h[..k]).suppressUntil <= h[k].now
  {
    RunKeeps(h[..k]);
    assert Inv(h[..k], After(h[..k]));
    hide After;
    assert forall j :: 0 <= j < k ==> h[..k][j] == h[j];
  }

  lemma AfterStep(h: seq<Input>, k: nat)
    requires k < |h|
    ensures After(h[..k + 1]) == Next(After(h[..k]), h[k])
  {
    var g := h[..k + 1];
    AfterLast(g);
    hide After, Next;
    assert g[..k] == h[..k] && g[k] == h[k];
  }

  lemma {:induction false} Rises(h: seq<Input>, lo: nat, hi: nat, digit: Digit)
    requires Timed(h) && lo < hi <= |h| && Tone(h, lo, hi, digit)
    requires forall i :: lo <= i < hi ==> h[i].duration <= MIN_START
    ensures Length(h, lo, hi) >= 1.0 && Rising(After(h[..hi]), digit, Length(h, lo, hi))
    decreases hi
  {
    var k := hi - 1;
    var d, before := After(h[..k]), Length(h, lo, k);
    assert Counts(h, k) && Heard(h[k]) == Some(digit) && Length(h, lo, hi) == before + h[k].duration;
    ReportsNeedAudio(h[..k]);
    CountsCut(h, k);
    AfterStep(h, k);
    if lo < k {
      Rises(h, lo, k, digit);
    } else {
      RunKeeps(h[..k]);
      assert ActiveOk(h[..k], d);
      hide After, Counts, Press;
      assert Rising(d, digit, before);
    }
    hide After, Length, Counts, Tone, Rising, Feed;
    RisingNext(d, digit, before, h[k]);
  }

  lemma FallsNext(d: Detector, digit: Digit, f: Input)
    requires d.active == Some(digit) && f.Frame? && Heard(f) != Some(digit) && d.suppressUntil <= f.now
    requires d.gap + f.duration < MIN_END
    ensures Next(d, f).active == Some(digit) && Next(d, f).gap == d.gap + f.duration && Emits(d, f) == None
  {
  }

  // The gap so far, frame by frame.
  lemma {:induction false} Falls(h: seq<Input>, lo: nat, hi: nat, digit: Digit)
    requires Timed(h) && lo <= hi <= |h| && Gap(h, lo, hi, digit) && Length(h, lo, hi) < MIN_END
    requires After(h[..lo]).active == Some(digit) && After(h[..lo]).gap == 0.0
    ensures After(h[..hi]).active == Some(digit) && After(h[..hi]).gap == Length(h, lo, hi)
    decreases hi
  {
    if lo < hi {
      var k := hi - 1;
      GapFrame(h, lo, k, digit);
      hide After, Length, Counts, Gap, Next, Timed;
      Falls(h, lo, k, digit);
      AfterStep(h, k);
      FallsNext(After(h[..k]), digit, h[k]);
    }
  }

  lemma GapFrame(h: seq<Input>, lo: nat, k: nat, digit: Digit)
    requires Timed(h) && lo <= k < |h| && Gap(h, lo, k + 1, digit)
    ensures h[k].Frame? && h[k].duration >= 1.0 && Heard(h[k]) != Some(digit) && After(h[..k]).suppressUntil <= h[k].now
    ensures Gap(h, lo, k, digit) && Length(h, lo, k + 1) == Length(h, lo, k) + h[k].duration
  {
    assert Counts(h, k);
    CountsCut(h, k);
    hide After, Counts;
  }

  /** A tone of at least 80 ms, in frames of at most 40 ms, is reported however the detector stood
      before: once the gap after it reaches 40 ms, at that frame and not before. */
  lemma LongPressIsReported(h: seq<Input>, lo: nat, hi: nat, k: nat, digit: Digit)
    requires Timed(h) && lo < hi <= k < |h|
    requires Tone(h, lo, hi, digit) && Length(h, lo, hi) >= MIN_START + MIN_END
    requires forall i :: lo <= i < hi ==> h[i].duration <= MIN_START
    requires Gap(h, hi, k + 1, digit) && Length(h, hi, k) < MIN_END
    ensures EmittedAt(h, k) == if Length(h, hi, k + 1) < MIN_END then None else Some(digit)
  {
    Rises(h, lo, hi, digit);
    GapFrame(h, hi, k, digit);
    hide After, Length, Counts, Gap, Tone, Timed;
    Falls(h, hi, k, digit);
  }

  // ---- In plain numbers ----

  function Tones(digit: Digit, n: nat, quiet: nat): seq<Input>
  {
    seq(n + quiet, i requires 0 <= i < n + quiet => Frame(if i < n then Some(digit) else None, 20.0, 20.0 * i as real))
  }

  lemma AfterOne(h: seq<Input>, i: Input)
    ensures After(h + [i]) == Next(After(h), i)
  {
    assert (h + [i])[..|h|] == h;
  }

  /** Frames of 20 ms: two that show a digit and two that show none report it, with the last of the four;
      one that shows a digit reports nothing, whatever silence follows. */
  lemma OrdinaryPress(digit: Digit)
    ensures var h := Tones(digit, 2, 2); forall e: nat :: e < 4 ==> EmittedAt(h, e) == if e == 3 then Some(digit) else None
    ensures var h := Tones(digit, 1, 3); forall e: nat :: e < 4 ==> EmittedAt(h, e) == None
  {
    FourFrames(Tones(digit, 2, 2));
    FourFrames(Tones(digit, 1, 3));
  }

  // Detectors after each of four calls.
  lemma FourFrames(h: seq<Input>)
    requires |h| == 4
    ensures After(h[..0]) == FRESH && After(h[..1]) == Next(FRESH, h[0])
    ensures After(h[..2]) == Next(After(h[..1]), h[1]) && After(h[..3]) == Next(After(h[..2]), h[2])
  {
    hide Next;
    assert h[..0] == [] && h[..1] == [] + [h[0]] && h[..2] == h[..1] + [h[1]] && h[..3] == h[..2] + [h[2]];
    AfterOne([], h[0]);
    AfterOne(h[..1], h[1]);
    AfterOne(h[..2], h[2]);
  }

  /** After a digit signalled out of band at time t nothing heard counts before t + 500; frames that show
      a digit from then on count, as the third and fourth here do not and do. */
  lemma OutOfBandSilences(digit: Digit, t: real, last: real)
    requires t >= 0.0
    ensures var h := [External(t), Frame(Some(digit), 40.0, t + 400.0), Frame(Some(digit), 40.0, last), Frame(None, 40.0, last + 40.0)];
            EmittedAt(h, 1) == None && EmittedAt(h, 2) == None && EmittedAt(h, 3) == if last < t + 500.0 then None else Some(digit)
  {
    FourFrames([External(t), Frame(Some(digit), 40.0, t + 400.0), Frame(Some(digit), 40.0, last), Frame(None, 40.0, last + 40.0)]);
  }

  /** A frame shorter than 10 ms shows nothing, and any other what its spectrum shows. */
  lemma ShortFrames(tone: Option<Digit>, duration: real, now: real)
    ensures Heard(Frame(tone, duration, now)) == if duration < 10.0 then None else tone
  {
  }

  // ---- How much audio reports need ----

  function Reports(h: seq<Input>): nat
    decreases |h|
  {
    if h == [] then 0 else Reports(h[..|h| - 1]) + (if EmittedAt(h, |h| - 1).Some? then 1 else 0)
  }

  function Pending(d: Detector): real {
    if d.active.Some? then MIN_START + d.gap else if d.candidate.Some? then d.candidateFor else 0.0
  }

  /** Forty milliseconds for each digit reported, and the open press and gap, never exceed what was fed. */
  lemma {:induction false} ReportsNeedAudio(h: seq<Input>)
    requires Timed(h)
    ensures MIN_START * (Reports(h) as real) + Pending(After(h)) <= Length(h, 0, |h|)
    ensures After(h).candidateFor >= 0.0 && After(h).gap >= 0.0
    decreases |h|
  {
    if h != [] {
      var k := |h| - 1;
      ReportsNeedAudio(h[..k]);
      LengthCut(h, k, 0, k);
      AfterLast(h);
      hide After;
    }
  }
}

module InbandDtmf {
  import opened InbandDtmfSpec

  class InbandDtmfDetector {
    var candidateDigit: Option<Digit>
    var candidateDurationMs: real
    var activeDigit: Option<Digit>
    var activeGapDurationMs: real
    var suppressUntilMs: real

    function State(): Detector
      reads this
    {
      Detector(candidateDigit, candidateDurationMs, activeDigit, activeGapDurationMs, suppressUntilMs)
    }

    constructor ()
      ensures State() == FRESH
    {
      candidateDigit, candidateDurationMs, activeDigit, activeGapDurationMs, suppressUntilMs := None, 0.0, None, 0.0, 0.0;
    }

    method Reset()
      modifies this
      ensures State() == FRESH
    {
      Clear();
      suppressUntilMs := 0.0;
    }

    method Clear()
      modifies this
      ensures State() == Cleared(old(State()))
    {
      candidateDigit, candidateDurationMs, activeDigit, activeGapDurationMs := None, 0.0, None, 0.0;
    }

    method NotifyExternalDtmf(now: real)
      modifies this
      ensures State() == Next(old(State()), External(now))
    {
      Clear();
      suppressUntilMs := Max(suppressUntilMs, now + SUPPRESS);
    }

    // A call without audio changes nothing.
    method Feed(bytes: nat, tone: Option<Digit>, durationMs: real, nowMs: real) returns (digits: seq<Digit>)
      modifies this
      ensures bytes == 0 ==> State() == old(State()) && digits == []
      ensures bytes > 0 ==>
                var f := Frame(tone, durationMs, nowMs);
                && State() == Next(old(State()), f)
                && digits == match Emits(old(State()), f) case None => [] case Some(digit) => [digit]
    {
      if bytes == 0 {
        return [];
      }
      var digit := Heard(Frame(tone, durationMs, nowMs));
      if suppressUntilMs > nowMs {
        Clear();
        return [];
      }
      if activeDigit.Some? {
        if digit == activeDigit {
          activeGapDurationMs := 0.0;
          return [];
        }
        activeGapDurationMs := activeGapDurationMs + durationMs;
        if activeGapDurationMs < MIN_END {
          return [];
        }
        var completed := activeDigit.value;
        activeDigit, activeGapDurationMs := None, 0.0;
        candidateDigit := digit;
        candidateDurationMs := if digit.Some? then durationMs else 0.0;
        return [completed];
      }
      if digit == None {
        candidateDigit, candidateDurationMs := None, 0.0;
        return [];
      }
      if digit == candidateDigit {
        candidateDurationMs := candidateDurationMs + durationMs;
      } else {
        candidateDigit, candidateDurationMs := digit, durationMs;
      }
      if candidateDurationMs >= MIN_START {
        activeDigit, activeGapDurationMs := digit, 0.0;
      }
      return [];
    }
  }
}
