/** The pair of byte queues behind a native stream, as values: what each call does, and what
    every run of calls keeps. */
module StreamQueueSpec {
  import opened ByteQueues

  datatype Queues = Queues(limit: nat, input: Bytes, output: Bytes, inputClosed: bool, closed: bool)

  datatype PushResult =
    | Written(n: nat)
    | NoRoom            // reported as success with nothing written
    | MustWait          // blocks until there is room or the queue closes
    | TooLong
    | Closed
    | InputClosed

  function Fresh(requested: nat): Queues {
    Queues(Max(4096, requested), [], [], false, false)
  }

  function HasRoom(q: Queues, n: nat): bool { |q.input| + n <= q.limit }

  function PushOutcome(q: Queues, data: Bytes, wait: bool): PushResult {
    if |data| == 0 then Written(0)
    else if |data| > q.limit then TooLong
    else if !HasRoom(q, |data|) && !wait then NoRoom
    else if q.closed then Closed
    else if q.inputClosed then InputClosed
    else if !HasRoom(q, |data|) then MustWait
    else Written(|data|)
  }

  function Push(q: Queues, data: Bytes, wait: bool): Queues {
    if PushOutcome(q, data, wait) == Written(|data|) then q.(input := q.input + data) else q
  }

  datatype PopResult = Refused | Popped(n: nat, eof: bool)

  function DrainOutcome(q: Queues, capacity: nat): PopResult {
    if q.closed then Refused
    else if q.input == [] then Popped(0, q.inputClosed)
    else Popped(Min(capacity, |q.input|), false)
  }

  function PopOutcome(q: Queues, minCount: nat, capacity: nat): PopResult {
    if capacity < minCount || q.closed then Refused
    else if |q.input| < minCount then Popped(0, q.inputClosed)
    else Popped(Min(capacity, |q.input|), q.inputClosed && |q.input| <= capacity)
  }

  function Took(r: PopResult): nat { if r.Popped? then r.n else 0 }

  function DropInput(q: Queues, n: nat): Queues
    requires n <= |q.input|
  {
    q.(input := q.input[n..])
  }

  function CloseAll(q: Queues): Queues {
    Queues(q.limit, [], [], true, true)
  }

  // ---- Runs ----

  datatype Call =
    | PushCall(data: Bytes, wait: bool)
    | DrainCall(capacity: nat)
    | PopCall(minCount: nat, most: nat)
    | DiscardCall(count: nat)
    | OutputCall(produced: Bytes)
    | DrainOutputCall(room: nat)
    | CloseInputCall
    | CloseCall

  // The queues, with every input byte ever accepted and every one ever handed out.
  datatype History = History(q: Queues, accepted: Bytes, removed: Bytes)

  function Removed(h: History, n: nat): History
    requires n <= |h.q.input|
  {
    h.(q := DropInput(h.q, n), removed := h.removed + h.q.input[..n])
  }

  function Step(h: History, c: Call): History {
    match c
    case PushCall(data, wait) =>
      if PushOutcome(h.q, data, wait) == Written(|data|) then h.(q := Push(h.q, data, wait), accepted := h.accepted + data)
      else h
    case DrainCall(capacity) => Removed(h, Took(DrainOutcome(h.q, capacity)))
    case PopCall(minCount, most) => Removed(h, Took(PopOutcome(h.q, minCount, most)))
    case DiscardCall(count) => Removed(h, Min(count, |h.q.input|))
    case OutputCall(data) => h.(q := h.q.(output := h.q.output + data))
    case DrainOutputCall(room) => h.(q := h.q.(output := h.q.output[Min(room, |h.q.output|)..]))
    case CloseInputCall => h.(q := h.q.(inputClosed := true))
    case CloseCall => h.(q := CloseAll(h.q))
  }

  function Run(h: History, calls: seq<Call>): History
    decreases |calls|
  {
    if calls == [] then h else Run(Step(h, calls[0]), calls[1..])
  }

  ghost predicate Kept(h: History) {
    && |h.q.input| <= h.q.limit
    && (h.q.closed ==> h.q.input == [] && h.q.inputClosed)
    && h.removed <= h.accepted
    && (!h.q.closed ==> h.accepted == h.removed + h.q.input)
  }

  lemma StepKeeps(h: History, c: Call)
    requires Kept(h)
    ensures Kept(Step(h, c)) && Step(h, c).q.limit == h.q.limit
    ensures h.q.inputClosed ==> Step(h, c).accepted == h.accepted
  {
    match c
    case PushCall(data, wait) =>
      if PushOutcome(h.q, data, wait) == Written(|data|) {
        if h.q.closed {
          assert data == [];
        } else {
          assert (h.removed + h.q.input) + data == h.removed + (h.q.input + data);
        }
      }
    case DrainCall(capacity) => RemovedKeeps(h, Took(DrainOutcome(h.q, capacity)));
    case PopCall(minCount, most) => RemovedKeeps(h, Took(PopOutcome(h.q, minCount, most)));
    case DiscardCall(count) => RemovedKeeps(h, Min(count, |h.q.input|));
    case _ =>
  }

  lemma RemovedKeeps(h: History, n: nat)
    requires Kept(h) && n <= |h.q.input|
    ensures Kept(Removed(h, n))
  {
    var front, back := h.q.input[..n], h.q.input[n..];
    assert h.q.input == front + back;
    assert h.removed + (front + back) == (h.removed + front) + back;
  }

  /** Over every run: the input queue stays within its limit, bytes come out in the order they
      were accepted, and until Close none is lost. */
  lemma {:induction false} InputIsConserved(h: History, calls: seq<Call>)
    requires Kept(h)
    ensures var r := Run(h, calls);
            && |r.q.input| <= r.q.limit == h.q.limit
            && r.removed <= r.accepted
            && (!r.q.closed ==> r.accepted == r.removed + r.q.input)
            && (h.q.inputClosed ==> r.accepted == h.accepted)
    decreases |calls|
  {
    if calls != [] {
      StepKeeps(h, calls[0]);
      InputIsConserved(Step(h, calls[0]), calls[1..]);
      InputStaysClosed(h, calls[0]);
    }
  }

  lemma InputStaysClosed(h: History, c: Call)
    ensures h.q.inputClosed ==> Step(h, c).q.inputClosed
  {
  }

  /** A push that reports no byte leaves the queues exactly as they were, and a push either adds
      all of its bytes or none. */
  lemma PushIsAllOrNothing(q: Queues, data: Bytes, wait: bool)
    ensures var q' := Push(q, data, wait);
            if PushOutcome(q, data, wait) == Written(|data|) then q' == q.(input := q.input + data) && |q'.input| <= Max(q.limit, |q.input|)
            else q' == q
    ensures PushOutcome(q, data, wait) == Written(|data|) <==>
            data == [] || (!q.closed && !q.inputClosed && |q.input| + |data| <= q.limit)
    ensures PushOutcome(q, data, wait).MustWait? ==> wait && !q.inputClosed && |data| <= q.limit < |q.input| + |data|
  {
  }

  /** Why a push is turned away, and that nothing else is: too long for the queue whatever is in it; no
      room for one that does not wait; and otherwise closed, or its input closed. */
  lemma RefusalsMean(q: Queues, data: Bytes, wait: bool)
    requires data != []
    ensures var r, fits, room := PushOutcome(q, data, wait), |data| <= q.limit, |q.input| + |data| <= q.limit;
            && (r == TooLong <==> !fits)
            && (r == NoRoom <==> fits && !room && !wait)
            && (r == Closed <==> fits && (room || wait) && q.closed)
            && (r == InputClosed <==> fits && (room || wait) && !q.closed && q.inputClosed)
            && (r == MustWait <==> fits && !room && wait && !q.closed && !q.inputClosed)
            && (r.Written? <==> fits && room && !q.closed && !q.inputClosed)
  {
  }

  /** A new queue takes one push of up to 4096 bytes, or of what was requested if that is more, and none
      that is longer. */
  lemma FreshTakes(requested: nat, data: Bytes, wait: bool)
    requires data != []
    ensures var r := PushOutcome(Fresh(requested), data, wait);
            if |data| <= 4096 || |data| <= requested then r == Written(|data|) else r == TooLong
  {
  }

  // ---- End of stream ----

  // Input is closed and nothing is left of it.
  predicate AtEnd(q: Queues) { q.inputClosed && q.input == [] }

  /** Draining takes what there is, up to the capacity, and reports the end exactly when it found nothing
      on a closed input; so the end is reported right after the last byte, and not with it. It means that
      input is closed and nothing is left after the call, unless the call has just taken the last of it. */
  lemma DrainEndsExactly(q: Queues, capacity: nat)
    requires !q.closed
    ensures var r := DrainOutcome(q, capacity);
            && r.Popped? && r.n <= |q.input| && (r.n == |q.input| || r.n == capacity)
            && (r.eof <==> AtEnd(q))
            && ((r.eof <==> AtEnd(DropInput(q, r.n))) <==> !(q.inputClosed && 0 < |q.input| <= capacity))
  {
  }

  /** Popping at least so many bytes takes none below that number, and otherwise as many as it can. It
      reports the end exactly when input is closed and either less than asked for is left or this call takes
      it all. It means that nothing is left after the call, unless a closed input holds some, but less
      than asked for. */
  lemma PopEndsExactly(q: Queues, minCount: nat, capacity: nat)
    requires !q.closed && minCount <= capacity
    ensures var r := PopOutcome(q, minCount, capacity);
            && r.Popped? && r.n == (if |q.input| < minCount then 0 else if |q.input| < capacity then |q.input| else capacity)
            && (r.eof <==> q.inputClosed && (|q.input| < minCount || |q.input| <= capacity))
            && ((r.eof <==> AtEnd(DropInput(q, r.n))) <==> !(q.inputClosed && 0 < |q.input| < minCount))
  {
  }

  /** A closed queue pops and drains nothing, and neither does one asked for more than the target holds. */
  lemma NothingPopped(q: Queues, minCount: nat, capacity: nat)
    ensures PopOutcome(q, minCount, capacity) == Refused <==> q.closed || capacity < minCount
    ensures DrainOutcome(q, capacity) == Refused <==> q.closed
  {
  }

  /** It does happen: three bytes, then the end of input, and a consumer that takes four at a time is told
      that the stream has ended while the three are still queued. */
  lemma TailIsLeft(a: Byte)
    ensures var h := Run(History(Fresh(0), [], []), [PushCall([a, a, a], false), CloseInputCall]);
            h.q.input == [a, a, a] && PopOutcome(h.q, 4, 4) == Popped(0, true)
  {
    var calls := [PushCall([a, a, a], false), CloseInputCall];
    var h0 := History(Fresh(0), [], []);
    var h1 := Step(h0, calls[0]);
    assert [] + [a, a, a] == [a, a, a];
    assert calls[1..] == [CloseInputCall] && calls[1..][1..] == [];
    assert Run(h1, calls[1..]) == Step(h1, CloseInputCall);
  }

  // ---- Output ----

  // The output a call adds, and the output it hands out.
  function Made(c: Call): Bytes { if c.OutputCall? then c.produced else [] }

  function Given(h: History, c: Call): Bytes { if c.DrainOutputCall? then h.q.output[..Min(c.room, |h.q.output|)] else [] }

  function Produced(calls: seq<Call>): Bytes
    decreases |calls|
  {
    if calls == [] then [] else Made(calls[0]) + Produced(calls[1..])
  }

  function Collected(h: History, calls: seq<Call>): Bytes
    decreases |calls|
  {
    if calls == [] then []
    else Given(h, calls[0]) + Collected(Step(h, calls[0]), calls[1..])
  }

  /** Output leaves in the order it was produced, and until Close none is lost. */
  lemma {:induction false} OutputIsConserved(h: History, calls: seq<Call>)
    requires forall i :: 0 <= i < |calls| ==> !calls[i].CloseCall?
    ensures h.q.output + Produced(calls) == Collected(h, calls) + Run(h, calls).q.output
    decreases |calls|
  {
    hide Step;
    if calls == [] {
      assert h.q.output + [] == [] + h.q.output;
    } else {
      var t, rest := Step(h, calls[0]), calls[1..];
      OutputOnce(h, calls[0]);
      OutputIsConserved(t, rest);
      Shift(h.q.output, Made(calls[0]), Produced(rest), Given(h, calls[0]), Collected(t, rest), Run(t, rest).q.output, t.q.output);
    }
  }

  lemma OutputOnce(h: History, c: Call)
    requires !c.CloseCall?
    ensures h.q.output + Made(c) == Given(h, c) + Step(h, c).q.output
  {
    var out, now := h.q.output, Step(h, c).q.output;
    assert [] + now == now && out + [] == out;
    if c.DrainOutputCall? {
      var n := Min(c.room, |out|);
      assert now == out[n..] && out == out[..n] + out[n..];
    }
  }

  lemma Shift(out: Bytes, made: Bytes, more: Bytes, given: Bytes, got: Bytes, left: Bytes, now: Bytes)
    requires out + made == given + now && now + more == got + left
    ensures out + (made + more) == (given + got) + left
  {
    assert out + (made + more) == (out + made) + more;
    assert (given + now) + more == given + (now + more);
    assert given + (got + left) == (given + got) + left;
  }

  // ---- Length-prefixed frames ----

  // The low 32 bits of the length, least significant byte first.
  function Prefix(n: nat): (p: Bytes)
    ensures |p| == 4
  {
    [n % 256, n / 256 % 256, n / 0x1_0000 % 256, n / 0x100_0000 % 256]
  }

  function Framed(b: Bytes): Bytes { Prefix(|b|) + b }

  function AllFramed(frames: seq<Bytes>): Bytes
    decreases |frames|
  {
    if frames == [] then [] else Framed(frames[0]) + AllFramed(frames[1..])
  }

  // A consumer of a byte stream: peek a length, skip it, take that many bytes, go on.
  function Frames(s: Bytes): seq<Bytes>
    decreases |s|
  {
    if |s| < 4 then []
    else
      var n := LittleEndian(s[..4]);
      if |s| < 4 + n then [] else [s[4..4 + n]] + Frames(s[4 + n..])
  }

  function Word(a: int, b: int, c: int, d: int): int { a + 256 * (b + 256 * (c + 256 * d)) }

  lemma LittleEndian4(p: Bytes)
    requires |p| == 4
    ensures LittleEndian(p) == Word(p[0], p[1], p[2], p[3])
  {
    var q, r := p[1..], p[2..];
    assert q[1..] == r && r[1..] == p[3..] && p[3..][1..] == [];
    assert LittleEndian(p[3..]) == p[3];
    assert LittleEndian(r) == p[2] + 256 * LittleEndian(p[3..]);
    assert LittleEndian(q) == p[1] + 256 * LittleEndian(r);
  }

  lemma PrefixValue(n: nat)
    ensures LittleEndian(Prefix(n)) == n % 0x1_0000_0000
  {
    LittleEndian4(Prefix(n));
    BytesOf(n);
  }

  lemma BytesOf(n: nat)
    ensures Word(n % 256, n / 256 % 256, n / 0x1_0000 % 256, n / 0x100_0000 % 256) == n % 0x1_0000_0000
  {
    var a, b, c, d := n / 256, n / 0x1_0000, n / 0x100_0000, n / 0x1_0000_0000;
    assert b == a / 256 && c == b / 256 && d == c / 256;
  }

  /** The prefix identifies the frame exactly when the length fits 32 bits. */
  lemma FirstFrame(b: Bytes, rest: Bytes)
    ensures var s := Framed(b) + rest;
            var n := LittleEndian(s[..4]);
            |s| >= 4 + n && (s[4..4 + n] == b && s[4 + n..] == rest <==> |b| < 0x1_0000_0000)
  {
    var s := Framed(b) + rest;
    assert s[..4] == Prefix(|b|);
    PrefixValue(|b|);
    assert s[4..] == b + rest;
    var n := LittleEndian(s[..4]);
    assert n <= |b|;
    if n == |b| {
      assert s[4..4 + n] == b;
      assert s[4 + n..] == rest;
    }
  }

  /** Frames shorter than 2^32 bytes come back one by one, in order, however the stream goes on. */
  lemma {:induction false} FramesComeBack(frames: seq<Bytes>, rest: Bytes)
    requires forall i :: 0 <= i < |frames| ==> |frames[i]| < 0x1_0000_0000
    ensures Frames(AllFramed(frames) + rest) == frames + Frames(rest)
    decreases |frames|
  {
    hide Framed, LittleEndian, Frames;
    if frames == [] {
      assert [] + rest == rest && frames + Frames(rest) == Frames(rest);
    } else {
      var more := AllFramed(frames[1..]) + rest;
      assert AllFramed(frames) + rest == Framed(frames[0]) + more;
      FrameThenRest(frames[0], more);
      FramesComeBack(frames[1..], rest);
      assert frames + Frames(rest) == [frames[0]] + (frames[1..] + Frames(rest));
    }
  }

  lemma FrameThenRest(b: Bytes, more: Bytes)
    requires |b| < 0x1_0000_0000
    ensures Frames(Framed(b) + more) == [b] + Frames(more)
  {
    hide Framed, LittleEndian;
    FirstFrame(b, more);
  }

  // Calls of a producer that pushes length-prefixed frames only.
  ghost predicate PushesFramesOnly(calls: seq<Call>) {
    forall i :: 0 <= i < |calls| && calls[i].PushCall? ==> exists b: Bytes :: calls[i].data == Framed(b)
  }

  // The frames a run accepts, in order; `frame` recovers a frame from its pushed bytes.
  function AcceptedFrames(h: History, calls: seq<Call>): seq<Bytes>
    decreases |calls|
  {
    if calls == [] then []
    else
      var later := AcceptedFrames(Step(h, calls[0]), calls[1..]);
      if calls[0].PushCall? && |calls[0].data| >= 4 && PushOutcome(h.q, calls[0].data, calls[0].wait) == Written(|calls[0].data|)
      then [calls[0].data[4..]] + later
      else later
  }

  lemma {:induction false} AcceptedAreFramed(h: History, calls: seq<Call>)
    requires PushesFramesOnly(calls)
    ensures Run(h, calls).accepted == h.accepted + AllFramed(AcceptedFrames(h, calls))
    decreases |calls|
  {
    if calls == [] {
      assert h.accepted + [] == h.accepted;
    } else {
      var c, next := calls[0], Step(h, calls[0]);
      assert PushesFramesOnly(calls[1..]) by {
        forall i | 0 <= i < |calls[1..]| && calls[1..][i].PushCall? ensures exists b: Bytes :: calls[1..][i].data == Framed(b) {
          assert calls[1..][i] == calls[i + 1];
        }
      }
      AcceptedAreFramed(next, calls[1..]);
      var later := AcceptedFrames(next, calls[1..]);
      if c.PushCall? {
        var b: Bytes :| c.data == Framed(b);
        assert c.data[4..] == b;
        if PushOutcome(h.q, c.data, c.wait) == Written(|c.data|) {
          assert AcceptedFrames(h, calls) == [b] + later;
          assert AllFramed([b] + later) == Framed(b) + AllFramed(later) by { assert ([b] + later)[1..] == later; }
          assert (h.accepted + Framed(b)) + AllFramed(later) == h.accepted + (Framed(b) + AllFramed(later));
        }
      }
    }
  }

  /** A producer pushes frames, a consumer takes bytes as they come: until Close, the frames in
      the bytes taken and still queued are exactly the accepted frames, in push order. */
  lemma FramesArriveInOrder(requested: nat, calls: seq<Call>)
    requires PushesFramesOnly(calls)
    requires var h := History(Fresh(requested), [], []);
             forall i :: 0 <= i < |AcceptedFrames(h, calls)| ==> |AcceptedFrames(h, calls)[i]| < 0x1_0000_0000
    ensures var h := History(Fresh(requested), [], []);
            var r := Run(h, calls);
            !r.q.closed ==> Frames(r.removed + r.q.input) == AcceptedFrames(h, calls)
  {
    var h := History(Fresh(requested), [], []);
    var frames := AcceptedFrames(h, calls);
    AcceptedAreFramed(h, calls);
    InputIsConserved(h, calls);
    FramesComeBack(frames, []);
    assert AllFramed(frames) + [] == [] + AllFramed(frames);
    assert frames + Frames([]) == frames;
  }

  /** Beyond that the prefix names too short a frame: four gigabytes of zeros are accepted, and what
      the consumer finds first is an empty frame. */
  lemma HugeFrameIsLost(b: Bytes, wait: bool)
    requires |b| == 0x1_0000_0000 && forall i :: 0 <= i < |b| ==> b[i] == 0
    ensures var h := Step(History(Fresh(0x2_0000_0000), [], []), PushCall(Framed(b), wait));
            h.accepted == Framed(b) && Frames(h.q.input) != [b] && Frames(h.q.input)[..1] == [[]]
  {
    hide LittleEndian;
    PrefixValue(|b|);
    var q := Fresh(0x2_0000_0000);
    assert [] + Framed(b) == Framed(b);
    var s := Push(q, Framed(b), wait).input;
    assert s == Framed(b);
    assert s[..4] == Prefix(|b|);
    assert s[4..4 + 0] == [];
    assert Frames(s) == [s[4..4 + 0]] + Frames(s[4..]);
    assert Frames(s)[0] == [] && [b][0] != [];
  }

  // ---- A consumer at work ----

  // It looks at a length, drops the prefix, and takes that many bytes, while frames go on coming in.
  datatype Phase = AtPrefix | Peeked(n: nat) | AtBody(n: nat)

  datatype Session = Session(q: Queues, phase: Phase, sent: seq<Bytes>, got: seq<Bytes>)

  datatype Act = SendFrame(b: Bytes, wait: bool) | Peek | Discard | Take | EndInput | EndAll

  function Does(s: Session, a: Act): Session {
    match a
    case SendFrame(b, wait) =>
      if PushOutcome(s.q, Framed(b), wait) == Written(|Framed(b)|) then s.(q := Push(s.q, Framed(b), wait), sent := s.sent + [b])
      else s
    case Peek => if s.phase.AtPrefix? && |s.q.input| >= 4 then s.(phase := Peeked(LittleEndian(s.q.input[..4]))) else s
    case Discard => if s.phase.Peeked? then s.(q := DropInput(s.q, Min(4, |s.q.input|)), phase := AtBody(s.phase.n)) else s
    case Take =>
      if s.phase.AtBody? && PopOutcome(s.q, s.phase.n, s.phase.n).Popped? && Took(PopOutcome(s.q, s.phase.n, s.phase.n)) == s.phase.n
      then Session(DropInput(s.q, s.phase.n), AtPrefix, s.sent, s.got + [s.q.input[..s.phase.n]])
      else s
    case EndInput => s.(q := s.q.(inputClosed := true))
    case EndAll => s.(q := CloseAll(s.q))
  }

  function Served(s: Session, acts: seq<Act>): Session
    decreases |acts|
  {
    if acts == [] then s else Served(Does(s, acts[0]), acts[1..])
  }

  ghost predicate Fits(frames: seq<Bytes>) { forall i :: 0 <= i < |frames| ==> |frames[i]| < 0x1_0000_0000 }

  // The bytes of the frames to come: a prefix that was dropped, and the queue.
  function Coming(s: Session): Bytes { if s.phase.AtBody? then Prefix(s.phase.n) + s.q.input else s.q.input }

  ghost predicate InStep(s: Session) {
    && s.got <= s.sent
    && (s.q.closed ==> s.q.input == [])
    && (!s.q.closed ==>
          && Coming(s) == AllFramed(s.sent[|s.got|..])
          && (!s.phase.AtPrefix? ==> s.got < s.sent && s.phase.n == |s.sent[|s.got|]|))
  }

  lemma {:induction false} AllFramedSnoc(frames: seq<Bytes>, b: Bytes)
    ensures AllFramed(frames + [b]) == AllFramed(frames) + Framed(b)
    decreases |frames|
  {
    hide Framed;
    if frames == [] {
      assert [] + [b] == [b] && [b][1..] == [];
    } else {
      assert (frames + [b])[1..] == frames[1..] + [b];
      AllFramedSnoc(frames[1..], b);
    }
  }

  lemma SendInStep(s: Session, b: Bytes, wait: bool)
    requires InStep(s)
    ensures InStep(Does(s, SendFrame(b, wait)))
  {
    hide Framed, LittleEndian;
    var t := Does(s, SendFrame(b, wait));
    if t != s && !s.q.closed {
      AllFramedSnoc(s.sent[|s.got|..], b);
      assert t.sent[|s.got|..] == s.sent[|s.got|..] + [b];
      assert Prefix(if s.phase.AtBody? then s.phase.n else 0) + (s.q.input + Framed(b))
          == (Prefix(if s.phase.AtBody? then s.phase.n else 0) + s.q.input) + Framed(b);
    }
  }

  // The next frame stands in front, whole.
  lemma FrontFrame(s: Session)
    requires InStep(s) && !s.q.closed && s.got < s.sent
    ensures var b := s.sent[|s.got|];
            Coming(s) == Framed(b) + AllFramed(s.sent[|s.got| + 1..]) && |Coming(s)| >= 4 + |b| && Coming(s)[..4] == Prefix(|b|)
  {
    assert s.sent[|s.got|..][1..] == s.sent[|s.got| + 1..];
  }

  lemma PeekInStep(s: Session)
    requires InStep(s) && Fits(s.sent)
    ensures InStep(Does(s, Peek))
  {
    hide LittleEndian, AllFramed;
    if Does(s, Peek) != s && !s.q.closed {
      if s.got == s.sent {
        NothingComing(s);
      } else {
        FrontFrame(s);
        PrefixValue(|s.sent[|s.got|]|);
      }
    }
  }

  lemma DiscardInStep(s: Session)
    requires InStep(s)
    ensures InStep(Does(s, Discard))
  {
    hide LittleEndian, AllFramed;
    if s.phase.Peeked? && !s.q.closed {
      FrontFrame(s);
      assert s.q.input[..4] == Prefix(s.phase.n);
      assert s.q.input == s.q.input[..4] + s.q.input[4..];
    }
  }

  lemma TakeInStep(s: Session)
    requires InStep(s)
    ensures InStep(Does(s, Take))
  {
    hide LittleEndian, AllFramed, Prefix;
    if s.phase.AtBody? && !s.q.closed {
      FrontFrame(s);
      var b, rest := s.sent[|s.got|], AllFramed(s.sent[|s.got| + 1..]);
      assert s.q.input == Coming(s)[4..];
      assert Coming(s)[4..] == b + rest;
      assert s.q.input[..|b|] == b && s.q.input[|b|..] == rest;
      assert s.sent[..|s.got| + 1] == s.got + [b];
    }
  }

  lemma NothingComing(s: Session)
    requires InStep(s) && !s.q.closed && s.got == s.sent
    ensures s.phase.AtPrefix? && s.q.input == []
  {
    assert s.sent[|s.got|..] == [];
  }

  lemma SentGrows(s: Session, a: Act)
    ensures s.sent <= Does(s, a).sent
  {
  }

  lemma {:induction false} RunSends(s: Session, acts: seq<Act>)
    ensures s.sent <= Served(s, acts).sent
    decreases |acts|
  {
    if acts != [] {
      SentGrows(s, acts[0]);
      RunSends(Does(s, acts[0]), acts[1..]);
    }
  }

  lemma {:induction false} RunInStep(s: Session, acts: seq<Act>)
    requires InStep(s) && Fits(Served(s, acts).sent)
    ensures InStep(Served(s, acts))
    decreases |acts|
  {
    hide InStep, Does;
    if acts != [] {
      var a, t := acts[0], Does(s, acts[0]);
      RunSends(s, acts);
      RunSends(t, acts[1..]);
      match a {
        case SendFrame(b, wait) => SendInStep(s, b, wait);
        case EndInput => EndsInStep(s);
        case EndAll => EndsInStep(s);
        case Peek => PeekInStep(s);
        case Discard => DiscardInStep(s);
        case Take => TakeInStep(s);
      }
      RunInStep(t, acts[1..]);
    }
  }

  lemma EndsInStep(s: Session)
    requires InStep(s)
    ensures InStep(Does(s, EndInput)) && InStep(Does(s, EndAll))
  {
  }

  function Opened(requested: nat): Session { Session(Fresh(requested), AtPrefix, [], []) }

  lemma OpenedInStep(requested: nat)
    ensures InStep(Opened(requested))
  {
  }

  /** However pushes, the consumer's calls and closing are interleaved, the frames recovered so far are
      the first of the frames accepted; and until Close none is missing: with the queue empty and no
      frame half read, they are all of them. */
  lemma ConsumerKeepsUp(requested: nat, acts: seq<Act>)
    requires Fits(Served(Opened(requested), acts).sent)
    ensures var s := Served(Opened(requested), acts);
            && s.got <= s.sent
            && (!s.q.closed && s.q.input == [] && s.phase.AtPrefix? ==> s.got == s.sent)
  {
    hide LittleEndian;
    OpenedInStep(requested);
    RunInStep(Opened(requested), acts);
    var s := Served(Opened(requested), acts);
    if !s.q.closed && s.got < s.sent {
      FrontFrame(s);
    }
  }

  /** The consumer never waits inside a frame: whenever one is missing, its three calls recover it. */
  lemma NextFrameIsRead(requested: nat, acts: seq<Act>)
    requires var s := Served(Opened(requested), acts); Fits(s.sent) && !s.q.closed && s.phase.AtPrefix? && s.got != s.sent
    ensures var s := Served(Opened(requested), acts);
            |s.got| < |s.sent| && Does(Does(Does(s, Peek), Discard), Take).got == s.got + [s.sent[|s.got|]]
  {
    hide LittleEndian, AllFramed;
    OpenedInStep(requested);
    RunInStep(Opened(requested), acts);
    var s := Served(Opened(requested), acts);
    FrontFrame(s);
    var b := s.sent[|s.got|];
    PrefixValue(|b|);
    var t := Does(Does(s, Peek), Discard);
    assert t.phase == AtBody(|b|) && t.q.input == s.q.input[4..];
    assert s.q.input[4..] == b + AllFramed(s.sent[|s.got| + 1..]);
    assert t.q.input[..|b|] == b;
  }
}

module StreamQueues {
  import opened ByteQueues
  import opened StreamQueueSpec

  // Every call runs under the object's mutex, so calls are atomic steps.
  class NativeByteQueues {
    const inputQueueLimitBytes: nat
    const inputQueue: ByteQueue
    const outputQueue: ByteQueue
    var inputClosed: bool
    var closed: bool

    ghost function Repr(): set<object>
      reads this, inputQueue, outputQueue
    {
      {this, inputQueue, inputQueue.storage, outputQueue, outputQueue.storage}
    }

    ghost predicate Valid()
      reads this, inputQueue, outputQueue
    {
      && inputQueue != outputQueue && inputQueue.storage != outputQueue.storage
      && inputQueue.Valid() && outputQueue.Valid()
    }

    ghost function State(): Queues
      reads this, inputQueue, inputQueue.storage, outputQueue, outputQueue.storage
      requires Valid()
    {
      Queues(inputQueueLimitBytes, inputQueue.Contents(), outputQueue.Contents(), inputClosed, closed)
    }

    constructor (requested: nat)
      ensures Valid() && fresh(Repr()) && State() == Fresh(requested)
    {
      inputQueueLimitBytes := Max(4096, requested);
      inputQueue := new ByteQueue(Max(4096, requested));
      outputQueue := new ByteQueue(4096);
      inputClosed, closed := false, false;
    }

    // One turn of a push. `MustWait` stands for sleeping on the condition variable: nothing has
    // changed, and the same turn is taken again after the next notification.
    method PushInputSegments(first: Bytes, second: Bytes, wait: bool) returns (r: PushResult)
      requires Valid()
      modifies Repr()
      ensures Valid() && fresh(Repr() - old(Repr()))
      ensures r == PushOutcome(old(State()), first + second, wait)
      ensures State() == Push(old(State()), first + second, wait)
    {
      var totalLength := |first| + |second|;
      if totalLength == 0 {
        assert State().input + (first + second) == State().input;
        return Written(0);
      }
      if totalLength > inputQueueLimitBytes {
        return TooLong;
      }
      if inputQueue.size + totalLength > inputQueueLimitBytes {
        if !wait {
          return NoRoom;
        }
        if !closed && !inputClosed {
          return MustWait;
        }
      }
      if closed {
        return Closed;
      }
      if inputClosed {
        return InputClosed;
      }
      AppendSegments(first, second);
      return Written(totalLength);
    }

    method AppendSegments(first: Bytes, second: Bytes)
      requires Valid()
      modifies inputQueue, inputQueue.storage
      ensures Valid() && (inputQueue.storage == old(inputQueue.storage) || fresh(inputQueue.storage))
      ensures inputQueue.Contents() == old(inputQueue.Contents()) + (first + second)
    {
      ghost var before := inputQueue.Contents();
      assert (before + first) + second == before + (first + second);
      if |first| > 0 {
        var _ := inputQueue.Append(first);
      }
      assert inputQueue.Contents() == before + first;
      if |second| > 0 {
        var _ := inputQueue.Append(second);
      }
    }

    method PushInput(data: Bytes, wait: bool) returns (r: PushResult)
      requires Valid()
      modifies Repr()
      ensures Valid() && fresh(Repr() - old(Repr()))
      ensures r == PushOutcome(old(State()), data, wait) && State() == Push(old(State()), data, wait)
    {
      assert data + [] == data;
      r := PushInputSegments(data, [], wait);
    }

    method PushInputWithLengthPrefix(data: Bytes, wait: bool) returns (r: PushResult)
      requires Valid()
      modifies Repr()
      ensures Valid() && fresh(Repr() - old(Repr()))
      ensures r == PushOutcome(old(State()), Framed(data), wait) && State() == Push(old(State()), Framed(data), wait)
    {
      r := PushInputSegments(Prefix(|data|), data, wait);
    }

    method TryDrainInput(dst: array<Byte>, capacity: nat) returns (r: PopResult)
      requires Valid() && capacity <= dst.Length && dst !in Repr()
      modifies Repr(), dst
      ensures Valid() && Repr() == old(Repr())
      ensures r == DrainOutcome(old(State()), capacity)
      ensures State() == DropInput(old(State()), Took(r))
      ensures dst[..] == Put(old(dst[..]), 0, old(State()).input[..Took(r)])
    {
      hide Put;
      PutNothing(dst[..], 0);
      if closed {
        return Refused;
      }
      if inputQueue.size == 0 {
        return Popped(0, inputClosed);
      }
      var drained := inputQueue.Drain(dst, 0, capacity);
      return Popped(drained, false);
    }

    method TryPopInputAtLeast(minCount: nat, dst: array<Byte>, capacity: nat) returns (r: PopResult)
      requires Valid() && capacity <= dst.Length && dst !in Repr()
      modifies Repr(), dst
      ensures Valid() && Repr() == old(Repr())
      ensures r == PopOutcome(old(State()), minCount, capacity)
      ensures State() == DropInput(old(State()), Took(r))
      ensures dst[..] == Put(old(dst[..]), 0, old(State()).input[..Took(r)])
    {
      hide Put;
      PutNothing(dst[..], 0);
      if capacity < minCount || closed {
        return Refused;
      }
      if inputQueue.size < minCount {
        return Popped(0, inputClosed);
      }
      var toCopy := Min(capacity, inputQueue.size);
      var finalChunk := inputClosed && inputQueue.size <= toCopy;
      var drained := inputQueue.Drain(dst, 0, toCopy);
      return Popped(drained, finalChunk);
    }

    method PeekInputU32LE() returns (value: nat)
      requires Valid()
      ensures value == LittleEndian(State().input[..Min(4, |State().input|)])
    {
      value := inputQueue.PeekU32LE();
    }

    method DiscardInput(count: nat) returns (dropped: nat)
      requires Valid()
      modifies Repr()
      ensures Valid() && Repr() == old(Repr())
      ensures dropped == Min(count, |old(State()).input|) && State() == DropInput(old(State()), dropped)
    {
      dropped := inputQueue.Discard(count);
    }

    method AppendOutput(data: Bytes)
      requires Valid()
      modifies Repr()
      ensures Valid() && fresh(Repr() - old(Repr()))
      ensures State() == old(State()).(output := old(State()).output + data)
    {
      var _ := outputQueue.Append(data);
    }

    method DrainOutput(dst: array<Byte>, at: nat, count: nat) returns (drained: nat)
      requires Valid() && at + count <= dst.Length && dst !in Repr()
      modifies Repr(), dst
      ensures Valid() && Repr() == old(Repr())
      ensures drained == Min(count, |old(State()).output|)
      ensures State() == old(State()).(output := old(State()).output[drained..])
      ensures dst[..] == Put(old(dst[..]), at, old(State()).output[..drained])
    {
      hide Put;
      drained := outputQueue.Drain(dst, at, count);
    }

    method CloseInput()
      requires Valid()
      modifies this
      ensures Valid() && State() == old(State()).(inputClosed := true)
    {
      inputClosed := true;
    }

    method Close()
      requires Valid()
      modifies Repr()
      ensures Valid() && Repr() == old(Repr()) && State() == CloseAll(old(State()))
    {
      closed := true;
      inputClosed := true;
      inputQueue.Clear();
      outputQueue.Clear();
    }
  }
}
