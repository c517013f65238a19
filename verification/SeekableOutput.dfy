/** A muxer that believes it writes a random-access file, the append-only stream and the patch
    list its writes are turned into, and the endpoint that puts the file together again. */
module SeekableOutputSpec {
  import opened ByteQueues

  const AVERROR_EIO: int := -5
  const AVERROR_EINVAL: int := -22
  const AVSEEK_SIZE: bv32 := 0x10000
  const AVSEEK_FORCE: bv32 := 0x20000
  const SEEK_SET: bv32 := 0
  const SEEK_CUR: bv32 := 1
  const SEEK_END: bv32 := 2

  datatype Patch = Patch(offset: nat, data: Bytes)

  // ---- The encoder's output side ----

  datatype Encoder = Encoder(output: Bytes, position: nat, size: nat, patches: seq<Patch>)

  // A patch that starts where the last one stops extends it.
  function Record(ps: seq<Patch>, offset: nat, data: Bytes): seq<Patch> {
    if data == [] then ps
    else if ps != [] && ps[|ps| - 1].offset + |ps[|ps| - 1].data| == offset then
      ps[|ps| - 1 := Patch(ps[|ps| - 1].offset, ps[|ps| - 1].data + data)]
    else ps + [Patch(offset, data)]
  }

  function Overlap(e: Encoder, data: Bytes): (n: nat)
    ensures n <= |data|
  {
    if e.position < e.size then Min(|data|, e.size - e.position) else 0
  }

  function WriteResult(e: Encoder, data: Bytes): int {
    if e.position > e.size && data != [] then AVERROR_EIO else |data|
  }

  function Write(e: Encoder, data: Bytes): Encoder {
    if e.position > e.size then e
    else
      var n := Overlap(e, data);
      Encoder(e.output + data[n..], e.position + |data|, e.size + |data| - n, Record(e.patches, e.position, data[..n]))
  }

  // The position a seek asks for, or a negative error.
  function SeekTarget(position: nat, size: nat, offset: int, whence: bv32): int {
    var w := whence & !AVSEEK_FORCE;
    var next :=
      if w == SEEK_SET then offset
      else if w == SEEK_CUR then position + offset
      else if w == SEEK_END then size + offset
      else AVERROR_EINVAL;
    if next < 0 then AVERROR_EINVAL else next
  }

  function SeekResult(position: nat, size: nat, offset: int, whence: bv32): int {
    if whence == AVSEEK_SIZE then size else SeekTarget(position, size, offset, whence)
  }

  function SeekPosition(position: nat, size: nat, offset: int, whence: bv32): nat {
    if whence == AVSEEK_SIZE || SeekTarget(position, size, offset, whence) < 0 then position
    else SeekTarget(position, size, offset, whence)
  }

  // ---- The endpoint ----

  datatype Endpoint = Endpoint(chunks: seq<Bytes>, bytesProduced: nat)

  function Flat(chunks: seq<Bytes>): Bytes
    decreases |chunks|
  {
    if chunks == [] then [] else Flat(chunks[..|chunks| - 1]) + chunks[|chunks| - 1]
  }

  function Accept(ep: Endpoint, chunk: Bytes): Endpoint {
    if chunk == [] then ep else Endpoint(ep.chunks + [chunk], ep.bytesProduced + |chunk|)
  }

  // Concatenation to a given length: cut off, or filled up with zeros.
  function Fit(s: Bytes, n: nat): (r: Bytes)
    ensures |r| == n
  {
    if |s| >= n then s[..n] else s + seq(n - |s|, _ => 0)
  }

  function Materialized(ep: Endpoint): Bytes {
    if |ep.chunks| == 0 then []
    else if |ep.chunks| == 1 then ep.chunks[0]
    else Fit(Flat(ep.chunks), ep.bytesProduced)
  }

  // Copying into a buffer stops at the buffer's end.
  function PasteAll(s: Bytes, ps: seq<Patch>): (r: Bytes)
    ensures |r| == |s|
    decreases |ps|
  {
    if ps == [] then s
    else Put(PasteAll(s, ps[..|ps| - 1]), ps[|ps| - 1].offset, ps[|ps| - 1].data)
  }

  // ---- The plain random-access file ----

  datatype File = File(content: Bytes, position: nat)

  function Splice(c: Bytes, at: nat, d: Bytes): Bytes
    requires at <= |c|
  {
    c[..at] + d + (if at + |d| < |c| then c[at + |d|..] else [])
  }

  // A write past the end is refused, as the encoder refuses it.
  function FileWrite(f: File, data: Bytes): File {
    if f.position > |f.content| then f
    else File(Splice(f.content, f.position, data), f.position + |data|)
  }

  function FileWriteResult(f: File, data: Bytes): int {
    if f.position > |f.content| && data != [] then AVERROR_EIO else |data|
  }

  // Where an offset counts from: the beginning, the position or the end; nothing else is known.
  datatype Origin = Unknown | From(at: nat)

  function OriginOf(f: File, whence: bv32): Origin {
    match whence & !AVSEEK_FORCE
    case 0 => From(0)
    case 1 => From(f.position)
    case 2 => From(|f.content|)
    case _ => Unknown
  }

  // Where the file can go; asking for the size, and going before the beginning, move nothing.
  predicate Reaches(f: File, offset: int, whence: bv32) {
    whence != AVSEEK_SIZE && OriginOf(f, whence).From? && OriginOf(f, whence).at + offset >= 0
  }

  function FileSeek(f: File, offset: int, whence: bv32): File {
    if Reaches(f, offset, whence) then f.(position := OriginOf(f, whence).at + offset) else f
  }

  function FileSeekResult(f: File, offset: int, whence: bv32): int {
    if Reaches(f, offset, whence) then OriginOf(f, whence).at + offset
    else if whence == AVSEEK_SIZE then |f.content| else AVERROR_EINVAL
  }

  // ---- Runs ----

  datatype Op =
    | WriteOp(data: Bytes)
    | SeekOp(offset: int, whence: bv32)
    | DrainOp(count: nat)     // the caller takes bytes off the stream and passes them on
    | TakeOp                  // the caller takes the patches recorded so far and passes them on

  // The encoder and what has reached the endpoint.
  datatype System = System(e: Encoder, ep: Endpoint, taken: seq<Patch>)

  const START: System := System(Encoder([], 0, 0, []), Endpoint([], 0), [])
  const EMPTY_FILE: File := File([], 0)

  function Step(s: System, op: Op): System {
    match op
    case WriteOp(data) => s.(e := Write(s.e, data))
    case SeekOp(offset, whence) => s.(e := s.e.(position := SeekPosition(s.e.position, s.e.size, offset, whence)))
    case DrainOp(count) =>
      var n := Min(count, |s.e.output|);
      s.(e := s.e.(output := s.e.output[n..]), ep := Accept(s.ep, s.e.output[..n]))
    case TakeOp => s.(e := s.e.(patches := []), taken := s.taken + s.e.patches)
  }

  // What the muxer is told: the return value of a write or a seek.
  function Answer(s: System, op: Op): int {
    match op
    case WriteOp(data) => WriteResult(s.e, data)
    case SeekOp(offset, whence) => SeekResult(s.e.position, s.e.size, offset, whence)
    case _ => 0
  }

  function FileStep(f: File, op: Op): File {
    match op
    case WriteOp(data) => FileWrite(f, data)
    case SeekOp(offset, whence) => FileSeek(f, offset, whence)
    case _ => f
  }

  function FileAnswer(f: File, op: Op): int {
    match op
    case WriteOp(data) => FileWriteResult(f, data)
    case SeekOp(offset, whence) => FileSeekResult(f, offset, whence)
    case _ => 0
  }

  function Run(s: System, ops: seq<Op>): System
    decreases |ops|
  {
    if ops == [] then s else Run(Step(s, ops[0]), ops[1..])
  }

  function FileRun(f: File, ops: seq<Op>): File
    decreases |ops|
  {
    if ops == [] then f else FileRun(FileStep(f, ops[0]), ops[1..])
  }

  // Every byte of the stream so far: passed on or still queued.
  function Stream(s: System): Bytes { Flat(s.ep.chunks) + s.e.output }

  function AllPatches(s: System): seq<Patch> { s.taken + s.e.patches }

  ghost predicate InBounds(ps: seq<Patch>, n: nat) {
    forall i :: 0 <= i < |ps| ==> ps[i].offset + |ps[i].data| <= n
  }

  /** The stream with all patches applied is the file, and the encoder's position and size are
      the file's. */
  ghost predicate Represents(s: System, f: File) {
    && |Stream(s)| == s.e.size && s.e.position == f.position
    && InBounds(AllPatches(s), s.e.size)
    && PasteAll(Stream(s), AllPatches(s)) == f.content
    && s.ep.bytesProduced == |Flat(s.ep.chunks)|
  }

  // ---- Patches ----

  lemma {:induction false} PasteAllExtends(s: Bytes, tail: Bytes, ps: seq<Patch>)
    requires InBounds(ps, |s|)
    ensures PasteAll(s + tail, ps) == PasteAll(s, ps) + tail
    decreases |ps|
  {
    if ps != [] {
      var last := ps[|ps| - 1];
      PasteAllExtends(s, tail, ps[..|ps| - 1]);
      PutExtends(PasteAll(s, ps[..|ps| - 1]), tail, last.offset, last.data);
    }
  }

  lemma PutExtends(s: Bytes, tail: Bytes, at: nat, d: Bytes)
    requires at + |d| <= |s|
    ensures Put(s + tail, at, d) == Put(s, at, d) + tail
  {
  }

  lemma PasteAllSnoc(s: Bytes, ps: seq<Patch>, p: Patch)
    ensures PasteAll(s, ps + [p]) == Put(PasteAll(s, ps), p.offset, p.data)
  {
    hide Put;
    assert (ps + [p])[..|ps|] == ps;
  }

  lemma PutLonger(s: Bytes, last: Patch, data: Bytes, longer: Patch)
    requires longer.offset == last.offset && longer.data == last.data + data
    ensures Put(s, longer.offset, longer.data) == Put(Put(s, last.offset, last.data), last.offset + |last.data|, data)
  {
    hide Put;
    PutTwice(s, last.offset, last.data, data, longer.data);
  }

  // Extending the last patch in place pastes the new bytes after it.
  lemma ExtendApplies(s: Bytes, init: seq<Patch>, last: Patch, data: Bytes, longer: Patch)
    requires longer.offset == last.offset && longer.data == last.data + data
    ensures PasteAll(s, init + [longer]) == Put(PasteAll(s, init + [last]), last.offset + |last.data|, data)
  {
    hide Put;
    PasteAllSnoc(s, init, last);
    PasteAllSnoc(s, init, longer);
    PutLonger(PasteAll(s, init), last, data, longer);
  }

  /** Coalescing changes nothing: a recorded overwrite is applied after all earlier patches. */
  lemma RecordApplies(s: Bytes, taken: seq<Patch>, ps: seq<Patch>, offset: nat, data: Bytes)
    requires offset + |data| <= |s| && InBounds(taken + ps, |s|)
    ensures PasteAll(s, taken + Record(ps, offset, data)) == Put(PasteAll(s, taken + ps), offset, data)
    ensures InBounds(taken + Record(ps, offset, data), |s|)
  {
    hide Put, PasteAll;
    if data == [] {
      PutNothing(PasteAll(s, taken + ps), offset);
    } else if ps != [] && ps[|ps| - 1].offset + |ps[|ps| - 1].data| == offset {
      var last := ps[|ps| - 1];
      var init := taken + ps[..|ps| - 1];
      assert taken + ps == init + [last];
      var next := taken + Record(ps, offset, data);
      assert next == init + [Patch(last.offset, last.data + data)];
      assert forall i :: 0 <= i < |init| ==> next[i] == (taken + ps)[i];
      ExtendApplies(s, init, last, data, Patch(last.offset, last.data + data));
    } else {
      assert taken + Record(ps, offset, data) == (taken + ps) + [Patch(offset, data)];
      PasteAllSnoc(s, taken + ps, Patch(offset, data));
    }
  }

  // Overwriting up to the end and appending the rest is splicing.
  lemma OverwriteThenAppend(c: Bytes, at: nat, data: Bytes, n: nat)
    requires at <= |c| && n == Min(|data|, |c| - at)
    ensures Put(c, at, data[..n]) + data[n..] == Splice(c, at, data)
  {
  }

  // ---- The run ----

  lemma WriteRepresents(s: System, f: File, data: Bytes)
    requires Represents(s, f)
    ensures Represents(Step(s, WriteOp(data)), FileWrite(f, data))
    ensures WriteResult(s.e, data) == FileWriteResult(f, data)
  {
    hide Put, Splice;
    if s.e.position <= s.e.size {
      var n := Overlap(s.e, data);
      var e' := Write(s.e, data);
      var stream := Stream(s);
      assert Stream(s.(e := e')) == stream + data[n..] by {
        assert Flat(s.ep.chunks) + (s.e.output + data[n..]) == stream + data[n..];
      }
      RecordApplies(stream, s.taken, s.e.patches, s.e.position, data[..n]);
      PasteAllExtends(stream, data[n..], s.taken + e'.patches);
      OverwriteThenAppend(f.content, f.position, data, n);
    }
  }

  lemma DrainRepresents(s: System, f: File, count: nat)
    requires Represents(s, f)
    ensures Represents(Step(s, DrainOp(count)), f)
  {
    var n := Min(count, |s.e.output|);
    var chunk := s.e.output[..n];
    assert s.e.output == chunk + s.e.output[n..];
    var next := Step(s, DrainOp(count));
    if n == 0 {
      assert s.e.output[0..] == s.e.output;
    } else {
      assert next.ep.chunks[..|next.ep.chunks| - 1] == s.ep.chunks;
      assert (Flat(s.ep.chunks) + chunk) + s.e.output[n..] == Flat(s.ep.chunks) + (chunk + s.e.output[n..]);
    }
    assert Stream(next) == Stream(s);
  }

  lemma StepRepresents(s: System, f: File, op: Op)
    requires Represents(s, f)
    ensures Represents(Step(s, op), FileStep(f, op))
    ensures Answer(s, op) == FileAnswer(f, op)
  {
    match op
    case WriteOp(data) => WriteRepresents(s, f, data);
    case SeekOp(_, _) =>
    case DrainOp(count) => DrainRepresents(s, f, count);
    case TakeOp => assert (s.taken + s.e.patches) + [] == s.taken + s.e.patches;
  }

  lemma {:induction false} RunRepresents(s: System, f: File, ops: seq<Op>)
    requires Represents(s, f)
    ensures Represents(Run(s, ops), FileRun(f, ops))
    decreases |ops|
  {
    hide Represents;
    if ops != [] {
      StepRepresents(s, f, ops[0]);
      RunRepresents(Step(s, ops[0]), FileStep(f, ops[0]), ops[1..]);
    }
  }

  /** Any run of writes and seeks, drained in any pieces, patches collected in any batches: once
      the stream is drained and the patches are taken, the endpoint rebuilds the plain file. */
  lemma RebuildsTheFile(ops: seq<Op>)
    ensures var s := Run(START, ops);
            s.e.output == [] && s.e.patches == [] ==>
              PasteAll(Materialized(s.ep), s.taken) == FileRun(EMPTY_FILE, ops).content
  {
    assert Represents(START, EMPTY_FILE) by { assert Flat([]) == []; }
    RunRepresents(START, EMPTY_FILE, ops);
    var s := Run(START, ops);
    if s.e.output == [] && s.e.patches == [] {
      MaterializedExactly(s.ep);
      assert Flat(s.ep.chunks) + [] == Flat(s.ep.chunks);
      assert s.taken + [] == s.taken;
    }
  }

  /** In the middle of any run the muxer cannot tell the encoder from the file. */
  lemma AnswersAreTheFiles(ops: seq<Op>, op: Op)
    ensures Answer(Run(START, ops), op) == FileAnswer(FileRun(EMPTY_FILE, ops), op)
  {
    assert Represents(START, EMPTY_FILE) by { assert Flat([]) == []; }
    RunRepresents(START, EMPTY_FILE, ops);
    StepRepresents(Run(START, ops), FileRun(EMPTY_FILE, ops), op);
  }

  /** What a muxer may count on: whence 0 goes to the offset itself, 1 moves from where the file is, 2
      from its end, with 0x20000 added or not; 0x10000 only asks for the size; and going before the
      beginning, or any other whence, answers -22. Nothing but the position ever changes. */
  lemma SeekMeans(ops: seq<Op>, offset: int, whence: bv32)
    ensures var f := FileRun(EMPTY_FILE, ops);
            var r, s, s' := Answer(Run(START, ops), SeekOp(offset, whence)), Run(START, ops), Step(Run(START, ops), SeekOp(offset, whence));
            var target := if whence == 0 || whence == 0x20000 then offset
                          else if whence == 1 || whence == 0x20001 then f.position + offset
                          else if whence == 2 || whence == 0x20002 then |f.content| + offset
                          else -1;
            && s' == s.(e := s.e.(position := s'.e.position))
            && s.e.position == f.position
            && (whence == 0x10000 ==> r == |f.content| && s' == s)
            && (whence != 0x10000 && target < 0 ==> r == -22 && s' == s)
            && (whence != 0x10000 && target >= 0 ==> r == target == s'.e.position)
  {
    hide PasteAll, Put;
    StartRepresents();
    RunRepresents(START, EMPTY_FILE, ops);
    WhenceMeans(whence);
  }

  lemma StartRepresents()
    ensures Represents(START, EMPTY_FILE)
  {
    assert Flat([]) == [];
  }

  lemma WhenceMeans(whence: bv32)
    ensures var w := whence & !AVSEEK_FORCE;
            && (w == 0 <==> whence == 0 || whence == 0x20000)
            && (w == 1 <==> whence == 1 || whence == 0x20001)
            && (w == 2 <==> whence == 2 || whence == 0x20002)
  {
  }

  lemma {:induction false} FileRunAppend(f: File, a: seq<Op>, b: seq<Op>)
    ensures FileRun(f, a + b) == FileRun(FileRun(f, a), b)
    decreases |a|
  {
    if a == [] {
      assert a + b == b;
    } else {
      assert (a + b)[0] == a[0] && (a + b)[1..] == a[1..] + b;
      FileRunAppend(FileStep(f, a[0]), a[1..], b);
    }
  }

  lemma {:induction false} CollectingChangesNothing(f: File, ops: seq<Op>)
    requires forall i :: 0 <= i < |ops| ==> ops[i].DrainOp? || ops[i].TakeOp?
    ensures FileRun(f, ops) == f
    decreases |ops|
  {
    if ops != [] {
      CollectingChangesNothing(FileStep(f, ops[0]), ops[1..]);
    }
  }

  /** A write past the end answers -5 and changes nothing; any other is taken whole, moves on by its
      length, and is what the file holds there from then on. */
  lemma WriteMeans(ops: seq<Op>, d: Bytes)
    ensures var f, f' := FileRun(EMPTY_FILE, ops), FileRun(EMPTY_FILE, ops + [WriteOp(d)]);
            var s, s' := Run(START, ops), Step(Run(START, ops), WriteOp(d));
            var r := Answer(s, WriteOp(d));
            && (f.position > |f.content| && d != [] ==> r == -5 && s' == s && f' == f)
            && (f.position <= |f.content| ==>
                  && r == |d| && s'.e.position == f'.position == f.position + |d|
                  && s'.e.size == |f'.content| == Max(|f.content|, f.position + |d|)
                  && forall i :: 0 <= i < |f'.content| ==>
                       f'.content[i] == if f.position <= i < f.position + |d| then d[i - f.position] else f.content[i])
  {
    hide PasteAll, Put;
    StartRepresents();
    RunRepresents(START, EMPTY_FILE, ops);
    StepRepresents(Run(START, ops), FileRun(EMPTY_FILE, ops), WriteOp(d));
    FileRunAppend(EMPTY_FILE, ops, [WriteOp(d)]);
    assert [WriteOp(d)][1..] == [];
    var f := FileRun(EMPTY_FILE, ops);
    assert FileRun(f, [WriteOp(d)]) == FileStep(f, WriteOp(d));
  }

  /** Filling in a header: after any run, going to k and writing d there gives, once all is collected,
      a file with d from k on and its old bytes elsewhere. */
  lemma OverwriteIsRebuilt(ops: seq<Op>, k: nat, d: Bytes, collect: seq<Op>)
    requires k <= |FileRun(EMPTY_FILE, ops).content|
    requires forall i :: 0 <= i < |collect| ==> collect[i].DrainOp? || collect[i].TakeOp?
    requires var s := Run(START, (ops + [SeekOp(k, 0), WriteOp(d)]) + collect); s.e.output == [] && s.e.patches == []
    ensures var s, c := Run(START, (ops + [SeekOp(k, 0), WriteOp(d)]) + collect), FileRun(EMPTY_FILE, ops).content;
            var file := PasteAll(Materialized(s.ep), s.taken);
            && |file| == Max(|c|, k + |d|)
            && forall i :: 0 <= i < |file| ==> file[i] == if k <= i < k + |d| then d[i - k] else c[i]
  {
    var f, both := FileRun(EMPTY_FILE, ops), [SeekOp(k, 0), WriteOp(d)];
    RebuildsTheFile((ops + both) + collect);
    hide Put, PasteAll, Materialized;
    FileRunAppend(EMPTY_FILE, ops + both, collect);
    FileRunAppend(EMPTY_FILE, ops, both);
    CollectingChangesNothing(FileRun(EMPTY_FILE, ops + both), collect);
    TwoSteps(f, both);
  }

  lemma TwoSteps(f: File, ops: seq<Op>)
    requires |ops| == 2
    ensures FileRun(f, ops) == FileStep(FileStep(f, ops[0]), ops[1])
  {
    assert ops[1..] == [ops[1]] && ops[1..][1..] == [];
    assert FileRun(FileStep(f, ops[0]), ops[1..]) == FileStep(FileStep(f, ops[0]), ops[1]);
  }

  /** The endpoint's bytes are its chunks end to end exactly when it holds fewer than two chunks
      or its byte counter counts just those chunks. The counter survives finalising and aborting,
      so an endpoint written to again afterwards is padded with zeros. */
  lemma MaterializedExactly(ep: Endpoint)
    ensures Materialized(ep) == Flat(ep.chunks) <==> |ep.chunks| < 2 || ep.bytesProduced == |Flat(ep.chunks)|
  {
    if |ep.chunks| == 1 {
      assert ep.chunks[..0] == [];
      assert Flat(ep.chunks) == [] + ep.chunks[0];
    }
  }

  // What finalising and aborting leave: no chunk, and the byte counter as it was.
  function Forgotten(ep: Endpoint): Endpoint { Endpoint([], ep.bytesProduced) }

  /** It does happen: an endpoint that takes a chunk, is aborted or finalised, and takes two more. */
  lemma StaleCounterPads(a: Bytes, b: Bytes, c: Bytes)
    requires a != [] && b != [] && c != []
    ensures var reused := Accept(Accept(Forgotten(Accept(START.ep, a)), b), c);
            Materialized(reused) == b + c + seq(|a|, _ => 0)
  {
    var reused := Accept(Accept(Forgotten(Accept(START.ep, a)), b), c);
    FlatOfTwo(b, c);
    assert reused.chunks == [b, c];
    assert |b + c| == |b| + |c|;
  }

  lemma FlatOfTwo(b: Bytes, c: Bytes)
    ensures Flat([b, c]) == b + c
  {
    assert [b, c][..1] == [b] && [b][..0] == [];
    assert Flat([b]) == [] + b;
  }
}

module SeekableOutput {
  import opened ByteQueues
  import opened StreamQueueSpec
  import opened StreamQueues
  import opened S = SeekableOutputSpec

  class MediaStreamEncoder {
    const queues: NativeByteQueues
    var outputPosition: nat
    var outputLogicalSize: nat
    var outputPatches: seq<Patch>

    ghost predicate Valid()
      reads this, queues, queues.inputQueue, queues.outputQueue
    {
      queues.Valid()
    }

    ghost function State(): Encoder
      reads this, queues, queues.inputQueue, queues.inputQueue.storage, queues.outputQueue, queues.outputQueue.storage
      requires Valid()
    {
      Encoder(queues.State().output, outputPosition, outputLogicalSize, outputPatches)
    }

    constructor (inputQueueLimitBytes: nat)
      ensures Valid() && fresh(queues.Repr()) && State() == START.e
    {
      queues := new NativeByteQueues(inputQueueLimitBytes);
      outputPosition, outputLogicalSize, outputPatches := 0, 0, [];
    }

    method WritePacket(buffer: Bytes) returns (r: int)
      requires Valid()
      modifies this, queues.Repr()
      ensures Valid() && fresh(queues.Repr() - old(queues.Repr()))
      ensures r == WriteResult(old(State()), buffer) && State() == S.Write(old(State()), buffer)
    {
      hide Record;
      if |buffer| == 0 {
        WriteNothing(State());
        assert buffer == [];
        return 0;
      }
      var offset := outputPosition;
      var cursor := 0;
      ghost var n := Overlap(State(), buffer);
      if offset < outputLogicalSize {
        var overwriteBytes := Min(|buffer|, outputLogicalSize - offset);
        RecordPatch(offset, buffer[..overwriteBytes]);
        offset := offset + overwriteBytes;
        cursor := cursor + overwriteBytes;
      }
      assert cursor == n && buffer[..0] == [];
      RecordNothing(old(outputPatches), old(outputPosition));
      if cursor < |buffer| {
        if offset != outputLogicalSize {
          return AVERROR_EIO;
        }
        queues.AppendOutput(buffer[cursor..]);
        outputLogicalSize := outputLogicalSize + (|buffer| - cursor);
        offset := offset + (|buffer| - cursor);
      }
      outputPosition := offset;
      return |buffer|;
    }

    method RecordPatch(offset: nat, data: Bytes)
      requires Valid()
      modifies this`outputPatches
      ensures outputPatches == Record(old(outputPatches), offset, data)
    {
      if |data| == 0 {
        return;
      }
      if |outputPatches| > 0 {
        var last := outputPatches[|outputPatches| - 1];
        if last.offset + |last.data| == offset {
          outputPatches := outputPatches[|outputPatches| - 1 := Patch(last.offset, last.data + data)];
          return;
        }
      }
      outputPatches := outputPatches + [Patch(offset, data)];
    }

    method Seek(offset: int, whence: bv32) returns (r: int)
      requires Valid()
      modifies this`outputPosition
      ensures r == SeekResult(old(outputPosition), outputLogicalSize, offset, whence)
      ensures outputPosition == SeekPosition(old(outputPosition), outputLogicalSize, offset, whence)
    {
      if whence == AVSEEK_SIZE {
        return outputLogicalSize;
      }
      var normalizedWhence := whence & !AVSEEK_FORCE;
      var nextPosition := 0;
      if normalizedWhence == SEEK_SET {
        nextPosition := offset;
      } else if normalizedWhence == SEEK_CUR {
        nextPosition := outputPosition + offset;
      } else if normalizedWhence == SEEK_END {
        nextPosition := outputLogicalSize + offset;
      } else {
        return AVERROR_EINVAL;
      }
      if nextPosition < 0 {
        return AVERROR_EINVAL;
      }
      outputPosition := nextPosition;
      return nextPosition;
    }

    // The draining half of WriteInto: production of encoded bytes is not part of this model.
    method DrainInto(dst: array<Byte>, capacity: nat) returns (bytesRead: nat)
      requires Valid() && capacity <= dst.Length && dst !in queues.Repr()
      modifies queues.Repr(), dst
      ensures Valid() && queues.Repr() == old(queues.Repr())
      ensures bytesRead == Min(capacity, |old(State()).output|)
      ensures State() == old(State()).(output := old(State()).output[bytesRead..])
      ensures dst[..] == Put(old(dst[..]), 0, old(State()).output[..bytesRead])
    {
      bytesRead := queues.DrainOutput(dst, 0, capacity);
    }

    method TakeOutputPatches() returns (patches: seq<Patch>)
      requires Valid()
      modifies this`outputPatches
      ensures patches == old(outputPatches) && outputPatches == []
    {
      patches := outputPatches;
      outputPatches := [];
    }
  }

  lemma RecordNothing(ps: seq<Patch>, offset: nat)
    ensures Record(ps, offset, []) == ps
  {
  }

  lemma WriteNothing(e: Encoder)
    ensures S.Write(e, []) == e && WriteResult(e, []) == 0
  {
    assert e.output + [] == e.output;
  }

  // What a caller passes as patches: an entry without a non-empty buffer is skipped, a negative
  // offset counts as zero.
  datatype JsPatch = NotAPatch | JsPatch(offset: int, data: Bytes)

  function ReadableOne(p: JsPatch): seq<Patch> {
    if p.NotAPatch? || p.data == [] then [] else [Patch(if p.offset < 0 then 0 else p.offset, p.data)]
  }

  function Readable(ps: seq<JsPatch>): seq<Patch>
    decreases |ps|
  {
    if ps == [] then [] else Readable(ps[..|ps| - 1]) + ReadableOne(ps[|ps| - 1])
  }

  // Where a patch's bytes begin; a negative offset counts as zero.
  function Begins(p: JsPatch): nat { if p.JsPatch? && p.offset > 0 then p.offset else 0 }

  predicate Reached(p: JsPatch, i: nat) { p.JsPatch? && Begins(p) <= i < Begins(p) + |p.data| }

  lemma PatchMeans(s: Bytes, ps: seq<JsPatch>, i: nat)
    requires ps != [] && i < |s|
    ensures var before, last := ps[..|ps| - 1], ps[|ps| - 1];
            PasteAll(s, Readable(ps))[i] == if Reached(last, i) then last.data[i - Begins(last)] else PasteAll(s, Readable(before))[i]
  {
    hide PasteAll, Put;
    var before, last := ps[..|ps| - 1], ps[|ps| - 1];
    var earlier := Readable(before);
    assert Readable(ps) == earlier + ReadableOne(last);
    if last.NotAPatch? || last.data == [] {
      assert earlier + [] == earlier;
    } else {
      var p := Patch(Begins(last), last.data);
      assert ReadableOne(last) == [p];
      PasteAllSnoc(s, earlier, p);
      PutAt(PasteAll(s, earlier), p.offset, p.data, i);
    }
  }

  lemma PutAt(s: Bytes, at: nat, d: Bytes, i: nat)
    requires i < |s|
    ensures Put(s, at, d)[i] == if at <= i < at + |d| then d[i - at] else s[i]
  {
  }

  /** What patching leaves at each position of the output: the byte of the last patch that reaches it,
      and what was there if none does. Nothing is added. */
  lemma {:induction false} LastPatchWins(s: Bytes, ps: seq<JsPatch>, i: nat, k: nat)
    requires i < |s| && k <= |ps| && (k > 0 ==> Reached(ps[k - 1], i)) && forall j :: k <= j < |ps| ==> !Reached(ps[j], i)
    ensures var r := PasteAll(s, Readable(ps));
            |r| == |s| && r[i] == if k == 0 then s[i] else ps[k - 1].data[i - Begins(ps[k - 1])]
    decreases |ps|
  {
    hide PasteAll, Readable, Reached, Begins;
    if ps == [] {
      NothingPasted(s, ps);
    } else {
      PatchMeans(s, ps, i);
      if k < |ps| {
        LastPatchWins(s, ps[..|ps| - 1], i, k);
      } else {
        ReachedIsPatch(ps[k - 1], i);
      }
    }
  }

  lemma NothingPasted(s: Bytes, ps: seq<JsPatch>)
    requires ps == []
    ensures PasteAll(s, Readable(ps)) == s
  {
  }

  lemma ReachedIsPatch(p: JsPatch, i: nat)
    requires Reached(p, i)
    ensures p.JsPatch? && 0 <= i - Begins(p) < |p.data|
  {
  }

  // Patches as the encoder hands them over.
  function Handed(ps: seq<Patch>): seq<JsPatch> {
    seq(|ps|, i requires 0 <= i < |ps| => JsPatch.JsPatch(ps[i].offset, ps[i].data))
  }

  lemma {:induction false} HandedAppliesAll(s: Bytes, ps: seq<Patch>)
    ensures PasteAll(s, Readable(Handed(ps))) == PasteAll(s, ps)
    decreases |ps|
  {
    hide Put, ReadableOne;
    if ps != [] {
      var init, last := ps[..|ps| - 1], ps[|ps| - 1];
      HandedAppliesAll(s, init);
      assert Handed(ps)[..|ps| - 1] == Handed(init);
      PasteOne(s, Readable(Handed(init)), JsPatch.JsPatch(last.offset, last.data));
    }
  }

  // One more entry: pasted, or skipped without a trace.
  lemma PasteOne(s: Bytes, done: seq<Patch>, p: JsPatch)
    ensures PasteAll(s, done + ReadableOne(p)) ==
            if p.NotAPatch? then PasteAll(s, done) else Put(PasteAll(s, done), if p.offset < 0 then 0 else p.offset, p.data)
  {
    hide Put;
    if p.NotAPatch? || p.data == [] {
      assert done + [] == done;
      if p.JsPatch? {
        PutNothing(PasteAll(s, done), if p.offset < 0 then 0 else p.offset);
      }
    } else {
      PasteAllSnoc(s, done, ReadableOne(p)[0]);
    }
  }

  lemma ClippedPut(s: Bytes, at: nat, d: Bytes, fitting: Bytes)
    requires fitting <= d && (fitting == d || at + |fitting| == |s|)
    ensures Put(s, at, fitting) == Put(s, at, d)
  {
  }

  lemma PutOutside(s: Bytes, at: nat, d: Bytes)
    requires at >= |s|
    ensures Put(s, at, d) == s
  {
  }

  method ApplyPatches(buffer: array<Byte>, patches: seq<JsPatch>)
    modifies buffer
    ensures buffer[..] == PasteAll(old(buffer[..]), Readable(patches))
  {
    hide Put, ReadableOne;
    var i := 0;
    assert patches[..0] == [];
    while i < |patches|
      invariant 0 <= i <= |patches|
      invariant buffer[..] == PasteAll(old(buffer[..]), Readable(patches[..i]))
    {
      var patch := patches[i];
      assert patches[..i + 1][..i] == patches[..i];
      PasteOne(old(buffer[..]), Readable(patches[..i]), patch);
      i := i + 1;
      if patch.NotAPatch? {
        continue;
      }
      var at: nat := if patch.offset < 0 then 0 else patch.offset;
      if |patch.data| == 0 {
        PutNothing(buffer[..], at);
        continue;
      }
      if at < buffer.Length {
        var fitting := patch.data[..Min(|patch.data|, buffer.Length - at)];
        ClippedPut(buffer[..], at, patch.data, fitting);
        MemCpy(buffer, at, fitting);
      } else {
        PutOutside(buffer[..], at, patch.data);
      }
    }
    assert patches[..|patches|] == patches;
  }

  // Its chunks are buffers of its own. A single one is handed out as it is, and patched in place.
  class BinaryOutputEndpoint {
    var chunks: seq<array<Byte>>
    var bytesProduced: nat

    ghost function State(): Endpoint
      reads this, chunks
    {
      Endpoint(Held(chunks), bytesProduced)
    }

    constructor ()
      ensures State() == START.ep && chunks == []
    {
      chunks, bytesProduced := [], 0;
    }

    method WriteChunk(chunk: array<Byte>, bytes: int, offset: int)
      modifies this
      ensures var o := if offset < 0 then 0 else Min(offset, chunk.Length);
              var n := if bytes < 0 then 0 else Min(bytes, chunk.Length - o);
              State() == Accept(old(State()), chunk[o..o + n])
      ensures forall b :: b in chunks ==> b in old(chunks) || fresh(b)
    {
      var normalizedOffset := if offset < 0 then 0 else Min(offset, chunk.Length);
      var normalizedBytes := if bytes < 0 then 0 else Min(bytes, chunk.Length - normalizedOffset);
      if normalizedBytes == 0 {
        return;
      }
      bytesProduced := bytesProduced + normalizedBytes;
      var owned := new Byte[normalizedBytes](i requires 0 <= i < normalizedBytes reads chunk => chunk[normalizedOffset + i]);
      assert owned[..] == chunk[normalizedOffset..normalizedOffset + normalizedBytes];
      chunks := chunks + [owned];
    }

    method Materialize() returns (buffer: array<Byte>)
      ensures buffer[..] == Materialized(State())
      ensures if |chunks| == 1 then buffer == chunks[0] else fresh(buffer)
    {
      if |chunks| == 0 {
        buffer := new Byte[0];
      } else if |chunks| == 1 {
        buffer := chunks[0];
      } else {
        buffer := Concat(chunks, bytesProduced);
      }
    }

    method FinalizeSeekable(patches: seq<JsPatch>) returns (output: Bytes)
      modifies this, chunks
      ensures output == PasteAll(Materialized(old(State())), Readable(patches))
      ensures State() == Forgotten(old(State())) && chunks == []
    {
      var buffer := Materialize();
      ApplyPatches(buffer, patches);
      chunks := [];
      output := buffer[..];
    }

    method Abort()
      modifies this
      ensures State() == Forgotten(old(State())) && chunks == []
    {
      chunks := [];
    }
  }

  // What the buffers hold.
  ghost function Held(list: seq<array<Byte>>): seq<Bytes>
    reads list
  {
    seq(|list|, i requires 0 <= i < |list| reads list => list[i][..])
  }

  method Concat(buffers: seq<array<Byte>>, total: nat) returns (buffer: array<Byte>)
    ensures fresh(buffer) && buffer[..] == Fit(Flat(Held(buffers)), total)
  {
    ghost var list := Held(buffers);
    buffer := new Byte[total](_ => 0);
    var i, at := 0, 0;
    assert list[..0] == [];
    assert buffer[..] == Fit([], total);
    while i < |buffers|
      invariant 0 <= i <= |buffers| && fresh(buffer) && buffer.Length == total && Held(buffers) == list
      invariant at == Min(|Flat(list[..i])|, total)
      invariant buffer[..] == Fit(Flat(list[..i]), total)
    {
      assert list[..i + 1][..i] == list[..i];
      FitAppend(Flat(list[..i]), list[i], total);
      var n := Min(buffers[i].Length, total - at);
      MemCpy(buffer, at, buffers[i][..n]);
      at := at + n;
      i := i + 1;
    }
    assert list[..|list|] == list;
  }

  lemma FitAppend(s: Bytes, d: Bytes, total: nat)
    ensures var at := Min(|s|, total);
            Fit(s + d, total) == Put(Fit(s, total), at, d[..Min(|d|, total - at)])
  {
    var at := Min(|s|, total);
    var n := Min(|d|, total - at);
    var zeros := seq(total - at - n, _ => 0);
    if |s| >= total {
      assert d[..0] == [];
      assert (s + d)[..total] == s[..total];
    } else {
      assert Fit(s, total)[at + n..] == zeros;
      if n < |d| {
        assert (s + d)[..total] == s + d[..n];
      } else {
        assert d[..n] == d;
      }
    }
  }

  /** From the muxer's first byte to the returned file: a fresh endpoint fed by the drained chunks
      and finalised with the taken patches returns the plain file. */
  lemma EndToEnd(ops: seq<Op>)
    ensures var s := S.Run(START, ops);
            s.e.output == [] && s.e.patches == [] ==>
              PasteAll(Materialized(s.ep), Readable(Handed(s.taken))) == FileRun(EMPTY_FILE, ops).content
  {
    RebuildsTheFile(ops);
    var s := S.Run(START, ops);
    HandedAppliesAll(Materialized(s.ep), s.taken);
  }
}
