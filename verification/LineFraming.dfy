/** Newline framing of a character stream. */
module LineFramingSpec {
  import opened JsText

  const NEWLINE: Unit := 0x0A

  // Where the first newline is, or the length of the text when there is none.
  function NewlineAt(s: Text): (i: nat)
    ensures i <= |s| && (i < |s| ==> s[i] == NEWLINE)
    ensures forall k :: 0 <= k < i ==> s[k] != NEWLINE
    decreases |s|
  {
    if s == [] || s[0] == NEWLINE then 0 else 1 + NewlineAt(s[1..])
  }

  // Every newline ends a line; what follows the last newline is not a line yet.
  function Lines(s: Text): seq<Text>
    decreases |s|
  {
    var i := NewlineAt(s);
    if i == |s| then [] else [s[..i]] + Lines(s[i + 1..])
  }

  function Tail(s: Text): Text
    decreases |s|
  {
    var i := NewlineAt(s);
    if i == |s| then s else Tail(s[i + 1..])
  }

  // A frame is a trimmed line; blank lines are skipped.
  function Frames(lines: seq<Text>): seq<Text>
    decreases |lines|
  {
    if lines == [] then []
    else
      var raw := Trim(lines[0]);
      if raw == [] then Frames(lines[1..]) else [raw] + Frames(lines[1..])
  }

  function Join(chunks: seq<Text>): Text
    decreases |chunks|
  {
    if chunks == [] then [] else chunks[0] + Join(chunks[1..])
  }

  // What a receiver delivers for one chunk, with `held` left over from before.
  function Delivered(held: Text, chunks: seq<Text>): seq<Text>
    decreases |chunks|
  {
    if chunks == [] then []
    else Frames(Lines(held + chunks[0])) + Delivered(Tail(held + chunks[0]), chunks[1..])
  }

  lemma {:induction false} FirstNewline(s: Text, i: nat)
    requires i < |s| && s[i] == NEWLINE && forall k :: 0 <= k < i ==> s[k] != NEWLINE
    ensures NewlineAt(s) == i
  {
  }

  lemma {:induction false} NoNewline(s: Text)
    requires NEWLINE !in s
    ensures NewlineAt(s) == |s| && Lines(s) == [] && Tail(s) == s
  {
  }

  // What a sender writes: each text with a newline after it.
  function Written(texts: seq<Text>): Text
    decreases |texts|
  {
    if texts == [] then [] else texts[0] + [NEWLINE] + Written(texts[1..])
  }

  lemma {:induction false} LinesHaveNone(s: Text)
    ensures NEWLINE !in Tail(s) && forall l :: l in Lines(s) ==> NEWLINE !in l
    decreases |s|
  {
    var i := NewlineAt(s);
    if i < |s| {
      LinesHaveNone(s[i + 1..]);
    }
  }

  lemma Cut(s: Text, i: nat, lines: Text, tail: Text)
    requires i < |s| && s[i] == NEWLINE && s[i + 1..] == lines + tail
    ensures s == (s[..i] + [NEWLINE] + lines) + tail
  {
  }

  // The lines and the remainder hold every character of the text.
  lemma {:induction false} LinesRebuild(s: Text)
    ensures s == Written(Lines(s)) + Tail(s)
    decreases |s|
  {
    var i := NewlineAt(s);
    if i < |s| {
      LinesRebuild(s[i + 1..]);
      HeadLine(s, i);
      WrittenCons(s[..i], Lines(s[i + 1..]));
      hide Lines, Tail, Written;
      Cut(s, i, Written(Lines(s[i + 1..])), Tail(s[i + 1..]));
    } else {
      NoNewline(s);
    }
  }

  lemma WrittenCons(line: Text, rest: seq<Text>)
    ensures Written([line] + rest) == line + [NEWLINE] + Written(rest)
  {
    assert ([line] + rest)[0] == line && ([line] + rest)[1..] == rest;
  }

  lemma HeadLine(s: Text, i: nat)
    requires i < |s| && i == NewlineAt(s)
    ensures Lines(s) == [s[..i]] + Lines(s[i + 1..]) && Tail(s) == Tail(s[i + 1..])
  {
    hide NewlineAt;
  }

  lemma Regroup<T>(a: seq<T>, b: seq<T>, c: seq<T>)
    ensures a + (b + c) == a + b + c
  {
  }

  // Splitting off what is already known leaves the lines of the remainder and the new text.
  lemma {:induction false} LinesAppend(a: Text, b: Text)
    ensures Lines(a + b) == Lines(a) + Lines(Tail(a) + b) && Tail(a + b) == Tail(Tail(a) + b)
    decreases |a|
  {
    var i := NewlineAt(a);
    if i < |a| {
      FirstNewline(a + b, i);
      assert (a + b)[..i] == a[..i] && (a + b)[i + 1..] == a[i + 1..] + b;
      LinesAppend(a[i + 1..], b);
      HeadLine(a, i);
      HeadLine(a + b, i);
      hide Lines, Tail, Written, NewlineAt;
      Regroup([a[..i]], Lines(a[i + 1..]), Lines(Tail(a) + b));
    } else {
      NoNewline(a);
      assert [] + Lines(a + b) == Lines(a + b);
    }
  }

  lemma {:induction false} FramesAppend(a: seq<Text>, b: seq<Text>)
    ensures Frames(a + b) == Frames(a) + Frames(b)
    decreases |a|
  {
    if a == [] {
      assert a + b == b;
    } else {
      assert (a + b)[1..] == a[1..] + b;
      FramesAppend(a[1..], b);
    }
  }

  /** How the stream was cut does not matter: the frames delivered are those of the whole text. */
  lemma {:induction false} ChunksDoNotMatter(held: Text, chunks: seq<Text>)
    requires NEWLINE !in held
    ensures Delivered(held, chunks) == Frames(Lines(held + Join(chunks)))
    decreases |chunks|
  {
    if chunks == [] {
      assert held + [] == held;
      NoNewline(held);
    } else {
      var now, rest := held + chunks[0], Join(chunks[1..]);
      LinesHaveNone(now);
      assert held + Join(chunks) == now + rest;
      LinesAppend(now, rest);
      FramesAppend(Lines(now), Lines(Tail(now) + rest));
      ChunksDoNotMatter(Tail(now), chunks[1..]);
    }
  }

  // A text that stands for itself on the wire.
  ghost predicate Frameable(t: Text) { NEWLINE !in t && t != [] && Trim(t) == t }

  /** Texts written one a line are read back as the same frames, in order and however the stream
      was cut, if and only if none holds a newline, is empty or has white space at an end. */
  lemma WrittenComesBack(texts: seq<Text>, chunks: seq<Text>)
    requires Join(chunks) == Written(texts)
    ensures Delivered([], chunks) == texts <==> forall i :: 0 <= i < |texts| ==> Frameable(texts[i])
  {
    hide Lines, Frames, Trim, Delivered, Join, Written;
    assert [] + Join(chunks) == Join(chunks);
    ChunksDoNotMatter([], chunks);
    if forall i :: 0 <= i < |texts| ==> Frameable(texts[i]) {
      WrittenLines(texts);
      FramesOfTrimmed(texts);
    }
    LinesHaveNone(Written(texts));
    FramesAreFrameable(Lines(Written(texts)));
  }

  /** Lines end with 0x0A: " a", a line feed in the next chunk, an empty line and an unfinished b deliver
      just "a". */
  lemma FramingExample()
    ensures Delivered([], [[0x20, 0x61], [0x0A, 0x0A, 0x62]]) == [[0x61]]
  {
    hide Delivered, Lines, Frames, Trim, NewlineAt;
    var chunks: seq<Text> := [[0x20, 0x61], [0x0A, 0x0A, 0x62]];
    ChunksDoNotMatter([], chunks);
    assert chunks[1..] == [chunks[1]] && chunks[1..][1..] == [];
    assert Join(chunks[1..]) == chunks[1] + [];
    assert [] + Join(chunks) == [0x20, 0x61, 0x0A, 0x0A, 0x62];
    ExampleLines([0x20, 0x61, 0x0A, 0x0A, 0x62]);
    ExampleFrames([0x20, 0x61], []);
  }

  lemma ExampleLines(s: Text)
    requires s == [0x20, 0x61, 0x0A, 0x0A, 0x62]
    ensures Lines(s) == [[0x20, 0x61], []]
  {
    hide NewlineAt;
    FirstNewline(s, 2);
    FirstNewline(s[3..], 0);
    NoNewline(s[3..][1..]);
    var t := s[3..];
    assert Lines(t[1..]) == [];
    assert Lines(t) == [t[..0]] + Lines(t[1..]);
    assert Lines(s) == [s[..2]] + Lines(t);
    assert s[..2] == [0x20, 0x61] && t[..0] == [];
  }

  lemma ExampleFrames(line: Text, blank: Text)
    requires line == [0x20, 0x61] && blank == []
    ensures Frames([line, blank]) == [[0x61]]
  {
    var a: Text, lines, last := [0x61], [line, blank], [blank];
    assert line[1..] == a && TrimStart(a) == a && TrimEnd(a) == a;
    assert TrimStart(line) == a && TrimStart(blank) == [] && TrimEnd(blank) == [];
    assert lines[1..] == last && last[1..] == [];
    assert Frames(last) == [] && Frames(lines) == [a] + Frames(last);
  }

  // Trimming keeps a middle part and leaves no white space at its ends.
  lemma {:induction false} TrimStartPart(s: Text)
    ensures forall u :: u in TrimStart(s) ==> u in s
    ensures TrimStart(s) == [] || !IsSpace(TrimStart(s)[0])
    decreases |s|
  {
    if s != [] && IsSpace(s[0]) {
      TrimStartPart(s[1..]);
    }
  }

  lemma {:induction false} TrimEndPart(s: Text)
    ensures TrimEnd(s) <= s
    ensures TrimEnd(s) == [] || !IsSpace(TrimEnd(s)[|TrimEnd(s)| - 1])
    decreases |s|
  {
    if s != [] && IsSpace(s[|s| - 1]) {
      TrimEndPart(s[..|s| - 1]);
    }
  }

  lemma {:induction false} FramesAreFrameable(lines: seq<Text>)
    requires forall l :: l in lines ==> NEWLINE !in l
    ensures forall i :: 0 <= i < |Frames(lines)| ==> Frameable(Frames(lines)[i])
    decreases |lines|
  {
    if lines != [] {
      FramesAreFrameable(lines[1..]);
      var raw := Trim(lines[0]);
      TrimStartPart(lines[0]);
      TrimEndPart(TrimStart(lines[0]));
      if raw != [] {
        assert raw[0] == TrimStart(lines[0])[0];
        assert forall u :: u in raw ==> u in lines[0];
        assert Trim(raw) == raw;
        assert Frameable(raw);
        assert Frames(lines) == [raw] + Frames(lines[1..]);
      }
    }
  }

  lemma {:induction false} WrittenLines(texts: seq<Text>)
    requires forall i :: 0 <= i < |texts| ==> NEWLINE !in texts[i]
    ensures Lines(Written(texts)) == texts && Tail(Written(texts)) == []
    decreases |texts|
  {
    hide NewlineAt;
    if texts == [] {
      NoNewline([]);
    } else {
      var s, t := Written(texts), texts[0];
      assert s == t + ([NEWLINE] + Written(texts[1..]));
      FirstNewline(s, |t|);
      assert s[..|t|] == t && s[|t| + 1..] == Written(texts[1..]);
      WrittenLines(texts[1..]);
    }
  }

  lemma {:induction false} FramesOfTrimmed(texts: seq<Text>)
    requires forall i :: 0 <= i < |texts| ==> texts[i] != [] && Trim(texts[i]) == texts[i]
    ensures Frames(texts) == texts
    decreases |texts|
  {
    if texts != [] {
      FramesOfTrimmed(texts[1..]);
    }
  }
}

module LineFraming {
  import opened JsText
  import opened LineFramingSpec

  class LineFramedSocket {
    var buffer: Text

    constructor ()
      ensures buffer == []
    {
      buffer := [];
    }

    // The texts handed to the frame handlers for one chunk, before they are read as JSON.
    method Receive(chunk: Text) returns (frames: seq<Text>)
      modifies this
      ensures frames == Frames(Lines(old(buffer) + chunk)) && buffer == Tail(old(buffer) + chunk)
    {
      buffer := buffer + chunk;
      frames := [];
      ghost var all := buffer;
      var newlineIndex := NewlineAt(buffer);
      while newlineIndex < |buffer|
        invariant newlineIndex == NewlineAt(buffer)
        invariant frames + Frames(Lines(buffer)) == Frames(Lines(all)) && Tail(buffer) == Tail(all)
        decreases |buffer|
      {
        var raw := Trim(buffer[..newlineIndex]);
        HeadLine(buffer, newlineIndex);
        hide Lines, Tail, NewlineAt;
        buffer := buffer[newlineIndex + 1..];
        if raw != [] {
          frames := frames + [raw];
        }
        newlineIndex := NewlineAt(buffer);
      }
      assert Lines(buffer) == [];
    }
  }
}
