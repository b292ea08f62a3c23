/** The byte-capped capture of the two output streams of a contained process. */
module OutputCapture {

  type Byte = x: int | 0 <= x < 256

  datatype Stream = Stdout | Stderr

  /** One `data` event. */
  datatype Chunk = Chunk(stream: Stream, bytes: seq<Byte>)

  /** The bytes of the first `n` events, in arrival order. */
  function BytesUpTo(chunks: seq<Chunk>, n: nat): seq<Byte>
    requires n <= |chunks|
  {
    if n == 0 then [] else BytesUpTo(chunks, n - 1) + chunks[n - 1].bytes
  }

  /** The bytes of all events, in arrival order. */
  function AllBytes(chunks: seq<Chunk>): seq<Byte> {
    BytesUpTo(chunks, |chunks|)
  }

  function StreamUpTo(chunks: seq<Chunk>, s: Stream, n: nat): seq<Byte>
    requires n <= |chunks|
  {
    if n == 0 then []
    else StreamUpTo(chunks, s, n - 1) + if chunks[n - 1].stream == s then chunks[n - 1].bytes else []
  }

  /** The bytes of one stream. */
  function StreamBytes(chunks: seq<Chunk>, s: Stream): seq<Byte> {
    StreamUpTo(chunks, s, |chunks|)
  }

  function FlattenUpTo(buffers: seq<seq<Byte>>, n: nat): seq<Byte>
    requires n <= |buffers|
  {
    if n == 0 then [] else FlattenUpTo(buffers, n - 1) + buffers[n - 1]
  }

  /** `Buffer.concat` */
  function Flatten(buffers: seq<seq<Byte>>): seq<Byte> {
    FlattenUpTo(buffers, |buffers|)
  }

  function Min(a: int, b: int): int {
    if a < b then a else b
  }

  function Max(a: int, b: int): int {
    if a < b then b else a
  }

  lemma {:induction false} SameUpTo(chunks: seq<Chunk>, c: Chunk, s: Stream, n: nat)
    requires n <= |chunks|
    ensures BytesUpTo(chunks + [c], n) == BytesUpTo(chunks, n)
    ensures StreamUpTo(chunks + [c], s, n) == StreamUpTo(chunks, s, n)
  {
    if n > 0 {
      SameUpTo(chunks, c, s, n - 1);
    }
  }

  lemma AppendChunk(chunks: seq<Chunk>, c: Chunk, s: Stream)
    ensures AllBytes(chunks + [c]) == AllBytes(chunks) + c.bytes
    ensures StreamBytes(chunks + [c], s) == StreamBytes(chunks, s) + if c.stream == s then c.bytes else []
  {
    SameUpTo(chunks, c, s, |chunks|);
  }

  lemma {:induction false} SameBuffers(buffers: seq<seq<Byte>>, b: seq<Byte>, n: nat)
    requires n <= |buffers|
    ensures FlattenUpTo(buffers + [b], n) == FlattenUpTo(buffers, n)
  {
    if n > 0 {
      SameBuffers(buffers, b, n - 1);
    }
  }

  lemma AppendBuffer(buffers: seq<seq<Byte>>, b: seq<Byte>)
    ensures Flatten(buffers + [b]) == Flatten(buffers) + b
  {
    SameBuffers(buffers, b, |buffers|);
  }

  /** What the capture has kept, as events: cutting the arrivals off after `cap` bytes. */
  ghost predicate CutOff(arrived: seq<Chunk>, kept: seq<Chunk>, cap: int) {
    && AllBytes(kept) == AllBytes(arrived)[..Min(Max(0, cap), |AllBytes(arrived)|)]
    && StreamBytes(kept, Stdout) <= StreamBytes(arrived, Stdout)
    && StreamBytes(kept, Stderr) <= StreamBytes(arrived, Stderr)
  }

  // As long as everything fits, everything is kept.
  ghost predicate Complete(arrived: seq<Chunk>, kept: seq<Chunk>, cap: int) {
    |AllBytes(arrived)| <= Max(0, cap) ==> kept == arrived
  }

  lemma CutOneMore(arrived: seq<Chunk>, kept: seq<Chunk>, cap: int, event: Chunk)
    requires CutOff(arrived, kept, cap) && Complete(arrived, kept, cap)
    ensures var remaining := Max(0, cap - |AllBytes(kept)|);
            var part := Chunk(event.stream, event.bytes[..Min(remaining, |event.bytes|)]);
            && CutOff(arrived + [event], kept + [part], cap)
            && Complete(arrived + [event], kept + [part], cap)
  {
    var remaining := Max(0, cap - |AllBytes(kept)|);
    var part := Chunk(event.stream, event.bytes[..Min(remaining, |event.bytes|)]);
    AppendChunk(arrived, event, Stdout);
    AppendChunk(arrived, event, Stderr);
    AppendChunk(kept, part, Stdout);
    AppendChunk(kept, part, Stderr);
    if |AllBytes(arrived)| <= Max(0, cap) {
      TakeMore(AllBytes(arrived), event.bytes, Max(0, cap));
      assert |part.bytes| == |event.bytes| ==> part == event;
    } else {
      TakeNoMore(AllBytes(arrived), event.bytes, Max(0, cap));
    }
  }

  lemma TakeNoMore(all: seq<Byte>, more: seq<Byte>, room: nat)
    requires room <= |all|
    ensures (all + more)[..room] == all[..room]
  {
  }

  lemma TakeMore(all: seq<Byte>, more: seq<Byte>, room: nat)
    requires |all| <= room
    ensures (all + more)[..Min(room, |all| + |more|)] == all + more[..Min(room - |all|, |more|)]
  {
  }

  // How the byte count and the flag move.
  lemma Accounted(arrived: seq<Chunk>, kept: seq<Chunk>, cap: int, event: Chunk)
    requires CutOff(arrived, kept, cap)
    ensures var remaining := Max(0, cap - |AllBytes(kept)|);
            var part := Chunk(event.stream, event.bytes[..Min(remaining, |event.bytes|)]);
            && |AllBytes(kept + [part])| == |AllBytes(kept)| + |part.bytes|
            && (|AllBytes(arrived + [event])| > Max(0, cap) <==> |AllBytes(arrived)| > Max(0, cap) || |event.bytes| > remaining)
  {
    var remaining := Max(0, cap - |AllBytes(kept)|);
    AppendChunk(arrived, event, Stdout);
    AppendChunk(kept, Chunk(event.stream, event.bytes[..Min(remaining, |event.bytes|)]), Stdout);
  }

  // Pushing the kept part, or nothing when it is empty, keeps a buffer equal to its stream.
  lemma BufferStep(buffers: seq<seq<Byte>>, kept: seq<Chunk>, part: Chunk, s: Stream)
    requires Flatten(buffers) == StreamBytes(kept, s)
    ensures part.stream == s ==> Flatten(buffers + [part.bytes]) == StreamBytes(kept + [part], s)
    ensures part.stream != s || part.bytes == [] ==> Flatten(buffers) == StreamBytes(kept + [part], s)
  {
    AppendBuffer(buffers, part.bytes);
    AppendChunk(kept, part, s);
  }

  /** In arrival order the kept bytes are exactly the first bytes that fit under the cap; each stream's
      buffer is a prefix of that stream; and `truncated` says exactly that something was cut. */
  ghost predicate Consistent(cap: int, capturedBytes: int, truncated: bool, stdoutChunks: seq<seq<Byte>>,
                             stderrChunks: seq<seq<Byte>>, arrived: seq<Chunk>, kept: seq<Chunk>)
  {
    && CutOff(arrived, kept, cap)
    && Complete(arrived, kept, cap)
    && capturedBytes == |AllBytes(kept)|
    && (truncated <==> |AllBytes(arrived)| > Max(0, cap))
    && Flatten(stdoutChunks) == StreamBytes(kept, Stdout)
    && Flatten(stderrChunks) == StreamBytes(kept, Stderr)
  }

  lemma ConsistentStep(cap: int, captured: int, truncated: bool, out: seq<seq<Byte>>, err: seq<seq<Byte>>,
                       arrived: seq<Chunk>, kept: seq<Chunk>, event: Chunk)
    requires Consistent(cap, captured, truncated, out, err, arrived, kept)
    ensures var remaining := Max(0, cap - captured);
            var part := Chunk(event.stream, event.bytes[..Min(remaining, |event.bytes|)]);
            Consistent(cap, captured + |part.bytes|, truncated || |event.bytes| > remaining,
                       if remaining > 0 && event.stream == Stdout then out + [part.bytes] else out,
                       if remaining > 0 && event.stream == Stderr then err + [part.bytes] else err,
                       arrived + [event], kept + [part])
  {
    var remaining := Max(0, cap - captured);
    var part := Chunk(event.stream, event.bytes[..Min(remaining, |event.bytes|)]);
    CutOneMore(arrived, kept, cap, event);
    Accounted(arrived, kept, cap, event);
    BufferStep(out, kept, part, Stdout);
    BufferStep(err, kept, part, Stderr);
  }

  class Capture {
    const outputCapBytes: int
    var capturedBytes: int
    var truncated: bool
    var stdoutChunks: seq<seq<Byte>>
    var stderrChunks: seq<seq<Byte>>
    ghost var arrived: seq<Chunk>
    ghost var kept: seq<Chunk>

    ghost predicate Valid()
      reads this
    {
      Consistent(outputCapBytes, capturedBytes, truncated, stdoutChunks, stderrChunks, arrived, kept)
    }

    constructor (outputCapBytes: int)
      ensures Valid() && this.outputCapBytes == outputCapBytes && arrived == []
    {
      this.outputCapBytes := outputCapBytes;
      capturedBytes := 0;
      truncated := false;
      stdoutChunks := [];
      stderrChunks := [];
      arrived := [];
      kept := [];
    }

    method OnData(target: Stream, chunk: seq<Byte>)
      requires Valid()
      modifies this
      ensures Valid() && arrived == old(arrived) + [Chunk(target, chunk)]
      ensures old(kept) <= kept
    {
      var remaining := Max(0, outputCapBytes - capturedBytes);
      ghost var event := Chunk(target, chunk);
      ConsistentStep(outputCapBytes, capturedBytes, truncated, stdoutChunks, stderrChunks, arrived, kept, event);
      if |chunk| > remaining {
        truncated := true;
      }
      var keptBytes := chunk[..Min(remaining, |chunk|)];
      if remaining > 0 {
        match target {
          case Stdout => stdoutChunks := stdoutChunks + [keptBytes];
          case Stderr => stderrChunks := stderrChunks + [keptBytes];
        }
        capturedBytes := capturedBytes + |keptBytes|;
      }
      kept := kept + [Chunk(target, keptBytes)];
      arrived := arrived + [event];
    }
  }
}
