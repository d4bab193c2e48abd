/** Length-prefixed framing: `[u32 big-endian length][payload]` (protocol.cpp). */
module Framing {
  import opened Bytes
  import opened Seqs

  const HEADER_SIZE := 4
  const MAX_PAYLOAD := 64 * 1024

  function Frame(payload: string): string {
    BigEndian(HEADER_SIZE, |payload|) + payload
  }

  /** Four bytes with the length, the highest first, and the payload. */
  lemma FrameLaidOut(payload: string)
    requires |payload| < 0x1_0000_0000
    ensures var s := Frame(payload); |s| == 4 + |payload| && Value(s[..4]) == |payload| && s[4..] == payload
  {
    Widths();
    ValueOfFitting(4, |payload|);
  }

  function Stream(payloads: seq<string>): string {
    if payloads == [] then "" else Frame(payloads[0]) + Stream(payloads[1..])
  }

  ghost predicate AllSendable(payloads: seq<string>) {
    forall i | 0 <= i < |payloads| :: |payloads[i]| <= MAX_PAYLOAD
  }

  // ----- What a byte buffer can start with -----

  function Declared(s: string): nat
    requires |s| >= HEADER_SIZE
  {
    Value(s[..HEADER_SIZE])
  }

  /** The buffer starts with a header that announces more than the cap. */
  predicate Oversized(s: string) {
    |s| >= HEADER_SIZE && Declared(s) > MAX_PAYLOAD
  }

  /** The buffer starts with an acceptable frame that has arrived completely. */
  predicate Complete(s: string) {
    |s| >= HEADER_SIZE && Declared(s) <= MAX_PAYLOAD && |s| >= HEADER_SIZE + Declared(s)
  }

  /** Nothing can be done with the buffer before more bytes arrive. */
  predicate Waiting(s: string) {
    !Oversized(s) && !Complete(s)
  }

  /** `frames` were split off, `rest` is what follows them; `ok` is false when `rest` starts with
      an oversized header. */
  datatype SplitResult = SplitResult(ok: bool, frames: seq<string>, rest: string) {
    function Behind(frame: string): SplitResult {
      SplitResult(ok, [frame] + frames, rest)
    }

    function After(earlier: seq<string>): SplitResult {
      SplitResult(ok, earlier + frames, rest)
    }
  }

  function Split(s: string): SplitResult
    decreases |s|
  {
    if Oversized(s) then SplitResult(false, [], s)
    else if !Complete(s) then SplitResult(true, [], s)
    else
      var size := HEADER_SIZE + Declared(s);
      Split(s[size..]).Behind(s[HEADER_SIZE..size])
  }

  /** The same splitter with the position `offset` it has reached made explicit. */
  function SplitFrom(s: string, offset: nat): SplitResult
    requires offset <= |s|
    decreases |s| - offset
  {
    if |s| - offset < HEADER_SIZE then SplitResult(true, [], s[offset..])
    else
      var length := Value(s[offset..offset + HEADER_SIZE]);
      if length > MAX_PAYLOAD then SplitResult(false, [], s[offset..])
      else if |s| - offset < HEADER_SIZE + length then SplitResult(true, [], s[offset..])
      else
        var next := offset + HEADER_SIZE + length;
        SplitFrom(s, next).Behind(s[offset + HEADER_SIZE..next])
  }

  lemma {:induction false} SplitFromIsSplit(s: string, offset: nat)
    requires offset <= |s|
    ensures SplitFrom(s, offset) == Split(s[offset..])
    decreases |s| - offset
  {
    var here := s[offset..];
    if |here| >= HEADER_SIZE {
      assert here[..HEADER_SIZE] == s[offset..offset + HEADER_SIZE];
    }
    if Complete(here) {
      var size := HEADER_SIZE + Declared(here);
      assert here[size..] == s[offset + size..];
      assert here[HEADER_SIZE..size] == s[offset + HEADER_SIZE..offset + size];
      SplitFromIsSplit(s, offset + size);
    }
  }

  /** The splitter as it runs: `offset` advances over the buffer, frames are appended, and the
      consumed bytes are erased only when the whole call succeeds. */
  method ExtractFrames(pending: string, frames: seq<string>) returns (ok: bool, pending': string, frames': seq<string>)
    ensures ok == Split(pending).ok
    ensures frames' == frames + Split(pending).frames
    ensures pending' == if ok then Split(pending).rest else pending
  {
    assert SplitFrom(pending, 0) == Split(pending) by {
      SplitFromIsSplit(pending, 0);
      assert pending[0..] == pending;
    }
    var offset := 0;
    pending', frames' := pending, frames;
    ghost var whole := SplitFrom(pending, 0).After(frames);
    while |pending| - offset >= HEADER_SIZE
      invariant 0 <= offset <= |pending|
      invariant whole == SplitFrom(pending, offset).After(frames')
    {
      var payloadLength := Value(pending[offset..offset + HEADER_SIZE]);
      if payloadLength > MAX_PAYLOAD {
        return false, pending, frames';
      }
      var frameSize := HEADER_SIZE + payloadLength;
      if |pending| - offset < frameSize {
        break;
      }
      ghost var payload := pending[offset + HEADER_SIZE..offset + frameSize];
      Associative(frames', [payload], SplitFrom(pending, offset + frameSize).frames);
      frames' := frames' + [pending[offset + HEADER_SIZE..offset + frameSize]];
      offset := offset + frameSize;
    }
    pending' := pending[offset..];
    ok := true;
  }

  // ----- The splitter against the framing relation -----

  lemma HeaderValue(n: nat)
    requires n <= MAX_PAYLOAD
    ensures Value(BigEndian(HEADER_SIZE, n)) == n
  {
    assert n < Pow256(HEADER_SIZE) by {
      Widths();
    }
    ValueOfFitting(HEADER_SIZE, n);
  }

  lemma FrameHead(p: string, tail: string)
    requires |p| <= MAX_PAYLOAD
    ensures var s := Frame(p) + tail;
            Complete(s) && Declared(s) == |p| && s[HEADER_SIZE..HEADER_SIZE + |p|] == p && s[HEADER_SIZE + |p|..] == tail
  {
    HeaderValue(|p|);
    SlicesOfThree(BigEndian(HEADER_SIZE, |p|), p, tail);
  }

  /** Soundness: re-framing what came out, followed by the rest, reproduces the input. */
  lemma {:induction false} SplitReframes(s: string)
    requires IsBytes(s)
    ensures Reframes(s, Split(s))
    decreases |s|
  {
    if Complete(s) {
      var size := HEADER_SIZE + Declared(s);
      SplitReframes(s[size..]);
      FrameFromHeader(s);
      ReframesBehind(s, size, Split(s[size..]));
    }
  }

  ghost predicate Reframes(s: string, r: SplitResult) {
    && s == Stream(r.frames) + r.rest
    && AllSendable(r.frames)
    && !Complete(r.rest)
    && r.ok == !Oversized(r.rest)
  }

  lemma ReframesBehind(s: string, size: nat, r: SplitResult)
    requires HEADER_SIZE <= size <= |s| && size - HEADER_SIZE <= MAX_PAYLOAD
    requires s[..size] == Frame(s[HEADER_SIZE..size]) && Reframes(s[size..], r)
    ensures Reframes(s, r.Behind(s[HEADER_SIZE..size]))
  {
    var p := s[HEADER_SIZE..size];
    var all := [p] + r.frames;
    assert all[1..] == r.frames;
    assert Stream(all) == Frame(p) + Stream(r.frames);
    assert s == s[..size] + s[size..];
    assert s == Stream(all) + r.rest;
  }

  lemma FrameFromHeader(s: string)
    requires IsBytes(s) && Complete(s)
    ensures Frame(s[HEADER_SIZE..HEADER_SIZE + Declared(s)]) == s[..HEADER_SIZE + Declared(s)]
  {
    BigEndianOfValue(s[..HEADER_SIZE]);
  }

  /** Completeness: every decomposition into sendable frames and a remainder that does not start
      with a complete frame is the one the splitter finds. */
  lemma {:induction false} SplitUnique(payloads: seq<string>, rest: string)
    requires AllSendable(payloads) && !Complete(rest)
    ensures Split(Stream(payloads) + rest) == SplitResult(!Oversized(rest), payloads, rest)
  {
    if payloads == [] {
      assert Stream(payloads) + rest == rest;
    } else {
      var tail := Stream(payloads[1..]) + rest;
      assert Stream(payloads) + rest == Frame(payloads[0]) + tail;
      FrameHead(payloads[0], tail);
      SplitUnique(payloads[1..], rest);
      assert [payloads[0]] + payloads[1..] == payloads;
    }
  }

  lemma CompletePrefix(a: string, b: string)
    requires Complete(a)
    ensures var size := HEADER_SIZE + Declared(a);
            && Split(a) == Split(a[size..]).Behind(a[HEADER_SIZE..size])
            && Split(a + b) == Split(a[size..] + b).Behind(a[HEADER_SIZE..size])
  {
    var size := HEADER_SIZE + Declared(a);
    assert (a + b)[..HEADER_SIZE] == a[..HEADER_SIZE];
    assert (a + b)[size..] == a[size..] + b;
    assert (a + b)[HEADER_SIZE..size] == a[HEADER_SIZE..size];
  }

  lemma OversizedPrefix(a: string, b: string)
    requires Oversized(a)
    ensures Split(a + b) == SplitResult(false, [], a + b)
  {
    assert (a + b)[..HEADER_SIZE] == a[..HEADER_SIZE];
  }

  /** No matter how the bytes were cut, what an earlier call left behind plus new bytes splits
      like the whole. */
  lemma {:induction false} SplitAppend(a: string, b: string)
    ensures Split(a + b) ==
            if Split(a).ok then Split(Split(a).rest + b).After(Split(a).frames)
            else SplitResult(false, Split(a).frames, Split(a).rest + b)
    decreases |a|
  {
    if Oversized(a) {
      OversizedPrefix(a, b);
    } else if Complete(a) {
      var size := HEADER_SIZE + Declared(a);
      var x := Split(a[size..]);
      SplitAppend(a[size..], b);
      CompletePrefix(a, b);
      Associative([a[HEADER_SIZE..size]], x.frames, Split(x.rest + b).frames);
    } else {
      var z := Split(a + b);
      assert [] + z.frames == z.frames;
    }
  }

  /** After a successful call the buffer holds less than one maximal frame. */
  lemma {:induction false} ResidueBound(s: string)
    requires Split(s).ok
    ensures Waiting(Split(s).rest)
    ensures |Split(s).rest| <= HEADER_SIZE + MAX_PAYLOAD - 1 == 65539
    decreases |s|
  {
    if Complete(s) {
      ResidueBound(s[HEADER_SIZE + Declared(s)..]);
    }
  }

  // ----- Any way of cutting the stream into chunks -----

  function Concat(chunks: seq<string>): string {
    if chunks == [] then "" else chunks[0] + Concat(chunks[1..])
  }

  /** Append each chunk and split, as both receive loops do, until a call fails. */
  function FeedChunks(pending: string, chunks: seq<string>): SplitResult
    decreases |chunks|
  {
    if chunks == [] then SplitResult(true, [], pending)
    else
      var now := Split(pending + chunks[0]);
      if !now.ok then now
      else
        FeedChunks(now.rest, chunks[1..]).After(now.frames)
  }

  lemma {:induction false} ChunkingIrrelevant(pending: string, chunks: seq<string>)
    requires Waiting(pending)
    ensures var fed, whole := FeedChunks(pending, chunks), Split(pending + Concat(chunks));
            fed.ok == whole.ok && fed.frames == whole.frames && (fed.ok ==> fed.rest == whole.rest)
    decreases |chunks|
  {
    if chunks == [] {
      assert pending + Concat(chunks) == pending;
    } else {
      var a, b := pending + chunks[0], Concat(chunks[1..]);
      assert pending + Concat(chunks) == a + b;
      SplitAppend(a, b);
      if Split(a).ok {
        ResidueBound(a);
        ChunkingIrrelevant(Split(a).rest, chunks[1..]);
      }
    }
  }

  /** The accumulating loop itself, over one output vector. */
  method ExtractChunks(chunks: seq<string>) returns (ok: bool, pending: string, frames: seq<string>)
    ensures ok == Split(Concat(chunks)).ok
    ensures frames == Split(Concat(chunks)).frames
    ensures ok ==> pending == Split(Concat(chunks)).rest
  {
    ghost var all := FeedChunks("", chunks);
    assert all.ok == Split(Concat(chunks)).ok && all.frames == Split(Concat(chunks)).frames
           && (all.ok ==> all.rest == Split(Concat(chunks)).rest) by {
      ChunkingIrrelevant("", chunks);
      assert "" + Concat(chunks) == Concat(chunks);
    }
    ok, pending, frames := true, "", [];
    var i := 0;
    assert chunks[0..] == chunks;
    while i < |chunks|
      invariant 0 <= i <= |chunks|
      invariant all == FeedChunks(pending, chunks[i..]).After(frames)
    {
      assert chunks[i..][1..] == chunks[i + 1..];
      ghost var now := Split(pending + chunks[i]);
      Associative(frames, now.frames, FeedChunks(now.rest, chunks[i + 1..]).frames);
      ok, pending, frames := ExtractFrames(pending + chunks[i], frames);
      if !ok {
        return;
      }
      i := i + 1;
    }
    ok := true;
  }
}
