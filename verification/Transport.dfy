/** The two ends of a connection: `send_all`/`send_frame` over a socket that takes as many bytes
    as it likes, and `read_next_frame` over whatever pieces `recv` hands out. */
module Transport {
  import opened Bytes
  import opened Framing
  import opened Seqs

  const RECV_BUFFER := 4096

  // ----- Sending -----

  /** A connected socket as the sender sees it.  `results` is what the successive calls of `send`
      will return (at most the number of bytes offered); `wire` is what has been accepted. */
  class Socket {
    var results: seq<int>
    var wire: string

    constructor (results: seq<int>)
      ensures this.results == results && wire == ""
    {
      this.results, wire := results, "";
    }

    method Send(data: string) returns (n: int)
      modifies this
      ensures n <= |data|
      ensures wire == if n > 0 then old(wire) + data[..n] else old(wire)
      ensures results == if old(results) == [] then [] else old(results)[1..]
      ensures n > 0 <==> old(results) != [] && old(results)[0] > 0 && data != ""
    {
      if results == [] {
        return -1;
      }
      n := if results[0] > |data| then |data| else results[0];
      results := results[1..];
      if n > 0 {
        wire := wire + data[..n];
      }
    }

    /** Either all of `data` went out, or `send` failed after a proper prefix of it. */
    method SendAll(data: string) returns (ok: bool)
      modifies this
      ensures ok ==> wire == old(wire) + data
      ensures !ok ==> exists k | 0 <= k < |data| :: wire == old(wire) + data[..k]
      ensures data == "" ==> ok
    {
      var sent := 0;
      assert data[..0] == "";
      while sent < |data|
        invariant 0 <= sent <= |data|
        invariant wire == old(wire) + data[..sent]
      {
        var n := Send(data[sent..]);
        if n <= 0 {
          return false;
        }
        assert data[..sent] + data[sent..][..n] == data[..sent + n];
        Associative(old(wire), data[..sent], data[sent..][..n]);
        sent := sent + n;
      }
      assert data[..sent] == data;
      ok := true;
    }

    /** A payload over the cap is refused without a byte sent; otherwise the frame goes out
        whole, or the connection failed inside it. */
    method SendFrame(payload: string) returns (ok: bool)
      modifies this
      ensures ok ==> |payload| <= MAX_PAYLOAD && wire == old(wire) + Frame(payload)
      ensures |payload| > MAX_PAYLOAD ==> !ok && wire == old(wire)
      ensures !ok && |payload| <= MAX_PAYLOAD ==>
                exists k | 0 <= k < |Frame(payload)| :: wire == old(wire) + Frame(payload)[..k]
    {
      if |payload| > MAX_PAYLOAD {
        return false;
      }
      var header := BigEndian(HEADER_SIZE, |payload|);
      ok := SendAll(header);
      if !ok {
        ghost var k :| 0 <= k < |header| && wire == old(wire) + header[..k];
        assert Frame(payload)[..k] == header[..k];
        return;
      }
      ok := SendAll(payload);
      if ok {
        Associative(old(wire), header, payload);
      } else {
        ghost var k :| 0 <= k < |payload| && wire == (old(wire) + header) + payload[..k];
        Associative(old(wire), header, payload[..k]);
        assert Frame(payload)[..HEADER_SIZE + k] == header + payload[..k];
      }
    }
  }

  /** Successive successful sends put the stream of their frames on the wire. */
  lemma {:induction false} StreamAppend(ps: seq<string>, qs: seq<string>)
    ensures Stream(ps + qs) == Stream(ps) + Stream(qs)
  {
    if ps == [] {
      assert ps + qs == qs;
    } else {
      StreamAppend(ps[1..], qs);
      assert (ps + qs)[1..] == ps[1..] + qs;
      Associative(Frame(ps[0]), Stream(ps[1..]), Stream(qs));
    }
  }

  // ----- Receiving -----

  /** The frames a connection will hand out before it fails or ends: those queued, then those of
      each further chunk, up to the chunk whose splitting fails. */
  function Deliverable(pending: string, queue: seq<string>, incoming: seq<string>): seq<string>
    decreases |incoming|
  {
    if incoming == [] then queue
    else
      var now := Split(pending + incoming[0]);
      if !now.ok then queue else queue + Deliverable(now.rest, now.frames, incoming[1..])
  }

  /** What is split off in the failing call, and thrown away with it. */
  function Discarded(pending: string, incoming: seq<string>): seq<string>
    decreases |incoming|
  {
    if incoming == [] then []
    else
      var now := Split(pending + incoming[0]);
      if now.ok then Discarded(now.rest, incoming[1..]) else now.frames
  }

  predicate RecvSized(incoming: seq<string>) {
    forall i | 0 <= i < |incoming| :: 0 < |incoming[i]| <= RECV_BUFFER
  }

  /** The receiving state of one connection: `pending` and `queue` are the two buffers that
      `handle_client` owns and lends to `handle_auth` and to the chat loop alike; `incoming` is
      the script of chunks `recv` will return. */
  class Connection {
    var pending: string
    var queue: seq<string>
    var incoming: seq<string>
    ghost var peak: nat  // the longest `pending` has ever been

    ghost predicate Valid()
      reads this
    {
      && Waiting(pending)
      && RecvSized(incoming)
      && peak <= 65539 + RECV_BUFFER
    }

    ghost function Upcoming(): seq<string>
      reads this
    {
      Deliverable(pending, queue, incoming)
    }

    constructor (incoming: seq<string>)
      requires RecvSized(incoming)
      ensures Valid() && Upcoming() == Deliverable("", [], incoming)
    {
      pending, queue, this.incoming := "", [], incoming;
      peak := 0;
    }

    method Recv() returns (chunk: string)
      requires Valid()
      modifies this`incoming
      ensures |chunk| <= RECV_BUFFER && RecvSized(incoming)
      ensures if old(incoming) == [] then chunk == "" && incoming == []
              else chunk != "" && old(incoming) == [chunk] + incoming
    {
      if incoming == [] {
        return "";
      }
      chunk, incoming := incoming[0], incoming[1..];
    }

    /** The body of the refill loop: one `recv`, one `extract_frames`. */
    method Fill() returns (ok: bool)
      requires Valid() && queue == []
      modifies this
      ensures ok ==> Valid() && Upcoming() == old(Upcoming()) && |incoming| < old(|incoming|)
      ensures !ok ==> old(Upcoming()) == []
      ensures peak <= 65539 + RECV_BUFFER
    {
      var before := pending;
      var chunk := Recv();
      if chunk == "" {
        return false;
      }
      WaitingBound(before);
      AfterChunk(before, chunk, incoming);
      pending := before + chunk;
      peak := if |pending| > peak then |pending| else peak;
      var rest, frames;
      ok, rest, frames := ExtractFrames(pending, []);
      pending := rest;
      if ok {
        ResidueBound(before + chunk);
        queue := queue + frames;
      }
    }

    /** Hands out the next upcoming frame, exactly once and in order; false when none is left. */
    method ReadNextFrame() returns (ok: bool, frame: string)
      requires Valid()
      modifies this
      ensures ok == (old(Upcoming()) != [])
      ensures ok ==> Valid() && old(Upcoming()) == [frame] + Upcoming()
      ensures peak <= 65539 + RECV_BUFFER
    {
      while queue == []
        invariant Valid()
        invariant Upcoming() == old(Upcoming())
        decreases |incoming|
      {
        ok := Fill();
        if !ok {
          return false, "";
        }
      }
      PopQueue(pending, queue, incoming);
      frame, queue := queue[0], queue[1..];
      ok := true;
    }
  }

  lemma WaitingBound(s: string)
    requires Waiting(s)
    ensures |s| <= 65539
  {
  }

  lemma AfterChunk(pending: string, chunk: string, incoming: seq<string>)
    ensures var now := Split(pending + chunk);
            Deliverable(pending, [], [chunk] + incoming) == if now.ok then Deliverable(now.rest, [] + ([] + now.frames), incoming) else []
  {
    var now := Split(pending + chunk);
    assert ([chunk] + incoming)[1..] == incoming;
    assert [] + ([] + now.frames) == now.frames;
  }

  lemma PopQueue(pending: string, queue: seq<string>, incoming: seq<string>)
    requires queue != []
    ensures Deliverable(pending, queue, incoming) == [queue[0]] + Deliverable(pending, queue[1..], incoming)
  {
    assert queue == [queue[0]] + queue[1..];
    if incoming != [] {
      var now := Split(pending + incoming[0]);
      Associative([queue[0]], queue[1..], Deliverable(now.rest, now.frames, incoming[1..]));
    }
  }

  // ----- Receiving against the splitter, and end to end -----

  /** Every frame of the stream is either handed out or discarded by the failing call, and the
      discarded ones are the last. */
  lemma {:induction false} NothingElseLost(pending: string, queue: seq<string>, incoming: seq<string>)
    requires Waiting(pending)
    ensures queue + Split(pending + Concat(incoming)).frames
            == Deliverable(pending, queue, incoming) + Discarded(pending, incoming)
    decreases |incoming|
  {
    if incoming == [] {
      assert pending + Concat(incoming) == pending;
    } else {
      var a, b := pending + incoming[0], Concat(incoming[1..]);
      var now := Split(a);
      Associative(pending, incoming[0], b);
      SplitAppend(a, b);
      if now.ok {
        ResidueBound(a);
        NothingElseLost(now.rest, now.frames, incoming[1..]);
        Associative(queue, Deliverable(now.rest, now.frames, incoming[1..]), Discarded(pending, incoming));
      }
    }
  }

  lemma {:induction false} AcceptedDiscardsNothing(pending: string, incoming: seq<string>)
    requires Waiting(pending) && Split(pending + Concat(incoming)).ok
    ensures Discarded(pending, incoming) == []
    decreases |incoming|
  {
    if incoming != [] {
      var a, b := pending + incoming[0], Concat(incoming[1..]);
      Associative(pending, incoming[0], b);
      SplitAppend(a, b);
      ResidueBound(a);
      AcceptedDiscardsNothing(Split(a).rest, incoming[1..]);
    }
  }

  // ----- Where the stream must be cut -----

  /** Where what cannot be split begins: behind the last complete frame. */
  function Consumed(s: string): (n: nat)
    ensures n <= |s|
  {
    SplitShorter(s);
    |s| - |Split(s).rest|
  }

  lemma {:induction false} SplitShorter(s: string)
    ensures |Split(s).rest| <= |s|
    ensures Split(s).frames == [] ==> Split(s).rest == s
    decreases |s|
  {
    if Complete(s) {
      SplitShorter(s[HEADER_SIZE + Declared(s)..]);
    }
  }

  lemma HeaderKept(s: string, more: string)
    ensures |s| >= HEADER_SIZE ==> Declared(s + more) == Declared(s)
  {
    if |s| >= HEADER_SIZE {
      assert (s + more)[..HEADER_SIZE] == s[..HEADER_SIZE];
    }
  }

  /** A waiting buffer is shorter than any frame that more bytes complete. */
  lemma WaitingInside(pending: string, more: string)
    requires Waiting(pending) && Split(pending + more).frames != []
    ensures Consumed(pending + more) > |pending|
  {
    var s := pending + more;
    var size := HEADER_SIZE + Declared(s);
    SplitShorter(s[size..]);
    HeaderKept(pending, more);
  }

  /** Some chunk ends behind the last frame and before the oversized header is complete. */
  ghost predicate CutBetween(before: nat, incoming: seq<string>, p: nat) {
    exists k: nat :: k <= |incoming| && p <= before + |Concat(incoming[..k])| < p + HEADER_SIZE
  }

  lemma CutStep(before: nat, incoming: seq<string>, p: nat)
    requires incoming != []
    ensures CutBetween(before, incoming, p) <==>
            p <= before < p + HEADER_SIZE || CutBetween(before + |incoming[0]|, incoming[1..], p)
  {
    forall k: nat | k < |incoming| ensures |Concat(incoming[..k + 1])| == |incoming[0]| + |Concat(incoming[1..][..k])| {
      assert incoming[..k + 1][1..] == incoming[1..][..k];
    }
    if CutBetween(before, incoming, p) {
      var k: nat :| k <= |incoming| && p <= before + |Concat(incoming[..k])| < p + HEADER_SIZE;
      if k > 0 {
        assert p <= (before + |incoming[0]|) + |Concat(incoming[1..][..k - 1])| < p + HEADER_SIZE;
      }
    }
    if p <= before < p + HEADER_SIZE {
      assert Concat(incoming[..0]) == "";
    }
    if CutBetween(before + |incoming[0]|, incoming[1..], p) {
      var k: nat :| k <= |incoming[1..]| && p <= (before + |incoming[0]|) + |Concat(incoming[1..][..k])| < p + HEADER_SIZE;
      assert p <= before + |Concat(incoming[..k + 1])| < p + HEADER_SIZE;
    }
  }

  lemma CutShift(before: nat, incoming: seq<string>, p: nat, d: nat)
    ensures CutBetween(before + d, incoming, p + d) <==> CutBetween(before, incoming, p)
  {
    if CutBetween(before + d, incoming, p + d) {
      var k: nat :| k <= |incoming| && p + d <= before + d + |Concat(incoming[..k])| < p + d + HEADER_SIZE;
      assert p <= before + |Concat(incoming[..k])| < p + HEADER_SIZE;
    }
    if CutBetween(before, incoming, p) {
      var k: nat :| k <= |incoming| && p <= before + |Concat(incoming[..k])| < p + HEADER_SIZE;
      assert p + d <= before + d + |Concat(incoming[..k])| < p + d + HEADER_SIZE;
    }
  }

  lemma CutHere(before: nat, incoming: seq<string>, p: nat)
    requires p <= before < p + HEADER_SIZE
    ensures CutBetween(before, incoming, p)
  {
    assert Concat(incoming[..0]) == "";
  }

  /** The chunk that completes the oversized header: what it discards is all there ever was. */
  lemma BadChunk(pending: string, incoming: seq<string>)
    requires Waiting(pending) && incoming != [] && !Split(pending + incoming[0]).ok
    ensures var s := pending + Concat(incoming);
            Discarded(pending, incoming) == [] <==> Split(s).frames == [] || CutBetween(|pending|, incoming, Consumed(s))
  {
    var a, b := pending + incoming[0], Concat(incoming[1..]);
    Associative(pending, incoming[0], b);
    SplitAppend(a, b);
    FailsOversized(a);
    CutStep(|pending|, incoming, Consumed(a));
    if Split(a).frames != [] {
      WaitingInside(pending, incoming[0]);
    }
  }

  /** A chunk before it: the question is the same for what is left. */
  lemma GoodChunk(pending: string, incoming: seq<string>, rest: string, b: string)
    requires Waiting(pending) && incoming != [] && Split(pending + incoming[0]).ok
    requires rest == Split(pending + incoming[0]).rest && b == Concat(incoming[1..]) && !Split(rest + b).ok
    ensures var s := pending + Concat(incoming);
            (Split(rest + b).frames == [] || CutBetween(|rest|, incoming[1..], Consumed(rest + b))) <==>
            (Split(s).frames == [] || CutBetween(|pending|, incoming, Consumed(s)))
  {
    var a := pending + incoming[0];
    var d := Consumed(a);
    Associative(pending, incoming[0], b);
    SplitAppend(a, b);
    ResidueBound(a);
    CutStep(|pending|, incoming, Consumed(rest + b) + d);
    CutShift(|rest|, incoming[1..], Consumed(rest + b), d);
    if Split(rest + b).frames == [] {
      SplitShorter(rest + b);
      FailsOversized(rest + b);
      WaitingShort(rest, b);
      CutHere(|rest|, incoming[1..], Consumed(rest + b));
    } else {
      WaitingInside(rest, b);
    }
  }

  /** What the failing call throws away is nothing exactly if no frame was ever completed, or the
      stream was cut between the last frame and the end of the oversized header. */
  lemma {:induction false} DiscardsNothingIff(pending: string, incoming: seq<string>)
    requires Waiting(pending) && !Split(pending + Concat(incoming)).ok
    ensures var s := pending + Concat(incoming);
            Discarded(pending, incoming) == [] <==> Split(s).frames == [] || CutBetween(|pending|, incoming, Consumed(s))
    decreases |incoming|
  {
    assert incoming == [] ==> pending + Concat(incoming) == pending;
    if incoming == [] {
      assert false;
    } else if Split(pending + incoming[0]).ok {
      var a, b := pending + incoming[0], Concat(incoming[1..]);
      Associative(pending, incoming[0], b);
      SplitAppend(a, b);
      ResidueBound(a);
      DiscardsNothingIff(Split(a).rest, incoming[1..]);
      GoodChunk(pending, incoming, Split(a).rest, b);
    } else {
      BadChunk(pending, incoming);
    }
  }

  lemma {:induction false} FailsOversized(s: string)
    requires !Split(s).ok
    ensures Oversized(Split(s).rest)
    decreases |s|
  {
    if Complete(s) {
      FailsOversized(s[HEADER_SIZE + Declared(s)..]);
    }
  }

  /** A waiting buffer that becomes an oversized header lacked bytes of it. */
  lemma WaitingShort(pending: string, more: string)
    requires Waiting(pending) && Oversized(pending + more)
    ensures |pending| < HEADER_SIZE
  {
    HeaderKept(pending, more);
  }

  lemma LostIsDiscarded(incoming: seq<string>)
    ensures Deliverable("", [], incoming) == Split(Concat(incoming)).frames <==> Discarded("", incoming) == []
    ensures Split(Concat(incoming)).ok ==> Discarded("", incoming) == []
  {
    NothingElseLost("", [], incoming);
    assert "" + Concat(incoming) == Concat(incoming);
    if Split(Concat(incoming)).ok {
      AcceptedDiscardsNothing("", incoming);
    }
    var all, out, lost := Split(Concat(incoming)).frames, Deliverable("", [], incoming), Discarded("", incoming);
    assert [] + all == all;
    assert |all| == |out| + |lost|;
    if lost == [] {
      assert out + lost == out;
    }
  }

  /** A reader gets every frame of a stream exactly if no header in it is oversized, or no frame comes
      before that header, or some chunk ends between the last frame and the end of that header. */
  lemma AllHandedOutIff(incoming: seq<string>)
    ensures var s := Concat(incoming);
            Deliverable("", [], incoming) == Split(s).frames <==>
            Split(s).ok || Split(s).frames == [] || CutBetween(0, incoming, Consumed(s))
  {
    LostIsDiscarded(incoming);
    assert "" + Concat(incoming) == Concat(incoming);
    if !Split(Concat(incoming)).ok {
      DiscardsNothingIff("", incoming);
    }
  }

  /** The same bytes lose a frame or not, depending on where TCP cut them. */
  lemma ChunkingCanLoseAFrame()
    ensures var bad := BigEndian(HEADER_SIZE, MAX_PAYLOAD + 1);
            && Deliverable("", [], [Frame("hi") + bad]) == []
            && Deliverable("", [], [Frame("hi"), bad]) == ["hi"]
  {
    var bad := BigEndian(HEADER_SIZE, MAX_PAYLOAD + 1);
    BadHeader();
    assert AllSendable(["hi"]) && AllSendable([]);
    assert Stream(["hi"]) == Frame("hi") by {
      assert Frame("hi") + "" == Frame("hi");
    }
    SplitUnique(["hi"], bad);
    SplitUnique(["hi"], "");
    assert Frame("hi") + "" == Frame("hi");
    assert "" + (Frame("hi") + bad) == Frame("hi") + bad;
    assert "" + Frame("hi") == Frame("hi") && "" + bad == bad;
    var later := [Frame("hi"), bad];
    assert later[1..] == [bad];
    assert Deliverable("", ["hi"], [bad]) == ["hi"];
  }

  lemma BadHeader()
    ensures Oversized(BigEndian(HEADER_SIZE, MAX_PAYLOAD + 1))
  {
    var bad := BigEndian(HEADER_SIZE, MAX_PAYLOAD + 1);
    assert MAX_PAYLOAD + 1 < Pow256(HEADER_SIZE) by {
      Widths();
    }
    ValueOfFitting(HEADER_SIZE, MAX_PAYLOAD + 1);
    assert bad[..HEADER_SIZE] == bad;
  }

  /** End to end: payloads framed onto a wire and cut into any chunks come out of the successive
      reads exactly once, in order and unchanged, whoever makes the reads. */
  lemma EndToEnd(payloads: seq<string>, incoming: seq<string>)
    requires AllSendable(payloads) && Concat(incoming) == Stream(payloads)
    ensures Deliverable("", [], incoming) == payloads
  {
    assert !Complete("");
    SplitUnique(payloads, "");
    assert Stream(payloads) + "" == Stream(payloads);
    AllHandedOutIff(incoming);
  }
}
