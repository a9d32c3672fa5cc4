/** One direction of a connection, from `HandlePreSendMsg` at one end to the decode loop at the other,
    and the FIFO message channel that it implements. */
module Transport {
  import opened Words
  import opened Messages
  import opened Codec
  import opened Framing
  import Protobuf

  /** `out` and `inbuf` are the two buffers, `wire` the bytes between the sockets; `enqueued`, `received` and `handled`
      record the history. */
  datatype Link = Link(
    enqueued: seq<Frame>, out: seq<byte>, wire: seq<byte>, received: seq<byte>, inbuf: seq<byte>, handled: seq<Frame>)

  const NEW_LINK := Link([], [], [], [], [], [])

  /** `sent` is how many bytes `send` took, `n` how many `recv` returned. */
  datatype LinkStep = Enqueue(frame: Frame, sent: nat) | Flush(sent: nat) | Receive(n: nat)

  /** Only the capacity of the fixed buffers limits the steps. */
  predicate CanStep(l: Link, step: LinkStep) {
    match step
    case Enqueue(f, sent) =>
      Sendable(f) && |l.out| + HEADER + |f.payload| <= CAPACITY && sent <= |l.out| + HEADER + |f.payload|
    case Flush(sent) => sent <= |l.out|
    case Receive(n) => n <= |l.wire| && |l.inbuf| + n <= CAPACITY
  }

  function DoStep(l: Link, step: LinkStep): Link
    requires CanStep(l, step)
  {
    match step
    case Enqueue(f, sent) =>
      var o := l.out + EncodeFrame(f);
      l.(enqueued := l.enqueued + [f], out := o[sent..], wire := l.wire + o[..sent])
    case Flush(sent) =>
      l.(out := l.out[sent..], wire := l.wire + l.out[..sent])
    case Receive(n) =>
      var chunk := l.wire[..n];
      l.(wire := l.wire[n..], received := l.received + chunk,
         inbuf := Rest(l.inbuf + chunk), handled := l.handled + Frames(l.inbuf + chunk))
  }

  datatype LinkRun = LinkRun(states: seq<Link>, steps: seq<LinkStep>)

  ghost predicate IsLinkRun(r: LinkRun) {
    && |r.states| == |r.steps| + 1 && r.states[0] == NEW_LINK
    && forall i :: 0 <= i < |r.steps| ==>
        CanStep(r.states[i], r.steps[i]) &&
        r.states[i + 1] == DoStep(r.states[i], r.steps[i])
  }

  /** No byte is lost, duplicated or reordered, and the receiver is where decoding all received bytes at once would
      be. */
  ghost predicate LinkInv(l: Link) {
    && AllSendable(l.enqueued)
    && l.received + l.wire + l.out == EncodeAll(l.enqueued)
    && l.handled == Frames(l.received) && l.inbuf == Rest(l.received)
  }

  lemma MoveBytes(a: seq<byte>, wire: seq<byte>, out: seq<byte>, k: nat)
    requires k <= |out|
    ensures a + (wire + out[..k]) + out[k..] == a + wire + out
  {
    assert out[..k] + out[k..] == out;
    Associate(a + wire, out[..k], out[k..]);
    Associate(a, wire, out[..k]);
  }

  lemma TakeBytes(a: seq<byte>, wire: seq<byte>, out: seq<byte>, k: nat)
    requires k <= |wire|
    ensures (a + wire[..k]) + wire[k..] + out == a + wire + out
  {
    assert wire[..k] + wire[k..] == wire;
    Associate(a, wire[..k], wire[k..]);
  }

  lemma EnqueueInv(l: Link, f: Frame, sent: nat)
    requires LinkInv(l) && CanStep(l, Enqueue(f, sent))
    ensures LinkInv(DoStep(l, Enqueue(f, sent)))
  {
    var o := l.out + EncodeFrame(f);
    MoveBytes(l.received, l.wire, o, sent);
    Associate(l.received + l.wire, l.out, EncodeFrame(f));
    EncodeSnoc(l.enqueued, f);
  }

  lemma LinkStepInv(l: Link, step: LinkStep)
    requires LinkInv(l) && CanStep(l, step)
    ensures LinkInv(DoStep(l, step))
  {
    match step
    case Enqueue(f, sent) => EnqueueInv(l, f, sent);
    case Flush(sent) => MoveBytes(l.received, l.wire, l.out, sent);
    case Receive(n) =>
      TakeBytes(l.received, l.wire, l.out, n);
      ChunkingIrrelevant(l.received, l.wire[..n]);
  }

  lemma {:induction false} LinkRunInv(r: LinkRun, k: nat)
    requires IsLinkRun(r) && k < |r.states|
    ensures LinkInv(r.states[k])
  {
    if k > 0 {
      LinkRunInv(r, k - 1);
      LinkStepInv(r.states[k - 1], r.steps[k - 1]);
    }
  }

  /** End to end: for every interleaving of enqueues, partial sends and received chunks, the frames handled are a prefix
      of the frames enqueued, and all of them once no byte is under way; on the sending side, bytes sent plus the
      pending out-buffer are the concatenation of the enqueued frames. */
  lemma FramesArriveInOrder(r: LinkRun, k: nat)
    requires IsLinkRun(r) && k < |r.states|
    ensures var l := r.states[k];
            && l.handled <= l.enqueued
            && (l.wire == [] && l.out == [] ==> l.handled == l.enqueued && l.inbuf == [])
            && AllSendable(l.enqueued) && (l.received + l.wire) + l.out == EncodeAll(l.enqueued)
  {
    LinkRunInv(r, k);
    var l := r.states[k];
    Associate(l.received, l.wire, l.out);
    PrefixOfStream(l.received, l.enqueued);
  }

  lemma {:induction false} RestIsSane(s: seq<byte>, t: seq<byte>)
    requires SaneHeaders(s + t)
    ensures SaneHeaders(Rest(s) + t)
    decreases |s|
  {
    if HasFrame(s) {
      ExtendFront(s, t);
      RestIsSane(AfterFirst(s), t);
    }
  }

  /** What the receiver requires of its input holds at every `recv` of every run. */
  lemma ReceiverInputSane(r: LinkRun, k: nat, n: nat)
    requires IsLinkRun(r) && k < |r.states| && n <= |r.states[k].wire|
    ensures SaneHeaders(r.states[k].inbuf + r.states[k].wire[..n])
  {
    LinkRunInv(r, k);
    var l := r.states[k];
    var s := l.received + l.wire[..n];
    TakeBytes(l.received, l.wire, l.out, n);
    Associate(s, l.wire[n..], l.out);
    assert s <= EncodeAll(l.enqueued);
    PrefixOfStream(s, l.enqueued);
    RestIsSane(l.received, l.wire[..n]);
  }

  // ---------------------------------------------------------------- a FIFO channel of frames

  /** The frames still on their way. */
  ghost function Pending(l: Link): seq<Frame>
    requires l.handled <= l.enqueued
  {
    l.enqueued[|l.handled|..]
  }

  lemma PendingSnoc(enqueued: seq<Frame>, handled: seq<Frame>, f: Frame)
    requires handled <= enqueued
    ensures (enqueued + [f])[|handled|..] == enqueued[|handled|..] + [f]
  {
  }

  lemma PendingTail(enqueued: seq<Frame>, handled: seq<Frame>, got: seq<Frame>)
    requires handled + got <= enqueued
    ensures got + enqueued[|handled + got|..] == enqueued[|handled|..]
  {
    assert enqueued == handled + got + enqueued[|handled + got|..];
  }

  /** The byte stream refines a FIFO queue: an enqueue adds at the back, a flush changes nothing, and a receive removes
      some frames from the front and hands over exactly these. */
  lemma RefinesFifo(r: LinkRun, k: nat)
    requires IsLinkRun(r) && k < |r.steps|
    ensures var l, l' := r.states[k], r.states[k + 1];
            && l.handled <= l.enqueued && l'.handled <= l'.enqueued
            && match r.steps[k]
               case Enqueue(f, _) => Pending(l') == Pending(l) + [f] && l'.handled == l.handled
               case Flush(_) => Pending(l') == Pending(l) && l'.handled == l.handled
               case Receive(n) =>
                 var got := Frames(l.inbuf + l.wire[..n]);
                 l'.handled == l.handled + got && got + Pending(l') == Pending(l)
  {
    FramesArriveInOrder(r, k);
    FramesArriveInOrder(r, k + 1);
    var l, step := r.states[k], r.steps[k];
    assert CanStep(l, step) && r.states[k + 1] == DoStep(l, step);
    if step.Enqueue? {
      PendingSnoc(l.enqueued, l.handled, step.frame);
    } else if step.Receive? {
      PendingTail(l.enqueued, l.handled, Frames(l.inbuf + l.wire[..step.n]));
    }
  }

  // ---------------------------------------------------------------- requests over the wire

  const APPEND_Q: uint16 := 259

  /** A request that fits a buffer and whose hosts are text. */
  ghost predicate Carriable(q: AppendQ) {
    HEADER + |EncodeAppendQ(q)| <= CAPACITY && AllValid(q.entries)
  }

  lemma CarriableEntries(q: AppendQ)
    requires Carriable(q)
    ensures forall e <- q.entries :: Encodable(e)
  {
    forall i | 0 <= i < |q.entries| ensures Encodable(q.entries[i]) {
      Protobuf.EntriesSplit(q.entries, i);
    }
  }

  function RequestFrame(q: AppendQ): Frame {
    Frame(APPEND_Q, EncodeAppendQ(q))
  }

  /** What the handler for id 259 is given. */
  function FrameRequest(f: Frame): AppendQ {
    MergeAppendQ(NO_APPEND, f.payload).value
  }

  lemma RequestSurvives(q: AppendQ)
    requires Carriable(q)
    ensures Sendable(RequestFrame(q)) && FrameRequest(RequestFrame(q)) == q
  {
    CarriableEntries(q);
    AppendQRoundTrip(q);
  }

  /** The requests that the handler for id 259 is given, in order; frames with other ids go to other handlers. */
  function Requests(fs: seq<Frame>): seq<AppendQ> {
    if fs == [] then [] else (if fs[0].id == APPEND_Q then [FrameRequest(fs[0])] else []) + Requests(fs[1..])
  }

  lemma {:induction false} RequestsConcat(a: seq<Frame>, b: seq<Frame>)
    ensures Requests(a + b) == Requests(a) + Requests(b)
    decreases |a|
  {
    if a == [] {
      assert a + b == b;
    } else {
      var first := if a[0].id == APPEND_Q then [FrameRequest(a[0])] else [];
      assert (a + b)[0] == a[0] && (a + b)[1..] == a[1..] + b;
      RequestsConcat(a[1..], b);
      Associate(first, Requests(a[1..]), Requests(b));
    }
  }

  /** Whatever else the connection carries, the requests handled are a prefix of the requests enqueued, and all of them
      once no byte is under way. */
  lemma RequestsArriveInOrder(r: LinkRun, k: nat)
    requires IsLinkRun(r) && k < |r.states|
    ensures var l := r.states[k];
            && Requests(l.handled) <= Requests(l.enqueued)
            && (l.wire == [] && l.out == [] ==> Requests(l.handled) == Requests(l.enqueued))
  {
    FramesArriveInOrder(r, k);
    var l := r.states[k];
    assert l.enqueued == l.handled + l.enqueued[|l.handled|..];
    RequestsConcat(l.handled, l.enqueued[|l.handled|..]);
  }

  /** What the leader writes to a connection: requests, and frames of other kinds such as the handshake reply. */
  datatype Outgoing = Request(q: AppendQ) | Other(frame: Frame)

  ghost predicate CanSend(o: Outgoing) {
    match o
    case Request(q) => Carriable(q)
    case Other(f) => Sendable(f) && f.id != APPEND_Q
  }

  function Framed(out: seq<Outgoing>): seq<Frame> {
    if out == [] then [] else [if out[0].Request? then RequestFrame(out[0].q) else out[0].frame] + Framed(out[1..])
  }

  function Sent(out: seq<Outgoing>): seq<AppendQ> {
    if out == [] then [] else (if out[0].Request? then [out[0].q] else []) + Sent(out[1..])
  }

  lemma {:induction false} FramedRequests(out: seq<Outgoing>)
    requires forall i :: 0 <= i < |out| ==> CanSend(out[i])
    ensures AllSendable(Framed(out)) && Requests(Framed(out)) == Sent(out)
    decreases |out|
  {
    if out != [] {
      assert CanSend(out[0]);
      FramedRequests(out[1..]);
      if out[0].Request? { RequestSurvives(out[0].q); }
      assert Framed(out)[1..] == Framed(out[1..]);
    }
  }

  /** Codec and framing composed: on a connection that carries requests among other frames, the handler is given the
      requests that the sender built, in order, none lost and none invented. */
  lemma SentRequestsArrive(r: LinkRun, k: nat, out: seq<Outgoing>)
    requires IsLinkRun(r) && k < |r.states| && (forall i :: 0 <= i < |out| ==> CanSend(out[i]))
    requires r.states[k].enqueued == Framed(out)
    ensures var l := r.states[k];
            && Requests(l.handled) <= Sent(out)
            && (l.wire == [] && l.out == [] ==> Requests(l.handled) == Sent(out))
  {
    RequestsArriveInOrder(r, k);
    FramedRequests(out);
  }

  // ---------------------------------------------------------------- two connection objects

  /** Two connection objects driven through the steps of a link are, buffer by buffer, the link. */
  method Drive(sender: Conn, receiver: Conn, steps: seq<LinkStep>, ghost states: seq<Link>)
      returns (wire: seq<byte>, handled: seq<Frame>)
    requires IsLinkRun(LinkRun(states, steps))
    requires sender.Valid() && receiver.Valid() && sender != receiver
    requires {sender.inBuffer, sender.outBuffer} !! {receiver.inBuffer, receiver.outBuffer}
    requires sender.Out() == [] && receiver.In() == []
    modifies sender, sender.outBuffer, receiver, receiver.inBuffer
    ensures sender.Valid() && receiver.Valid()
    ensures var l := states[|steps|];
            sender.Out() == l.out && wire == l.wire && receiver.In() == l.inbuf && handled == l.handled
  {
    wire, handled := [], [];
    for i := 0 to |steps|
      invariant sender.Valid() && receiver.Valid()
      invariant sender.Out() == states[i].out && receiver.In() == states[i].inbuf
      invariant wire == states[i].wire && handled == states[i].handled
    {
      ghost var l := states[i];
      assert CanStep(l, steps[i]) && states[i + 1] == DoStep(l, steps[i]);
      match steps[i] {
        case Enqueue(f, sent) =>
          var offered := sender.PreSend(f, sent);
          wire := wire + offered[..sent];
        case Flush(sent) =>
          var offered := sender.SendCallback(sent);
          wire := wire + offered[..sent];
        case Receive(n) =>
          ReceiverInputSane(LinkRun(states, steps), i, n);
          var got, _ := receiver.RecvCallback(Bytes(wire[..n]));
          wire, handled := wire[n..], handled + got;
      }
    }
  }
}
