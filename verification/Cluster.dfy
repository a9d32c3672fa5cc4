/** The cluster over its wires: every message is a frame on a byte stream. It refines the step system of `Replication`,
    whose results therefore hold of it. */
module Cluster {
  import opened Words
  import opened Messages
  import opened WireFormat
  import opened Codec
  import opened ReplyCodec
  import opened RaftNode
  import opened Replication
  import opened Invariant
  import opened Writes
  import opened Framing
  import opened Transport

  /** One direction of a connection, and how many of the frames that its decode loop took off have been handled. */
  datatype Channel = Channel(link: Link, done: nat)

  /** A node and its connection with the leader: `down` carries what the leader writes, `up` what the node writes.
      `carried` remembers, for each reply not yet handled, whether its request carried entries. */
  datatype Station = Station(node: Node, down: Channel, up: Channel, carried: seq<bool>)

  datatype Net = Net(leader: Node, stations: map<uint32, Station>)

  const NEW_CHANNEL := Channel(NEW_LINK, 0)
  const NEW_STATION := Station(FRESH_NODE, NEW_CHANNEL, NEW_CHANNEL, [])

  const HANDSHAKE_R: uint16 := 258
  const APPEND_R: uint16 := 260

  // ---------------------------------------------------------------- what is on a channel

  predicate ChannelOk(c: Channel) {
    c.done <= |c.link.handled| && c.link.handled <= c.link.enqueued
  }

  /** The frames written and not yet handled. */
  function Left(c: Channel): seq<Frame>
    requires ChannelOk(c)
  {
    c.link.enqueued[c.done..]
  }

  lemma LinkOrdered(l: Link)
    requires LinkInv(l)
    ensures l.handled <= l.enqueued
  {
    Associate(l.received, l.wire, l.out);
    PrefixOfStream(l.received, l.enqueued);
  }

  function ReplyFrame(r: AppendR): Frame {
    Frame(APPEND_R, EncodeAppendR(r))
  }

  function FrameReply(f: Frame): AppendR {
    MergeAppendR(NO_REPLY, f.payload).value
  }

  function Replies(fs: seq<Frame>): seq<AppendR> {
    if fs == [] then [] else (if fs[0].id == APPEND_R then [FrameReply(fs[0])] else []) + Replies(fs[1..])
  }

  lemma {:induction false} RepliesConcat(a: seq<Frame>, b: seq<Frame>)
    ensures Replies(a + b) == Replies(a) + Replies(b)
    decreases |a|
  {
    if a == [] {
      assert a + b == b;
    } else {
      var first := if a[0].id == APPEND_R then [FrameReply(a[0])] else [];
      var c := a + b;
      assert c[0] == a[0] && c[1..] == a[1..] + b;
      assert Replies(c) == first + Replies(c[1..]) && Replies(a) == first + Replies(a[1..]);
      RepliesConcat(a[1..], b);
      Associate(first, Replies(a[1..]), Replies(b));
    }
  }

  /** Requests travel as message 259, replies as message 260, each with its wire form as payload. */
  lemma FrameIds(q: AppendQ, r: AppendR)
    ensures RequestFrame(q).id == 259 && RequestFrame(q).payload == EncodeAppendQ(q)
    ensures ReplyFrame(r).id == 260 && ReplyFrame(r).payload == EncodeAppendR(r)
  {
  }

  lemma OneFrame(f: Frame)
    ensures Requests([f]) == if f.id == APPEND_Q then [FrameRequest(f)] else []
    ensures Replies([f]) == if f.id == APPEND_R then [FrameReply(f)] else []
  {
    assert [f][1..] == [];
  }

  // ---------------------------------------------------------------- channel operations

  predicate CanWrite(c: Channel, f: Frame, took: nat) {
    CanStep(c.link, Enqueue(f, took))
  }

  /** Appends a frame to the out-buffer and sends; the socket took `took` bytes. */
  function Write(c: Channel, f: Frame, took: nat): Channel
    requires CanWrite(c, f, took)
  {
    c.(link := DoStep(c.link, Enqueue(f, took)))
  }

  lemma WriteLeft(c: Channel, f: Frame, took: nat)
    requires ChannelOk(c) && CanWrite(c, f, took)
    ensures ChannelOk(Write(c, f, took)) && Left(Write(c, f, took)) == Left(c) + [f]
  {
  }

  /** Bytes move; no frame is written or handled. */
  lemma MoveLeft(c: Channel, step: LinkStep)
    requires ChannelOk(c) && LinkInv(c.link) && CanStep(c.link, step) && !step.Enqueue?
    ensures var c' := c.(link := DoStep(c.link, step)); ChannelOk(c') && Left(c') == Left(c)
  {
    LinkStepInv(c.link, step);
    LinkOrdered(DoStep(c.link, step));
  }

  lemma HandleLeft(c: Channel)
    requires ChannelOk(c) && c.done < |c.link.handled|
    ensures var c' := c.(done := c.done + 1); ChannelOk(c') && Left(c) == [c.link.handled[c.done]] + Left(c')
  {
    assert c.link.handled[c.done] == c.link.enqueued[c.done];
  }

  // ---------------------------------------------------------------- the abstract state

  predicate StationOk(st: Station) {
    ChannelOk(st.down) && ChannelOk(st.up) && |st.carried| == |Replies(Left(st.up))|
  }

  function Tagged(rs: seq<AppendR>, carried: seq<bool>): (t: seq<Reply>)
    requires |rs| == |carried|
    ensures |t| == |rs|
  {
    seq(|rs|, i requires 0 <= i < |rs| => Reply(rs[i], carried[i]))
  }

  function AbsPeer(st: Station): Peer
    requires StationOk(st)
  {
    Peer(st.node, Requests(Left(st.down)), Tagged(Replies(Left(st.up)), st.carried))
  }

  predicate NetOk(n: Net) {
    forall id <- n.stations :: StationOk(n.stations[id])
  }

  /** No byte is lost on any connection. */
  ghost predicate Wired(st: Station) {
    LinkInv(st.down.link) && LinkInv(st.up.link)
  }

  ghost predicate NetWired(n: Net) {
    forall id <- n.stations :: Wired(n.stations[id])
  }

  function Abs(n: Net): System
    requires NetOk(n)
  {
    System(n.leader, map id | id in n.stations :: AbsPeer(n.stations[id]))
  }

  // ---------------------------------------------------------------- steps

  datatype NetStep =
    | Join(hello: Hello, putOk: bool, alive: set<uint32>, took: map<uint32, nat>, reply: Frame, replyTook: nat)
    | Tick(alive: set<uint32>, took: map<uint32, nat>)
    | Move(id: uint32, downwards: bool, bytes: LinkStep)
    | HandleDown(id: uint32, puts: seq<bool>, answerTook: nat)
    | HandleUp(id: uint32)
    | FireTimeout(id: uint32)

  ghost predicate CanWriteAll(stations: map<uint32, Station>, sent: map<uint32, AppendQ>, took: map<uint32, nat>) {
    forall id <- sent :: id in stations ==>
      Carriable(sent[id]) && id in took && CanWrite(stations[id].down, RequestFrame(sent[id]), took[id])
  }

  ghost function WriteAll(stations: map<uint32, Station>, sent: map<uint32, AppendQ>, took: map<uint32, nat>)
      : map<uint32, Station>
    requires CanWriteAll(stations, sent, took)
  {
    map id | id in stations ::
      if id in sent then stations[id].(down := Write(stations[id].down, RequestFrame(sent[id]), took[id]))
      else stations[id]
  }

  /** The next frame to be handled on a channel. */
  function NextIn(c: Channel): Frame
    requires c.done < |c.link.handled|
  {
    c.link.handled[c.done]
  }

  function Skip(c: Channel): Channel {
    c.(done := c.done + 1)
  }

  ghost predicate CanHandleDown(st: Station, puts: seq<bool>, took: nat) {
    && st.down.done < |st.down.link.handled|
    && var f := NextIn(st.down);
       f.id == APPEND_Q ==>
         |puts| == |FrameRequest(f).entries| &&
             CanWrite(st.up, ReplyFrame(HandleAppend(st.node, FrameRequest(f), puts).1), took)
  }

  /** A node handles a frame: a request is answered, anything else changes nothing here. */
  ghost function AfterDown(st: Station, puts: seq<bool>, took: nat): Station
    requires CanHandleDown(st, puts, took)
  {
    var f := NextIn(st.down);
    if f.id == APPEND_Q then
      var q := FrameRequest(f);
      var (node, r) := HandleAppend(st.node, q, puts);
      Station(node, Skip(st.down), Write(st.up, ReplyFrame(r), took), st.carried + [q.entries != []])
    else st.(down := Skip(st.down))
  }

  ghost predicate CanHandleUp(l: Node, id: uint32, st: Station) {
    && st.up.done < |st.up.link.handled|
    && var f := NextIn(st.up);
       f.id == APPEND_R && l.term >= FrameReply(f).term ==> CommitReadInRange(AfterAck(l, id, FrameReply(f)))
  }

  lemma ReplyIsTagged(st: Station)
    requires StationOk(st) && st.up.done < |st.up.link.handled| && NextIn(st.up).id == APPEND_R
    ensures st.carried != [] && Replies(Left(st.up)) == [FrameReply(NextIn(st.up))] + Replies(Left(Skip(st.up)))
    ensures ChannelOk(Skip(st.up))
  {
    SkipReplies(st.up);
  }

  /** Taking a frame off a channel takes the oldest reply off, or nothing. */
  lemma SkipReplies(c: Channel)
    requires ChannelOk(c) && c.done < |c.link.handled|
    ensures ChannelOk(Skip(c))
    ensures Replies(Left(c)) ==
              (if NextIn(c).id == APPEND_R then [FrameReply(NextIn(c))] else []) + Replies(Left(Skip(c)))
  {
    HandleLeft(c);
    RepliesConcat([NextIn(c)], Left(Skip(c)));
    OneFrame(NextIn(c));
  }

  /** The step of the step system that a step amounts to, if any. */
  ghost function AbsStep(n: Net, step: NetStep): Option<Step> {
    match step
    case Join(h, putOk, alive, _, _, _) => Some(Handshake(h, putOk, alive))
    case Tick(alive, _) => Some(Broadcast(alive))
    case Move(_, _, _) => None
    case HandleDown(id, puts, took) =>
      if id in n.stations && CanHandleDown(n.stations[id], puts, took) && NextIn(n.stations[id].down).id == APPEND_Q
      then Some(DeliverRequest(id, puts)) else None
    case HandleUp(id) =>
      if id in n.stations && CanHandleUp(n.leader, id, n.stations[id]) && NextIn(n.stations[id].up).id == APPEND_R
      then Some(DeliverReply(id)) else None
    case FireTimeout(id) => Some(Timeout(id))
  }

  /** Buffers have room, requests are carriable, and the assumptions of the step system hold. */
  ghost predicate NetEnabled(n: Net, step: NetStep)
    requires NetOk(n)
  {
    && (step.Join? || step.Tick? || step.FireTimeout? ==> Enabled(Abs(n), AbsStep(n, step).value))
    && match step
       case Join(h, putOk, alive, took, reply, replyTook) =>
         && var sent := HandshakeSends(n.leader, h, putOk, alive);
            && CanWriteAll(n.stations, sent, took) && h.id in n.stations
            && reply.id == HANDSHAKE_R && CanWrite(WriteAll(n.stations, sent, took)[h.id].down, reply, replyTook)
       case Tick(alive, took) => CanWriteAll(n.stations, BroadcastTo(n.leader, alive), took)
       case Move(id, downwards, bytes) =>
         id in n.stations && !bytes.Enqueue? &&
             CanStep((if downwards then n.stations[id].down else n.stations[id].up).link, bytes)
       case HandleDown(id, puts, took) => id in n.stations && CanHandleDown(n.stations[id], puts, took)
       case HandleUp(id) => id in n.stations && CanHandleUp(n.leader, id, n.stations[id])
       case FireTimeout(id) => true
  }

  ghost function NetApply(n: Net, step: NetStep): Net
    requires NetOk(n) && NetEnabled(n, step)
  {
    match step
    case Join(h, putOk, alive, took, reply, replyTook) =>
      var written := WriteAll(n.stations, HandshakeSends(n.leader, h, putOk, alive), took);
      Net(HandshakeNode(n.leader, h, putOk),
          written[h.id := written[h.id].(down := Write(written[h.id].down, reply, replyTook))])
    case Tick(alive, took) => n.(stations := WriteAll(n.stations, BroadcastTo(n.leader, alive), took))
    case Move(id, downwards, bytes) =>
      var st := n.stations[id];
      n.(stations := n.stations[id :=
        if downwards then st.(down := st.down.(link := DoStep(st.down.link, bytes)))
        else st.(up := st.up.(link := DoStep(st.up.link, bytes)))])
    case HandleDown(id, puts, took) =>
      n.(stations := n.stations[id := AfterDown(n.stations[id], puts, took)])
    case HandleUp(id) =>
      var st := n.stations[id];
      var f := NextIn(st.up);
      if f.id == APPEND_R then
        ReplyIsTagged(st);
        Net(HandleReply(n.leader, id, FrameReply(f)),
            n.stations[id := st.(up := Skip(st.up), carried := st.carried[1..])])
      else n.(stations := n.stations[id := st.(up := Skip(st.up))])
    case FireTimeout(id) =>
      var st := n.stations[id];
      n.(stations := n.stations[id := st.(node := RaiseTerm(st.node))])
  }

  // ---------------------------------------------------------------- refinement

  lemma WriteRequest(st: Station, q: AppendQ, took: nat)
    requires StationOk(st) && Carriable(q) && CanWrite(st.down, RequestFrame(q), took)
    ensures var st' := st.(down := Write(st.down, RequestFrame(q), took));
            StationOk(st') && AbsPeer(st') == AbsPeer(st).(requests := AbsPeer(st).requests + [q])
  {
    WriteLeft(st.down, RequestFrame(q), took);
    RequestsConcat(Left(st.down), [RequestFrame(q)]);
    OneFrame(RequestFrame(q));
    RequestSurvives(q);
  }

  /** A handshake reply is nothing to the step system. */
  lemma WriteOther(st: Station, f: Frame, took: nat)
    requires StationOk(st) && f.id != APPEND_Q && CanWrite(st.down, f, took)
    ensures var st' := st.(down := Write(st.down, f, took)); StationOk(st') && AbsPeer(st') == AbsPeer(st)
  {
    WriteLeft(st.down, f, took);
    RequestsConcat(Left(st.down), [f]);
    OneFrame(f);
  }

  lemma WriteAllAt(n: Net, sent: map<uint32, AppendQ>, took: map<uint32, nat>, id: uint32)
    requires NetOk(n) && CanWriteAll(n.stations, sent, took) && id in n.stations
    ensures var st, p := WriteAll(n.stations, sent, took)[id], AbsPeer(n.stations[id]);
            StationOk(st) && AbsPeer(st) == if id in sent then p.(requests := p.requests + [sent[id]]) else p
  {
    if id in sent { WriteRequest(n.stations[id], sent[id], took[id]); }
  }

  lemma WriteAllOk(n: Net, l: Node, sent: map<uint32, AppendQ>, took: map<uint32, nat>)
    requires NetOk(n) && CanWriteAll(n.stations, sent, took)
    ensures NetOk(Net(l, WriteAll(n.stations, sent, took)))
  {
    forall id | id in n.stations ensures StationOk(WriteAll(n.stations, sent, took)[id]) {
      WriteAllAt(n, sent, took, id);
    }
  }

  lemma WriteAllRefines(n: Net, l: Node, sent: map<uint32, AppendQ>, took: map<uint32, nat>)
    requires NetOk(n) && CanWriteAll(n.stations, sent, took)
    ensures NetOk(Net(l, WriteAll(n.stations, sent, took)))
    ensures Abs(Net(l, WriteAll(n.stations, sent, took))) == System(l, SendAll(Abs(n).peers, sent))
  {
    WriteAllOk(n, l, sent, took);
    var written := WriteAll(n.stations, sent, took);
    var peers, peers' := SendAll(Abs(n).peers, sent), Abs(Net(l, written)).peers;
    forall id | id in n.stations ensures peers[id] == peers'[id] { WriteAllAt(n, sent, took, id); }
    assert peers == peers';
  }

  /** Replacing one station by one with a given abstract peer. */
  lemma OneStation(n: Net, l: Node, id: uint32, st: Station)
    requires NetOk(n) && id in n.stations && StationOk(st)
    ensures var n' := Net(l, n.stations[id := st]);
            NetOk(n') && Abs(n') == System(l, Abs(n).peers[id := AbsPeer(st)])
  {
    var n' := Net(l, n.stations[id := st]);
    assert forall i <- n'.stations :: StationOk(n'.stations[i]);
    assert Abs(n').peers == Abs(n).peers[id := AbsPeer(st)];
  }

  lemma SameStation(n: Net, id: uint32, st: Station)
    requires NetOk(n) && id in n.stations && StationOk(st) && AbsPeer(st) == AbsPeer(n.stations[id])
    ensures var n' := n.(stations := n.stations[id := st]); NetOk(n') && Abs(n') == Abs(n)
  {
    OneStation(n, n.leader, id, st);
    assert Abs(n).peers[id := AbsPeer(st)] == Abs(n).peers;
  }

  /** What a step of the cluster is to the step system: one of its steps, or nothing. */
  ghost predicate Refines(n: Net, step: NetStep, n': Net)
    requires NetOk(n)
  {
    NetOk(n') && match AbsStep(n, step) case None => Abs(n') == Abs(n) case Some(a) => Moves(Abs(n), a, Abs(n'))
  }

  lemma TickRefines(n: Net, step: NetStep)
    requires NetOk(n) && NetEnabled(n, step) && step.Tick?
    ensures Refines(n, step, NetApply(n, step))
  {
    WriteAllRefines(n, n.leader, BroadcastTo(n.leader, step.alive), step.took);
  }

  lemma JoinRefines(n: Net, step: NetStep)
    requires NetOk(n) && NetEnabled(n, step) && step.Join?
    ensures Refines(n, step, NetApply(n, step))
  {
    var h := step.hello;
    var l, sent := HandshakeNode(n.leader, h, step.putOk), HandshakeSends(n.leader, h, step.putOk, step.alive);
    WriteAllRefines(n, l, sent, step.took);
    var n1 := Net(l, WriteAll(n.stations, sent, step.took));
    WriteOther(n1.stations[h.id], step.reply, step.replyTook);
    SameStation(n1, h.id, NetApply(n, step).stations[h.id]);
  }

  lemma MoveRefines(n: Net, step: NetStep)
    requires NetOk(n) && NetWired(n) && NetEnabled(n, step) && step.Move?
    ensures Refines(n, step, NetApply(n, step))
  {
    var st := n.stations[step.id];
    assert Wired(st);
    MoveLeft(if step.downwards then st.down else st.up, step.bytes);
    SameStation(n, step.id, NetApply(n, step).stations[step.id]);
  }

  lemma TaggedSnoc(rs: seq<AppendR>, carried: seq<bool>, r: AppendR, c: bool)
    requires |rs| == |carried|
    ensures Tagged(rs + [r], carried + [c]) == Tagged(rs, carried) + [Reply(r, c)]
  {
  }

  lemma TaggedTail(r: AppendR, rs: seq<AppendR>, carried: seq<bool>)
    requires |carried| == 1 + |rs|
    ensures Tagged([r] + rs, carried) == [Reply(r, carried[0])] + Tagged(rs, carried[1..])
  {
  }

  lemma WriteReply(st: Station, r: AppendR, took: nat, c: bool)
    requires StationOk(st) && CanWrite(st.up, ReplyFrame(r), took)
    ensures var st' := st.(up := Write(st.up, ReplyFrame(r), took), carried := st.carried + [c]);
            StationOk(st') && AbsPeer(st') == AbsPeer(st).(replies := AbsPeer(st).replies + [Reply(r, c)])
  {
    WriteLeft(st.up, ReplyFrame(r), took);
    RepliesConcat(Left(st.up), [ReplyFrame(r)]);
    OneFrame(ReplyFrame(r));
    AppendRRoundTrip(r);
    TaggedSnoc(Replies(Left(st.up)), st.carried, r, c);
  }

  /** Taking a frame off the down channel takes the oldest request off, or nothing. */
  lemma SkipDown(st: Station)
    requires StationOk(st) && st.down.done < |st.down.link.handled|
    ensures StationOk(st.(down := Skip(st.down)))
    ensures AbsPeer(st).requests ==
              (if NextIn(st.down).id == APPEND_Q then [FrameRequest(NextIn(st.down))] else []) +
                  AbsPeer(st.(down := Skip(st.down))).requests
  {
    HandleLeft(st.down);
    RequestsConcat([NextIn(st.down)], Left(Skip(st.down)));
    OneFrame(NextIn(st.down));
  }

  lemma AfterDownRefines(st: Station, puts: seq<bool>, took: nat)
    requires StationOk(st) && CanHandleDown(st, puts, took)
    ensures StationOk(AfterDown(st, puts, took))
    ensures if NextIn(st.down).id == APPEND_Q
            then AbsPeer(st).requests != [] && |puts| == |AbsPeer(st).requests[0].entries| &&
                 AbsPeer(AfterDown(st, puts, took)) == Answer(AbsPeer(st), puts)
            else AbsPeer(AfterDown(st, puts, took)) == AbsPeer(st)
  {
    SkipDown(st);
    var f, st1 := NextIn(st.down), st.(down := Skip(st.down));
    if f.id == APPEND_Q {
      var q := FrameRequest(f);
      var (node, r) := HandleAppend(st.node, q, puts);
      WriteReply(st1.(node := node), r, took, q.entries != []);
      assert AbsPeer(st).requests[0] == q && AbsPeer(st).requests[1..] == AbsPeer(st1).requests;
    }
  }

  lemma AnswerRefines(n: Net, id: uint32, puts: seq<bool>, took: nat)
    requires NetOk(n) && id in n.stations && CanHandleDown(n.stations[id], puts, took)
    requires NextIn(n.stations[id].down).id == APPEND_Q
    ensures var n' := n.(stations := n.stations[id := AfterDown(n.stations[id], puts, took)]);
            NetOk(n') && Moves(Abs(n), DeliverRequest(id, puts), Abs(n'))
  {
    AfterDownRefines(n.stations[id], puts, took);
    OneStation(n, n.leader, id, AfterDown(n.stations[id], puts, took));
    assert Abs(n).peers[id] == AbsPeer(n.stations[id]);
  }

  lemma HandleDownRefines(n: Net, step: NetStep)
    requires NetOk(n) && NetEnabled(n, step) && step.HandleDown?
    ensures Refines(n, step, NetApply(n, step))
  {
    var st := n.stations[step.id];
    if NextIn(st.down).id == APPEND_Q {
      AnswerRefines(n, step.id, step.puts, step.answerTook);
    } else {
      AfterDownRefines(st, step.puts, step.answerTook);
      SameStation(n, step.id, AfterDown(st, step.puts, step.answerTook));
    }
  }

  lemma SkipUp(st: Station)
    requires StationOk(st) && st.up.done < |st.up.link.handled| && NextIn(st.up).id != APPEND_R
    ensures StationOk(st.(up := Skip(st.up))) && AbsPeer(st.(up := Skip(st.up))) == AbsPeer(st)
  {
    SkipReplies(st.up);
    var left: seq<AppendR> := Replies(Left(Skip(st.up)));
    assert [] + left == left;
  }

  lemma TakeReply(st: Station)
    requires StationOk(st) && st.up.done < |st.up.link.handled| && NextIn(st.up).id == APPEND_R
    ensures st.carried != [] && AbsPeer(st).replies != [] && AbsPeer(st).replies[0].msg == FrameReply(NextIn(st.up))
    ensures var st' := st.(up := Skip(st.up), carried := st.carried[1..]);
            StationOk(st') && AbsPeer(st') == AbsPeer(st).(replies := AbsPeer(st).replies[1..])
  {
    ReplyIsTagged(st);
    TaggedTail(FrameReply(NextIn(st.up)), Replies(Left(Skip(st.up))), st.carried);
  }

  lemma ReplyRefines(n: Net, id: uint32)
    requires NetOk(n) && id in n.stations && CanHandleUp(n.leader, id, n.stations[id])
    requires NextIn(n.stations[id].up).id == APPEND_R && n.stations[id].carried != []
    ensures var st := n.stations[id];
            var n' := Net(HandleReply(n.leader, id, FrameReply(NextIn(st.up))),
                          n.stations[id := st.(up := Skip(st.up), carried := st.carried[1..])]);
            NetOk(n') && Moves(Abs(n), DeliverReply(id), Abs(n'))
  {
    var st := n.stations[id];
    TakeReply(st);
    var st' := st.(up := Skip(st.up), carried := st.carried[1..]);
    OneStation(n, HandleReply(n.leader, id, FrameReply(NextIn(st.up))), id, st');
    assert Abs(n).peers[id] == AbsPeer(st);
  }

  lemma HandleUpRefines(n: Net, step: NetStep)
    requires NetOk(n) && NetEnabled(n, step) && step.HandleUp?
    ensures Refines(n, step, NetApply(n, step))
  {
    var st := n.stations[step.id];
    if NextIn(st.up).id == APPEND_R {
      ReplyIsTagged(st);
      ReplyRefines(n, step.id);
    } else {
      SkipUp(st);
      SameStation(n, step.id, st.(up := Skip(st.up)));
    }
  }

  lemma FireTimeoutRefines(n: Net, step: NetStep)
    requires NetOk(n) && NetEnabled(n, step) && step.FireTimeout?
    ensures Refines(n, step, NetApply(n, step))
  {
    var st := n.stations[step.id];
    var st' := st.(node := RaiseTerm(st.node));
    assert StationOk(st') && AbsPeer(st') == AbsPeer(st).(node := RaiseTerm(st.node));
    OneStation(n, n.leader, step.id, st');
    assert Abs(n).peers[step.id] == AbsPeer(st);
  }

  /** Every step of the cluster is a step of the step system, or invisible to it. */
  lemma StepRefines(n: Net, step: NetStep)
    requires NetOk(n) && NetWired(n) && NetEnabled(n, step)
    ensures Refines(n, step, NetApply(n, step))
  {
    match step
    case Join(_, _, _, _, _, _) => JoinRefines(n, step);
    case Tick(_, _) => TickRefines(n, step);
    case Move(_, _, _) => MoveRefines(n, step);
    case HandleDown(_, _, _) => HandleDownRefines(n, step);
    case HandleUp(_) => HandleUpRefines(n, step);
    case FireTimeout(_) => FireTimeoutRefines(n, step);
  }

  lemma WriteWired(c: Channel, f: Frame, took: nat)
    requires LinkInv(c.link) && CanWrite(c, f, took)
    ensures LinkInv(Write(c, f, took).link)
  {
    LinkStepInv(c.link, Enqueue(f, took));
  }

  lemma WriteAllWired(n: Net, l: Node, sent: map<uint32, AppendQ>, took: map<uint32, nat>)
    requires NetWired(n) && CanWriteAll(n.stations, sent, took)
    ensures NetWired(Net(l, WriteAll(n.stations, sent, took)))
  {
    forall id | id in n.stations ensures Wired(WriteAll(n.stations, sent, took)[id]) {
      assert Wired(n.stations[id]);
      if id in sent { WriteWired(n.stations[id].down, RequestFrame(sent[id]), took[id]); }
    }
  }

  lemma OneWired(n: Net, l: Node, id: uint32, st: Station)
    requires NetWired(n) && id in n.stations && Wired(st)
    ensures NetWired(Net(l, n.stations[id := st]))
  {
  }

  lemma JoinWired(n: Net, step: NetStep)
    requires NetOk(n) && NetWired(n) && NetEnabled(n, step) && step.Join?
    ensures NetWired(NetApply(n, step))
  {
    var h := step.hello;
    var l, sent := HandshakeNode(n.leader, h, step.putOk), HandshakeSends(n.leader, h, step.putOk, step.alive);
    WriteAllWired(n, l, sent, step.took);
    var n1 := Net(l, WriteAll(n.stations, sent, step.took));
    assert Wired(n1.stations[h.id]);
    WriteWired(n1.stations[h.id].down, step.reply, step.replyTook);
    OneWired(n1, l, h.id, NetApply(n, step).stations[h.id]);
  }

  lemma AfterDownWired(st: Station, puts: seq<bool>, took: nat)
    requires Wired(st) && CanHandleDown(st, puts, took)
    ensures Wired(AfterDown(st, puts, took))
  {
    var f := NextIn(st.down);
    if f.id == APPEND_Q { WriteWired(st.up, ReplyFrame(HandleAppend(st.node, FrameRequest(f), puts).1), took); }
  }

  lemma StepWired(n: Net, step: NetStep)
    requires NetOk(n) && NetWired(n) && NetEnabled(n, step)
    ensures NetWired(NetApply(n, step))
  {
    match step
    case Join(_, _, _, _, _, _) => JoinWired(n, step);
    case Tick(alive, took) => WriteAllWired(n, n.leader, BroadcastTo(n.leader, alive), took);
    case Move(id, downwards, bytes) =>
      assert Wired(n.stations[id]);
      LinkStepInv((if downwards then n.stations[id].down else n.stations[id].up).link, bytes);
      OneWired(n, n.leader, id, NetApply(n, step).stations[id]);
    case HandleDown(id, puts, took) =>
      assert Wired(n.stations[id]);
      AfterDownWired(n.stations[id], puts, took);
    case HandleUp(id) =>
      assert Wired(n.stations[id]);
      OneWired(n, NetApply(n, step).leader, id, NetApply(n, step).stations[id]);
    case FireTimeout(id) =>
      assert Wired(n.stations[id]);
      OneWired(n, n.leader, id, NetApply(n, step).stations[id]);
  }

  // ---------------------------------------------------------------- runs

  ghost predicate NetMoves(n: Net, step: NetStep, n': Net) {
    NetOk(n) && NetEnabled(n, step) && n' == NetApply(n, step)
  }

  ghost predicate NetInit(t0: uint32, n: Net) {
    InitLeader(t0, n.leader) && forall id <- n.stations :: n.stations[id] == NEW_STATION
  }

  /** `states` are those of a run that takes `steps`. */
  ghost predicate IsNetRun(t0: uint32, states: seq<Net>, steps: seq<NetStep>)
    decreases |steps|
  {
    && |states| == |steps| + 1
    && if steps == [] then NetInit(t0, states[0])
       else
         var k := |steps| - 1;
         IsNetRun(t0, states[..k + 1], steps[..k]) && NetMoves(states[k], steps[k], states[k + 1])
  }

  lemma NewStation()
    ensures StationOk(NEW_STATION) && AbsPeer(NEW_STATION) == FRESH_PEER && Wired(NEW_STATION)
  {
  }

  lemma InitRefines(t0: uint32, n: Net)
    requires NetInit(t0, n)
    ensures NetOk(n) && NetWired(n) && Init(t0, Abs(n))
  {
    NewStation();
  }

  lemma ExtendVisible(a: Run, n: Net, step: NetStep, n': Net) returns (a': Run)
    requires NetOk(n) && Refines(n, step, n') && IsRun(a) && a.states[|a.steps|] == Abs(n)
    ensures IsRun(a') && a'.t0 == a.t0 && a'.states[|a'.steps|] == Abs(n')
  {
    a' := a;
    var visible := AbsStep(n, step);
    if visible.Some? {
      RunSnoc(a, visible.value, Abs(n'));
      a' := Run(a.t0, a.states + [Abs(n')], a.steps + [visible.value]);
    }
  }

  lemma MoveStepRefines(n: Net, step: NetStep, n': Net)
    requires NetMoves(n, step, n') && NetWired(n)
    ensures NetOk(n') && NetWired(n') && Refines(n, step, n')
  {
    StepRefines(n, step);
    StepWired(n, step);
  }

  /** Every run of the cluster is a run of the step system, up to steps that only move bytes. */
  lemma {:induction false} RunRefines(t0: uint32, states: seq<Net>, steps: seq<NetStep>) returns (a: Run)
    requires IsNetRun(t0, states, steps)
    ensures var n := states[|steps|];
            NetOk(n) && NetWired(n) && IsRun(a) && a.t0 == t0 && a.states[|a.steps|] == Abs(n)
    decreases |steps|
  {
    if steps == [] {
      InitRefines(t0, states[0]);
      a := Run(t0, [Abs(states[0])], []);
    } else {
      var k := |steps| - 1;
      var before := RunRefines(t0, states[..k + 1], steps[..k]);
      MoveStepRefines(states[k], steps[k], states[k + 1]);
      a := ExtendVisible(before, states[k], steps[k], states[k + 1]);
    }
  }

  /** So the invariant holds of the cluster, and every node's log is a prefix of the leader's, or the one entry that a
      first batch with a failed first write leaves. */
  lemma LogsOverTheWire(t0: uint32, states: seq<Net>, steps: seq<NetStep>, id: uint32)
    requires IsNetRun(t0, states, steps) && id in states[|steps|].stations
    ensures var n := states[|steps|];
            && NetOk(n) && Inv(t0, Abs(n))
            && (IsPrefix(n.stations[id].node.log, n.leader) || Misplaced(n.stations[id].node.log, n.leader))
  {
    var a := RunRefines(t0, states, steps);
    RunInv(a, |a.steps|);
    ShapeInRun(a, |a.steps|, id);
  }

  // ---------------------------------------------------------------- requests fit the buffers

  const SHORT: nat := 600

  /** Hosts are text of at most 600 bytes. */
  predicate ShortHosts(log: seq<Entry>) {
    forall e <- log :: |e.host| <= SHORT && ValidUtf8(e.host)
  }

  lemma WordSize(v: nat, k: nat)
    requires v < TWO_32 && (k == 5 || (k == 2 && v < 16384) || (k == 1 && v < 128))
    ensures |Varint(v)| <= k
  {
    assert Pow128(2) == 16384 && Pow128(5) == 128 * 128 * 128 * Pow128(2) by {
      assert Pow128(3) == 128 * Pow128(2) && Pow128(4) == 128 * Pow128(3) && Pow128(5) == 128 * Pow128(4);
    }
    SizeBound(v, k);
    VarintLength(v);
  }

  lemma EntryFits(t0: uint32, e: Entry)
    requires OwnEntry(t0, e) && |e.host| <= SHORT
    ensures 1 + |Delimited(EncodeEntry(e))| <= 26 + |e.host|
  {
    WordSize(1, 1);
    WordSize(e.term, 5);
    WordSize(e.nodeId, 5);
    WordSize(e.port, 5);
    WordSize(|e.host|, 2);
    WordSize(|EncodeEntry(e)|, 2);
  }

  lemma EntriesFit(t0: uint32, es: seq<Entry>)
    requires |es| <= 2 && forall e <- es :: OwnEntry(t0, e) && |e.host| <= SHORT
    ensures |EncodeEntries(es)| <= 2 * (26 + SHORT)
  {
    if |es| >= 1 {
      EntryFits(t0, es[0]);
      if |es| == 2 {
        EntryFits(t0, es[1]);
        assert es[1..][0] == es[1] && es[1..][1..] == [];
        assert EncodeEntries(es[1..]) == [42] + Delimited(EncodeEntry(es[1])) + EncodeEntries([]);
      } else {
        assert es[1..] == [];
      }
    }
  }

  lemma ScalarFits(tag: byte, v: uint32)
    ensures |Field(tag, v)| <= 6
  {
    WordSize(v, 5);
  }

  /** Every request that a leader in a run builds fits a buffer, when hosts are short text. */
  lemma RequestFits(t0: uint32, l: Node, px: Proxy)
    requires LeaderInv(t0, l) && ProxyInv(l.log, px) && ShortHosts(l.log)
    ensures Carriable(RequestFor(l, px))
  {
    var q := RequestFor(l, px);
    assert forall e <- q.entries :: e in l.log;
    assert forall e <- q.entries :: OwnEntry(t0, e) && |e.host| <= SHORT && ValidUtf8(e.host);
    EntriesFit(t0, q.entries);
    ScalarFits(8, q.term);
    ScalarFits(16, q.prevIndex);
    ScalarFits(24, q.prevTerm);
    ScalarFits(32, q.leaderCommit);
  }

  /** A fresh join at a leader without members addresses one request, which fits, to the joining node. */
  lemma FirstRequest(t0: uint32, l: Node, h: Hello)
    requires LeaderInv(t0, l) && |l.log| + 1 < MAX_LOG && l.proxies == map[] && l.role == Leader
    requires ShortHosts(l.log) && |h.host| <= SHORT && ValidUtf8(h.host)
    ensures var l' := HandshakeNode(l, h, true);
            && IsFreshHello(l, h) && h.id in l'.proxies && 1 <= l'.proxies[h.id].next
            && Carriable(RequestFor(l', l'.proxies[h.id]))
            && HandshakeSends(l, h, true, {h.id}) == map[h.id := RequestFor(l', l'.proxies[h.id])]
  {
    JoinLeaderInv(t0, l, h, true);
    var l' := HandshakeNode(l, h, true);
    assert forall e <- l'.log :: e in l.log || e == CfgEntry(l.term, h.id, h.port, h.host);
    RequestFits(t0, l', l'.proxies[h.id]);
  }

  lemma FirstEnabled(t0: uint32, s: System, h: Hello)
    requires Init(t0, s) && h.id in s.peers
    ensures Enabled(s, Handshake(h, true, {h.id}))
  {
  }

  lemma FirstWrite(stations: map<uint32, Station>, id: uint32, q: AppendQ)
    requires id in stations && stations[id] == NEW_STATION && Carriable(q)
    ensures var sent, took := map[id := q], map[id := HEADER + |EncodeAppendQ(q)|];
            CanWriteAll(stations, sent, took) && WriteAll(stations, sent, took)[id].down.link.out == []
  {
  }

  lemma LoneJoinEnabled(n: Net, h: Hello, q: AppendQ, took: map<uint32, nat>)
    requires NetOk(n) && h.id in n.stations && Enabled(Abs(n), Handshake(h, true, {h.id}))
    requires HandshakeSends(n.leader, h, true, {h.id}) == map[h.id := q]
    requires CanWriteAll(n.stations, map[h.id := q], took)
    requires WriteAll(n.stations, map[h.id := q], took)[h.id].down.link.out == []
    ensures NetEnabled(n, Join(h, true, {h.id}, took, Frame(HANDSHAKE_R, []), 0))
  {
  }

  /** So the first node can join over a new connection, whose socket takes all that is written. */
  lemma FirstJoin(t0: uint32, n: Net, h: Hello) returns (step: NetStep)
    requires NetInit(t0, n) && h.id in n.stations
    requires ShortHosts(n.leader.log) && |h.host| <= SHORT && ValidUtf8(h.host)
    ensures NetOk(n) && step.Join? && step.hello == h && NetEnabled(n, step)
  {
    InitRefines(t0, n);
    InitInv(t0, Abs(n));
    FirstRequest(t0, n.leader, h);
    FirstEnabled(t0, Abs(n), h);
    var l := HandshakeNode(n.leader, h, true);
    var q := RequestFor(l, l.proxies[h.id]);
    var took := map[h.id := HEADER + |EncodeAppendQ(q)|];
    FirstWrite(n.stations, h.id, q);
    LoneJoinEnabled(n, h, q, took);
    step := Join(h, true, {h.id}, took, Frame(HANDSHAKE_R, []), 0);
  }
}
