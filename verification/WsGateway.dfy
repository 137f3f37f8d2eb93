/** The WebSocket gateway: one link per client between the client's connection and a shard's. */
module WsGateway {
  import opened Options
  import RoundRobin

  /** The identity of a connection; the transport never hands out the handle of a live connection again. */
  type Handle = nat

  datatype Opcode = Text | Binary
  datatype Frame = Frame(payload: string, opcode: Opcode)

  // ---- one link as a value ----

  /** A link with the history of what came in and what was handed on. */
  datatype View = View(
    up: Handle,
    open: bool,
    pending: seq<string>,
    received: seq<Frame>,  // from the client
    queued: nat,           // how many of those came before the upstream opened
    sent: seq<Frame>,      // to the shard
    fromShard: seq<Frame>,
    toClient: seq<Frame>)

  function Payloads(fs: seq<Frame>): (ps: seq<string>)
    ensures |ps| == |fs|
    ensures forall i :: 0 <= i < |fs| ==> ps[i] == fs[i].payload
  {
    seq(|fs|, i requires 0 <= i < |fs| => fs[i].payload)
  }

  /** Queued payloads are flushed as text frames. */
  function AsText(ps: seq<string>): (fs: seq<Frame>)
    ensures |fs| == |ps|
    ensures forall i :: 0 <= i < |ps| ==> fs[i] == Frame(ps[i], Text)
  {
    seq(|ps|, i requires 0 <= i < |ps| => Frame(ps[i], Text))
  }

  function NewLink(up: Handle): View { View(up, false, [], [], 0, [], [], []) }

  function FromClient(v: View, f: Frame): View {
    if v.open then v.(received := v.received + [f], sent := v.sent + [f])
    else v.(received := v.received + [f], queued := v.queued + 1, pending := v.pending + [f.payload])
  }

  function Opened(v: View): View {
    v.(open := true, sent := v.sent + AsText(v.pending), pending := [])
  }

  function FromShard(v: View, f: Frame): View {
    v.(fromShard := v.fromShard + [f], toClient := v.toClient + [f])
  }

  /** What every link keeps: before the upstream opens everything received is waiting in order and nothing was
      sent; afterwards nothing waits and everything received was sent in order, the queued part as text. */
  predicate Pipe(v: View) {
    && v.queued <= |v.received|
    && v.toClient == v.fromShard
    && (if v.open
        then v.pending == [] && v.sent == AsText(Payloads(v.received[..v.queued])) + v.received[v.queued..]
        else v.sent == [] && v.queued == |v.received| && v.pending == Payloads(v.received))
  }

  lemma PipeFromClient(v: View, f: Frame)
    requires Pipe(v)
    ensures Pipe(FromClient(v, f))
  {
    var w := FromClient(v, f);
    assert w.received[..v.queued] == v.received[..v.queued];
    if v.open {
      assert w.received[v.queued..] == v.received[v.queued..] + [f];
    } else {
      assert Payloads(w.received) == Payloads(v.received) + [f.payload];
    }
  }

  lemma PipeOpened(v: View)
    requires Pipe(v)
    ensures Pipe(Opened(v))
  {
    if v.open {
      assert AsText([]) == [] && v.sent + [] == v.sent;
    } else {
      assert v.received[..v.queued] == v.received && v.received[v.queued..] == [];
    }
  }

  /** Payloads pass through verbatim and in order: what was sent, then what still waits, is what was received. */
  lemma PayloadsVerbatim(v: View)
    requires Pipe(v)
    ensures Payloads(v.sent) + v.pending == Payloads(v.received)
    ensures v.open ==> Payloads(v.sent) == Payloads(v.received)
  {
    if v.open {
      assert Payloads(v.sent) == Payloads(v.received);
      assert Payloads(v.sent) + [] == Payloads(v.sent);
    } else {
      assert Payloads([]) == [];
    }
  }

  /** Frames pass through verbatim exactly when every frame that had to be queued was a text frame. */
  lemma FramesVerbatimExactly(v: View)
    requires Pipe(v) && v.open
    ensures v.sent == v.received <==> forall i :: 0 <= i < v.queued ==> v.received[i].opcode == Text
  {
    assert forall i :: 0 <= i < v.queued ==> v.sent[i] == Frame(v.received[i].payload, Text);
    assert forall i :: v.queued <= i < |v.received| ==> v.sent[i] == v.received[i];
    if v.sent == v.received {
      assert forall i :: 0 <= i < v.queued ==> v.received[i] == v.sent[i];
    }
  }

  /** A binary frame that arrives before the upstream opens reaches the shard as text. */
  lemma QueuedBinaryBecomesText(up: Handle, payload: string)
    ensures Opened(FromClient(NewLink(up), Frame(payload, Binary))).sent == [Frame(payload, Text)]
  {
  }

  // ---- a link over its whole life, against a plain description of the two pipes ----

  datatype LinkEvent = ClientSends(f: Frame) | UpstreamOpens | ShardSends(f: Frame)

  function Step(v: View, e: LinkEvent): View {
    match e
    case ClientSends(f) => FromClient(v, f)
    case UpstreamOpens => Opened(v)
    case ShardSends(f) => FromShard(v, f)
  }

  function After(v: View, events: seq<LinkEvent>): View
    decreases |events|
  {
    if events == [] then v else After(Step(v, events[0]), events[1..])
  }

  function ClientFrames(events: seq<LinkEvent>): seq<Frame> {
    if events == [] then []
    else (if events[0].ClientSends? then [events[0].f] else []) + ClientFrames(events[1..])
  }

  function ShardFrames(events: seq<LinkEvent>): seq<Frame> {
    if events == [] then []
    else (if events[0].ShardSends? then [events[0].f] else []) + ShardFrames(events[1..])
  }

  /** What the shard must have been sent: nothing before the upstream opens; then the frames queued so far as
      text, and from there on every client frame as it is. */
  function Delivered(queued: seq<Frame>, events: seq<LinkEvent>): seq<Frame>
    decreases |events|
  {
    if events == [] then []
    else match events[0]
      case ClientSends(f) => Delivered(queued + [f], events[1..])
      case UpstreamOpens => AsText(Payloads(queued)) + ClientFrames(events[1..])
      case ShardSends(_) => Delivered(queued, events[1..])
  }

  lemma PipeStep(v: View, e: LinkEvent)
    requires Pipe(v)
    ensures Pipe(Step(v, e))
  {
    match e
    case ClientSends(f) => PipeFromClient(v, f);
    case UpstreamOpens => PipeOpened(v);
    case ShardSends(f) =>
  }

  lemma OpenStep(v: View, e: LinkEvent)
    requires Pipe(v) && v.open
    ensures var w := Step(v, e);
      Pipe(w) && w.open && w.sent == v.sent + if e.ClientSends? then [e.f] else []
  {
    PipeStep(v, e);
  }

  lemma {:induction false} OpenLinkForwards(v: View, events: seq<LinkEvent>)
    requires Pipe(v) && v.open
    ensures After(v, events).sent == v.sent + ClientFrames(events)
    decreases |events|
  {
    if events != [] {
      OpenStep(v, events[0]);
      OpenLinkForwards(Step(v, events[0]), events[1..]);
    }
  }

  lemma {:induction false} ClosedLinkQueues(v: View, events: seq<LinkEvent>)
    requires Pipe(v) && !v.open
    ensures After(v, events).sent == Delivered(v.received, events)
    decreases |events|
  {
    if events != [] {
      var w := Step(v, events[0]);
      PipeStep(v, events[0]);
      if events[0].UpstreamOpens? {
        assert w.sent == AsText(Payloads(v.received));
        OpenLinkForwards(w, events[1..]);
      } else {
        ClosedLinkQueues(w, events[1..]);
      }
    }
  }

  lemma {:induction false} DownstreamForwards(v: View, events: seq<LinkEvent>)
    ensures After(v, events).toClient == v.toClient + ShardFrames(events)
    decreases |events|
  {
    if events != [] {
      var w := Step(v, events[0]);
      assert w.toClient == v.toClient + if events[0].ShardSends? then [events[0].f] else [];
      DownstreamForwards(w, events[1..]);
    }
  }

  /** Over a link's whole life, whatever order the events come in: the shard is sent what Delivered says, and the
      client every frame of the shard, in order. */
  lemma LinkRefinesPipes(up: Handle, events: seq<LinkEvent>)
    ensures After(NewLink(up), events).sent == Delivered([], events)
    ensures After(NewLink(up), events).toClient == ShardFrames(events)
  {
    ClosedLinkQueues(NewLink(up), events);
    DownstreamForwards(NewLink(up), events);
  }

  // ---- the gateway ----

  class Link {
    const downstreamHdl: Handle
    const upstreamHdl: Handle
    var upstreamOpen: bool
    var pending: seq<string>
    ghost var received: seq<Frame>
    ghost var queued: nat
    ghost var sent: seq<Frame>
    ghost var fromShard: seq<Frame>
    ghost var toClient: seq<Frame>

    ghost function Seen(): View reads this {
      View(upstreamHdl, upstreamOpen, pending, received, queued, sent, fromShard, toClient)
    }

    constructor (downstreamHdl: Handle, upstreamHdl: Handle)
      ensures this.downstreamHdl == downstreamHdl && this.upstreamHdl == upstreamHdl
      ensures Seen() == NewLink(upstreamHdl)
    {
      this.downstreamHdl, this.upstreamHdl := downstreamHdl, upstreamHdl;
      upstreamOpen, pending := false, [];
      received, queued, sent, fromShard, toClient := [], 0, [], [], [];
    }

    /** The client sent a frame: passed on as it is, or its payload queued. */
    method Receive(f: Frame)
      modifies this
      ensures Seen() == FromClient(old(Seen()), f)
    {
      received := received + [f];
      if upstreamOpen {
        sent := sent + [f];
      } else {
        queued := queued + 1;
        pending := pending + [f.payload];
      }
    }

    /** The shard sent a frame: passed on as it is. */
    method Return(f: Frame)
      modifies this
      ensures Seen() == FromShard(old(Seen()), f)
    {
      fromShard := fromShard + [f];
      toClient := toClient + [f];
    }

    /** The upstream is connected: what waits is sent, as text, in the order it came. */
    method Open()
      modifies this
      ensures Seen() == Opened(old(Seen()))
    {
      ghost var before := Seen();
      upstreamOpen := true;
      for i := 0 to |pending|
        invariant Seen() == before.(open := true, sent := before.sent + AsText(before.pending[..i]))
      {
        sent := sent + [Frame(pending[i], Text)];
        assert AsText(before.pending[..i + 1]) == AsText(before.pending[..i]) + [Frame(before.pending[i], Text)];
      }
      assert before.pending[..|before.pending|] == before.pending;
      pending := [];
    }
  }

  datatype CloseReason = TryAgainLater | InternalEndpointError | UpstreamLost | ClientDisconnected
  datatype Close = CloseDownstream(h: Handle, reason: CloseReason) | CloseUpstream(h: Handle, reason: CloseReason)

  class Gateway {
    var byDownstream: map<Handle, Link>
    var byUpstream: map<Handle, Link>
    var roundRobinNext: nat
    var closes: seq<Close>

    /** The two maps hold the same links, each under its own two handles. */
    ghost predicate Inverse() reads this {
      && (forall d :: d in byDownstream ==> Registered(byDownstream[d]) && byDownstream[d].downstreamHdl == d)
      && (forall u :: u in byUpstream ==> Registered(byUpstream[u]) && byUpstream[u].upstreamHdl == u)
    }

    ghost predicate Registered(link: Link) reads this {
      && link.downstreamHdl in byDownstream && byDownstream[link.downstreamHdl] == link
      && link.upstreamHdl in byUpstream && byUpstream[link.upstreamHdl] == link
    }

    /** Every live link is a pipe. */
    ghost predicate Pipes() reads this, byDownstream.Values {
      forall d :: d in byDownstream ==> Pipe(byDownstream[d].Seen())
    }

    ghost predicate Valid() reads this, byDownstream.Values { Inverse() && Pipes() }

    constructor ()
      ensures Valid() && byDownstream == map[] && byUpstream == map[] && closes == [] && roundRobinNext == 0
    {
      byDownstream, byUpstream, roundRobinNext, closes := map[], map[], 0, [];
    }

    /** The shard for a new connection; the counter moves on only when the choice is by turn. */
    method ChooseShard(liveShards: seq<string>, hint: Option<string>) returns (uri: string)
      requires liveShards != []
      modifies this`roundRobinNext
      ensures (uri, roundRobinNext) == RoundRobin.Choose(liveShards, hint, old(roundRobinNext))
      ensures uri in liveShards
      ensures hint.Some? && hint.value != "" && hint.value in liveShards ==>
        uri == hint.value && roundRobinNext == old(roundRobinNext)
      ensures hint.None? || hint.value == "" || hint.value !in liveShards ==>
        && uri == liveShards[old(roundRobinNext) % |liveShards|]
        && roundRobinNext == (old(roundRobinNext) + 1) % 0x1_0000_0000_0000_0000
    {
      if RoundRobin.Hinted(liveShards, hint) {
        return hint.value;
      }
      uri := liveShards[roundRobinNext % |liveShards|];
      roundRobinNext := RoundRobin.Bump(roundRobinNext);
    }

    /** Puts a link under both its handles. */
    method Register(link: Link)
      requires Valid() && Pipe(link.Seen())
      requires link.downstreamHdl !in byDownstream && link.upstreamHdl !in byUpstream
      modifies this`byDownstream, this`byUpstream
      ensures Valid()
      ensures byDownstream == old(byDownstream)[link.downstreamHdl := link]
      ensures byUpstream == old(byUpstream)[link.upstreamHdl := link]
    {
      byDownstream := byDownstream[link.downstreamHdl := link];
      byUpstream := byUpstream[link.upstreamHdl := link];
      assert forall l :: old(Registered(l)) ==> Registered(l);
    }

    method Connect(d: Handle, u: Handle) returns (link: Link)
      requires Valid() && d !in byDownstream && u !in byUpstream
      modifies this`byDownstream, this`byUpstream
      ensures Valid() && fresh(link) && link.Seen() == NewLink(u)
      ensures byDownstream == old(byDownstream)[d := link] && byUpstream == old(byUpstream)[u := link]
    {
      link := new Link(d, u);
      Register(link);
    }

    /** Takes a link out from under both its handles. */
    method Unlink(link: Link)
      requires Valid() && Registered(link)
      modifies this`byDownstream, this`byUpstream
      ensures Valid()
      ensures byDownstream == old(byDownstream) - {link.downstreamHdl}
      ensures byUpstream == old(byUpstream) - {link.upstreamHdl}
    {
      byUpstream := byUpstream - {link.upstreamHdl};
      byDownstream := byDownstream - {link.downstreamHdl};
      forall d | d in byDownstream ensures Registered(byDownstream[d]) { assert old(Registered(byDownstream[d])); }
      forall u | u in byUpstream ensures Registered(byUpstream[u]) { assert old(Registered(byUpstream[u])); }
    }

    /** A client connects. `hint` is its X-Shard-Hint header when the handshake can be read, `connection` the
        handle get_connection made, if it made one. */
    method OnDownstreamOpen(d: Handle, liveShards: seq<string>, hint: Option<string>, connection: Option<Handle>)
      returns (routed: Option<string>)
      requires Valid() && d !in byDownstream
      requires connection.Some? ==> connection.value !in byUpstream
      modifies this
      ensures Valid()
      ensures routed.None? ==> byDownstream == old(byDownstream) && byUpstream == old(byUpstream)
      ensures routed.Some? <==> liveShards != [] && connection.Some?
      ensures routed.Some? ==>
        && d in byDownstream && fresh(byDownstream[d]) && byDownstream[d].Seen() == NewLink(connection.value)
        && byDownstream == old(byDownstream)[d := byDownstream[d]]
        && byUpstream == old(byUpstream)[connection.value := byDownstream[d]]
      ensures if liveShards == [] then roundRobinNext == old(roundRobinNext)
              else var (uri, next) := RoundRobin.Choose(liveShards, hint, old(roundRobinNext));
                   roundRobinNext == next && (routed.Some? ==> routed.value == uri)
      ensures routed.Some? ==> routed.value in liveShards
      ensures liveShards != [] && hint.Some? && hint.value != "" && hint.value in liveShards ==>
        roundRobinNext == old(roundRobinNext) && (routed.Some? ==> routed.value == hint.value)
      ensures liveShards != [] && (hint.None? || hint.value == "" || hint.value !in liveShards) ==>
        && roundRobinNext == (old(roundRobinNext) + 1) % 0x1_0000_0000_0000_0000
        && (routed.Some? ==> routed.value == liveShards[old(roundRobinNext) % |liveShards|])
      ensures closes == old(closes) +
        if liveShards == [] then [CloseDownstream(d, TryAgainLater)]
        else if connection.None? then [CloseDownstream(d, InternalEndpointError)] else []
    {
      if liveShards == [] {
        closes := closes + [CloseDownstream(d, TryAgainLater)];
        return None;
      }
      var uri := ChooseShard(liveShards, hint);
      if connection.None? {
        closes := closes + [CloseDownstream(d, InternalEndpointError)];
        return None;
      }
      var _ := Connect(d, connection.value);
      return Some(uri);
    }

    method OnDownstreamMessage(d: Handle, f: Frame)
      requires Valid()
      modifies if d in byDownstream then {byDownstream[d]} else {}
      ensures Valid()
      ensures d in byDownstream ==> byDownstream[d].Seen() == FromClient(old(byDownstream[d].Seen()), f)
    {
      if d !in byDownstream {
        return;
      }
      var link := byDownstream[d];
      PipeFromClient(link.Seen(), f);
      link.Receive(f);
    }

    method OnDownstreamClose(d: Handle)
      requires Valid()
      modifies this`byDownstream, this`byUpstream, this`closes
      ensures Valid() && byDownstream == old(byDownstream) - {d}
      ensures d !in old(byDownstream) ==> closes == old(closes) && byUpstream == old(byUpstream)
      ensures d in old(byDownstream) ==>
        var u := old(byDownstream[d].upstreamHdl);
        byUpstream == old(byUpstream) - {u} && closes == old(closes) + [CloseUpstream(u, ClientDisconnected)]
    {
      if d !in byDownstream {
        assert byDownstream - {d} == byDownstream;
        return;
      }
      var link := byDownstream[d];
      closes := closes + [CloseUpstream(link.upstreamHdl, ClientDisconnected)];
      Unlink(link);
    }

    method OnUpstreamOpen(u: Handle)
      requires Valid()
      modifies if u in byUpstream then {byUpstream[u]} else {}
      ensures Valid()
      ensures u in byUpstream ==> byUpstream[u].Seen() == Opened(old(byUpstream[u].Seen()))
    {
      if u !in byUpstream {
        return;
      }
      var link := byUpstream[u];
      assert Registered(link);
      PipeOpened(link.Seen());
      link.Open();
    }

    method OnUpstreamMessage(u: Handle, f: Frame)
      requires Valid()
      modifies if u in byUpstream then {byUpstream[u]} else {}
      ensures Valid()
      ensures u in byUpstream ==> byUpstream[u].Seen() == FromShard(old(byUpstream[u].Seen()), f)
    {
      if u !in byUpstream {
        return;
      }
      var link := byUpstream[u];
      assert Registered(link);
      link.Return(f);
    }

    /** The upstream connection closed or never opened. */
    method OnUpstreamGone(u: Handle)
      requires Valid()
      modifies this`byDownstream, this`byUpstream, this`closes
      ensures Valid() && byUpstream == old(byUpstream) - {u}
      ensures u !in old(byUpstream) ==> closes == old(closes) && byDownstream == old(byDownstream)
      ensures u in old(byUpstream) ==>
        var d := old(byUpstream[u].downstreamHdl);
        byDownstream == old(byDownstream) - {d} && closes == old(closes) + [CloseDownstream(d, UpstreamLost)]
    {
      if u !in byUpstream {
        assert byUpstream - {u} == byUpstream;
        return;
      }
      var link := byUpstream[u];
      assert Registered(link);
      closes := closes + [CloseDownstream(link.downstreamHdl, UpstreamLost)];
      Unlink(link);
    }

    /** A client leaves; when the upstream's close event echoes back, nothing is left for it to do. */
    method ClientLeavesAndUpstreamEchoes(d: Handle)
      requires Valid() && d in byDownstream
      modifies this`byDownstream, this`byUpstream, this`closes
      ensures Valid() && byDownstream == old(byDownstream) - {d}
      ensures var u := old(byDownstream[d].upstreamHdl);
              byUpstream == old(byUpstream) - {u} && closes == old(closes) + [CloseUpstream(u, ClientDisconnected)]
    {
      var u := byDownstream[d].upstreamHdl;
      OnDownstreamClose(d);
      OnUpstreamGone(u);
      assert byUpstream == old(byUpstream) - {u};
    }

    /** The shard is lost; when the client's close event echoes back, nothing is left for it to do. */
    method ShardLeavesAndClientEchoes(u: Handle)
      requires Valid() && u in byUpstream
      modifies this`byDownstream, this`byUpstream, this`closes
      ensures Valid() && byUpstream == old(byUpstream) - {u}
      ensures var d := old(byUpstream[u].downstreamHdl);
              byDownstream == old(byDownstream) - {d} && closes == old(closes) + [CloseDownstream(d, UpstreamLost)]
    {
      var d := byUpstream[u].downstreamHdl;
      OnUpstreamGone(u);
      OnDownstreamClose(d);
      assert byDownstream == old(byDownstream) - {d};
    }
  }
}
