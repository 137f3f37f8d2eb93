/** The API gateway: every HTTP connection is answered at once, or deferred and then answered exactly once
    by whatever holds it. */
module ApiGateway {
  import opened Options
  import opened Messages
  import RoundRobin

  /** An HTTP connection, and a connection to a shard made for one relayed request. */
  type Conn = nat
  type Handle = nat

  datatype Session = Session(username: string, elo: int)

  /** A JSON object from a shard or the allocator, as far as this gateway looks at it. */
  datatype Reply = Reply(success: bool, message: string, elo: int, roomName: string, shard: string)

  datatype Body =
    | Failure(message: string)
    | PassedOn(reply: Reply)
    | LoggedIn(message: string, elo: int, token: string)
    | RoomCreated(message: string, roomName: string, shard: string)
    | MatchFound(roomName: string, shard: string)
    | NoPlayers

  datatype Response = Response(con: Conn, status: int, body: Body)

  // ---- what the deferred answers say ----

  /** What a relay's message is to the callback: not JSON, which counts as no reply, like a shard that is gone; JSON
      in which a field that is needed cannot be read, so that reading it throws, after the session with this rating
      has been stored if only the message text is unreadable; or a reply. */
  datatype ShardMessage = NotJson | Unreadable(stored: Option<int>) | Readable(reply: Reply)

  /** The answer to /login. */
  function LoginAnswer(con: Conn, message: ShardMessage, token: string): Response
    requires !message.Unreadable?
  {
    match message
    case NotJson => Response(con, 502, Failure("upstream unavailable"))
    case Readable(r) =>
      if !r.success then Response(con, 401, PassedOn(r))
      else Response(con, 200, LoggedIn(r.message, r.elo, token))
  }

  /** The rating under which a message opens a session, if it does. */
  function Stored(message: ShardMessage): Option<int> {
    match message
    case NotJson => None
    case Unreadable(stored) => stored
    case Readable(r) => if r.success then Some(r.elo) else None
  }

  function RoomsAnswer(con: Conn, reply: Option<Reply>): Response {
    match reply
    case None => Response(con, 502, Failure("upstream unavailable"))
    case Some(r) =>
      if !r.success then Response(con, 409, PassedOn(r))
      else Response(con, 200, RoomCreated(r.message, r.roomName, r.shard))
  }

  /** The answers an event triggers at a gateway that holds these tickets: one for each that it names, A before B. */
  function EventAnswers(open: map<Ticket, Conn>, e: Event): seq<Response> {
    match e
    case Timeout(t) => if t in open then [Response(open[t], 200, NoPlayers)] else []
    case Assigned(a, b, room, shard) =>
      (if a in open then [Response(open[a], 200, MatchFound(room, shard))] else [])
      + (if b in open && b != a then [Response(open[b], 200, MatchFound(room, shard))] else [])
  }

  /** A held ticket is answered exactly when the event names it. */
  lemma EventAnswersExactly(open: map<Ticket, Conn>, e: Event, t: Ticket)
    requires t in open && forall u :: u in open && open[u] == open[t] ==> u == t
    ensures (exists x :: x in EventAnswers(open, e) && x.con == open[t]) <==> t in Mentions(e)
  {
    var answers := EventAnswers(open, e);
    if t in Mentions(e) {
      match e
      case Timeout(_) => assert answers[0].con == open[t];
      case Assigned(a, _, room, shard) => assert Response(open[t], 200, MatchFound(room, shard)) in answers;
    }
  }

  class RelayState {
    const con: Conn
    const username: string      // whose session a successful reply opens
    const shard: string
    const outgoing: string
    var done: bool              // the callback has fired

    constructor (con: Conn, username: string, shard: string, outgoing: string)
      ensures this.con == con && this.username == username && this.shard == shard && this.outgoing == outgoing && !done
    {
      this.con, this.username, this.shard, this.outgoing, done := con, username, shard, outgoing, false;
    }
  }

  ghost predicate RelayFor(relays: map<Handle, RelayState>, c: Conn) { exists h :: h in relays && relays[h].con == c }

  /** With one relay for each connection, dropping a relay leaves all connections but its own held. */
  lemma RelayDropped(relays: map<Handle, RelayState>, h: Handle)
    requires h in relays
    requires forall f, g :: f in relays && g in relays && relays[f].con == relays[g].con ==> f == g
    ensures forall c :: RelayFor(relays - {h}, c) <==> RelayFor(relays, c) && c != relays[h].con
  {
    forall c ensures RelayFor(relays - {h}, c) <==> RelayFor(relays, c) && c != relays[h].con {
      if RelayFor(relays, c) && c != relays[h].con {
        var g :| g in relays && relays[g].con == c;
        assert g in relays - {h} && (relays - {h})[g].con == c;
      }
    }
  }

  class Gateway {
    var playTickets: map<Ticket, Conn>
    var relays: map<Handle, RelayState>
    var roomJobs: set<Conn>             // threads waiting for the allocator's reply to POST /rooms
    var roundRobinNext: nat
    var responses: seq<Response>
    var requested: seq<Ticket>          // matchmaking.request publications
    var sentToShards: seq<(Handle, string)>
    var sessions: map<string, Session>  // sessionStore.put calls
    ghost var deferred: set<Conn>       // defer_http_response was called and no response has been sent
    ghost var everDeferred: set<Conn>   // defer_http_response was called

    ghost predicate HoldsPlay(c: Conn) reads this`playTickets { exists t :: t in playTickets && playTickets[t] == c }
    ghost predicate HoldsRelay(c: Conn) reads this`relays { RelayFor(relays, c) }
    ghost predicate Answered(c: Conn) reads this`responses { exists i :: 0 <= i < |responses| && responses[i].con == c }

    /** No two holders share a connection. */
    ghost predicate OneHolder() reads this`playTickets, this`relays, this`roomJobs {
      && (forall t, u :: t in playTickets && u in playTickets && playTickets[t] == playTickets[u] ==> t == u)
      && (forall g, h :: g in relays && h in relays && relays[g].con == relays[h].con ==> g == h)
      && (forall c :: !(HoldsPlay(c) && HoldsRelay(c)) && !(c in roomJobs && (HoldsPlay(c) || HoldsRelay(c))))
    }

    /** Every connection is answered at most once; one that was ever deferred has been answered, or it is held by
        exactly one ticket, relay or thread, and never both. */
    ghost predicate Consistent()
      reads this`playTickets, this`relays, this`roomJobs, this`deferred, this`everDeferred, this`responses
    {
      && OneHolder()
      && (forall c :: c in deferred <==> HoldsPlay(c) || HoldsRelay(c) || c in roomJobs)
      && deferred <= everDeferred
      && (forall c :: c in everDeferred ==> (c in deferred <==> !Answered(c)))
      && (forall i, j :: 0 <= i < j < |responses| ==> responses[i].con != responses[j].con)
    }

    /** Between handlers no relay in the table has fired its callback, either. */
    ghost predicate Valid() reads this, relays.Values {
      Consistent() && forall h :: h in relays ==> !relays[h].done
    }

    constructor ()
      ensures Valid() && playTickets == map[] && relays == map[] && responses == [] && roomJobs == {}
      ensures deferred == {} && everDeferred == {}
    {
      playTickets, relays, roomJobs, roundRobinNext := map[], map[], {}, 0;
      responses, requested, sentToShards, sessions, deferred, everDeferred := [], [], [], map[], {}, {};
    }

    /** A connection this gateway has not seen before. */
    ghost predicate New(c: Conn) reads this`deferred, this`responses { c !in deferred && !Answered(c) }

    method RespondSync(r: Response)
      requires Valid() && New(r.con)
      modifies this`responses
      ensures Valid() && responses == old(responses) + [r]
    {
      responses := responses + [r];
      forall c ensures Answered(c) <==> old(Answered(c)) || c == r.con { AnsweredAfter(old(responses), r, c); }
    }

    /** send_http_response is legal only on a deferred connection, and only once. */
    method RespondDeferred(r: Response)
      requires r.con in deferred && !Answered(r.con)
      modifies this`responses, this`deferred
      ensures responses == old(responses) + [r] && deferred == old(deferred) - {r.con}
    {
      responses := responses + [r];
      deferred := deferred - {r.con};
    }

    lemma AnsweredAfter(before: seq<Response>, r: Response, c: Conn)
      requires responses == before + [r]
      ensures Answered(c) <==> c == r.con || exists i :: 0 <= i < |before| && before[i].con == c
    {
      if Answered(c) {
        var i :| 0 <= i < |responses| && responses[i].con == c;
        if i < |before| { assert before[i].con == c; }
      }
      if i :| 0 <= i < |before| && before[i].con == c { assert responses[i].con == c; }
      if c == r.con { assert responses[|before|].con == c; }
    }

    /** Whatever the order of events so far: a connection that was deferred and that nothing holds any more has
        been sent exactly one response. */
    lemma ExactlyOneResponse(c: Conn)
      requires Consistent() && c in everDeferred && !HoldsPlay(c) && !HoldsRelay(c) && c !in roomJobs
      ensures exists i :: 0 <= i < |responses| && responses[i].con == c
                && forall j :: 0 <= j < |responses| && responses[j].con == c ==> j == i
    {
      assert Answered(c);
      var i :| 0 <= i < |responses| && responses[i].con == c;
      assert forall j :: 0 <= j < |responses| && responses[j].con == c ==> j == i;
    }

    // ---- POST /play ----

    /** Without a valid session the answer is immediate; with one the connection waits for its ticket. */
    method PostPlay(con: Conn, session: Option<Session>, ticketId: Ticket)
      requires Valid() && New(con) && ticketId !in playTickets
      modifies this`playTickets, this`responses, this`requested, this`deferred, this`everDeferred
      ensures Valid()
      ensures session.None? ==>
        && responses == old(responses) + [Response(con, 401, Failure("invalid or expired token"))]
        && playTickets == old(playTickets) && requested == old(requested)
        && deferred == old(deferred) && everDeferred == old(everDeferred)
      ensures session.Some? ==>
        && playTickets == old(playTickets)[ticketId := con] && requested == old(requested) + [ticketId]
        && responses == old(responses) && deferred == old(deferred) + {con} && everDeferred == old(everDeferred) + {con}
    {
      if session.None? {
        RespondSync(Response(con, 401, Failure("invalid or expired token")));
        return;
      }
      deferred, everDeferred := deferred + {con}, everDeferred + {con};
      playTickets := playTickets[ticketId := con];
      requested := requested + [ticketId];
      assert playTickets[ticketId] == con;
      forall c ensures HoldsPlay(c) <==> old(HoldsPlay(c)) || c == con {
        if old(HoldsPlay(c)) {
          var t :| t in old(playTickets) && old(playTickets)[t] == c;
          assert t in playTickets && playTickets[t] == c;
        }
      }
    }

    /** Answers one ticket if it is held here, and forgets it. */
    method Resolve(t: Ticket, status: int, body: Body)
      requires Valid()
      modifies this`playTickets, this`responses, this`deferred
      ensures Valid() && playTickets == old(playTickets) - {t}
      ensures responses == old(responses) + if t in old(playTickets) then [Response(old(playTickets)[t], status, body)] else []
    {
      if t !in playTickets {
        assert playTickets - {t} == playTickets;
        return;
      }
      var con := playTickets[t];
      assert HoldsPlay(con);
      RespondDeferred(Response(con, status, body));
      playTickets := playTickets - {t};
      forall c ensures HoldsPlay(c) <==> old(HoldsPlay(c)) && c != con {
        if old(HoldsPlay(c)) && c != con {
          var u :| u in old(playTickets) && old(playTickets)[u] == c;
          assert u in playTickets && playTickets[u] == c;
        }
      }
      forall c ensures Answered(c) <==> old(Answered(c)) || c == con {
        AnsweredAfter(old(responses), Response(con, status, body), c);
      }
    }

    /** matchmaking.assigned and matchmaking.timeout, on the io thread. */
    method OnEvent(e: Event)
      requires Valid()
      modifies this`playTickets, this`responses, this`deferred
      ensures Valid() && playTickets == old(playTickets) - Mentions(e)
      ensures responses == old(responses) + EventAnswers(old(playTickets), e)
      ensures e.Timeout? && e.ticket in old(playTickets) ==>
        responses == old(responses) + [Response(old(playTickets)[e.ticket], 200, NoPlayers)]
      ensures e.Assigned? && e.ticketA in old(playTickets) && e.ticketB !in old(playTickets) ==>
        responses == old(responses) + [Response(old(playTickets)[e.ticketA], 200, MatchFound(e.room, e.shard))]
      ensures e.Assigned? && e.ticketA !in old(playTickets) && e.ticketB in old(playTickets) ==>
        responses == old(responses) + [Response(old(playTickets)[e.ticketB], 200, MatchFound(e.room, e.shard))]
      ensures e.Assigned? && e.ticketA in old(playTickets) && e.ticketB in old(playTickets) && e.ticketA != e.ticketB ==>
        responses == old(responses) + [Response(old(playTickets)[e.ticketA], 200, MatchFound(e.room, e.shard)),
                                       Response(old(playTickets)[e.ticketB], 200, MatchFound(e.room, e.shard))]
    {
      match e {
        case Timeout(t) =>
          Resolve(t, 200, NoPlayers);
        case Assigned(a, b, room, shard) =>
          var sides := [a, b];
          Resolve(sides[0], 200, MatchFound(room, shard));
          Resolve(sides[1], 200, MatchFound(room, shard));
          assert playTickets == old(playTickets) - {a, b};
      }
    }

    // ---- POST /login ----

    /** The next live shard in turn, if there is one. */
    method PickShard(live: seq<string>) returns (shard: Option<string>)
      modifies this`roundRobinNext
      ensures live == [] ==> shard == None && roundRobinNext == old(roundRobinNext)
      ensures live != [] ==> shard.Some? && (shard.value, roundRobinNext) == RoundRobin.Choose(live, None, old(roundRobinNext))
      ensures live != [] ==>
        && shard == Some(live[old(roundRobinNext) % |live|])
        && roundRobinNext == (old(roundRobinNext) + 1) % 0x1_0000_0000_0000_0000
    {
      if live == [] {
        return None;
      }
      shard := Some(live[roundRobinNext % |live|]);
      roundRobinNext := RoundRobin.Bump(roundRobinNext);
    }

    method AddRelay(h: Handle, state: RelayState)
      requires Valid() && h !in relays && New(state.con) && !state.done
      modifies this`relays, this`deferred, this`everDeferred
      ensures Valid() && relays == old(relays)[h := state]
      ensures deferred == old(deferred) + {state.con} && everDeferred == old(everDeferred) + {state.con}
    {
      deferred, everDeferred := deferred + {state.con}, everDeferred + {state.con};
      relays := relays[h := state];
      assert relays[h].con == state.con;
      forall c ensures HoldsRelay(c) <==> old(HoldsRelay(c)) || c == state.con {
        if old(HoldsRelay(c)) {
          var g :| g in old(relays) && old(relays)[g].con == c;
          assert g in relays && relays[g].con == c;
        }
      }
    }

    /** No live shard: answered at once. Otherwise deferred: answered right away when no connection can be made,
        else held by one relay. `connection` is the handle get_connection made, if it made one. */
    method PostLogin(con: Conn, username: string, outgoing: string, live: seq<string>, connection: Option<Handle>)
      requires Valid() && New(con) && (connection.Some? ==> connection.value !in relays)
      modifies this`relays, this`responses, this`deferred, this`everDeferred, this`roundRobinNext
      ensures Valid()
      ensures live == [] ==>
        responses == old(responses) + [Response(con, 503, Failure("no game-server shard available"))]
      ensures live != [] && connection.None? ==>
        responses == old(responses) + [Response(con, 502, Failure("upstream unavailable"))]
      ensures everDeferred == if live == [] then old(everDeferred) else old(everDeferred) + {con}
      ensures roundRobinNext
        == if live == [] then old(roundRobinNext) else (old(roundRobinNext) + 1) % 0x1_0000_0000_0000_0000
      ensures live == [] || connection.None? ==> relays == old(relays) && deferred == old(deferred)
      ensures live != [] && connection.Some? ==>
        var h := connection.value;
        && responses == old(responses) && deferred == old(deferred) + {con}
        && h in relays && relays == old(relays)[h := relays[h]] && fresh(relays[h])
        && relays[h].con == con && relays[h].outgoing == outgoing && relays[h].username == username
        && relays[h].shard == live[old(roundRobinNext) % |live|]
    {
      var shardUri := PickShard(live);
      if shardUri.None? {
        RespondSync(Response(con, 503, Failure("no game-server shard available")));
        return;
      }
      if connection.None? {
        deferred, everDeferred := deferred + {con}, everDeferred + {con};
        RespondDeferred(LoginAnswer(con, NotJson, ""));
        assert deferred == old(deferred);
        forall c ensures Answered(c) <==> old(Answered(c)) || c == con {
          AnsweredAfter(old(responses), LoginAnswer(con, NotJson, ""), c);
        }
        return;
      }
      var state := new RelayState(con, username, shardUri.value, outgoing);
      AddRelay(connection.value, state);
    }

    method OnRelayOpen(h: Handle)
      requires Valid()
      modifies this`sentToShards
      ensures Valid()
      ensures sentToShards == old(sentToShards) + if h in relays then [(h, relays[h].outgoing)] else []
    {
      if h !in relays {
        return;
      }
      sentToShards := sentToShards + [(h, relays[h].outgoing)];
    }

    /** Answers a relay's connection, and drops the relay. */
    method Fire(h: Handle, r: Response)
      requires Consistent() && h in relays && r.con == relays[h].con
      modifies this`relays, this`responses, this`deferred
      ensures Consistent() && relays == old(relays) - {h}
      ensures responses == old(responses) + [r] && deferred == old(deferred) - {r.con}
    {
      assert HoldsRelay(r.con);
      RelayDropped(relays, h);
      RespondDeferred(r);
      relays := relays - {h};
      forall c ensures Answered(c) <==> old(Answered(c)) || c == r.con { AnsweredAfter(old(responses), r, c); }
    }

    /** The first message on a relay answers its connection and ends the relay, unless the callback throws: then the
        exception leaves the handler, nothing has been sent, and the relay stays, marked as done. */
    method OnRelayMessage(h: Handle, message: ShardMessage, token: string) returns (thrown: bool)
      requires Valid()
      modifies this`relays, this`responses, this`deferred, this`sessions, if h in relays then {relays[h]} else {}
      ensures thrown == (h in old(relays) && message.Unreadable?)
      ensures sessions == if h in old(relays) && Stored(message).Some?
        then old(sessions)[token := Session(old(relays[h].username), Stored(message).value)] else old(sessions)
      ensures h in old(relays) ==> old(relays[h]).done
      ensures thrown ==>
        Consistent() && relays == old(relays) && responses == old(responses) && deferred == old(deferred)
      ensures !thrown ==> Valid() && relays == old(relays) - {h}
      ensures !thrown ==>
        responses == old(responses)
          + if h in old(relays) then [LoginAnswer(old(relays[h].con), message, token)] else []
      ensures h in old(relays) && message.NotJson? ==>
        && responses == old(responses) + [Response(old(relays[h].con), 502, Failure("upstream unavailable"))]
        && sessions == old(sessions)
      ensures h in old(relays) && message.Readable? && !message.reply.success ==>
        && responses == old(responses) + [Response(old(relays[h].con), 401, PassedOn(message.reply))]
        && sessions == old(sessions)
      ensures h in old(relays) && message.Readable? && message.reply.success ==>
        && responses == old(responses)
             + [Response(old(relays[h].con), 200, LoggedIn(message.reply.message, message.reply.elo, token))]
        && sessions == old(sessions)[token := Session(old(relays[h].username), message.reply.elo)]
      ensures !thrown && h in old(relays) && token !in old(sessions) ==>
        |responses| > |old(responses)| && (responses[|old(responses)|].status == 200 <==> token in sessions)
      ensures !thrown ==> deferred == if h in old(relays) then old(deferred) - {old(relays[h].con)} else old(deferred)
    {
      thrown := h in relays && message.Unreadable?;
      if h !in relays {
        assert relays - {h} == relays;
        return;
      }
      var state := relays[h];
      state.done := true;
      var stored := Stored(message);
      if stored.Some? {
        sessions := sessions[token := Session(state.username, stored.value)];
      }
      if !thrown {
        Fire(h, LoginAnswer(state.con, message, token));
      }
    }

    /** The relay's connection closed or failed: the callback fires now unless it already has. */
    method OnRelayGone(h: Handle)
      requires Valid()
      modifies this`relays, this`responses, this`deferred
      ensures Valid() && relays == old(relays) - {h}
      ensures responses == old(responses)
        + if h in old(relays) then [Response(old(relays[h].con), 502, Failure("upstream unavailable"))] else []
      ensures deferred == if h in old(relays) then old(deferred) - {old(relays[h].con)} else old(deferred)
    {
      if h !in relays {
        assert relays - {h} == relays;
        return;
      }
      var state := relays[h];
      var r := LoginAnswer(state.con, NotJson, "");
      assert HoldsRelay(state.con);
      RelayDropped(relays, h);
      if !state.done {
        RespondDeferred(r);
      }
      relays := relays - {h};
      forall c ensures Answered(c) <==> old(Answered(c)) || c == r.con { AnsweredAfter(old(responses), r, c); }
    }

    // ---- POST /rooms ----

    method PostRooms(con: Conn, session: Option<Session>)
      requires Valid() && New(con)
      modifies this`roomJobs, this`responses, this`deferred, this`everDeferred
      ensures Valid()
      ensures session.None? ==>
        && responses == old(responses) + [Response(con, 401, Failure("invalid or expired token"))]
        && roomJobs == old(roomJobs) && deferred == old(deferred) && everDeferred == old(everDeferred)
      ensures session.Some? ==>
        && roomJobs == old(roomJobs) + {con} && responses == old(responses)
        && deferred == old(deferred) + {con} && everDeferred == old(everDeferred) + {con}
    {
      if session.None? {
        RespondSync(Response(con, 401, Failure("invalid or expired token")));
        return;
      }
      deferred, everDeferred := deferred + {con}, everDeferred + {con};
      roomJobs := roomJobs + {con};
    }

    /** The waiting thread posts the allocator's reply, or that there was none, back to the io thread. */
    method OnRoomsReply(con: Conn, reply: Option<Reply>)
      requires Valid() && con in roomJobs
      modifies this`roomJobs, this`responses, this`deferred
      ensures Valid() && roomJobs == old(roomJobs) - {con} && deferred == old(deferred) - {con}
      ensures responses == old(responses) + [RoomsAnswer(con, reply)]
      ensures reply.None? ==> responses == old(responses) + [Response(con, 502, Failure("upstream unavailable"))]
      ensures reply.Some? && !reply.value.success ==>
        responses == old(responses) + [Response(con, 409, PassedOn(reply.value))]
      ensures reply.Some? && reply.value.success ==>
        var r := reply.value;
        responses == old(responses) + [Response(con, 200, RoomCreated(r.message, r.roomName, r.shard))]
    {
      roomJobs := roomJobs - {con};
      RespondDeferred(RoomsAnswer(con, reply));
      forall c ensures Answered(c) <==> old(Answered(c)) || c == con {
        AnsweredAfter(old(responses), RoomsAnswer(con, reply), c);
      }
    }

    /** A message, then the close it causes: one answer, from the message. */
    method MessageThenClose(h: Handle, message: ShardMessage, token: string)
      requires Valid() && h in relays && !message.Unreadable?
      modifies this`relays, this`responses, this`deferred, this`sessions, relays[h]
      ensures Valid() && h !in relays
      ensures message.NotJson? ==>
        responses == old(responses) + [Response(old(relays[h].con), 502, Failure("upstream unavailable"))]
      ensures message.Readable? && !message.reply.success ==>
        responses == old(responses) + [Response(old(relays[h].con), 401, PassedOn(message.reply))]
      ensures message.Readable? && message.reply.success ==>
        responses == old(responses)
          + [Response(old(relays[h].con), 200, LoggedIn(message.reply.message, message.reply.elo, token))]
    {
      var _ := OnRelayMessage(h, message, token);
      OnRelayGone(h);
    }
  }
}
