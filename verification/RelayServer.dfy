/** One connection's handler as it works on the shared state, from accept to cleanup, with anything that
    the other handlers do in between. */
module RelayServer {
  import opened FileBytes
  import opened Relay

  /** What happens on the shared state before the handler reads its next frame, and that frame. */
  datatype Turn = Turn(others: seq<Action>, frame: Frame)

  /** An action of another handler, or of any connection's sending task. */
  predicate Foreign(c: ConnId, a: Action) {
    a.c != c || a.Deliver? || a.SinkFails?
  }

  /** The state after what the others do; an action that cannot be taken then is none. */
  function Meanwhile(s: Server, c: ConnId, others: seq<Action>): (s': Server)
    ensures c in s.conns ==> c in s'.conns && s'.conns[c].phase == s.conns[c].phase
  {
    if others == [] then s
    else
      var before, a := Meanwhile(s, c, others[..|others| - 1]), others[|others| - 1];
      if Foreign(c, a) && Step(before, a).Some? then Step(before, a).value else before
  }

  /** The state after the frames of connection `c` have been read, whatever the others did in between. At
      a close, or at the end of the stream, the read loop is left. */
  function Listen(s: Server, c: ConnId, turns: seq<Turn>): (s': Server)
    requires c in s.conns && s.conns[c].phase.Open?
    ensures c in s'.conns && s'.conns[c].phase.Leaving?
    decreases |turns|
  {
    if turns == [] then Step(s, Receive(c, Close)).value
    else
      var now := Meanwhile(s, c, turns[0].others);
      if turns[0].frame.Close? then Step(now, Receive(c, Close)).value
      else Listen(Step(now, Receive(c, turns[0].frame)).value, c, turns[1..])
  }

  function Served(s: Server, c: ConnId, turns: seq<Turn>, last: seq<Action>): Server
    requires c !in s.conns
  {
    Step(Meanwhile(Listen(Step(s, Connect(c)).value, c, turns), c, last), Cleanup(c)).value
  }

  // ---------------------------------------------------------------- what the handler has done

  /** The signals among the frames that are read, up to a close. */
  function SignalsRead(turns: seq<Turn>): seq<Message> {
    if turns == [] || turns[0].frame.Close? then []
    else (if turns[0].frame.Signal? then [turns[0].frame.msg] else []) + SignalsRead(turns[1..])
  }

  function IdsOf(msgs: seq<Message>): seq<PeerId> {
    if msgs == [] then []
    else (if msgs[0].Register? then [msgs[0].peerId] else []) + IdsOf(msgs[1..])
  }

  function GarbageRead(turns: seq<Turn>): nat {
    if turns == [] || turns[0].frame.Close? then 0
    else (if turns[0].frame.Garbage? then 1 else 0) + GarbageRead(turns[1..])
  }

  function Invalids(inbox: seq<Item>): nat {
    multiset(inbox)[InvalidPayload]
  }

  /** The registered id is the last one registered. */
  predicate LastId(conn: Conn) {
    conn.registered == if conn.ids == [] then None else Some(conn.ids[|conn.ids| - 1])
  }

  /** Nothing that others do makes a connection hear a signal, register an id or be told of bad text. */
  ghost predicate Spared(conn: Conn, conn': Conn) {
    && conn'.signals == conn.signals && conn'.ids == conn.ids && conn'.registered == conn.registered
    && conn'.phase == conn.phase && Invalids(conn'.inbox) == Invalids(conn.inbox) && (conn'.sinkOpen ==> conn.sinkOpen)
  }

  lemma PushSpares(s: Server, at: ConnId, item: Item, c: ConnId)
    requires c in s.conns && (item.OfSignal() || at != c)
    ensures var s' := Push(s, at, item); c in s'.conns && Spared(s.conns[c], s'.conns[c]) && s'.conns[c].sinkOpen == s.conns[c].sinkOpen
  {
  }

  lemma HandleSpares(s: Server, src: ConnId, msg: Message, c: ConnId)
    requires c in s.conns && src in s.conns && src != c
    ensures var s' := Handle(s, src, msg); c in s'.conns && Spared(s.conns[c], s'.conns[c]) && s'.conns[c].sinkOpen == s.conns[c].sinkOpen
  {
    hide Push;
    var heard, n := Heard(s, src, msg), |s.conns[src].signals|;
    if TargetPeer(msg).Some? && !msg.Register? {
      var target := TargetPeer(msg).value;
      var at := if target in s.peers then s.peers[target] else src;
      var item := if target in s.peers then Relayed(msg, src, n) else NotConnected(target, src, n);
      PushSpares(heard, at, item, c);
      assert Handle(s, src, msg) == Push(heard, at, item);
    }
  }

  lemma ForeignSpares(s: Server, c: ConnId, a: Action)
    requires c in s.conns && Foreign(c, a) && Step(s, a).Some?
    ensures var s' := Step(s, a).value;
            && c in s'.conns && Spared(s.conns[c], s'.conns[c])
            && (a != SinkFails(c) ==> s'.conns[c].sinkOpen == s.conns[c].sinkOpen)
  {
    hide Handle;
    if a.Receive? && a.frame.Signal? {
      HandleSpares(s, a.c, a.frame.msg, c);
    } else if a.Receive? && a.frame.Garbage? {
      PushSpares(s, a.c, InvalidPayload, c);
    }
  }

  lemma {:induction false} MeanwhileSpares(s: Server, c: ConnId, others: seq<Action>)
    requires c in s.conns
    ensures var s' := Meanwhile(s, c, others);
            && c in s'.conns && Spared(s.conns[c], s'.conns[c])
            && (SinkFails(c) !in others ==> s'.conns[c].sinkOpen == s.conns[c].sinkOpen)
  {
    if others != [] {
      var before, a := Meanwhile(s, c, others[..|others| - 1]), others[|others| - 1];
      MeanwhileSpares(s, c, others[..|others| - 1]);
      if Foreign(c, a) && Step(before, a).Some? {
        ForeignSpares(before, c, a);
      }
    }
  }

  /** If the others' actions can all be taken, what happens meanwhile is the run of them. */
  lemma {:induction false} MeanwhileIsRun(s: Server, c: ConnId, others: seq<Action>)
    requires Run(s, others).Some? && forall a :: a in others ==> Foreign(c, a)
    ensures Meanwhile(s, c, others) == Run(s, others).value
  {
    if others != [] {
      assert others[|others| - 1] in others;
      MeanwhileIsRun(s, c, others[..|others| - 1]);
    }
  }

  /** The queue of `c` does not break while the frames are read. */
  predicate SinkLasts(c: ConnId, turns: seq<Turn>) {
    forall t :: t in turns ==> SinkFails(c) !in t.others
  }

  /** The connection has taken in one more frame. */
  ghost predicate Took(conn: Conn, frame: Frame, conn': Conn) {
    && conn'.signals == conn.signals + (if frame.Signal? then [frame.msg] else [])
    && conn'.ids == conn.ids + (if frame.Signal? && frame.msg.Register? then [frame.msg.peerId] else [])
    && LastId(conn') && (!frame.Close? ==> conn'.phase.Open?)
    && Invalids(conn.inbox) <= Invalids(conn'.inbox) <= Invalids(conn.inbox) + (if frame.Garbage? then 1 else 0)
    && (conn'.sinkOpen ==> conn.sinkOpen && Invalids(conn'.inbox) == Invalids(conn.inbox) + if frame.Garbage? then 1 else 0)
  }

  lemma TakesFrame(s: Server, c: ConnId, frame: Frame)
    requires c in s.conns && s.conns[c].phase.Open? && LastId(s.conns[c])
    ensures var s' := Step(s, Receive(c, frame));
            s'.Some? && c in s'.value.conns && Took(s.conns[c], frame, s'.value.conns[c])
            && s'.value.conns[c].sinkOpen == s.conns[c].sinkOpen
  {
    hide Handle;
    if frame.Signal? {
      SignalHeard(s, c, frame.msg);
    } else if frame.Garbage? {
      GarbageIsAnswered(s, c);
    }
  }

  lemma TakesTurn(s: Server, c: ConnId, turn: Turn)
    requires c in s.conns && s.conns[c].phase.Open? && LastId(s.conns[c])
    ensures var now := Meanwhile(s, c, turn.others);
            var s' := Step(now, Receive(c, turn.frame));
            && c in now.conns && now.conns[c].phase.Open? && s'.Some? && c in s'.value.conns
            && Took(s.conns[c], turn.frame, s'.value.conns[c])
            && (SinkFails(c) !in turn.others ==> s'.value.conns[c].sinkOpen == s.conns[c].sinkOpen)
  {
    hide Meanwhile, Step, Invalids;
    MeanwhileSpares(s, c, turn.others);
    TakesFrame(Meanwhile(s, c, turn.others), c, turn.frame);
  }

  lemma SignalHeard(s: Server, c: ConnId, msg: Message)
    requires c in s.conns && LastId(s.conns[c])
    ensures var s' := Handle(s, c, msg);
            && c in s'.conns && LastId(s'.conns[c])
            && s'.conns[c].signals == s.conns[c].signals + [msg]
            && s'.conns[c].ids == s.conns[c].ids + (if msg.Register? then [msg.peerId] else [])
            && s'.conns[c].sinkOpen == s.conns[c].sinkOpen && Invalids(s'.conns[c].inbox) == Invalids(s.conns[c].inbox)
            && s'.conns[c].phase == s.conns[c].phase
  {
    hide Push;
    var heard, n := Heard(s, c, msg), |s.conns[c].signals|;
    if TargetPeer(msg).Some? && !msg.Register? {
      var target := TargetPeer(msg).value;
      var at := if target in s.peers then s.peers[target] else c;
      var item := if target in s.peers then Relayed(msg, c, n) else NotConnected(target, c, n);
      PushSpares(heard, at, item, c);
      assert Handle(s, c, msg) == Push(heard, at, item);
    }
  }

  /** What the connection has taken in after a read loop over `turns`: exactly the signals that it was sent
      up to a close, in order, and exactly the ids registered in them; and it was told of each bad text, if
      its queue lasted. */
  ghost predicate TookAll(conn: Conn, turns: seq<Turn>, conn': Conn) {
    && conn'.signals == conn.signals + SignalsRead(turns)
    && conn'.ids == conn.ids + IdsOf(SignalsRead(turns)) && LastId(conn')
    && Invalids(conn.inbox) <= Invalids(conn'.inbox) <= Invalids(conn.inbox) + GarbageRead(turns)
    && (conn'.sinkOpen ==> conn.sinkOpen && Invalids(conn'.inbox) == Invalids(conn.inbox) + GarbageRead(turns))
  }

  lemma TookMore(conn: Conn, conn1: Conn, conn2: Conn, turns: seq<Turn>)
    requires turns != [] && !turns[0].frame.Close?
    requires Took(conn, turns[0].frame, conn1) && TookAll(conn1, turns[1..], conn2)
    ensures TookAll(conn, turns, conn2)
  {
    hide Invalids, LastId, IdsOf;
    var first := if turns[0].frame.Signal? then [turns[0].frame.msg] else [];
    IdsOfMore(first, SignalsRead(turns[1..]));
    IdsOfOne(turns[0].frame);
    assert SignalsRead(turns) == first + SignalsRead(turns[1..]);
  }

  lemma IdsOfOne(frame: Frame)
    ensures IdsOf(if frame.Signal? then [frame.msg] else [])
         == if frame.Signal? && frame.msg.Register? then [frame.msg.peerId] else []
  {
  }

  lemma IdsOfMore(first: seq<Message>, rest: seq<Message>)
    requires |first| <= 1
    ensures IdsOf(first + rest) == IdsOf(first) + IdsOf(rest)
  {
    if first == [] {
      assert first + rest == rest;
    } else {
      assert (first + rest)[1..] == rest && first[1..] == [];
    }
  }

  lemma SinkLastsOn(c: ConnId, turns: seq<Turn>)
    requires turns != [] && SinkLasts(c, turns)
    ensures SinkFails(c) !in turns[0].others && SinkLasts(c, turns[1..])
  {
    assert turns[0] in turns;
  }

  lemma {:induction false} ListenHears(s: Server, c: ConnId, turns: seq<Turn>)
    requires c in s.conns && s.conns[c].phase.Open? && LastId(s.conns[c])
    ensures TookAll(s.conns[c], turns, Listen(s, c, turns).conns[c])
    ensures SinkLasts(c, turns) ==> Listen(s, c, turns).conns[c].sinkOpen == s.conns[c].sinkOpen
    decreases |turns|
  {
    if turns == [] {
      TakesFrame(s, c, Close);
    } else {
      hide Meanwhile, Handle;
      TakesTurn(s, c, turns[0]);
      if SinkLasts(c, turns) {
        SinkLastsOn(c, turns);
      }
      if !turns[0].frame.Close? {
        var next := Step(Meanwhile(s, c, turns[0].others), Receive(c, turns[0].frame)).value;
        ListenHears(next, c, turns[1..]);
        TookMore(s.conns[c], next.conns[c], Listen(next, c, turns[1..]).conns[c], turns);
        hide Step, TookAll, Took, LastId, SinkLasts;
        assert Listen(s, c, turns) == Listen(next, c, turns[1..]);
      }
    }
  }

  lemma ServedHears(s: Server, c: ConnId, turns: seq<Turn>, last: seq<Action>)
    requires c !in s.conns
    ensures var s' := Served(s, c, turns, last);
            && c in s'.conns && s'.conns[c].phase.Gone? && !s'.conns[c].sinkOpen
            && s'.conns[c].signals == SignalsRead(turns) && s'.conns[c].ids == IdsOf(SignalsRead(turns))
            && (s'.conns[c].ids != [] ==> s'.conns[c].ids[|s'.conns[c].ids| - 1] !in s'.peers)
            && Invalids(s'.conns[c].inbox) <= GarbageRead(turns)
            && (SinkLasts(c, turns) ==> Invalids(s'.conns[c].inbox) == GarbageRead(turns))
  {
    hide Meanwhile, Listen;
    var s1 := Step(s, Connect(c)).value;
    ListenHears(s1, c, turns);
    MeanwhileSpares(Listen(s1, c, turns), c, last);
  }

  lemma StepReachable(s: Server, a: Action)
    requires Reachable(s) && Step(s, a).Some?
    ensures Reachable(Step(s, a).value)
  {
    var actions :| Run(EMPTY, actions) == Some(s);
    var _, _ := Extend(actions, s, a);
  }

  lemma {:induction false} MeanwhileReachable(s: Server, c: ConnId, others: seq<Action>)
    requires Reachable(s)
    ensures Reachable(Meanwhile(s, c, others))
  {
    if others != [] {
      var before, a := Meanwhile(s, c, others[..|others| - 1]), others[|others| - 1];
      MeanwhileReachable(s, c, others[..|others| - 1]);
      if Step(before, a).Some? {
        StepReachable(before, a);
      }
    }
  }

  lemma {:induction false} ListenReachable(s: Server, c: ConnId, turns: seq<Turn>)
    requires Reachable(s) && c in s.conns && s.conns[c].phase.Open?
    ensures Reachable(Listen(s, c, turns))
    decreases |turns|
  {
    if turns == [] {
      StepReachable(s, Receive(c, Close));
    } else {
      var now := Meanwhile(s, c, turns[0].others);
      MeanwhileReachable(s, c, turns[0].others);
      StepReachable(now, Receive(c, turns[0].frame));
      if !turns[0].frame.Close? {
        ListenReachable(Step(now, Receive(c, turns[0].frame)).value, c, turns[1..]);
      }
    }
  }

  /** A handler that runs from start to end among the others is part of one of the interleavings. */
  lemma ServedIsReachable(s: Server, c: ConnId, turns: seq<Turn>, last: seq<Action>)
    requires Reachable(s) && c !in s.conns
    ensures Reachable(Served(s, c, turns, last))
  {
    StepReachable(s, Connect(c));
    var listened := Listen(Step(s, Connect(c)).value, c, turns);
    ListenReachable(Step(s, Connect(c)).value, c, turns);
    MeanwhileReachable(listened, c, last);
    StepReachable(Meanwhile(listened, c, last), Cleanup(c));
  }

  class AppState {
    var peers: map<PeerId, ConnId>
    var conns: map<ConnId, Conn>

    constructor ()
      ensures State() == EMPTY
    {
      peers, conns := map[], map[];
    }

    function State(): Server
      reads this
    {
      Server(peers, conns)
    }

    method Send(c: ConnId, item: Item)
      modifies this
      ensures State() == Push(old(State()), c, item)
    {
      if c in conns && conns[c].sinkOpen {
        conns := conns[c := conns[c].(inbox := conns[c].inbox + [item])];
      }
    }

    method HandleSignal(c: ConnId, msg: Message)
      requires c in conns
      modifies this
      ensures State() == Handle(old(State()), c, msg)
      ensures c in conns && conns[c].phase == old(conns)[c].phase
    {
      var number := |conns[c].signals|;
      conns := conns[c := conns[c].(signals := conns[c].signals + [msg])];
      if msg.Register? {
        peers := peers[msg.peerId := c];
        conns := conns[c := conns[c].(registered := Some(msg.peerId), ids := conns[c].ids + [msg.peerId])];
        return;
      }
      var target := TargetPeer(msg);
      if target.Some? {
        if target.value in peers {
          Send(peers[target.value], Relayed(msg, c, number));
        } else {
          Send(c, NotConnected(target.value, c, number));
        }
      }
    }

    /** The other handlers and the sending tasks have their turn. */
    method Yield(c: ConnId, others: seq<Action>)
      modifies this
      ensures State() == Meanwhile(old(State()), c, others)
    {
      var s := Meanwhile(State(), c, others);
      peers, conns := s.peers, s.conns;
    }

    /** The read loop, with any actions of the others before each frame. */
    method ReadFrames(c: ConnId, turns: seq<Turn>)
      requires c in conns && conns[c].phase.Open?
      modifies this
      ensures State() == Listen(old(State()), c, turns)
    {
      hide Handle, Meanwhile;
      ghost var accepted := State();
      var i := 0;
      while i < |turns|
        invariant i <= |turns|
        invariant c in conns && conns[c].phase.Open?
        invariant Listen(State(), c, turns[i..]) == Listen(accepted, c, turns)
      {
        Yield(c, turns[i].others);
        match turns[i].frame {
          case Signal(msg) => HandleSignal(c, msg);
          case Garbage => Send(c, InvalidPayload);
          case Ping =>
          case Close => break;
        }
        assert turns[i..][1..] == turns[i + 1..];
        i := i + 1;
      }
      conns := conns[c := conns[c].(phase := Leaving)];
    }

    /** `handle_socket`, with any actions of the others before each frame and before the cleanup. */
    method HandleSocket(c: ConnId, turns: seq<Turn>, last: seq<Action>)
      requires c !in conns
      modifies this
      ensures State() == Served(old(State()), c, turns, last)
      ensures Reachable(old(State())) ==> Reachable(State())
      ensures c in conns && conns[c].phase.Gone? && !conns[c].sinkOpen
      ensures conns[c].signals == SignalsRead(turns) && conns[c].ids == IdsOf(SignalsRead(turns))
      ensures conns[c].ids != [] ==> conns[c].ids[|conns[c].ids| - 1] !in peers
      ensures Invalids(conns[c].inbox) <= GarbageRead(turns)
      ensures SinkLasts(c, turns) ==> Invalids(conns[c].inbox) == GarbageRead(turns)
    {
      hide Handle, Meanwhile, Listen, SignalsRead, IdsOf, GarbageRead, Invalids, SinkLasts, Reachable;
      ServedHears(State(), c, turns, last);
      if Reachable(State()) {
        ServedIsReachable(State(), c, turns, last);
      }
      conns := conns[c := NEW_CONN];
      ReadFrames(c, turns);
      Yield(c, last);
      var registered := conns[c].registered;
      if registered.Some? {
        peers := peers - {registered.value};
      }
      conns := conns[c := conns[c].(phase := Gone, sinkOpen := false)];
    }
  }
}
