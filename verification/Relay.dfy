/** The signaling relay: connections share a map from peer id to outbound queue. A message is looked
    up and pushed under the read lock, so handling one frame is one action. */
module Relay {
  import opened FileBytes

  type PeerId = string
  type ConnId = nat

  datatype Message =
    | Register(peerId: PeerId)
    | Offer(from: PeerId, to: PeerId, sdp: string)
    | Answer(from: PeerId, to: PeerId, sdp: string)
    | Candidate(from: PeerId, to: PeerId, candidate: string)
    | PunchResult(from: PeerId, to: PeerId, success: bool, reason: Option<string>)
    | Disconnect(from: PeerId, to: PeerId, reason: Option<string>)
    | ErrorNotice(message: string)

  function TargetPeer(m: Message): Option<PeerId> {
    match m
    case Offer(_, to, _) => Some(to)
    case Answer(_, to, _) => Some(to)
    case Candidate(_, to, _) => Some(to)
    case PunchResult(_, to, _, _) => Some(to)
    case Disconnect(_, to, _) => Some(to)
    case _ => None
  }

  /** The kinds of message that name the peer they are for. */
  predicate Addressed(m: Message) {
    m.Offer? || m.Answer? || m.Candidate? || m.PunchResult? || m.Disconnect?
  }

  lemma TargetIsTo(m: Message)
    ensures TargetPeer(m) == if Addressed(m) then Some(m.to) else None
  {
  }

  /** What a client sends: a signal, text that does not parse, a ping or pong, a close or an error. */
  datatype Frame = Signal(msg: Message) | Garbage | Ping | Close

  /** What stands in an outbound queue. `origin` and `number` say which signal of which connection an
      item is about; the program does not keep them. */
  datatype Item =
    | Relayed(msg: Message, origin: ConnId, number: nat)
    | InvalidPayload
    | NotConnected(target: PeerId, origin: ConnId, number: nat)
  {
    predicate OfSignal() { !InvalidPayload? }

    predicate About(c: ConnId, n: nat) { OfSignal() && origin == c && number == n }
  }

  datatype Phase = Open | Leaving | Gone

  /** A connection. `inbox` is everything ever pushed onto its queue and `taken` how much of it has been
      sent; `signals` and `ids` are the signals it sent and the ids it registered, in order. */
  datatype Conn = Conn(
    phase: Phase, registered: Option<PeerId>, sinkOpen: bool,
    inbox: seq<Item>, taken: nat, signals: seq<Message>, ids: seq<PeerId>)

  datatype Server = Server(peers: map<PeerId, ConnId>, conns: map<ConnId, Conn>)

  datatype Action =
    | Connect(c: ConnId) | Receive(c: ConnId, frame: Frame) | Deliver(c: ConnId)
    | SinkFails(c: ConnId) | Cleanup(c: ConnId)

  const NEW_CONN := Conn(Open, None, true, [], 0, [], [])

  /** A push onto a queue whose receiving end is gone is dropped. */
  function Push(s: Server, c: ConnId, item: Item): Server {
    if c in s.conns && s.conns[c].sinkOpen
    then s.(conns := s.conns[c := s.conns[c].(inbox := s.conns[c].inbox + [item])])
    else s
  }

  predicate Present(s: Server, c: ConnId) {
    c in s.conns && !s.conns[c].phase.Gone?
  }

  /** Registering `id` makes `c` give up another id, or takes `id` from a connection that is still there. */
  predicate Contested(s: Server, c: ConnId, id: PeerId)
    requires c in s.conns
  {
    || (s.conns[c].registered.Some? && s.conns[c].registered != Some(id))
    || exists c' :: c' in s.conns && c' != c && Present(s, c') && s.conns[c'].registered == Some(id)
  }

  function Heard(s: Server, c: ConnId, msg: Message): Server
    requires c in s.conns
  {
    s.(conns := s.conns[c := s.conns[c].(signals := s.conns[c].signals + [msg])])
  }

  function Handle(s: Server, c: ConnId, msg: Message): Server
    requires c in s.conns
  {
    var number, heard := |s.conns[c].signals|, Heard(s, c, msg);
    match msg
    case Register(id) =>
      heard.(peers := s.peers[id := c],
             conns := heard.conns[c := heard.conns[c].(registered := Some(id), ids := heard.conns[c].ids + [id])])
    case _ =>
      match TargetPeer(msg)
      case None => heard
      case Some(target) =>
        if target in s.peers then Push(heard, s.peers[target], Relayed(msg, c, number))
        else Push(heard, c, NotConnected(target, c, number))
  }

  function Step(s: Server, a: Action): Option<Server> {
    match a
    case Connect(c) => if c in s.conns then None else Some(s.(conns := s.conns[c := NEW_CONN]))
    case Receive(c, frame) =>
      if c !in s.conns || !s.conns[c].phase.Open? then None else
      (match frame
       case Signal(msg) => Some(Handle(s, c, msg))
       case Garbage => Some(Push(s, c, InvalidPayload))
       case Ping => Some(s)
       case Close => Some(s.(conns := s.conns[c := s.conns[c].(phase := Leaving)])))
    case Deliver(c) =>
      if c !in s.conns || !s.conns[c].sinkOpen || s.conns[c].taken >= |s.conns[c].inbox| then None
      else Some(s.(conns := s.conns[c := s.conns[c].(taken := s.conns[c].taken + 1)]))
    case SinkFails(c) =>
      if c !in s.conns then None else Some(s.(conns := s.conns[c := s.conns[c].(sinkOpen := false)]))
    case Cleanup(c) =>
      if c !in s.conns || !s.conns[c].phase.Leaving? then None else
      var peers := if s.conns[c].registered.Some? then s.peers - {s.conns[c].registered.value} else s.peers;
      Some(s.(peers := peers, conns := s.conns[c := s.conns[c].(phase := Gone, sinkOpen := false)]))
  }

  const EMPTY := Server(map[], map[])

  function Run(s: Server, actions: seq<Action>): Option<Server> {
    if actions == [] then Some(s) else
    match Run(s, actions[..|actions| - 1])
    case None => None
    case Some(before) => Step(before, actions[|actions| - 1])
  }

  // ---------------------------------------------------------------- routing

  /** An item in the inbox of `c` is a signal that its origin did send, addressed to an id that `c`
      registered; or it tells `c` about the target of a signal that `c` itself sent. */
  ghost predicate WellRouted(s: Server, c: ConnId, item: Item)
    requires c in s.conns
  {
    item.OfSignal() ==>
      && item.origin in s.conns && item.number < |s.conns[item.origin].signals|
      && var msg := s.conns[item.origin].signals[item.number];
         if item.Relayed?
         then item.msg == msg && TargetPeer(msg).Some? && TargetPeer(msg).value in s.conns[c].ids
         else item.origin == c && TargetPeer(msg) == Some(item.target)
  }

  ghost predicate Routed(s: Server)
  {
    && (forall id :: id in s.peers ==> s.peers[id] in s.conns && id in s.conns[s.peers[id]].ids)
    && (forall c, item :: c in s.conns && item in s.conns[c].inbox ==> WellRouted(s, c, item))
    && TakenInside(s)
  }

  /** Items about the signals of one connection are in the order in which it sent them. */
  ghost predicate Ordered(inbox: seq<Item>)
  {
    forall i, j :: 0 <= i < j < |inbox| && inbox[i].OfSignal() && inbox[j].OfSignal() && inbox[i].origin == inbox[j].origin ==>
      inbox[i].number < inbox[j].number
  }

  ghost predicate InOrder(s: Server) {
    forall c :: c in s.conns ==> Ordered(s.conns[c].inbox)
  }

  ghost predicate Apart(inbox: seq<Item>, inbox': seq<Item>) {
    forall i, i' :: i in inbox && i' in inbox' && i.OfSignal() && i'.OfSignal() ==> i.origin != i'.origin || i.number != i'.number
  }

  /** No signal has left something with two connections. */
  ghost predicate Unshared(s: Server) {
    forall c, c' :: c in s.conns && c' in s.conns && c != c' ==> Apart(s.conns[c].inbox, s.conns[c'].inbox)
  }

  /** The map holds exactly the registered connections that are still there. */
  ghost predicate Exact(s: Server)
  {
    && (forall id :: id in s.peers ==> Present(s, s.peers[id]) && s.conns[s.peers[id]].registered == Some(id))
    && (forall c :: c in s.conns && Present(s, c) && s.conns[c].registered.Some? ==>
          s.conns[c].registered.value in s.peers && s.peers[s.conns[c].registered.value] == c)
  }

  ghost predicate Older(a: Conn, b: Conn) {
    a.ids <= b.ids && a.signals <= b.signals && a.taken <= |a.inbox| <= |b.inbox| && b.taken <= |b.inbox|
  }

  /** Connections stay, and what they registered and sent only grows. */
  ghost predicate Grows(s: Server, s': Server)
  {
    forall c :: c in s.conns ==> c in s'.conns && Older(s.conns[c], s'.conns[c])
  }

  ghost predicate TakenInside(s: Server) {
    forall c :: c in s.conns ==> s.conns[c].taken <= |s.conns[c].inbox|
  }

  lemma PushGrows(s: Server, c: ConnId, item: Item)
    requires TakenInside(s)
    ensures Grows(s, Push(s, c, item)) && TakenInside(Push(s, c, item))
  {
  }

  lemma HandleGrows(s: Server, c: ConnId, msg: Message)
    requires TakenInside(s) && c in s.conns
    ensures Grows(s, Handle(s, c, msg)) && TakenInside(Handle(s, c, msg))
  {
    var heard, s' := Heard(s, c, msg), Handle(s, c, msg);
    assert Grows(s, heard) && TakenInside(heard);
    match TargetPeer(msg) {
      case None =>
      case Some(target) =>
        PushGrows(heard, c, NotConnected(target, c, |s.conns[c].signals|));
        if target in s.peers {
          PushGrows(heard, s.peers[target], Relayed(msg, c, |s.conns[c].signals|));
        }
        forall k | k in s.conns ensures k in s'.conns && Older(s.conns[k], s'.conns[k]) {
          assert Older(s.conns[k], heard.conns[k]) && Older(heard.conns[k], s'.conns[k]);
        }
    }
  }

  lemma StepGrows(s: Server, a: Action)
    requires TakenInside(s) && Step(s, a).Some?
    ensures Grows(s, Step(s, a).value) && TakenInside(Step(s, a).value)
  {
    hide Handle;
    if a.Receive? && a.frame.Signal? {
      HandleGrows(s, a.c, a.frame.msg);
    } else if a.Receive? {
      PushGrows(s, a.c, InvalidPayload);
    }
  }

  /** The only item a step can add, and where. */
  ghost predicate Adds(s: Server, s': Server, at: ConnId, item: Item)
  {
    && at in s.conns && at in s'.conns
    && s'.conns[at].inbox == s.conns[at].inbox + [item]
    && forall c :: c in s'.conns && c != at ==> s'.conns[c].inbox == if c in s.conns then s.conns[c].inbox else []
  }

  ghost predicate AddsNothing(s: Server, s': Server) {
    forall c :: c in s'.conns ==> s'.conns[c].inbox == if c in s.conns then s.conns[c].inbox else []
  }

  ghost predicate New(s: Server, s': Server, at: ConnId, item: Item)
    requires at in s'.conns
  {
    item.OfSignal() ==>
      && item.origin in s.conns && item.number == |s.conns[item.origin].signals|
      && WellRouted(s', at, item)
  }

  ghost predicate AddsAtMost(s: Server, s': Server) {
    AddsNothing(s, s') || exists at, item :: Adds(s, s', at, item) && New(s, s', at, item)
  }

  lemma PushAdds(s: Server, heard: Server, at: ConnId, item: Item)
    requires AddsNothing(s, heard) && s.conns.Keys == heard.conns.Keys && at in s.conns
    ensures var s' := Push(heard, at, item);
            if heard.conns[at].sinkOpen then Adds(s, s', at, item) else AddsNothing(s, s')
  {
  }

  lemma HandleAdds(s: Server, c: ConnId, msg: Message)
    requires Routed(s) && c in s.conns
    ensures AddsAtMost(s, Handle(s, c, msg))
  {
    var heard, s' := Heard(s, c, msg), Handle(s, c, msg);
    if !msg.Register? && TargetPeer(msg).Some? {
      var target := TargetPeer(msg).value;
      var at := if target in s.peers then s.peers[target] else c;
      var item := if target in s.peers then Relayed(msg, c, |s.conns[c].signals|) else NotConnected(target, c, |s.conns[c].signals|);
      assert s' == Push(heard, at, item);
      PushAdds(s, heard, at, item);
      if s.conns[at].sinkOpen {
        assert New(s, s', at, item);
      }
    }
  }

  lemma StepAdds(s: Server, a: Action)
    requires Routed(s) && Step(s, a).Some?
    ensures AddsAtMost(s, Step(s, a).value)
  {
    hide Handle;
    if a.Receive? && a.frame.Signal? {
      HandleAdds(s, a.c, a.frame.msg);
    } else if a.Receive? && a.frame.Garbage? && s.conns[a.c].sinkOpen {
      var s' := Step(s, a).value;
      assert Adds(s, s', a.c, InvalidPayload) && New(s, s', a.c, InvalidPayload);
    }
  }

  /** The map changes when a peer registers and when a connection is cleaned up, and not otherwise. */
  lemma PeersChange(s: Server, a: Action)
    requires Step(s, a).Some?
    ensures var s' := Step(s, a).value;
            s'.peers ==
              if a.Receive? && a.frame.Signal? && a.frame.msg.Register? then s.peers[a.frame.msg.peerId := a.c]
              else if a.Cleanup? && s.conns[a.c].registered.Some? then s.peers - {s.conns[a.c].registered.value}
              else s.peers
  {
  }

  lemma PeersRouted(s: Server, a: Action)
    requires Routed(s) && Step(s, a).Some?
    ensures var s' := Step(s, a).value;
            forall id :: id in s'.peers ==> s'.peers[id] in s'.conns && id in s'.conns[s'.peers[id]].ids
  {
    StepGrows(s, a);
    PeersChange(s, a);
    var s' := Step(s, a).value;
    forall id | id in s'.peers ensures s'.peers[id] in s'.conns && id in s'.conns[s'.peers[id]].ids {
      if id in s.peers && s'.peers[id] == s.peers[id] {
        assert Older(s.conns[s.peers[id]], s'.conns[s.peers[id]]);
      }
    }
  }

  lemma RoutedStays(s: Server, s': Server, c: ConnId, item: Item)
    requires c in s.conns && Grows(s, s') && WellRouted(s, c, item)
    ensures WellRouted(s', c, item)
  {
  }

  ghost predicate Sound(s: Server) {
    Routed(s) && InOrder(s) && Unshared(s)
  }

  lemma RoutedStep(s: Server, a: Action)
    requires Routed(s) && Step(s, a).Some?
    ensures Routed(Step(s, a).value)
  {
    hide Step;
    var s' := Step(s, a).value;
    StepAdds(s, a);
    StepGrows(s, a);
    PeersRouted(s, a);
    forall c, item | c in s'.conns && item in s'.conns[c].inbox ensures WellRouted(s', c, item) {
      if c in s.conns && item in s.conns[c].inbox {
        RoutedStays(s, s', c, item);
      }
    }
  }

  /** What a step adds is about a signal with a higher number than any that its origin's items are about. */
  lemma NewIsHigher(s: Server, s': Server, at: ConnId, item: Item)
    requires Routed(s) && at in s'.conns && New(s, s', at, item) && item.OfSignal()
    ensures forall c, i :: c in s.conns && i in s.conns[c].inbox && i.OfSignal() && i.origin == item.origin ==> i.number < item.number
  {
    forall c, i | c in s.conns && i in s.conns[c].inbox && i.OfSignal() && i.origin == item.origin ensures i.number < item.number {
      assert WellRouted(s, c, i);
    }
  }

  lemma AppendOrdered(inbox: seq<Item>, item: Item)
    requires Ordered(inbox)
    requires item.OfSignal() ==> forall i :: i in inbox && i.OfSignal() && i.origin == item.origin ==> i.number < item.number
    ensures Ordered(inbox + [item])
  {
  }

  lemma OrderStep(s: Server, a: Action)
    requires Routed(s) && InOrder(s) && Step(s, a).Some?
    ensures InOrder(Step(s, a).value)
  {
    hide Step;
    var s' := Step(s, a).value;
    StepAdds(s, a);
    if !AddsNothing(s, s') {
      var at, item :| Adds(s, s', at, item) && New(s, s', at, item);
      if item.OfSignal() {
        NewIsHigher(s, s', at, item);
      }
      AppendOrdered(s.conns[at].inbox, item);
    }
  }

  lemma UnsharedStep(s: Server, a: Action)
    requires Routed(s) && Unshared(s) && Step(s, a).Some?
    ensures Unshared(Step(s, a).value)
  {
    hide Step;
    var s' := Step(s, a).value;
    StepAdds(s, a);
    if !AddsNothing(s, s') {
      var at, item :| Adds(s, s', at, item) && New(s, s', at, item);
      if item.OfSignal() {
        NewIsHigher(s, s', at, item);
      }
      forall c | c in s'.conns && c != at
        ensures Apart(s'.conns[c].inbox, s'.conns[at].inbox) && Apart(s'.conns[at].inbox, s'.conns[c].inbox)
      {
        if c in s.conns {
          assert Apart(s.conns[c].inbox, s.conns[at].inbox);
        }
      }
      forall c, c' | c in s'.conns && c' in s'.conns && c != c' && c != at && c' != at
        ensures Apart(s'.conns[c].inbox, s'.conns[c'].inbox)
      {
        if c in s.conns && c' in s.conns {
          assert Apart(s.conns[c].inbox, s.conns[c'].inbox);
        }
      }
    }
  }

  /** The same connections, with the same registered ids, still there or gone as before. */
  ghost predicate SameRegistrations(s: Server, s': Server)
  {
    && (forall c :: c in s.conns ==> c in s'.conns && s'.conns[c].registered == s.conns[c].registered
                                     && (Present(s', c) <==> Present(s, c)))
    && (forall c :: c in s'.conns && c !in s.conns ==> s'.conns[c].registered.None?)
  }

  lemma PushKeepsRegistrations(s: Server, c: ConnId, item: Item)
    ensures SameRegistrations(s, Push(s, c, item))
  {
  }

  lemma RegistrationsTransitive(s: Server, s1: Server, s2: Server)
    requires s.conns.Keys == s1.conns.Keys && SameRegistrations(s, s1) && SameRegistrations(s1, s2)
    ensures SameRegistrations(s, s2)
  {
  }

  lemma HandleKeepsRegistrations(s: Server, c: ConnId, msg: Message)
    requires c in s.conns && !msg.Register?
    ensures SameRegistrations(s, Handle(s, c, msg))
  {
    var heard := Heard(s, c, msg);
    assert SameRegistrations(s, heard);
    match TargetPeer(msg) {
      case None =>
      case Some(target) =>
        var at := if target in s.peers then s.peers[target] else c;
        var item := if target in s.peers then Relayed(msg, c, |s.conns[c].signals|) else NotConnected(target, c, |s.conns[c].signals|);
        PushKeepsRegistrations(heard, at, item);
        assert Handle(s, c, msg) == Push(heard, at, item);
        RegistrationsTransitive(s, heard, Push(heard, at, item));
    }
  }

  /** Apart from a registration and a cleanup, a step keeps all registrations. */
  lemma RegistrationsKept(s: Server, a: Action)
    requires Step(s, a).Some? && !a.Cleanup? && !(a.Receive? && a.frame.Signal? && a.frame.msg.Register?)
    ensures SameRegistrations(s, Step(s, a).value)
  {
    hide Handle;
    if a.Receive? && a.frame.Signal? {
      HandleKeepsRegistrations(s, a.c, a.frame.msg);
    }
  }

  /** A registration keeps the map exact exactly when it is not contested. */
  lemma ExactAfterRegister(s: Server, c: ConnId, id: PeerId)
    requires Exact(s) && Present(s, c)
    ensures Exact(Handle(s, c, Register(id))) <==> !Contested(s, c, id)
  {
    var s' := Handle(s, c, Register(id));
    if Contested(s, c, id) {
      if s.conns[c].registered.Some? && s.conns[c].registered != Some(id) {
        assert s'.peers[s.conns[c].registered.value] == c;
      } else {
        var c' :| c' in s.conns && c' != c && Present(s, c') && s.conns[c'].registered == Some(id);
        assert Present(s', c') && s'.conns[c'].registered == Some(id) && s'.peers[id] == c;
      }
    }
  }

  lemma ExactAfterCleanup(s: Server, c: ConnId)
    requires Exact(s) && Step(s, Cleanup(c)).Some?
    ensures Exact(Step(s, Cleanup(c)).value)
  {
  }

  predicate Registers(a: Action) {
    a.Receive? && a.frame.Signal? && a.frame.msg.Register?
  }

  /** The step is a registration that is contested. */
  predicate ContestedStep(s: Server, a: Action) {
    Registers(a) && a.c in s.conns && Contested(s, a.c, a.frame.msg.peerId)
  }

  /** A step makes an exact map inexact exactly when it is a contested registration. */
  lemma ExactStep(s: Server, a: Action)
    requires Exact(s) && Step(s, a).Some?
    ensures Exact(Step(s, a).value) <==> !ContestedStep(s, a)
  {
    hide Handle, Contested;
    if Registers(a) {
      ExactAfterRegister(s, a.c, a.frame.msg.peerId);
    } else if a.Cleanup? {
      ExactAfterCleanup(s, a.c);
    } else {
      RegistrationsKept(s, a);
      PeersChange(s, a);
    }
  }

  // ---------------------------------------------------------------- what becomes of a signal

  /** An item about a signal that had already been handled was already where it is. */
  lemma OldItems(s: Server, a: Action, b: ConnId, item: Item)
    requires Routed(s) && Step(s, a).Some?
    requires var s' := Step(s, a).value; b in s'.conns && item in s'.conns[b].inbox
    requires item.OfSignal() && item.origin in s.conns && item.number < |s.conns[item.origin].signals|
    ensures b in s.conns && item in s.conns[b].inbox
  {
    hide Step;
    StepAdds(s, a);
  }

  lemma ItemsStay(s: Server, a: Action, b: ConnId, item: Item)
    requires Routed(s) && Step(s, a).Some? && b in s.conns && item in s.conns[b].inbox
    ensures var s' := Step(s, a).value; b in s'.conns && item in s'.conns[b].inbox
  {
    hide Step;
    StepAdds(s, a);
    StepGrows(s, a);
    assert Older(s.conns[b], Step(s, a).value.conns[b]);
  }

  /** Where the handling of a signal pushes, and what: to whoever is registered under its `to`, or back to
      its sender. */
  function Goal(s: Server, c: ConnId, msg: Message): (at: ConnId)
    requires Addressed(msg)
  {
    if msg.to in s.peers then s.peers[msg.to] else c
  }

  function Outcome(s: Server, c: ConnId, msg: Message): (item: Item)
    requires Addressed(msg) && c in s.conns
    ensures item.About(c, |s.conns[c].signals|)
  {
    var n := |s.conns[c].signals|;
    if msg.to in s.peers then Relayed(msg, c, n) else NotConnected(msg.to, c, n)
  }

  lemma HandlePlaces(s: Server, c: ConnId, msg: Message)
    requires Routed(s) && c in s.conns && Addressed(msg)
    ensures var s', n, at, item := Handle(s, c, msg), |s.conns[c].signals|, Goal(s, c, msg), Outcome(s, c, msg);
            && at in s.conns && at in s'.conns && c in s'.conns && s'.conns[c].signals == s.conns[c].signals + [msg]
            && (item in s'.conns[at].inbox <==> s.conns[at].sinkOpen)
            && forall b, i :: b in s'.conns && i in s'.conns[b].inbox && i.About(c, n) ==> b == at && i == item
  {
    var heard, s', n, at, item := Heard(s, c, msg), Handle(s, c, msg), |s.conns[c].signals|, Goal(s, c, msg), Outcome(s, c, msg);
    assert s' == Push(heard, at, item);
    PushAdds(s, heard, at, item);
    forall b, i | b in s.conns && i in s.conns[b].inbox ensures !i.About(c, n) {
      assert WellRouted(s, b, i);
    }
  }

  /** A signal that names nobody, other than a registration, is passed over. */
  lemma UnaddressedIsIgnored(s: Server, c: ConnId, msg: Message)
    requires c in s.conns && !msg.Register? && !Addressed(msg)
    ensures var s' := Handle(s, c, msg);
            && s'.peers == s.peers && s'.conns.Keys == s.conns.Keys
            && forall k :: k in s.conns ==> s'.conns[k] == s.conns[k].(signals := s'.conns[k].signals)
  {
  }

  /** Text that does not parse is answered on the queue of the connection, if that is open. */
  lemma GarbageIsAnswered(s: Server, c: ConnId)
    requires c in s.conns && s.conns[c].phase.Open?
    ensures var s' := Step(s, Receive(c, Garbage));
            && s'.Some? && s'.value.peers == s.peers && s'.value.conns.Keys == s.conns.Keys
            && s'.value.conns[c].inbox == s.conns[c].inbox + (if s.conns[c].sinkOpen then [InvalidPayload] else [])
            && s'.value.conns[c] == s.conns[c].(inbox := s'.value.conns[c].inbox)
            && forall k :: k in s.conns && k != c ==> s'.value.conns[k] == s.conns[k]
  {
  }

  /** A queue sends its next item whenever it is open and has one left to send. */
  lemma DeliversInTurn(s: Server, c: ConnId)
    requires c in s.conns && TakenInside(s)
    ensures var s' := Step(s, Deliver(c));
            && (s'.Some? <==> s.conns[c].sinkOpen && s.conns[c].taken < |s.conns[c].inbox|)
            && (s'.Some? ==>
                  && c in s'.value.conns
                  && s'.value.conns[c].inbox[..s'.value.conns[c].taken]
                     == s.conns[c].inbox[..s.conns[c].taken] + [s.conns[c].inbox[s.conns[c].taken]])
  {
  }

  /** Only handling a signal adds one, and only to the connection that sent it. */
  lemma SignalsKept(s: Server, a: Action, c: ConnId)
    requires Step(s, a).Some? && c in Step(s, a).value.conns
    requires !(a.Receive? && a.frame.Signal? && a.c == c)
    ensures Step(s, a).value.conns[c].signals == if c in s.conns then s.conns[c].signals else []
  {
  }

  /** Every state that any interleaving of the handlers reaches. */
  lemma {:induction false} SoundAlways(actions: seq<Action>)
    ensures var s := Run(EMPTY, actions); s.Some? ==> Sound(s.value)
  {
    if actions != [] {
      SoundAlways(actions[..|actions| - 1]);
      var before := Run(EMPTY, actions[..|actions| - 1]);
      var a := actions[|actions| - 1];
      if before.Some? && Step(before.value, a).Some? {
        RoutedStep(before.value, a);
        OrderStep(before.value, a);
        UnsharedStep(before.value, a);
      }
    }
  }

  lemma {:induction false} PrefixRuns(actions: seq<Action>, k: nat)
    requires Run(EMPTY, actions).Some? && k <= |actions|
    ensures Run(EMPTY, actions[..k]).Some?
    ensures k < |actions| ==>
              Run(EMPTY, actions[..k + 1]).Some? && Run(EMPTY, actions[..k + 1]) == Step(Run(EMPTY, actions[..k]).value, actions[k])
    decreases |actions| - k
  {
    if k == |actions| {
      assert actions[..k] == actions;
    } else {
      PrefixRuns(actions, k + 1);
      assert actions[..k + 1][..k] == actions[..k];
    }
  }

  // ---------------------------------------------------------------- main results

  ghost predicate Reachable(s: Server) {
    exists actions :: Run(EMPTY, actions) == Some(s)
  }

  lemma ReachableIsSound(s: Server)
    requires Reachable(s)
    ensures Sound(s)
  {
    var actions :| Run(EMPTY, actions) == Some(s);
    SoundAlways(actions);
  }

  /** In every reachable state, whatever was relayed to a connection is a signal that some connection
      sent, unchanged, and its `to` is an id that the receiving connection has registered. A notice that a
      target is not connected went to the connection that sent the signal, and names its target. */
  lemma RelayedToItsTarget(s: Server, c: ConnId, i: nat)
    requires Reachable(s) && c in s.conns && i < |s.conns[c].inbox| && s.conns[c].inbox[i].OfSignal()
    ensures var item := s.conns[c].inbox[i];
            && item.origin in s.conns && item.number < |s.conns[item.origin].signals|
            && var msg := s.conns[item.origin].signals[item.number];
               && Addressed(msg)
               && (if item.Relayed? then item.msg == msg && msg.to in s.conns[c].ids
                   else item.origin == c && item.target == msg.to)
  {
    ReachableIsSound(s);
    assert WellRouted(s, c, s.conns[c].inbox[i]);
  }

  /** Between two connections messages keep their order and none is doubled, in the queue and in what
      was sent from it; and no message reaches two connections. The same holds for notices. */
  lemma RelayedInOrder(s: Server, c: ConnId)
    requires Reachable(s) && c in s.conns
    ensures s.conns[c].taken <= |s.conns[c].inbox|
    ensures Ordered(s.conns[c].inbox) && Ordered(s.conns[c].inbox[..s.conns[c].taken])
    ensures forall c' :: c' in s.conns && c' != c ==> Apart(s.conns[c].inbox, s.conns[c'].inbox)
  {
    ReachableIsSound(s);
  }

  /** Action `k` of the run is the handling of signal `n` of connection `c`, which has a target. */
  ghost predicate Handles(actions: seq<Action>, k: nat, c: ConnId, n: nat) {
    && k < |actions| && actions[k].Receive? && actions[k].frame.Signal? && actions[k].c == c
    && Addressed(actions[k].frame.msg)
    && var before := Run(EMPTY, actions[..k]);
       before.Some? && c in before.value.conns && |before.value.conns[c].signals| == n
  }

  /** In every later state, whatever is about the signal is what its handling pushed, and stands where
      the map then said; and it stands there exactly if that queue was then open. */
  ghost predicate HasFate(actions: seq<Action>, k: nat, c: ConnId, n: nat, s: Server)
    requires Handles(actions, k, c, n)
  {
    var before, msg := Run(EMPTY, actions[..k]).value, actions[k].frame.msg;
    var at, item := Goal(before, c, msg), Outcome(before, c, msg);
    && at in before.conns && at in s.conns && c in s.conns && n < |s.conns[c].signals| && s.conns[c].signals[n] == msg
    && (item in s.conns[at].inbox <==> before.conns[at].sinkOpen)
    && forall b, i :: b in s.conns && i in s.conns[b].inbox && i.About(c, n) ==> b == at && i == item
  }

  lemma FateStays(actions: seq<Action>, k: nat, c: ConnId, n: nat, s: Server, a: Action)
    requires Handles(actions, k, c, n) && Routed(s) && HasFate(actions, k, c, n, s) && Step(s, a).Some?
    ensures HasFate(actions, k, c, n, Step(s, a).value)
  {
    hide Step, Goal, Outcome, Run;
    var before, msg := Run(EMPTY, actions[..k]).value, actions[k].frame.msg;
    var at, item, s' := Goal(before, c, msg), Outcome(before, c, msg), Step(s, a).value;
    StepGrows(s, a);
    assert Older(s.conns[c], s'.conns[c]) && Older(s.conns[at], s'.conns[at]);
    assert item.About(c, n);
    if item in s.conns[at].inbox {
      ItemsStay(s, a, at, item);
    }
    forall b, i | b in s'.conns && i in s'.conns[b].inbox && i.About(c, n)
      ensures b in s.conns && i in s.conns[b].inbox
    {
      OldItems(s, a, b, i);
    }
  }

  lemma FateBegins(actions: seq<Action>, k: nat, c: ConnId, n: nat)
    requires Run(EMPTY, actions).Some? && Handles(actions, k, c, n)
    ensures Run(EMPTY, actions[..k + 1]).Some? && HasFate(actions, k, c, n, Run(EMPTY, actions[..k + 1]).value)
  {
    hide Run, Handle, Goal, Outcome, Routed, WellRouted;
    PrefixRuns(actions, k);
    SoundAlways(actions[..k]);
    HandlePlaces(Run(EMPTY, actions[..k]).value, c, actions[k].frame.msg);
  }

  lemma {:induction false} FateFollows(actions: seq<Action>, k: nat, c: ConnId, n: nat, m: nat)
    requires Run(EMPTY, actions).Some? && Handles(actions, k, c, n) && k < m <= |actions|
    ensures Run(EMPTY, actions[..m]).Some? && HasFate(actions, k, c, n, Run(EMPTY, actions[..m]).value)
    decreases m
  {
    hide HasFate, Handles, Run, Step;
    if m == k + 1 {
      FateBegins(actions, k, c, n);
    } else {
      PrefixRuns(actions, m - 1);
      SoundAlways(actions[..m - 1]);
      FateFollows(actions, k, c, n, m - 1);
      FateStays(actions, k, c, n, Run(EMPTY, actions[..m - 1]).value, actions[m - 1]);
    }
  }

  /** Each signal with a target has one fate, decided by the map and the queues when it is handled: it is
      relayed to the connection that the map names, or its sender is told that the target is not connected.
      This stands in that one queue exactly once, and in no queue if that queue was closed. */
  lemma OneFate(actions: seq<Action>, k: nat, c: ConnId, n: nat)
    requires Run(EMPTY, actions).Some? && Handles(actions, k, c, n)
    ensures var before, msg, s := Run(EMPTY, actions[..k]).value, actions[k].frame.msg, Run(EMPTY, actions).value;
            var at := if msg.to in before.peers then before.peers[msg.to] else c;
            var item := if msg.to in before.peers then Relayed(msg, c, n) else NotConnected(msg.to, c, n);
            && at in before.conns && at in s.conns
            && (item in s.conns[at].inbox <==> before.conns[at].sinkOpen)
            && (forall b, i :: b in s.conns && 0 <= i < |s.conns[b].inbox| && s.conns[b].inbox[i].About(c, n) ==>
                  b == at && s.conns[b].inbox[i] == item)
            && (forall i, j :: 0 <= i < j < |s.conns[at].inbox| ==> s.conns[at].inbox[i] != item || s.conns[at].inbox[j] != item)
  {
    FateFollows(actions, k, c, n, |actions|);
    assert actions[..|actions|] == actions;
    SoundAlways(actions);
    var s := Run(EMPTY, actions).value;
    assert HasFate(actions, k, c, n, s);
    hide Handles, Goal, Run;
    var at := Goal(Run(EMPTY, actions[..k]).value, c, actions[k].frame.msg);
    assert Ordered(s.conns[at].inbox);
  }

  /** Every signal that a connection sent has been handled at one moment of the run, in order. */
  lemma {:induction false} SignalWasHandled(actions: seq<Action>, c: ConnId, n: nat)
    requires var s := Run(EMPTY, actions);
             s.Some? && c in s.value.conns && n < |s.value.conns[c].signals| && Addressed(s.value.conns[c].signals[n])
    ensures exists k: nat :: Handles(actions, k, c, n) && actions[k].frame.msg == Run(EMPTY, actions).value.conns[c].signals[n]
  {
    if actions != [] {
      var m := |actions| - 1;
      var front, a := actions[..m], actions[m];
      PrefixRuns(actions, m);
      SoundAlways(front);
      var before, s := Run(EMPTY, front).value, Run(EMPTY, actions).value;
      assert actions[..m + 1] == actions;
      StepGrows(before, a);
      if a.Receive? && a.frame.Signal? && a.c == c && n == |before.conns[c].signals| {
        HandleGrows(before, c, a.frame.msg);
        SignalAdded(before, c, a.frame.msg);
        assert Handles(actions, m, c, n);
      } else {
        if a.Receive? && a.frame.Signal? && a.c == c {
          SignalAdded(before, c, a.frame.msg);
        } else {
          SignalsKept(before, a, c);
        }
        SignalWasHandled(front, c, n);
        var k: nat :| Handles(front, k, c, n) && front[k].frame.msg == before.conns[c].signals[n];
        assert front[..k] == actions[..k];
        assert Handles(actions, k, c, n);
      }
    }
  }

  lemma SignalAdded(s: Server, c: ConnId, msg: Message)
    requires c in s.conns
    ensures c in Handle(s, c, msg).conns && Handle(s, c, msg).conns[c].signals == s.conns[c].signals + [msg]
  {
  }

  /** So no signal with a target disappears unless the one queue it was to go to was closed. */
  lemma NoSignalDisappears(actions: seq<Action>, c: ConnId, n: nat)
    requires var s := Run(EMPTY, actions);
             s.Some? && c in s.value.conns && n < |s.value.conns[c].signals| && Addressed(s.value.conns[c].signals[n])
    ensures var s := Run(EMPTY, actions).value;
            exists k: nat :: Handles(actions, k, c, n) && HasFate(actions, k, c, n, s)
                             && actions[k].frame.msg == s.conns[c].signals[n]
  {
    SignalWasHandled(actions, c, n);
    var k: nat :| Handles(actions, k, c, n) && actions[k].frame.msg == Run(EMPTY, actions).value.conns[c].signals[n];
    FateFollows(actions, k, c, n, |actions|);
    assert actions[..|actions|] == actions;
  }

  /** None of the first `m` actions of the run is a contested registration. */
  ghost predicate Uncontested(actions: seq<Action>, m: nat)
    requires Run(EMPTY, actions).Some? && m <= |actions|
  {
    forall k :: 0 <= k < m && Run(EMPTY, actions[..k]).Some? ==> !ContestedStep(Run(EMPTY, actions[..k]).value, actions[k])
  }

  ghost predicate AlwaysExact(actions: seq<Action>, m: nat)
    requires Run(EMPTY, actions).Some? && m <= |actions|
  {
    forall k :: 0 <= k <= m && Run(EMPTY, actions[..k]).Some? ==> Exact(Run(EMPTY, actions[..k]).value)
  }

  /** Up to any moment of a run, the map was always exactly the registered connections that are still there
      if and only if no registration was contested: none made by a connection with another id, and none of
      an id that another connection still there had registered. */
  lemma {:induction false} MapIsExact(actions: seq<Action>, m: nat)
    requires Run(EMPTY, actions).Some? && m <= |actions|
    ensures AlwaysExact(actions, m) <==> Uncontested(actions, m)
  {
    hide Exact, ContestedStep, Step, Run;
    if m == 0 {
      assert actions[..0] == [];
      PrefixRuns(actions, 0);
      StartsExact();
    } else {
      MapIsExact(actions, m - 1);
      PrefixRuns(actions, m - 1);
      var s := Run(EMPTY, actions[..m - 1]).value;
      if Exact(s) {
        ExactStep(s, actions[m - 1]);
      }
    }
  }

  lemma StartsExact()
    ensures Run(EMPTY, []) == Some(EMPTY) && Exact(EMPTY)
  {
  }

  /** What exactness says of each id and each connection. */
  lemma ExactMeans(s: Server)
    ensures Exact(s) <==> forall id, c :: (id in s.peers && s.peers[id] == c) <==>
                                          (c in s.conns && Present(s, c) && s.conns[c].registered == Some(id))
  {
  }

  lemma Extend(actions: seq<Action>, s: Server, a: Action) returns (actions': seq<Action>, s': Server)
    requires Run(EMPTY, actions) == Some(s) && Step(s, a).Some?
    ensures s' == Step(s, a).value && Run(EMPTY, actions') == Some(s')
  {
    actions', s' := actions + [a], Step(s, a).value;
    assert actions'[..|actions|] == actions;
  }

  /** A connection that registers twice leaves its first id in the map for good: cleanup removes one id. */
  lemma SecondIdLeavesStaleEntry()
    ensures exists actions :: Run(EMPTY, actions).Some? && !Uncontested(actions, |actions|) &&
              var s := Run(EMPTY, actions).value; "a" in s.peers && !Present(s, s.peers["a"])
  {
    var acts, s := Extend([], EMPTY, Connect(0));
    acts, s := Extend(acts, s, Receive(0, Signal(Register("a"))));
    acts, s := Extend(acts, s, Receive(0, Signal(Register("b"))));
    acts, s := Extend(acts, s, Receive(0, Close));
    acts, s := Extend(acts, s, Cleanup(0));
    InexactAtEnd(acts, s);
  }

  /** A connection that takes over an id loses it when the connection before it is cleaned up. */
  lemma OverlapLosesTheNewer()
    ensures exists actions :: Run(EMPTY, actions).Some? && !Uncontested(actions, |actions|) &&
              var s := Run(EMPTY, actions).value;
              1 in s.conns && s.conns[1].phase.Open? && s.conns[1].registered == Some("a") && "a" !in s.peers
  {
    var acts, s := Extend([], EMPTY, Connect(0));
    acts, s := Extend(acts, s, Receive(0, Signal(Register("a"))));
    acts, s := Extend(acts, s, Connect(1));
    acts, s := Extend(acts, s, Receive(1, Signal(Register("a"))));
    acts, s := Extend(acts, s, Receive(0, Close));
    acts, s := Extend(acts, s, Cleanup(0));
    assert Present(s, 1) && s.conns[1].registered == Some("a") && "a" !in s.peers;
    InexactAtEnd(acts, s);
  }

  lemma InexactAtEnd(actions: seq<Action>, s: Server)
    requires Run(EMPTY, actions) == Some(s) && !Exact(s)
    ensures !Uncontested(actions, |actions|)
  {
    MapIsExact(actions, |actions|);
    assert actions[..|actions|] == actions;
  }
}
