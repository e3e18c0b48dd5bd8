/** The trust store. Pairing reads it, adds one peer and writes it back, without a lock: a write can
    take away what was added since its read. These results say exactly when that happens. */
module HandshakeTrust {
  import opened FileBytes
  import opened Manifest
  import opened Transfer
  import opened Handshake
  import opened HandshakeSafety
  import opened HandshakeRuns

  /** Whoever can be in the middle of a pairing. */
  datatype Process = TheSender | ReceiverOf(id: ClaimId) | OtherOf(k: nat)

  /** The pairing that a process is in the middle of. */
  function Holding(cfg: Config, s: State, p: Process): Option<Pending> {
    match p
    case TheSender => if s.sender.SavingTrust? then Some(Pending(s.sender.seen, s.sender.claim.receiver)) else None
    case ReceiverOf(id) =>
      if id in s.receivers && s.receivers[id].pc.ToSaveTrust? then Some(Pending(s.receivers[id].pc.seen, cfg.senderId)) else None
    case OtherOf(k) => if k in s.others then Some(s.others[k]) else None
  }

  /** Whose write of the trust store an action is. */
  function Saver(a: Action): Option<Process> {
    match a
    case PairReceiver => Some(TheSender)
    case PairSender(id) => Some(ReceiverOf(id))
    case OtherPairs(k) => Some(OtherOf(k))
    case _ => None
  }

  /** The process has read a store without `x` and is going to write that back without adding `x`. */
  predicate Threatens(cfg: Config, s: State, p: Process, x: PeerId) {
    var h := Holding(cfg, s, p);
    h.Some? && x !in h.value.Result()
  }

  /** The process has stopped, and will never write. */
  predicate GaveUp(s: State, p: Process) {
    match p
    case TheSender => s.sender.Halted?
    case ReceiverOf(id) => id in s.receivers && s.receivers[id].pc.Ended?
    case OtherOf(_) => false
  }

  // ---------------------------------------------------------------- one step

  /** What a step does to the trust store and to the pairings under way: only a save changes the store; a
      pairing that begins has read the store as it is; one under way changes by its save or by its end. */
  ghost predicate TrustMoves(cfg: Config, s: State, a: Action, s': State)
  {
    && (match Saver(a)
        case None => s'.session.trust == s.session.trust
        case Some(p) => Holding(cfg, s, p).Some? && s'.session.trust == Holding(cfg, s, p).value.Result())
    && forall p :: HoldMoves(cfg, s, a, s', p)
  }

  ghost predicate HoldMoves(cfg: Config, s: State, a: Action, s': State, p: Process)
  {
    && (Holding(cfg, s', p).Some? && Holding(cfg, s', p) != Holding(cfg, s, p) ==>
          Holding(cfg, s, p).None? && Holding(cfg, s', p).value.seen == s.session.trust)
    && (Holding(cfg, s, p).Some? && Saver(a) != Some(p) ==> Holding(cfg, s', p) == Holding(cfg, s, p) || GaveUp(s', p))
    && (GaveUp(s, p) ==> GaveUp(s', p))
  }

  lemma ClearKeepsTrust(cfg: Config, s: State, a: Action)
    requires ClearStep(s, a).Some?
    ensures TrustMoves(cfg, s, a, ClearStep(s, a).value)
  {
  }

  lemma ConsentMovesTrust(cfg: Config, s: State, a: Action)
    requires ConsentStep(cfg, s, a).Some?
    ensures TrustMoves(cfg, s, a, ConsentStep(cfg, s, a).value)
  {
  }

  lemma TransferKeepsTrust(cfg: Config, s: State, a: Action)
    requires |s.bits| == |cfg.job.files| && TransferStep(cfg, s, a).Some?
    ensures TrustMoves(cfg, s, a, TransferStep(cfg, s, a).value)
  {
    hide Execute, TotalSize;
  }

  lemma OtherMovesTrust(cfg: Config, s: State, a: Action)
    requires OtherStep(s, a).Some?
    ensures TrustMoves(cfg, s, a, OtherStep(s, a).value)
  {
  }

  lemma ReceiverMovesTrust(cfg: Config, s: State, a: Action)
    requires ReceiverStep(cfg, s, a).Some?
    ensures TrustMoves(cfg, s, a, ReceiverStep(cfg, s, a).value)
  {
    var s' := ReceiverStep(cfg, s, a).value;
    forall p ensures HoldMoves(cfg, s, a, s', p) {
      if !a.Arrive? && p != ReceiverOf(a.id) {
        assert Holding(cfg, s', p) == Holding(cfg, s, p);
      }
    }
  }

  lemma StepMovesTrust(cfg: Config, s: State, a: Action)
    requires |s.bits| == |cfg.job.files| && Step(cfg, s, a).Some?
    ensures TrustMoves(cfg, s, a, Step(cfg, s, a).value)
  {
    hide ClearStep, ConsentStep, TransferStep, ReceiverStep, OtherStep, TrustMoves;
    if ByReceiver(a) {
      ReceiverMovesTrust(cfg, s, a);
    } else if ByClear(a) {
      ClearKeepsTrust(cfg, s, a);
    } else if ByTransfer(a) {
      TransferKeepsTrust(cfg, s, a);
    } else if ByOther(a) {
      OtherMovesTrust(cfg, s, a);
    } else {
      ConsentMovesTrust(cfg, s, a);
    }
  }

  /** Whoever is trusted is not asked about: the sender goes straight to the transfer, and a receiver straight
      to waiting for completion, exactly if it finds the other party in the store. */
  lemma TrustedSkipConfirmation(cfg: Config, s: State)
    requires |s.bits| == |cfg.job.files|
    ensures s.sender.CheckingTrust? ==>
              && Step(cfg, s, CheckReceiver).Some?
              && (Step(cfg, s, CheckReceiver).value.sender == Transferring(s.sender.claim) <==> s.sender.claim.receiver in s.session.trust)
              && (Step(cfg, s, CheckReceiver).value.sender == Prompting(s.sender.claim) <==> s.sender.claim.receiver !in s.session.trust)
    ensures forall id :: id in s.receivers && s.receivers[id].pc.ToCheckTrust? ==>
              && Step(cfg, s, CheckSender(id)).Some? && id in Step(cfg, s, CheckSender(id)).value.receivers
              && (Step(cfg, s, CheckSender(id)).value.receivers[id].pc.Polling? <==> cfg.senderId in s.session.trust)
              && (Step(cfg, s, CheckSender(id)).value.receivers[id].pc.ToPrompt? <==> cfg.senderId !in s.session.trust)
  {
    hide TransferStep;
  }

  /** The action is the save of a process that threatened `x` in `s0`. */
  predicate SavesStale(cfg: Config, s0: State, a: Action, x: PeerId) {
    Saver(a).Some? && Threatens(cfg, s0, Saver(a).value, x)
  }

  /** A step takes nobody out of the trust store exactly when it is not a stale save. */
  lemma TrustGrows(cfg: Config, s: State, a: Action)
    requires |s.bits| == |cfg.job.files| && Step(cfg, s, a).Some?
    ensures s.session.trust <= Step(cfg, s, a).value.session.trust
            <==> forall x :: x in s.session.trust ==> !SavesStale(cfg, s, a, x)
  {
    hide Step;
    StepMovesTrust(cfg, s, a);
    var s' := Step(cfg, s, a).value;
    assert forall x :: x in s.session.trust ==> (x in s'.session.trust <==> !SavesStale(cfg, s, a, x));
  }

  // ---------------------------------------------------------------- whole runs

  /** Since `s0`, nobody has come to threaten `x` who did not then, and whoever did then still holds the
      same set or has given up. */
  ghost predicate Tracks(cfg: Config, s0: State, s: State, x: PeerId)
  {
    && (forall p :: Threatens(cfg, s, p, x) ==> Threatens(cfg, s0, p, x))
    && (forall p :: Threatens(cfg, s0, p, x) ==> Holding(cfg, s, p) == Holding(cfg, s0, p) || GaveUp(s, p))
  }

  lemma TracksStep(cfg: Config, s0: State, s: State, a: Action, x: PeerId)
    requires |s.bits| == |cfg.job.files| && Step(cfg, s, a).Some? && Tracks(cfg, s0, s, x) && x in s.session.trust
    ensures var s' := Step(cfg, s, a).value;
            && (x in s'.session.trust <==> !SavesStale(cfg, s0, a, x))
            && (x in s'.session.trust ==> Tracks(cfg, s0, s', x))
  {
    hide Step;
    StepMovesTrust(cfg, s, a);
    var s' := Step(cfg, s, a).value;
    assert SavesStale(cfg, s0, a, x) <==> SavesStale(cfg, s, a, x);
    if x in s'.session.trust {
      forall p
        ensures Threatens(cfg, s', p, x) ==> Threatens(cfg, s0, p, x)
        ensures Threatens(cfg, s0, p, x) ==> Holding(cfg, s', p) == Holding(cfg, s0, p) || GaveUp(s', p)
      {
        assert HoldMoves(cfg, s, a, s', p);
      }
    }
  }

  /** `x` is in the store from moment `i` to moment `m` of the run. */
  ghost predicate Trusted(cfg: Config, s0: State, actions: seq<Action>, x: PeerId, i: nat, m: nat)
    requires |s0.bits| == |cfg.job.files| && Run(cfg, s0, actions).Some? && m <= |actions|
  {
    forall k :: i <= k <= m ==> x in StateAt(cfg, s0, actions, k).session.trust
  }

  /** Between these moments nobody saves who threatened `x` at moment `i`. */
  ghost predicate NoStaleSave(cfg: Config, s0: State, actions: seq<Action>, x: PeerId, i: nat, m: nat)
    requires |s0.bits| == |cfg.job.files| && Run(cfg, s0, actions).Some? && i <= m <= |actions|
  {
    forall k :: i <= k < m ==> !SavesStale(cfg, StateAt(cfg, s0, actions, i), actions[k], x)
  }

  /** A peer in the store stays in it exactly if no process saves that had read the store without it. */
  lemma {:induction false} StaysTrustedIff(cfg: Config, s0: State, actions: seq<Action>, x: PeerId, i: nat, m: nat)
    requires |s0.bits| == |cfg.job.files| && Run(cfg, s0, actions).Some? && i <= m <= |actions|
    requires x in StateAt(cfg, s0, actions, i).session.trust
    ensures Trusted(cfg, s0, actions, x, i, m) <==> NoStaleSave(cfg, s0, actions, x, i, m)
    ensures Trusted(cfg, s0, actions, x, i, m) ==>
              Tracks(cfg, StateAt(cfg, s0, actions, i), StateAt(cfg, s0, actions, m), x)
    decreases m
  {
    hide Step, StateAt, SavesStale, Tracks;
    if i == m {
      TracksItself(cfg, StateAt(cfg, s0, actions, i), x);
    } else {
      StaysTrustedIff(cfg, s0, actions, x, i, m - 1);
      if Trusted(cfg, s0, actions, x, i, m - 1) {
        StateAtNext(cfg, s0, actions, m - 1);
        TracksStep(cfg, StateAt(cfg, s0, actions, i), StateAt(cfg, s0, actions, m - 1), actions[m - 1], x);
      }
    }
  }

  lemma TracksItself(cfg: Config, s: State, x: PeerId)
    ensures Tracks(cfg, s, s, x)
  {
  }

  function SaveOf(p: Process): Action {
    match p
    case TheSender => PairReceiver
    case ReceiverOf(id) => PairSender(id)
    case OtherOf(k) => OtherPairs(k)
  }

  /** Whoever holds a set can write it at any moment. */
  lemma SaveIsEnabled(cfg: Config, s: State, p: Process)
    requires |s.bits| == |cfg.job.files| && Holding(cfg, s, p).Some?
    ensures Step(cfg, s, SaveOf(p)).Some? && Saver(SaveOf(p)) == Some(p)
  {
  }

  /** A process that threatens `x` can make it disappear with its next action. */
  lemma ThreatComesTrue(cfg: Config, s: State, p: Process, x: PeerId)
    requires |s.bits| == |cfg.job.files| && x in s.session.trust && Threatens(cfg, s, p, x)
    ensures exists actions :: Run(cfg, s, actions).Some? && x !in Run(cfg, s, actions).value.session.trust
  {
    hide Step;
    SaveIsEnabled(cfg, s, p);
    var a := SaveOf(p);
    StepMovesTrust(cfg, s, a);
    assert [a][..0] == [] && Run(cfg, s, []) == Some(s);
    assert Run(cfg, s, [a]) == Step(cfg, s, a);
    assert x !in Run(cfg, s, [a]).value.session.trust;
  }

  lemma StaysWithoutThreat(cfg: Config, s: State, actions: seq<Action>, x: PeerId)
    requires |s.bits| == |cfg.job.files| && x in s.session.trust && Run(cfg, s, actions).Some?
    requires forall p :: !Threatens(cfg, s, p, x)
    ensures x in Run(cfg, s, actions).value.session.trust
  {
    hide Step, Threatens;
    assert StateAt(cfg, s, actions, 0) == s;
    StaysTrustedIff(cfg, s, actions, x, 0, |actions|);
    assert x in StateAt(cfg, s, actions, |actions|).session.trust;
  }

  /** `x` is in the store whatever happens from `s` on. */
  ghost predicate SafeForever(cfg: Config, s: State, x: PeerId)
    requires |s.bits| == |cfg.job.files|
  {
    forall actions :: Run(cfg, s, actions).Some? ==> x in Run(cfg, s, actions).value.session.trust
  }

  /** That is so exactly when `x` is in the store and no process is about to write back a set that it read
      without it. */
  lemma SafeForeverIff(cfg: Config, s: State, x: PeerId)
    requires |s.bits| == |cfg.job.files|
    ensures SafeForever(cfg, s, x) <==> x in s.session.trust && forall p :: !Threatens(cfg, s, p, x)
  {
    hide Step, Threatens;
    assert Run(cfg, s, []) == Some(s);
    if x !in s.session.trust {
      assert !SafeForever(cfg, s, x);
    } else if p :| Threatens(cfg, s, p, x) {
      ThreatComesTrue(cfg, s, p, x);
      assert !SafeForever(cfg, s, x);
    } else {
      forall actions | Run(cfg, s, actions).Some? ensures x in Run(cfg, s, actions).value.session.trust {
        StaysWithoutThreat(cfg, s, actions, x);
      }
    }
  }

  // ---------------------------------------------------------------- both sides

  /** What entitles a side to go on: the sender past consent with a claim, or a receiver that waits for
      completion or has it. */
  datatype Side = SendingTo(claim: Claim) | Waiting(id: ClaimId)

  predicate Proceeding(s: State, side: Side) {
    match side
    case SendingTo(claim) => PastConsent(s.sender) && s.sender.claim == claim
    case Waiting(id) => id in s.receivers && (s.receivers[id].pc.Polling? || s.receivers[id].pc.Succeeded?)
  }

  function OtherParty(cfg: Config, side: Side): PeerId {
    if side.SendingTo? then side.claim.receiver else cfg.senderId
  }

  /** A side that comes to proceed has found the other party in the store or has just put it there. */
  ghost predicate ProceedsRight(cfg: Config, s: State, s': State, side: Side) {
    Proceeding(s', side) && !Proceeding(s, side) ==> OtherParty(cfg, side) in s'.session.trust
  }

  lemma ReceiverProceeds(cfg: Config, s: State, a: Action, side: Side)
    requires ReceiverStep(cfg, s, a).Some?
    ensures ProceedsRight(cfg, s, ReceiverStep(cfg, s, a).value, side)
  {
  }

  lemma ConsentProceeds(cfg: Config, s: State, a: Action, side: Side)
    requires ConsentStep(cfg, s, a).Some?
    ensures ProceedsRight(cfg, s, ConsentStep(cfg, s, a).value, side)
  {
  }

  lemma TransferProceeds(cfg: Config, s: State, a: Action, side: Side)
    requires |s.bits| == |cfg.job.files| && TransferStep(cfg, s, a).Some?
    ensures ProceedsRight(cfg, s, TransferStep(cfg, s, a).value, side)
  {
    hide Execute, TotalSize;
  }

  lemma StepProceeds(cfg: Config, s: State, a: Action, side: Side)
    requires |s.bits| == |cfg.job.files| && Step(cfg, s, a).Some?
    ensures ProceedsRight(cfg, s, Step(cfg, s, a).value, side)
  {
    hide ConsentStep, TransferStep, ReceiverStep;
    if ByReceiver(a) {
      ReceiverProceeds(cfg, s, a, side);
    } else if ByTransfer(a) {
      TransferProceeds(cfg, s, a, side);
    } else if !ByClear(a) && !ByOther(a) {
      ConsentProceeds(cfg, s, a, side);
    }
  }

  /** At moment `i` the other party was in the store, the side has proceeded ever since, and the other
      party has stayed in the store exactly if no stale save has followed. */
  ghost predicate TrustedSince(cfg: Config, s0: State, actions: seq<Action>, side: Side, i: nat, m: nat)
    requires |s0.bits| == |cfg.job.files| && Run(cfg, s0, actions).Some? && i <= m <= |actions|
  {
    var x := OtherParty(cfg, side);
    && x in StateAt(cfg, s0, actions, i).session.trust
    && (forall k :: i <= k <= m ==> Proceeding(StateAt(cfg, s0, actions, k), side))
    && (Trusted(cfg, s0, actions, x, i, m) <==> NoStaleSave(cfg, s0, actions, x, i, m))
  }

  /** The sender transfers, and a receiver waits for or has completion, only with the other party in the
      trust store when it went on, and still exactly if no process has since written back a store that it
      had read without it. The run may begin in any state in which the side has not gone on yet, as is so
      at the start. */
  lemma {:induction false} BothSidesTrusted(cfg: Config, s0: State, actions: seq<Action>, side: Side, m: nat)
    requires |s0.bits| == |cfg.job.files| && Run(cfg, s0, actions).Some? && m <= |actions|
    requires !Proceeding(s0, side) && Proceeding(StateAt(cfg, s0, actions, m), side)
    ensures exists i: nat :: i <= m && TrustedSince(cfg, s0, actions, side, i, m)
  {
    hide Step, Proceeding, OtherParty;
    if m > 0 {
      StateAtNext(cfg, s0, actions, m - 1);
      StepProceeds(cfg, StateAt(cfg, s0, actions, m - 1), actions[m - 1], side);
      var i := m;
      if Proceeding(StateAt(cfg, s0, actions, m - 1), side) {
        BothSidesTrusted(cfg, s0, actions, side, m - 1);
        i :| 0 <= i <= m - 1 && TrustedSince(cfg, s0, actions, side, i, m - 1);
      }
      StaysTrustedIff(cfg, s0, actions, OtherParty(cfg, side), i, m);
      assert TrustedSince(cfg, s0, actions, side, i, m);
    }
  }

  // ---------------------------------------------------------------- a first connection that is forgotten

  /** Both sides of a first connection pair at once, and the one that writes last takes the other's entry
      away: the sender goes on to a receiver that is not in the store. */
  lemma ReceiverIsForgotten()
    ensures exists s :: Reachable(Small(), s) && s.sender == Transferring(Claim(0, "a", [])) && "a" !in s.session.trust
  {
    hide Execute, Run, Reachable, TransferStep, ClearStep, OtherStep;
    var acts, s := FirstConnection();
    acts, s := Extend(Small(), SmallStart(), acts, s, PairReceiver);
    acts, s := Extend(Small(), SmallStart(), acts, s, PairSender(0));
    AtIsReachable(acts, s);
  }

  /** In the other order the receiver waits for a sender that is not in the store. */
  lemma SenderIsForgotten()
    ensures exists s :: Reachable(Small(), s) && 0 in s.receivers && s.receivers[0].pc.Polling? && "sender" !in s.session.trust
  {
    hide Execute, Run, Reachable, TransferStep, ClearStep, OtherStep;
    var acts, s := FirstConnection();
    acts, s := Extend(Small(), SmallStart(), acts, s, PairSender(0));
    acts, s := Extend(Small(), SmallStart(), acts, s, PairReceiver);
    AtIsReachable(acts, s);
  }
}
