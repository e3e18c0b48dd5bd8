/** Runs of the handshake: the state at each moment of a run, and the pieces that example runs are made of. */
module HandshakeRuns {
  import opened FileBytes
  import opened Transfer
  import opened Handshake

  ghost predicate Reachable(cfg: Config, s: State) {
    exists files, trust, actions :: Run(cfg, Initial(cfg, files, trust), actions) == Some(s)
  }

  /** The loop of the sender has not begun, and nobody has said or claimed anything. */
  ghost predicate Begins(cfg: Config, s: State) {
    exists files, trust :: s == Initial(cfg, files, trust)
  }

  lemma {:induction false} PrefixRuns(cfg: Config, s0: State, actions: seq<Action>, k: nat)
    requires |s0.bits| == |cfg.job.files| && Run(cfg, s0, actions).Some? && k <= |actions|
    ensures Run(cfg, s0, actions[..k]).Some?
    ensures k < |actions| ==>
              var s := Run(cfg, s0, actions[..k]).value;
              Step(cfg, s, actions[k]).Some? && Run(cfg, s0, actions[..k + 1]) == Step(cfg, s, actions[k])
    decreases |actions| - k
  {
    hide Step;
    if k == |actions| {
      assert actions[..k] == actions;
    } else {
      PrefixRuns(cfg, s0, actions, k + 1);
      assert actions[..k + 1][..k] == actions[..k];
    }
  }

  /** The state after the first `k` actions. */
  ghost function StateAt(cfg: Config, s0: State, actions: seq<Action>, k: nat): (s: State)
    requires |s0.bits| == |cfg.job.files| && Run(cfg, s0, actions).Some? && k <= |actions|
    ensures |s.bits| == |cfg.job.files|
    ensures k == |actions| ==> Run(cfg, s0, actions) == Some(s)
  {
    PrefixRuns(cfg, s0, actions, k);
    assert actions[..|actions|] == actions;
    Run(cfg, s0, actions[..k]).value
  }

  lemma StateAtNext(cfg: Config, s0: State, actions: seq<Action>, k: nat)
    requires |s0.bits| == |cfg.job.files| && Run(cfg, s0, actions).Some? && k < |actions|
    ensures Step(cfg, StateAt(cfg, s0, actions, k), actions[k]) == Some(StateAt(cfg, s0, actions, k + 1))
  {
    hide Step;
    PrefixRuns(cfg, s0, actions, k);
  }

  // ---------------------------------------------------------------- building a run

  lemma Extend(cfg: Config, s0: State, actions: seq<Action>, s: State, a: Action) returns (actions': seq<Action>, s': State)
    requires |s0.bits| == |cfg.job.files| == |s.bits| && Run(cfg, s0, actions) == Some(s) && Step(cfg, s, a).Some?
    ensures s' == Step(cfg, s, a).value && Run(cfg, s0, actions') == Some(s')
    ensures actions' == actions + [a] && |s'.bits| == |cfg.job.files|
  {
    hide Execute;
    actions', s' := actions + [a], Step(cfg, s, a).value;
    assert actions'[..|actions|] == actions;
  }

  function Small(): Config {
    Config(Job([], 1, "r", ["r"], true, [], true, 3), "sender")
  }

  function SmallStart(): (s: State)
    ensures |s.bits| == 0
  {
    Initial(Small(), map[], {})
  }

  ghost predicate At(actions: seq<Action>, s: State) {
    |s.bits| == 0 && Run(Small(), SmallStart(), actions) == Some(s)
  }

  lemma AtStart() returns (actions: seq<Action>, s: State)
    ensures At(actions, s) && actions == [] && s == SmallStart()
  {
    actions, s := [], SmallStart();
  }

  /** The sender goes through its three removals. */
  lemma Clears(actions: seq<Action>, s: State, claimRemoved: bool, yesRemoved: bool) returns (actions': seq<Action>, s': State)
    requires At(actions, s) && s.sender.ClearingClaim?
    ensures At(actions', s') && ClearStep(s, ClearClaim(claimRemoved)).Some?
    ensures actions' == actions + [ClearClaim(claimRemoved), ClearSenderYes(true), ClearReceiverYes(yesRemoved)]
    ensures var s1 := ClearStep(s, ClearClaim(claimRemoved)).value;
            var s2 := ClearStep(s1, ClearSenderYes(true)).value;
            s2.sender.ClearingReceiverYes? && ClearStep(s2, ClearReceiverYes(yesRemoved)) == Some(s')
  {
    hide Execute, Run;
    actions', s' := Extend(Small(), SmallStart(), actions, s, ClearClaim(claimRemoved));
    actions', s' := Extend(Small(), SmallStart(), actions', s', ClearSenderYes(true));
    actions', s' := Extend(Small(), SmallStart(), actions', s', ClearReceiverYes(yesRemoved));
  }

  /** A new receiver writes its claim. */
  lemma Claims(actions: seq<Action>, s: State, claim: Claim) returns (actions': seq<Action>, s': State)
    requires At(actions, s) && claim.id !in s.receivers
    ensures At(actions', s')
    ensures s' == s.(receivers := s.receivers[claim.id := Receiver(claim, ToCheckTrust)],
                     session := s.session.(claimFile := Some(claim)))
    ensures actions' == actions + [Arrive(claim), WriteClaim(claim.id)]
  {
    hide Execute, Run, TransferStep, ConsentStep, ClearStep, OtherStep;
    actions', s' := Extend(Small(), SmallStart(), actions, s, Arrive(claim));
    actions', s' := Extend(Small(), SmallStart(), actions', s', WriteClaim(claim.id));
  }

  /** A receiver that has claimed, and does not trust the sender, says yes. */
  lemma SaysYes(actions: seq<Action>, s: State, id: ClaimId) returns (actions': seq<Action>, s': State)
    requires At(actions, s) && id in s.receivers && s.receivers[id].pc == ToCheckTrust && s.session.trust == {}
    ensures At(actions', s') && s'.receivers.Keys == s.receivers.Keys && s'.sender == s.sender
    ensures s'.receivers[id].pc == AwaitingSenderYes
    ensures s'.session == s.session.(receiverYes := Some(id))
    ensures s'.book == s.book
    ensures actions' == actions + [CheckSender(id), ReceiverAnswers(id, true), WriteReceiverYes(id)]
  {
    hide Execute, Run, TransferStep, ConsentStep, ClearStep, OtherStep;
    actions', s' := Extend(Small(), SmallStart(), actions, s, CheckSender(id));
    actions', s' := Answers(actions', s', id);
  }

  lemma Answers(actions: seq<Action>, s: State, id: ClaimId) returns (actions': seq<Action>, s': State)
    requires At(actions, s) && id in s.receivers && s.receivers[id].pc == ToPrompt
    ensures At(actions', s') && s'.receivers.Keys == s.receivers.Keys && s'.sender == s.sender
    ensures s'.receivers[id].pc == AwaitingSenderYes
    ensures s'.session == s.session.(receiverYes := Some(id)) && s'.book == s.book
    ensures actions' == actions + [ReceiverAnswers(id, true), WriteReceiverYes(id)]
  {
    hide Execute, Run, TransferStep, ConsentStep, ClearStep, OtherStep;
    actions', s' := Extend(Small(), SmallStart(), actions, s, ReceiverAnswers(id, true));
    actions', s' := Extend(Small(), SmallStart(), actions', s', WriteReceiverYes(id));
  }

  /** The sender takes the claim it finds and, not trusting the receiver, asks. */
  lemma Asks(actions: seq<Action>, s: State, dropped: bool, yes: bool) returns (actions': seq<Action>, s': State)
    requires At(actions, s) && s.sender.AwaitingClaim? && s.session.claimFile.Some? && s.session.trust == {}
    ensures At(actions', s')
    ensures var claim := s.session.claimFile.value;
            s' == s.(sender := if yes then Approving(claim) else Rejecting(claim),
                     session := s.session.(claimFile := if dropped then None else s.session.claimFile),
                     book := s.book.(served := s.book.served + [claim.id], mark := |s.book.log|))
    ensures actions' == actions + [TakeClaim, DropClaim(dropped), CheckReceiver, SenderAnswers(yes)]
  {
    hide Execute, Run, TransferStep, ReceiverStep, ClearStep, OtherStep;
    actions', s' := Extend(Small(), SmallStart(), actions, s, TakeClaim);
    actions', s' := Extend(Small(), SmallStart(), actions', s', DropClaim(dropped));
    actions', s' := Extend(Small(), SmallStart(), actions', s', CheckReceiver);
    actions', s' := Extend(Small(), SmallStart(), actions', s', SenderAnswers(yes));
  }

  /** The sender, waiting for a yes, finds one and pairs. */
  lemma Proceeds(actions: seq<Action>, s: State) returns (actions': seq<Action>, s': State)
    requires At(actions, s) && s.sender.AwaitingReceiverYes? && s.session.receiverYes.Some?
    ensures At(actions', s') && s'.sender == Transferring(s.sender.claim)
    ensures actions' == actions + [SeeReceiverYes, ReadTrust, PairReceiver]
  {
    hide Execute, Run, TransferStep, ReceiverStep, ClearStep, OtherStep;
    actions', s' := Extend(Small(), SmallStart(), actions, s, SeeReceiverYes);
    actions', s' := Extend(Small(), SmallStart(), actions', s', ReadTrust);
    actions', s' := Extend(Small(), SmallStart(), actions', s', PairReceiver);
  }

  /** The sender says yes, finds a yes, and reads the store. */
  lemma SenderReadsTrust(actions: seq<Action>, s: State, claim: Claim) returns (actions': seq<Action>, s': State)
    requires At(actions, s) && s.sender == Approving(claim) && s.session.receiverYes.Some?
    ensures At(actions', s') && s'.sender == SavingTrust(claim, s.session.trust)
    ensures s'.receivers == s.receivers && s'.session.senderYes && s'.session.trust == s.session.trust
  {
    hide Execute, Run, TransferStep, ReceiverStep, ClearStep, OtherStep;
    actions', s' := Extend(Small(), SmallStart(), actions, s, WriteSenderYes);
    actions', s' := Extend(Small(), SmallStart(), actions', s', SeeReceiverYes);
    actions', s' := Extend(Small(), SmallStart(), actions', s', ReadTrust);
  }

  /** A receiver finds the sender's yes and reads the store. */
  lemma ReceiverReadsTrust(actions: seq<Action>, s: State, id: ClaimId) returns (actions': seq<Action>, s': State)
    requires At(actions, s) && id in s.receivers && s.receivers[id].pc == AwaitingSenderYes && s.session.senderYes
    ensures At(actions', s') && s'.sender == s.sender && s'.session == s.session
    ensures id in s'.receivers && s'.receivers[id].pc == ToSaveTrust(s.session.trust)
  {
    hide Execute, Run, TransferStep, ConsentStep, ClearStep, OtherStep;
    actions', s' := Extend(Small(), SmallStart(), actions, s, SeeSenderYes(id));
    actions', s' := Extend(Small(), SmallStart(), actions', s', ReadTrustBy(id));
  }

  /** A first connection up to the point where both sides have read the store. */
  lemma FirstConnection() returns (actions: seq<Action>, s: State)
    ensures At(actions, s) && s.sender == SavingTrust(Claim(0, "a", []), {})
    ensures 0 in s.receivers && s.receivers[0].pc == ToSaveTrust({})
  {
    hide Execute, TransferStep, ConsentStep, ReceiverStep, OtherStep, Run;
    actions, s := AtStart();
    actions, s := Clears(actions, s, true, true);
    actions, s := Claims(actions, s, Claim(0, "a", []));
    actions, s := SaysYes(actions, s, 0);
    actions, s := Asks(actions, s, true, true);
    actions, s := SenderReadsTrust(actions, s, Claim(0, "a", []));
    actions, s := ReceiverReadsTrust(actions, s, 0);
  }

  lemma AtIsReachable(actions: seq<Action>, s: State)
    requires At(actions, s)
    ensures Reachable(Small(), s)
  {
    assert Run(Small(), Initial(Small(), map[], {}), actions) == Some(s);
  }
}
