/** On whose yes a transfer begins. The sender's guard asks only that the file of the receiver's yes exists;
    these results say exactly whose yes it is and from when. */
module HandshakeConsent {
  import opened FileBytes
  import opened Manifest
  import opened Transfer
  import opened Handshake
  import opened HandshakeRuns
  import opened HandshakeSafety

  /** What a step does to the file of the receiver's yes. */
  lemma YesMoves(cfg: Config, s: State, a: Action)
    requires |s.bits| == |cfg.job.files| && Step(cfg, s, a).Some?
    ensures Step(cfg, s, a).value.session.receiverYes ==
            if a.WriteReceiverYes? then Some(a.id) else if a == ClearReceiverYes(true) then None else s.session.receiverYes
  {
    hide Step;
    if ByReceiver(a) {
      ReceiverFrame(cfg, s, a);
    } else {
      SenderFrame(cfg, s, a);
    }
  }

  // ---------------------------------------------------------------- whose yes

  /** Since moment `j`, no yes was written and none was removed. */
  predicate YesStays(actions: seq<Action>, j: nat, m: nat)
    requires m <= |actions|
  {
    forall i :: j <= i < m ==> !actions[i].WriteReceiverYes? && actions[i] != ClearReceiverYes(true)
  }

  /** `id` was the last to write a yes, and no clear has removed it. */
  ghost predicate LastYes(actions: seq<Action>, m: nat, id: ClaimId)
    requires m <= |actions|
  {
    exists j: nat :: j < m && actions[j] == WriteReceiverYes(id) && YesStays(actions, j + 1, m)
  }

  lemma LastYesNext(actions: seq<Action>, m: nat, id: ClaimId)
    requires m < |actions|
    ensures LastYes(actions, m + 1, id) <==>
            if actions[m].WriteReceiverYes? then actions[m].id == id
            else actions[m] != ClearReceiverYes(true) && LastYes(actions, m, id)
  {
    if LastYes(actions, m + 1, id) {
      var j: nat :| j < m + 1 && actions[j] == WriteReceiverYes(id) && YesStays(actions, j + 1, m + 1);
      assert j < m ==> YesStays(actions, j + 1, m);
    }
    if actions[m] == WriteReceiverYes(id) {
      assert YesStays(actions, m + 1, m + 1);
    }
    if !actions[m].WriteReceiverYes? && actions[m] != ClearReceiverYes(true) && LastYes(actions, m, id) {
      var j: nat :| j < m && actions[j] == WriteReceiverYes(id) && YesStays(actions, j + 1, m);
      assert YesStays(actions, j + 1, m + 1);
    }
  }

  /** The yes in the file is that of `id` exactly if `id` was the last to write one and no clear has
      removed it since. */
  lemma {:induction false} YesIsLast(cfg: Config, s0: State, actions: seq<Action>, m: nat, id: ClaimId)
    requires |s0.bits| == |cfg.job.files| && Run(cfg, s0, actions).Some? && m <= |actions| && s0.session.receiverYes.None?
    ensures StateAt(cfg, s0, actions, m).session.receiverYes == Some(id) <==> LastYes(actions, m, id)
  {
    hide Step, Run, LastYes;
    if m == 0 {
      NothingYet(cfg, s0, actions, id);
    } else {
      YesIsLast(cfg, s0, actions, m - 1, id);
      StateAtNext(cfg, s0, actions, m - 1);
      YesMoves(cfg, StateAt(cfg, s0, actions, m - 1), actions[m - 1]);
      LastYesNext(actions, m - 1, id);
    }
  }

  lemma NothingYet(cfg: Config, s0: State, actions: seq<Action>, id: ClaimId)
    requires |s0.bits| == |cfg.job.files| && Run(cfg, s0, actions).Some?
    ensures StateAt(cfg, s0, actions, 0) == s0
    ensures !LastYes(actions, 0, id) && !WroteSinceClear(actions, 0, id) && !LeftOver(cfg, s0, actions, 0)
  {
  }

  // ---------------------------------------------------------------- from when

  /** Since moment `j` the file was not touched: no yes was written and no clear made. */
  predicate YesUntouched(actions: seq<Action>, j: nat, m: nat)
    requires m <= |actions|
  {
    forall i :: j <= i < m ==> !actions[i].WriteReceiverYes? && !actions[i].ClearReceiverYes?
  }

  /** A clear failed to remove a yes, and the file has not been touched since. */
  ghost predicate LeftOver(cfg: Config, s0: State, actions: seq<Action>, m: nat)
    requires |s0.bits| == |cfg.job.files| && Run(cfg, s0, actions).Some? && m <= |actions|
  {
    exists j: nat ::
      && j < m && actions[j] == ClearReceiverYes(false) && StateAt(cfg, s0, actions, j).session.receiverYes.Some?
      && YesUntouched(actions, j + 1, m)
  }

  predicate NoClear(actions: seq<Action>, j: nat, m: nat)
    requires m <= |actions|
  {
    forall i :: j <= i < m ==> !actions[i].ClearReceiverYes?
  }

  /** `id` has written a yes since the last clear, whether or not that clear worked. */
  ghost predicate WroteSinceClear(actions: seq<Action>, m: nat, id: ClaimId)
    requires m <= |actions|
  {
    exists j: nat :: j < m && actions[j] == WriteReceiverYes(id) && NoClear(actions, j + 1, m)
  }

  lemma LeftOverNext(cfg: Config, s0: State, actions: seq<Action>, m: nat)
    requires |s0.bits| == |cfg.job.files| && Run(cfg, s0, actions).Some? && m < |actions|
    ensures LeftOver(cfg, s0, actions, m + 1) <==>
            if actions[m].ClearReceiverYes?
            then !actions[m].removed && StateAt(cfg, s0, actions, m).session.receiverYes.Some?
            else !actions[m].WriteReceiverYes? && LeftOver(cfg, s0, actions, m)
  {
    hide StateAt, Run;
    if LeftOver(cfg, s0, actions, m + 1) {
      var j: nat :| && j < m + 1 && actions[j] == ClearReceiverYes(false)
                    && StateAt(cfg, s0, actions, j).session.receiverYes.Some? && YesUntouched(actions, j + 1, m + 1);
      assert j < m ==> YesUntouched(actions, j + 1, m);
    }
    if actions[m] == ClearReceiverYes(false) && StateAt(cfg, s0, actions, m).session.receiverYes.Some? {
      assert YesUntouched(actions, m + 1, m + 1);
    }
    if !actions[m].ClearReceiverYes? && !actions[m].WriteReceiverYes? && LeftOver(cfg, s0, actions, m) {
      var j: nat :| && j < m && actions[j] == ClearReceiverYes(false)
                    && StateAt(cfg, s0, actions, j).session.receiverYes.Some? && YesUntouched(actions, j + 1, m);
      assert YesUntouched(actions, j + 1, m + 1);
    }
  }

  lemma WroteSinceClearNext(actions: seq<Action>, m: nat, id: ClaimId)
    requires m < |actions|
    ensures WroteSinceClear(actions, m + 1, id) <==>
            !actions[m].ClearReceiverYes? && (actions[m] == WriteReceiverYes(id) || WroteSinceClear(actions, m, id))
  {
    if WroteSinceClear(actions, m + 1, id) {
      var j: nat :| j < m + 1 && actions[j] == WriteReceiverYes(id) && NoClear(actions, j + 1, m + 1);
      assert j < m ==> NoClear(actions, j + 1, m);
    }
    if actions[m] == WriteReceiverYes(id) {
      assert NoClear(actions, m + 1, m + 1);
    }
    if !actions[m].ClearReceiverYes? && WroteSinceClear(actions, m, id) {
      var j: nat :| j < m && actions[j] == WriteReceiverYes(id) && NoClear(actions, j + 1, m);
      assert NoClear(actions, j + 1, m + 1);
    }
  }

  /** The file holds a yes that its author did not write in this iteration exactly if a clear left one over
      and the file has not been touched since. */
  lemma {:induction false} YesIsOld(cfg: Config, s0: State, actions: seq<Action>, m: nat)
    requires |s0.bits| == |cfg.job.files| && Run(cfg, s0, actions).Some? && m <= |actions| && s0.session.receiverYes.None?
    ensures var yes := StateAt(cfg, s0, actions, m).session.receiverYes;
            LeftOver(cfg, s0, actions, m) <==> yes.Some? && !WroteSinceClear(actions, m, yes.value)
  {
    hide Step, Run, LeftOver, WroteSinceClear;
    if m == 0 {
      NothingYet(cfg, s0, actions, 0);
    } else {
      YesIsOld(cfg, s0, actions, m - 1);
      StateAtNext(cfg, s0, actions, m - 1);
      YesMoves(cfg, StateAt(cfg, s0, actions, m - 1), actions[m - 1]);
      LeftOverNext(cfg, s0, actions, m - 1);
      var yes := StateAt(cfg, s0, actions, m).session.receiverYes;
      if yes.Some? {
        WroteSinceClearNext(actions, m - 1, yes.value);
      }
    }
  }

  // ---------------------------------------------------------------- the decision to transfer

  /** The same claim is being served: none has been taken since moment `j`. */
  predicate SameTurn(actions: seq<Action>, j: nat, m: nat)
    requires m <= |actions|
  {
    forall i :: j <= i < m ==> !actions[i].TakeClaim?
  }

  /** At moment `k` of this turn, the sender found the receiver of the claim in the trust store. */
  ghost predicate FoundTrusted(cfg: Config, s0: State, actions: seq<Action>, k: nat, m: nat, claim: Claim)
    requires |s0.bits| == |cfg.job.files| && Run(cfg, s0, actions).Some? && m <= |actions|
  {
    && k < m && SameTurn(actions, k, m) && actions[k] == CheckReceiver
    && var s := StateAt(cfg, s0, actions, k); s.sender == CheckingTrust(claim) && claim.receiver in s.session.trust
  }

  /** At moment `k` of this turn, the sender itself said yes to the claim. */
  ghost predicate SaidYes(cfg: Config, s0: State, actions: seq<Action>, k: nat, m: nat, claim: Claim)
    requires |s0.bits| == |cfg.job.files| && Run(cfg, s0, actions).Some? && m <= |actions|
  {
    && k < m && SameTurn(actions, k, m) && actions[k] == SenderAnswers(true)
    && StateAt(cfg, s0, actions, k).sender == Prompting(claim)
  }

  /** At moment `k` of this turn, the sender, which had said yes to the claim before, found a yes. */
  ghost predicate FoundYes(cfg: Config, s0: State, actions: seq<Action>, k: nat, m: nat, claim: Claim)
    requires |s0.bits| == |cfg.job.files| && Run(cfg, s0, actions).Some? && m <= |actions|
  {
    && k < m && SameTurn(actions, k, m) && actions[k] == SeeReceiverYes
    && (exists a: nat :: SaidYes(cfg, s0, actions, a, k, claim))
    && var s := StateAt(cfg, s0, actions, k); s.sender == AwaitingReceiverYes(claim) && s.session.receiverYes.Some?
  }

  predicate Asked(pc: SenderPc) {
    pc.Approving? || pc.AwaitingReceiverYes?
  }

  predicate Decided(pc: SenderPc) {
    pc.Pairing? || pc.SavingTrust? || PastConsent(pc)
  }

  /** How the sender comes to these points. */
  ghost predicate DecisionMoves(s: State, a: Action, s': State)
  {
    && (Asked(s'.sender) ==>
          || (!a.TakeClaim? && Asked(s.sender) && s.sender.claim == s'.sender.claim)
          || (a == SenderAnswers(true) && s.sender == Prompting(s'.sender.claim)))
    && (Decided(s'.sender) ==>
          || (!a.TakeClaim? && Decided(s.sender) && s.sender.claim == s'.sender.claim)
          || (a == CheckReceiver && s.sender == CheckingTrust(s'.sender.claim) && s'.sender.claim.receiver in s.session.trust)
          || (a == SeeReceiverYes && s.sender == AwaitingReceiverYes(s'.sender.claim) && s.session.receiverYes.Some?))
  }

  lemma ConsentDecides(cfg: Config, s: State, a: Action)
    requires ConsentStep(cfg, s, a).Some?
    ensures DecisionMoves(s, a, ConsentStep(cfg, s, a).value)
  {
  }

  lemma TransferDecides(cfg: Config, s: State, a: Action)
    requires |s.bits| == |cfg.job.files| && TransferStep(cfg, s, a).Some?
    ensures DecisionMoves(s, a, TransferStep(cfg, s, a).value)
  {
    hide Execute, TotalSize;
  }

  lemma StepDecides(cfg: Config, s: State, a: Action)
    requires |s.bits| == |cfg.job.files| && Step(cfg, s, a).Some?
    ensures DecisionMoves(s, a, Step(cfg, s, a).value)
  {
    hide ConsentStep, TransferStep, ReceiverStep;
    if ByReceiver(a) {
      ReceiverFrame(cfg, s, a);
    } else if ByTransfer(a) {
      TransferDecides(cfg, s, a);
    } else if !ByClear(a) && !ByOther(a) {
      ConsentDecides(cfg, s, a);
    }
  }

  lemma {:induction false} AskedBefore(cfg: Config, s0: State, actions: seq<Action>, m: nat)
    requires |s0.bits| == |cfg.job.files| && Run(cfg, s0, actions).Some? && m <= |actions| && !Asked(s0.sender)
    requires Asked(StateAt(cfg, s0, actions, m).sender)
    ensures exists a: nat :: SaidYes(cfg, s0, actions, a, m, StateAt(cfg, s0, actions, m).sender.claim)
  {
    hide Step, Run;
    NothingYet(cfg, s0, actions, 0);
    var claim, s := StateAt(cfg, s0, actions, m).sender.claim, StateAt(cfg, s0, actions, m - 1);
    StateAtNext(cfg, s0, actions, m - 1);
    StepDecides(cfg, s, actions[m - 1]);
    if actions[m - 1] == SenderAnswers(true) && s.sender == Prompting(claim) {
      assert SaidYes(cfg, s0, actions, m - 1, m, claim);
    } else {
      AskedBefore(cfg, s0, actions, m - 1);
      var a: nat :| SaidYes(cfg, s0, actions, a, m - 1, claim);
      assert SaidYes(cfg, s0, actions, a, m, claim);
    }
  }

  /** What is known of the yes that the file holds at moment `k`. It is the claimant's own exactly if the
      claimant was the last to write one, with no clear that removed it since. It is from before this turn
      exactly if a clear left one over and the file has not been touched since. So if there is none left
      over, and nobody but the claimant has written one since the clear, it is the claimant's own. */
  ghost predicate YesExplained(cfg: Config, s0: State, actions: seq<Action>, k: nat, claim: Claim)
    requires |s0.bits| == |cfg.job.files| && Run(cfg, s0, actions).Some? && k <= |actions|
    requires StateAt(cfg, s0, actions, k).session.receiverYes.Some?
  {
    var author := StateAt(cfg, s0, actions, k).session.receiverYes.value;
    && (author == claim.id <==> LastYes(actions, k, claim.id))
    && (!WroteSinceClear(actions, k, author) <==> LeftOver(cfg, s0, actions, k))
    && (!LeftOver(cfg, s0, actions, k) && (forall id :: WroteSinceClear(actions, k, id) ==> id == claim.id) ==>
          author == claim.id)
  }

  lemma SeenYesExplained(cfg: Config, s0: State, actions: seq<Action>, k: nat, claim: Claim)
    requires |s0.bits| == |cfg.job.files| && Run(cfg, s0, actions).Some? && k <= |actions| && s0.session.receiverYes.None?
    requires StateAt(cfg, s0, actions, k).session.receiverYes.Some?
    ensures YesExplained(cfg, s0, actions, k, claim)
  {
    hide Run, StateAt, LastYes, LeftOver, WroteSinceClear;
    YesIsLast(cfg, s0, actions, k, claim.id);
    YesIsOld(cfg, s0, actions, k);
  }

  /** How the decision for `claim`, which has been made by moment `m`, was made at moment `k`. */
  ghost predicate DecidedAt(cfg: Config, s0: State, actions: seq<Action>, k: nat, m: nat, claim: Claim)
    requires |s0.bits| == |cfg.job.files| && Run(cfg, s0, actions).Some? && m <= |actions|
  {
    || FoundTrusted(cfg, s0, actions, k, m, claim)
    || (FoundYes(cfg, s0, actions, k, m, claim) && YesExplained(cfg, s0, actions, k, claim))
  }

  /** A transfer, or a pairing before it, runs only for a claim whose receiver the sender found in the trust
      store in this turn; or after the sender itself said yes in this turn and then found a yes, of which it
      is known exactly whose it is and whether it is of this turn. The run may begin in any state without a
      yes in which the sender is not asking or serving, as is so at the start. */
  lemma {:induction false} ConsentBeforeTransfer(cfg: Config, s0: State, actions: seq<Action>, m: nat)
    requires |s0.bits| == |cfg.job.files| && Run(cfg, s0, actions).Some? && m <= |actions|
    requires s0.session.receiverYes.None? && !Asked(s0.sender) && !Decided(s0.sender)
    requires Decided(StateAt(cfg, s0, actions, m).sender)
    ensures exists k: nat :: DecidedAt(cfg, s0, actions, k, m, StateAt(cfg, s0, actions, m).sender.claim)
  {
    hide Step, Run, SaidYes, YesExplained;
    NothingYet(cfg, s0, actions, 0);
    var claim, s, a := StateAt(cfg, s0, actions, m).sender.claim, StateAt(cfg, s0, actions, m - 1), actions[m - 1];
    StateAtNext(cfg, s0, actions, m - 1);
    StepDecides(cfg, s, a);
    if a == CheckReceiver && s.sender == CheckingTrust(claim) {
      assert DecidedAt(cfg, s0, actions, m - 1, m, claim);
    } else if a == SeeReceiverYes && s.sender == AwaitingReceiverYes(claim) {
      AskedBefore(cfg, s0, actions, m - 1);
      SeenYesExplained(cfg, s0, actions, m - 1, claim);
      assert DecidedAt(cfg, s0, actions, m - 1, m, claim);
    } else {
      ConsentBeforeTransfer(cfg, s0, actions, m - 1);
      var k: nat :| DecidedAt(cfg, s0, actions, k, m - 1, claim);
      assert DecidedAt(cfg, s0, actions, k, m, claim);
    }
  }

  // ---------------------------------------------------------------- two runs

  /** In this run the sender transfers to `claim` on the yes it found at moment `k`, written by `author`. */
  ghost predicate TransfersOn(actions: seq<Action>, k: nat, claim: Claim, author: ClaimId) {
    && Run(Small(), SmallStart(), actions).Some? && k < |actions|
    && StateAt(Small(), SmallStart(), actions, |actions|).sender == Transferring(claim)
    && actions[k] == SeeReceiverYes && SameTurn(actions, k, |actions|)
    && StateAt(Small(), SmallStart(), actions, k).sender == AwaitingReceiverYes(claim)
    && StateAt(Small(), SmallStart(), actions, k).session.receiverYes == Some(author)
  }

  /** The sender says yes, finds the yes of `author`, and goes on. */
  lemma GoesOn(actions: seq<Action>, s: State, claim: Claim, author: ClaimId) returns (actions': seq<Action>)
    requires At(actions, s) && s.sender == Approving(claim) && s.session.receiverYes == Some(author)
    ensures TransfersOn(actions', |actions| + 1, claim, author) && Run(Small(), SmallStart(), actions').Some?
    ensures actions' == actions + [WriteSenderYes, SeeReceiverYes, ReadTrust, PairReceiver]
  {
    hide Execute, Run, TransferStep, ReceiverStep, ClearStep, OtherStep;
    var acts, s1 := Extend(Small(), SmallStart(), actions, s, WriteSenderYes);
    var s2;
    actions', s2 := Proceeds(acts, s1);
    assert actions'[..|acts|] == acts;
  }

  /** Two receivers are running. The sender takes the claim of the second, finds the yes of the first,
      and transfers: the files carry no claim id, so a yes is not tied to a claim. */
  lemma YesMayBeAnothers()
    ensures exists actions, k :: TransfersOn(actions, k, Claim(1, "b", []), 0) && !LeftOver(Small(), SmallStart(), actions, k)
  {
    hide Execute, Run, TransferStep, ReceiverStep, OtherStep, TransfersOn;
    var acts, s := AtStart();
    acts, s := Clears(acts, s, true, true);
    acts, s := Claims(acts, s, Claim(0, "a", []));
    acts, s := SaysYes(acts, s, 0);
    assert ClearReceiverYes(false) !in acts;
    acts, s := Claims(acts, s, Claim(1, "b", []));
    acts, s := Asks(acts, s, true, true);
    assert ClearReceiverYes(false) !in acts;
    var k := |acts| + 1;
    acts := GoesOn(acts, s, Claim(1, "b", []), 0);
    assert TransfersOn(acts, k, Claim(1, "b", []), 0);
    assert ClearReceiverYes(false) !in acts;
  }

  lemma NotSinceClear(actions: seq<Action>, m: nat, c: nat, id: ClaimId)
    requires c < m <= |actions| && actions[c].ClearReceiverYes? && WriteReceiverYes(id) !in actions[c + 1..]
    ensures !WroteSinceClear(actions, m, id)
  {
    forall j: nat | c < j < m ensures actions[j] != WriteReceiverYes(id) {
      assert actions[j] == actions[c + 1..][j - c - 1];
    }
  }

  /** When the removal of an old yes fails, the sender goes ahead on it, without any yes of this turn. */
  lemma OldYesWhenRemovalFails()
    ensures exists actions, k :: TransfersOn(actions, k, Claim(1, "b", []), 0) && LeftOver(Small(), SmallStart(), actions, k)
  {
    hide Execute, Run, TransferStep, ReceiverStep, OtherStep;
    var acts, s := AtStart();
    acts, s := Claims(acts, s, Claim(0, "a", []));
    acts, s := SaysYes(acts, s, 0);
    acts, s := Clears(acts, s, true, false);
    ghost var c := |acts| - 1;
    assert acts[c] == ClearReceiverYes(false);
    acts, s := Claims(acts, s, Claim(1, "b", []));
    acts, s := Asks(acts, s, true, true);
    var k := |acts| + 1;
    acts := GoesOn(acts, s, Claim(1, "b", []), 0);
    assert TransfersOn(acts, k, Claim(1, "b", []), 0);
    assert acts[c] == ClearReceiverYes(false) && WriteReceiverYes(0) !in acts[c + 1..];
    NotSinceClear(acts, k, c, 0);
    YesIsOld(Small(), SmallStart(), acts, k);
  }
}
