/** What stands in the shared files: exactly what was written last and not removed since. And what a receiver
    has been through when it waits for completion. */
module HandshakeFiles {
  import opened FileBytes
  import opened Handshake
  import opened HandshakeRuns
  import opened HandshakeSafety

  // ---------------------------------------------------------------- receiver.json

  predicate RemovesClaim(a: Action) {
    a == ClearClaim(true) || a == DropClaim(true)
  }

  predicate ClaimKept(actions: seq<Action>, j: nat, m: nat)
    requires m <= |actions|
  {
    forall i :: j <= i < m ==> !actions[i].WriteClaim? && !RemovesClaim(actions[i])
  }

  /** The process of this id was the last to write its claim, and nobody has removed it since. */
  ghost predicate LastClaim(actions: seq<Action>, m: nat, id: ClaimId)
    requires m <= |actions|
  {
    exists j: nat :: j < m && actions[j] == WriteClaim(id) && ClaimKept(actions, j + 1, m)
  }

  lemma LastClaimNext(actions: seq<Action>, m: nat, id: ClaimId)
    requires m < |actions|
    ensures LastClaim(actions, m + 1, id) <==>
            if actions[m].WriteClaim? then actions[m].id == id else !RemovesClaim(actions[m]) && LastClaim(actions, m, id)
  {
    if LastClaim(actions, m + 1, id) {
      var j: nat :| j < m + 1 && actions[j] == WriteClaim(id) && ClaimKept(actions, j + 1, m + 1);
      assert j < m ==> ClaimKept(actions, j + 1, m);
    }
    if actions[m] == WriteClaim(id) {
      assert ClaimKept(actions, m + 1, m + 1);
    }
    if !actions[m].WriteClaim? && !RemovesClaim(actions[m]) && LastClaim(actions, m, id) {
      var j: nat :| j < m && actions[j] == WriteClaim(id) && ClaimKept(actions, j + 1, m);
      assert ClaimKept(actions, j + 1, m + 1);
    }
  }

  lemma ClaimFileMoves(cfg: Config, s: State, a: Action)
    requires |s.bits| == |cfg.job.files| && Step(cfg, s, a).Some?
    ensures Step(cfg, s, a).value.session.claimFile ==
            if a.WriteClaim? && a.id in s.receivers then Some(s.receivers[a.id].claim)
            else if RemovesClaim(a) then None else s.session.claimFile
    ensures a.WriteClaim? ==> a.id in s.receivers
  {
    hide Step;
    if ByReceiver(a) {
      ReceiverFrame(cfg, s, a);
    } else {
      SenderFrame(cfg, s, a);
    }
  }

  /** The claim file holds the claim of a process exactly if that process was the last to write its claim and
      nobody has removed it since; and what it then holds is the claim of that process. */
  lemma {:induction false} ClaimIsLast(cfg: Config, s0: State, actions: seq<Action>, m: nat, id: ClaimId)
    requires Begins(cfg, s0) && Run(cfg, s0, actions).Some? && m <= |actions|
    ensures var s := StateAt(cfg, s0, actions, m);
            && KnownClaims(s)
            && (s.session.claimFile.Some? && s.session.claimFile.value.id == id <==> LastClaim(actions, m, id))
            && (LastClaim(actions, m, id) ==> id in s.receivers && s.session.claimFile == Some(s.receivers[id].claim))
  {
    hide Step, Run, LastClaim;
    if m == 0 {
      NoClaimYet(cfg, s0, actions, id);
    } else {
      ClaimIsLast(cfg, s0, actions, m - 1, id);
      StateAtNext(cfg, s0, actions, m - 1);
      var s := StateAt(cfg, s0, actions, m - 1);
      KnownClaimsStep(cfg, s, actions[m - 1]);
      ClaimFileMoves(cfg, s, actions[m - 1]);
      LastClaimNext(actions, m - 1, id);
    }
  }

  lemma NoClaimYet(cfg: Config, s0: State, actions: seq<Action>, id: ClaimId)
    requires Begins(cfg, s0) && Run(cfg, s0, actions).Some?
    ensures StateAt(cfg, s0, actions, 0) == s0 && KnownClaims(s0) && s0.session.claimFile.None? && !LastClaim(actions, 0, id)
  {
  }

  // ---------------------------------------------------------------- sender_yes

  predicate SenderYesKept(actions: seq<Action>, j: nat, m: nat)
    requires m <= |actions|
  {
    forall i :: j <= i < m ==> actions[i] != ClearSenderYes(true)
  }

  /** The sender has written a yes that no clear has removed since. */
  ghost predicate SenderYesStands(actions: seq<Action>, m: nat)
    requires m <= |actions|
  {
    exists j: nat :: j < m && actions[j].WriteSenderYes? && SenderYesKept(actions, j + 1, m)
  }

  lemma SenderYesNext(actions: seq<Action>, m: nat)
    requires m < |actions|
    ensures SenderYesStands(actions, m + 1) <==>
            actions[m].WriteSenderYes? || (actions[m] != ClearSenderYes(true) && SenderYesStands(actions, m))
  {
    if SenderYesStands(actions, m + 1) {
      var j: nat :| j < m + 1 && actions[j].WriteSenderYes? && SenderYesKept(actions, j + 1, m + 1);
      assert j < m ==> SenderYesKept(actions, j + 1, m);
    }
    if actions[m].WriteSenderYes? {
      assert SenderYesKept(actions, m + 1, m + 1);
    }
    if actions[m] != ClearSenderYes(true) && SenderYesStands(actions, m) {
      var j: nat :| j < m && actions[j].WriteSenderYes? && SenderYesKept(actions, j + 1, m);
      assert SenderYesKept(actions, j + 1, m + 1);
    }
  }

  lemma SenderYesMoves(cfg: Config, s: State, a: Action)
    requires |s.bits| == |cfg.job.files| && Step(cfg, s, a).Some?
    ensures Step(cfg, s, a).value.session.senderYes <==>
            a.WriteSenderYes? || (s.session.senderYes && a != ClearSenderYes(true))
  {
    hide Step;
    if ByReceiver(a) {
      ReceiverFrame(cfg, s, a);
    } else {
      SenderFrame(cfg, s, a);
    }
  }

  /** The file of the sender's yes exists exactly if the sender has written it and no clear has removed it
      since. */
  lemma {:induction false} SenderYesIsLast(cfg: Config, s0: State, actions: seq<Action>, m: nat)
    requires |s0.bits| == |cfg.job.files| && Run(cfg, s0, actions).Some? && m <= |actions| && !s0.session.senderYes
    ensures StateAt(cfg, s0, actions, m).session.senderYes <==> SenderYesStands(actions, m)
  {
    hide Step, Run, SenderYesStands;
    if m == 0 {
      NoSenderYesYet(cfg, s0, actions);
    } else {
      SenderYesIsLast(cfg, s0, actions, m - 1);
      StateAtNext(cfg, s0, actions, m - 1);
      SenderYesMoves(cfg, StateAt(cfg, s0, actions, m - 1), actions[m - 1]);
      SenderYesNext(actions, m - 1);
    }
  }

  lemma NoSenderYesYet(cfg: Config, s0: State, actions: seq<Action>)
    requires |s0.bits| == |cfg.job.files| && Run(cfg, s0, actions).Some?
    ensures StateAt(cfg, s0, actions, 0) == s0 && !SenderYesStands(actions, 0)
  {
  }

  // ---------------------------------------------------------------- what a receiver has been through

  /** The receiver's user said yes before moment `m`. */
  predicate UserSaidYes(actions: seq<Action>, m: nat, id: ClaimId)
    requires m <= |actions|
  {
    exists a: nat :: a < m && actions[a] == ReceiverAnswers(id, true)
  }

  /** After that the receiver wrote its yes. */
  predicate WroteYes(actions: seq<Action>, m: nat, id: ClaimId)
    requires m <= |actions|
  {
    exists w: nat :: w < m && actions[w] == WriteReceiverYes(id) && UserSaidYes(actions, w, id)
  }

  /** After that it found the sender's yes, which then stood. */
  ghost predicate SawYes(actions: seq<Action>, m: nat, id: ClaimId)
    requires m <= |actions|
  {
    exists k: nat :: k < m && actions[k] == SeeSenderYes(id) && WroteYes(actions, k, id) && SenderYesStands(actions, k)
  }

  /** It found the sender in the trust store. */
  ghost predicate FoundSenderTrusted(cfg: Config, s0: State, actions: seq<Action>, m: nat, id: ClaimId)
    requires |s0.bits| == |cfg.job.files| && Run(cfg, s0, actions).Some? && m <= |actions|
  {
    exists k: nat :: k < m && actions[k] == CheckSender(id) && cfg.senderId in StateAt(cfg, s0, actions, k).session.trust
  }

  /** What the place of a receiver says about its past. */
  ghost predicate Past(cfg: Config, s0: State, actions: seq<Action>, m: nat, id: ClaimId, pc: ReceiverPc)
    requires |s0.bits| == |cfg.job.files| && Run(cfg, s0, actions).Some? && m <= |actions|
  {
    match pc
    case ToWriteYes => UserSaidYes(actions, m, id)
    case AwaitingSenderYes => WroteYes(actions, m, id)
    case ToPair => SawYes(actions, m, id)
    case ToSaveTrust(_) => SawYes(actions, m, id)
    case Polling => SawYes(actions, m, id) || FoundSenderTrusted(cfg, s0, actions, m, id)
    case Succeeded(_) => SawYes(actions, m, id) || FoundSenderTrusted(cfg, s0, actions, m, id)
    case _ => true
  }

  /** How a receiver comes to each place. */
  ghost predicate Comes(cfg: Config, s: State, a: Action, id: ClaimId, pc: ReceiverPc) {
    || (id in s.receivers && s.receivers[id].pc == pc)
    || pc.ToClaim? || pc.ToCheckTrust? || pc.ToPrompt? || pc.Ended?
    || (pc.ToWriteYes? && a == ReceiverAnswers(id, true))
    || (pc.AwaitingSenderYes? && a == WriteReceiverYes(id) && id in s.receivers && s.receivers[id].pc.ToWriteYes?)
    || (pc.ToPair? && a == SeeSenderYes(id) && id in s.receivers && s.receivers[id].pc.AwaitingSenderYes? && s.session.senderYes)
    || (pc.ToSaveTrust? && id in s.receivers && s.receivers[id].pc.ToPair?)
    || (pc.Polling? && a == CheckSender(id) && cfg.senderId in s.session.trust)
    || (pc.Polling? && id in s.receivers && s.receivers[id].pc.ToSaveTrust?)
    || (pc.Succeeded? && id in s.receivers && s.receivers[id].pc.Polling?)
  }

  lemma ReceiverComes(cfg: Config, s: State, a: Action, id: ClaimId)
    requires |s.bits| == |cfg.job.files| && Step(cfg, s, a).Some? && id in Step(cfg, s, a).value.receivers
    ensures Comes(cfg, s, a, id, Step(cfg, s, a).value.receivers[id].pc)
  {
    hide ClearStep, ConsentStep, TransferStep, OtherStep;
    if !ByReceiver(a) {
      SenderFrame(cfg, s, a);
    }
  }

  lemma PastKept(cfg: Config, s0: State, actions: seq<Action>, m: nat, id: ClaimId, pc: ReceiverPc)
    requires |s0.bits| == |cfg.job.files| && Run(cfg, s0, actions).Some? && m < |actions| && Past(cfg, s0, actions, m, id, pc)
    ensures Past(cfg, s0, actions, m + 1, id, pc)
  {
    hide StateAt, Run, SenderYesStands;
  }

  /** One more moment. */
  lemma PastNext(cfg: Config, s0: State, actions: seq<Action>, m: nat, id: ClaimId, pc: ReceiverPc)
    requires |s0.bits| == |cfg.job.files| && Run(cfg, s0, actions).Some? && m < |actions|
    requires Comes(cfg, StateAt(cfg, s0, actions, m), actions[m], id, pc)
    requires var s := StateAt(cfg, s0, actions, m);
             && (id in s.receivers ==> Past(cfg, s0, actions, m, id, s.receivers[id].pc))
             && (s.session.senderYes ==> SenderYesStands(actions, m))
    ensures Past(cfg, s0, actions, m + 1, id, pc)
  {
    hide StateAt, Run, SenderYesStands;
    var s := StateAt(cfg, s0, actions, m);
    if id in s.receivers {
      PastKept(cfg, s0, actions, m, id, s.receivers[id].pc);
    }
  }

  /** A receiver waits for completion, or has it, only after it found the sender in the trust store; or after
      its user said yes, it wrote its yes, and then found a yes of the sender that no clear had removed. The
      run may begin in any state without receivers and without a yes of the sender. */
  lemma {:induction false} ReceiverConsents(cfg: Config, s0: State, actions: seq<Action>, m: nat, id: ClaimId)
    requires |s0.bits| == |cfg.job.files| && Run(cfg, s0, actions).Some? && m <= |actions|
    requires s0.receivers == map[] && !s0.session.senderYes && id in StateAt(cfg, s0, actions, m).receivers
    ensures Past(cfg, s0, actions, m, id, StateAt(cfg, s0, actions, m).receivers[id].pc)
  {
    hide Step, Run, Past, Comes;
    NoSenderYesYet(cfg, s0, actions);
    if m > 0 {
      StateAtNext(cfg, s0, actions, m - 1);
      var s := StateAt(cfg, s0, actions, m - 1);
      if id in s.receivers {
        ReceiverConsents(cfg, s0, actions, m - 1, id);
      }
      SenderYesIsLast(cfg, s0, actions, m - 1);
      ReceiverComes(cfg, s, actions[m - 1], id);
      PastNext(cfg, s0, actions, m - 1, id, StateAt(cfg, s0, actions, m).receivers[id].pc);
    }
  }
}
