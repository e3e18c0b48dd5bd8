/** How often a claim is served. A claim is served again exactly when a clear failed to remove it after it
    had been served, and nothing took its place in the claim file before the sender looked. */
module HandshakeClaims {
  import opened FileBytes
  import opened Manifest
  import opened Transfer
  import opened TransferSafety
  import opened Handshake
  import opened HandshakeRuns
  import opened HandshakeSafety
  import opened HandshakeTheorems

  /** A step serves a claim exactly when it takes one, and only receivers write the claim file. */
  lemma ClaimMoves(cfg: Config, s: State, a: Action)
    requires |s.bits| == |cfg.job.files| && Step(cfg, s, a).Some?
    ensures a.TakeClaim? ==> s.session.claimFile.Some?
    ensures Step(cfg, s, a).value.book.served
         == s.book.served + if a.TakeClaim? then [s.session.claimFile.value.id] else []
  {
    hide Step;
    if ByReceiver(a) {
      ReceiverFrame(cfg, s, a);
    } else {
      SenderFrame(cfg, s, a);
    }
  }

  // ---------------------------------------------------------------- a claim left in the file

  /** A clear fails to remove a claim that has been served. */
  predicate LeavesServed(s: State, a: Action) {
    a == ClearClaim(false) && s.session.claimFile.Some? && s.session.claimFile.value.id in s.book.served
  }

  /** Such a clear has happened, and since then nothing was written over that claim and no other clear was
      made. */
  ghost predicate StillLeft(cfg: Config, s0: State, actions: seq<Action>, m: nat)
    requires |s0.bits| == |cfg.job.files| && Run(cfg, s0, actions).Some? && m <= |actions|
  {
    exists j: nat :: j < m && LeavesServed(StateAt(cfg, s0, actions, j), actions[j]) && ClaimStays(actions, j + 1, m)
  }

  predicate ClaimStays(actions: seq<Action>, j: nat, m: nat)
    requires m <= |actions|
  {
    forall i :: j <= i < m ==> !actions[i].WriteClaim? && !actions[i].ClearClaim?
  }

  lemma StillLeftNext(cfg: Config, s0: State, actions: seq<Action>, m: nat)
    requires |s0.bits| == |cfg.job.files| && Run(cfg, s0, actions).Some? && m < |actions|
    ensures StillLeft(cfg, s0, actions, m + 1) <==>
            if actions[m].ClearClaim? then LeavesServed(StateAt(cfg, s0, actions, m), actions[m])
            else !actions[m].WriteClaim? && StillLeft(cfg, s0, actions, m)
  {
    hide StateAt, LeavesServed, Run;
    if StillLeft(cfg, s0, actions, m + 1) {
      var j: nat :| j < m + 1 && LeavesServed(StateAt(cfg, s0, actions, j), actions[j]) && ClaimStays(actions, j + 1, m + 1);
      assert j < m ==> ClaimStays(actions, j + 1, m);
      LeavesIsClear(StateAt(cfg, s0, actions, j), actions[j]);
    }
    if actions[m].ClearClaim? && LeavesServed(StateAt(cfg, s0, actions, m), actions[m]) {
      assert ClaimStays(actions, m + 1, m + 1);
    }
    if !actions[m].ClearClaim? && !actions[m].WriteClaim? && StillLeft(cfg, s0, actions, m) {
      var j: nat :| j < m && LeavesServed(StateAt(cfg, s0, actions, j), actions[j]) && ClaimStays(actions, j + 1, m);
      assert ClaimStays(actions, j + 1, m + 1);
    }
  }

  lemma LeavesIsClear(s: State, a: Action)
    ensures LeavesServed(s, a) ==> a.ClearClaim?
  {
  }

  /** The claim file holds a claim that has been served. */
  predicate HoldsServed(s: State) {
    s.session.claimFile.Some? && s.session.claimFile.value.id in s.book.served
  }

  /** How that changes while the sender has cleared the file and not yet taken a claim. */
  lemma HoldsServedMoves(cfg: Config, s: State, a: Action)
    requires |s.bits| == |cfg.job.files| && Step(cfg, s, a).Some? && KnownClaims(s)
    requires Listening(Step(cfg, s, a).value.sender)
    ensures a.ClearClaim? || Listening(s.sender)
    ensures HoldsServed(Step(cfg, s, a).value) <==>
            if a.ClearClaim? then LeavesServed(s, a) else !a.WriteClaim? && HoldsServed(s)
  {
    hide TransferStep, ReceiverStep, Made;
    if ByReceiver(a) {
      ReceiverFrame(cfg, s, a);
    } else if ByTransfer(a) {
      TransferListens(cfg, s, a);
    }
  }

  lemma TransferListens(cfg: Config, s: State, a: Action)
    requires |s.bits| == |cfg.job.files| && TransferStep(cfg, s, a).Some?
    ensures !Listening(TransferStep(cfg, s, a).value.sender)
  {
    hide Execute, TotalSize;
  }

  /** When the sender is about to look, the file holds a served claim exactly if one is still left. */
  lemma {:induction false} LeftWhenListening(cfg: Config, s0: State, actions: seq<Action>, m: nat)
    requires Begins(cfg, s0) && Run(cfg, s0, actions).Some? && m <= |actions|
    ensures KnownClaims(StateAt(cfg, s0, actions, m))
    ensures Listening(StateAt(cfg, s0, actions, m).sender) ==>
              (StillLeft(cfg, s0, actions, m) <==> HoldsServed(StateAt(cfg, s0, actions, m)))
  {
    hide Step, Run, StillLeft, HoldsServed, LeavesServed;
    if m == 0 {
      AtTheStart(cfg, s0, actions);
    } else {
      LeftWhenListening(cfg, s0, actions, m - 1);
      StateAtNext(cfg, s0, actions, m - 1);
      var s := StateAt(cfg, s0, actions, m - 1);
      KnownClaimsStep(cfg, s, actions[m - 1]);
      StillLeftNext(cfg, s0, actions, m - 1);
      if Listening(StateAt(cfg, s0, actions, m).sender) {
        HoldsServedMoves(cfg, s, actions[m - 1]);
      }
    }
  }

  lemma AtTheStart(cfg: Config, s0: State, actions: seq<Action>)
    requires Begins(cfg, s0) && Run(cfg, s0, actions).Some?
    ensures StateAt(cfg, s0, actions, 0) == s0 && KnownClaims(s0) && !Listening(s0.sender) && s0.book.served == []
  {
  }

  // ---------------------------------------------------------------- served once

  /** In any run, whatever fails: no claim is served twice exactly when the sender never takes a claim
      while one is still left in the file. */
  lemma {:induction false} ServedOnce(cfg: Config, s0: State, actions: seq<Action>, m: nat)
    requires Begins(cfg, s0) && Run(cfg, s0, actions).Some? && m <= |actions|
    ensures NoDuplicates(StateAt(cfg, s0, actions, m).book.served)
       <==> forall k :: 0 <= k < m && actions[k].TakeClaim? ==> !StillLeft(cfg, s0, actions, k)
  {
    hide Step, Run, StillLeft, NoDuplicates;
    if m == 0 {
      AtTheStart(cfg, s0, actions);
      NothingServed();
    } else {
      ServedOnce(cfg, s0, actions, m - 1);
      ServedMore(cfg, s0, actions, m - 1);
    }
  }

  lemma NothingServed()
    ensures NoDuplicates([])
  {
  }

  lemma ServedMore(cfg: Config, s0: State, actions: seq<Action>, m: nat)
    requires Begins(cfg, s0) && Run(cfg, s0, actions).Some? && m < |actions|
    ensures NoDuplicates(StateAt(cfg, s0, actions, m + 1).book.served)
       <==> NoDuplicates(StateAt(cfg, s0, actions, m).book.served)
            && (actions[m].TakeClaim? ==> !StillLeft(cfg, s0, actions, m))
  {
    hide Run, StillLeft, NoDuplicates, TransferStep, ReceiverStep, ClearStep, OtherStep;
    StateAtNext(cfg, s0, actions, m);
    var s := StateAt(cfg, s0, actions, m);
    ClaimMoves(cfg, s, actions[m]);
    if actions[m].TakeClaim? {
      LeftWhenListening(cfg, s0, actions, m);
      NoDuplicatesAppended(s.book.served, s.session.claimFile.value.id);
    } else {
      assert s.book.served + [] == s.book.served;
    }
  }

  /** No clear fails to remove the claim file. */
  predicate ClearsWork(actions: seq<Action>, m: nat)
    requires m <= |actions|
  {
    forall k :: 0 <= k < m ==> actions[k] != ClearClaim(false)
  }

  /** In a run whose clears remove the claim file, no claim is served twice and every claim has one block
      of records, whatever else fails. */
  lemma WorkingClearsServeOnce(cfg: Config, snap: seq<Bytes>, s0: State, actions: seq<Action>, m: nat)
    requires Ready(cfg.job, snap) && Begins(cfg, s0) && Run(cfg, s0, actions).Some? && m <= |actions|
    requires ClearsWork(actions, m)
    ensures var s := StateAt(cfg, s0, actions, m); NoDuplicates(s.book.served) && Blocks(s.book.log)
  {
    hide Step, Run, NoDuplicates, Blocks;
    forall k | 0 <= k < m ensures !StillLeft(cfg, s0, actions, k) {
    }
    ServedOnce(cfg, s0, actions, m);
    StateAtIsReachable(cfg, s0, actions, m);
    OneBlockEach(cfg, snap, StateAt(cfg, s0, actions, m));
  }

  lemma StateAtIsReachable(cfg: Config, s0: State, actions: seq<Action>, m: nat)
    requires Begins(cfg, s0) && Run(cfg, s0, actions).Some? && m <= |actions|
    ensures Reachable(cfg, StateAt(cfg, s0, actions, m))
  {
    PrefixRuns(cfg, s0, actions, m);
    var files, trust :| s0 == Initial(cfg, files, trust);
    assert Run(cfg, Initial(cfg, files, trust), actions[..m]) == Some(StateAt(cfg, s0, actions, m));
  }

  /** When removals fail, the same claim is served again. */
  lemma ServedTwiceWhenRemovalsFail()
    ensures exists s :: Reachable(Small(), s) && !NoDuplicates(s.book.served)
  {
    hide Execute, Reachable, TransferStep, ReceiverStep, OtherStep;
    var acts, s := Clears([], SmallStart(), true, true);
    acts, s := Claims(acts, s, Claim(0, "a", []));
    acts, s := Asks(acts, s, false, false);
    acts, s := Extend(Small(), SmallStart(), acts, s, Reject(true));
    acts, s := Clears(acts, s, false, true);
    acts, s := Asks(acts, s, true, true);
    AtIsReachable(acts, s);
    assert s.book.served[0] == s.book.served[1] == 0;
  }
}
