/** Safety of the handshake over every interleaving of the sender with any number of receivers. */
module HandshakeSafety {
  import opened FileBytes
  import opened Device
  import opened Manifest
  import opened Transfer
  import opened TransferSafety
  import opened TransferTheorems
  import opened Handshake

  // ---------------------------------------------------------------- who knows which claim

  /** The claim was made by a receiver process that has got past writing it. */
  ghost predicate Made(s: State, claim: Claim) {
    claim.id in s.receivers && s.receivers[claim.id].claim == claim && !s.receivers[claim.id].pc.ToClaim?
  }

  ghost predicate KnownClaims(s: State)
  {
    && (forall id :: id in s.receivers ==> s.receivers[id].claim.id == id)
    && (s.session.claimFile.Some? ==> Made(s, s.session.claimFile.value))
    && (Serving(s.sender) ==> Made(s, s.sender.claim))
    && (forall id :: id in s.book.served ==> id in s.receivers && !s.receivers[id].pc.ToClaim?)
  }

  predicate Serving(pc: SenderPc) {
    !pc.ClearingClaim? && !pc.ClearingSenderYes? && !pc.ClearingReceiverYes? && !pc.AwaitingClaim? && !pc.Halted?
  }

  predicate ByReceiver(a: Action) {
    a.Arrive? || a.WriteClaim? || a.CheckSender? || a.ReceiverAnswers? || a.WriteReceiverYes? || a.SeeSenderYes?
    || a.ReadTrustBy? || a.PairSender? || a.Poll? || a.Abort?
  }

  predicate ByOther(a: Action) {
    a.OtherReads? || a.OtherPairs?
  }

  predicate ByClear(a: Action) {
    a.ClearClaim? || a.ClearSenderYes? || a.ClearReceiverYes?
  }

  predicate ByTransfer(a: Action) {
    a.RunTransfer? || a.Report? || a.Conclude? || a.SaveResult? || a.Announce? || a.StopSender?
  }

  /** A receiver's action leaves the sender, its manifest, the disk and the log alone. */
  lemma ReceiverFrame(cfg: Config, s: State, a: Action)
    requires |s.bits| == |cfg.job.files| && ByReceiver(a) && Step(cfg, s, a).Some?
    ensures var s' := Step(cfg, s, a).value;
            && s'.sender == s.sender && s'.bits == s.bits && s'.disk == s.disk
            && s'.session.stateFile == s.session.stateFile
            && s'.book == s.book
            && s'.session.receiverYes == (if a.WriteReceiverYes? then Some(a.id) else s.session.receiverYes)
            && s'.session.senderYes == s.session.senderYes
            && (if a.WriteClaim?
                then a.id in s.receivers && s.receivers[a.id].pc.ToClaim? && s'.session.claimFile == Some(s.receivers[a.id].claim)
                else s'.session.claimFile == s.session.claimFile)
  {
    hide Execute;
  }

  predicate Writes(a: Action) {
    a == Report(true) || a == Reject(true) || a == Announce(true)
  }

  /** What a step that is not a receiver's does to the receivers, the claims and the log. */
  ghost predicate SenderMoves(s: State, a: Action, s': State)
  {
    && s'.receivers == s.receivers
    && s'.session.claimFile == (if a == ClearClaim(true) || a == DropClaim(true) then None else s.session.claimFile)
    && s'.session.senderYes == (a.WriteSenderYes? || (s.session.senderYes && a != ClearSenderYes(true)))
    && (if a.TakeClaim?
        then
          && s.session.claimFile.Some? && s'.sender == DroppingClaim(s.session.claimFile.value)
          && s'.book.served == s.book.served + [s.session.claimFile.value.id]
        else
          && s'.book.served == s.book.served
          && (Serving(s'.sender) ==> Serving(s.sender) && s'.sender.claim == s.sender.claim))
    && s'.session.receiverYes == (if a == ClearReceiverYes(true) then None else s.session.receiverYes)
    && LogMoves(s, a, s')
  }

  /** A step leaves the log as it is or adds one record, which is then what `state.json` holds. */
  ghost predicate LogMoves(s: State, a: Action, s': State)
  {
    if Writes(a) then s'.book.log == s.book.log + [Record(s'.session.stateFile, s'.disk.files)]
    else s'.book.log == s.book.log && s'.session.stateFile == s.session.stateFile
  }

  lemma ClearMoves(s: State, a: Action)
    requires ClearStep(s, a).Some?
    ensures SenderMoves(s, a, ClearStep(s, a).value)
  {
  }

  lemma ConsentMoves(cfg: Config, s: State, a: Action)
    requires ConsentStep(cfg, s, a).Some?
    ensures SenderMoves(s, a, ConsentStep(cfg, s, a).value)
  {
  }

  lemma TransferMoves(cfg: Config, s: State, a: Action)
    requires |s.bits| == |cfg.job.files| && TransferStep(cfg, s, a).Some?
    ensures SenderMoves(s, a, TransferStep(cfg, s, a).value)
  {
    hide Execute, TotalSize;
  }

  lemma OtherMoves(s: State, a: Action)
    requires OtherStep(s, a).Some?
    ensures SenderMoves(s, a, OtherStep(s, a).value)
  {
  }

  lemma SenderFrame(cfg: Config, s: State, a: Action)
    requires |s.bits| == |cfg.job.files| && !ByReceiver(a) && Step(cfg, s, a).Some?
    ensures SenderMoves(s, a, Step(cfg, s, a).value)
  {
    hide ClearStep, ConsentStep, TransferStep, ReceiverStep, OtherStep, SenderMoves;
    if ByClear(a) {
      ClearMoves(s, a);
    } else if ByTransfer(a) {
      TransferMoves(cfg, s, a);
    } else if ByOther(a) {
      OtherMoves(s, a);
    } else {
      ConsentMoves(cfg, s, a);
    }
  }

  /** Receivers stay, keep their claim, and never go back to before it. */
  ghost predicate Onward(s: State, s': State)
  {
    && (forall id :: id in s'.receivers ==> s'.receivers[id].claim.id == id)
    && (forall id :: id in s.receivers ==>
          && id in s'.receivers && s'.receivers[id].claim == s.receivers[id].claim
          && (s'.receivers[id].pc.ToClaim? ==> s.receivers[id].pc.ToClaim?))
  }

  lemma MoveIsOnward(s: State, id: ClaimId, pc: ReceiverPc)
    requires id in s.receivers && !pc.ToClaim? && Onward(s, s)
    ensures Onward(s, Move(s, id, pc))
  {
  }

  lemma ReceiverMoves(cfg: Config, s: State, a: Action)
    requires |s.bits| == |cfg.job.files| && ByReceiver(a) && Step(cfg, s, a).Some? && KnownClaims(s)
    ensures var s' := Step(cfg, s, a).value;
            && Onward(s, s')
            && (s'.session.claimFile == s.session.claimFile
                || (s'.session.claimFile.Some? && Made(s', s'.session.claimFile.value)))
  {
    var s' := ReceiverStep(cfg, s, a).value;
    if !a.Arrive? {
      var pc := s'.receivers[a.id].pc;
      MoveIsOnward(s, a.id, pc);
      assert s'.receivers == Move(s, a.id, pc).receivers;
    }
  }

  lemma KnownClaimsSender(cfg: Config, s: State, a: Action)
    requires |s.bits| == |cfg.job.files| && KnownClaims(s) && !ByReceiver(a) && Step(cfg, s, a).Some?
    ensures KnownClaims(Step(cfg, s, a).value)
  {
    hide Step;
    SenderFrame(cfg, s, a);
  }

  lemma KnownClaimsStep(cfg: Config, s: State, a: Action)
    requires |s.bits| == |cfg.job.files| && KnownClaims(s) && Step(cfg, s, a).Some?
    ensures KnownClaims(Step(cfg, s, a).value)
  {
    hide Step;
    if ByReceiver(a) {
      ReceiverFrame(cfg, s, a);
      ReceiverMoves(cfg, s, a);
    } else {
      KnownClaimsSender(cfg, s, a);
    }
  }

  // ---------------------------------------------------------------- what a report of completion is worth

  /** Every file of the manifest is in its place in the directory `target`. */
  ghost predicate Delivered(cfg: Config, snap: seq<Bytes>, target: Path, files: map<Path, Bytes>)
    requires |cfg.job.files| == |snap|
  {
    forall e :: 0 <= e < |snap| ==>
      var root, rel := target + [cfg.job.rootName], cfg.job.files[e].relativePath;
      var p := if cfg.job.sourceIsFile && |cfg.job.files| == 1 && rel == [cfg.job.rootName] then root else root + rel;
      p in files && files[p] == snap[e]
  }

  /** What is known of a transfer that has run for `claim`. */
  ghost predicate RunFacts(cfg: Config, snap: seq<Bytes>, s: State, claim: Claim, run: RunState)
    requires |cfg.job.files| == |snap|
  {
    && s.disk.files == run.d.files
    && EventsOk(cfg.job, run.events, ChunkTotal(cfg.job.files))
    && (run.outcome.Finished? ==>
          Delivered(cfg, snap, claim.target, run.d.files) && run.outcome.report == FullReport(cfg.job))
  }

  ghost predicate RunInHand(cfg: Config, snap: seq<Bytes>, s: State)
    requires |cfg.job.files| == |snap|
  {
    && Covered(cfg.job, s.bits)
    && (s.sender.Reporting? ==> RunFacts(cfg, snap, s, s.sender.claim, s.sender.run) && s.sender.next <= |s.sender.run.events|)
    && (s.sender.SavingResult? ==> RunFacts(cfg, snap, s, s.sender.claim, s.sender.run) && s.sender.run.outcome.Finished?)
    && (s.sender.Announcing? ==>
          && RunFacts(cfg, snap, s, s.sender.claim, s.sender.run)
          && (s.sender.run.outcome.Finished? ==> s.disk.checkpoint == Readable(s.bits)))
  }

  /** A claim in the log names a receiver, and "completed" was written only with everything delivered. */
  ghost predicate RecordTrue(cfg: Config, snap: seq<Bytes>, s: State, r: Record)
    requires |cfg.job.files| == |snap|
  {
    && (r.state.claim.Some? ==> r.state.claim.value in s.receivers)
    && (r.state.status.Completed? ==>
          && r.state.claim.Some?
          && r.state.bytesDone == r.state.bytesTotal == TotalSize(cfg.job.files)
          && Delivered(cfg, snap, s.receivers[r.state.claim.value].claim.target, r.files))
  }

  ghost predicate LogTrue(cfg: Config, snap: seq<Bytes>, s: State)
    requires |cfg.job.files| == |snap|
  {
    forall i :: 0 <= i < |s.book.log| ==> RecordTrue(cfg, snap, s, s.book.log[i])
  }

  ghost predicate InLog(log: seq<Record>, st: SessionState) {
    exists i :: 0 <= i < |log| && log[i].state == st
  }

  /** What a receiver has seen was written. */
  ghost predicate SeenWasWritten(s: State)
  {
    && |s.book.log| > 0 && s.book.log[|s.book.log| - 1].state == s.session.stateFile
    && forall id :: id in s.receivers && s.receivers[id].pc.Succeeded? ==>
         var st := s.receivers[id].pc.state;
         InLog(s.book.log, st) && st.claim == Some(id) && st.status.Completed?
  }

  lemma RunTransferFacts(cfg: Config, snap: seq<Bytes>, s: State, env: Env)
    requires Ready(cfg.job, snap) && RunInHand(cfg, snap, s) && s.sender.Transferring?
    ensures RunInHand(cfg, snap, TransferStep(cfg, s, RunTransfer(env)).value)
  {
    hide Execute;
    var job := cfg.JobTo(s.sender.claim.target);
    assert Ready(job, snap) && Covered(job, s.bits);
    var run := Execute(env, job, s.disk, s.bits);
    ResumeIsCorrect(env, job, snap, s.disk, s.bits);
    OkReportIsFull(env, job, snap, s.disk, s.bits);
    ProgressIsMonotone(env, job, snap, s.disk, s.bits);
    RunKeepsCovered(env, job, snap, s.disk, s.bits);
    assert Covered(cfg.job, run.bits);
    assert EventsOk(cfg.job, run.events, ChunkTotal(cfg.job.files));
  }

  lemma RunInHandTransfer(cfg: Config, snap: seq<Bytes>, s: State, a: Action)
    requires Ready(cfg.job, snap) && RunInHand(cfg, snap, s) && TransferStep(cfg, s, a).Some?
    ensures RunInHand(cfg, snap, TransferStep(cfg, s, a).value)
  {
    hide Execute, TotalSize, EventsOk, Delivered;
    if a.RunTransfer? {
      RunTransferFacts(cfg, snap, s, a.env);
    }
  }

  /** The disk and the manifest are as they were, and if a run is in hand then it is the same. */
  ghost predicate RunStands(s: State, s': State)
  {
    && s'.bits == s.bits && s'.disk == s.disk
    && (s'.sender.Reporting? || s'.sender.SavingResult? || s'.sender.Announcing? ==> s'.sender == s.sender)
  }

  lemma ClearStands(s: State, a: Action)
    requires ClearStep(s, a).Some?
    ensures RunStands(s, ClearStep(s, a).value)
  {
  }

  lemma ConsentStands(cfg: Config, s: State, a: Action)
    requires ConsentStep(cfg, s, a).Some?
    ensures RunStands(s, ConsentStep(cfg, s, a).value)
  {
  }

  lemma OtherStands(s: State, a: Action)
    requires OtherStep(s, a).Some?
    ensures RunStands(s, OtherStep(s, a).value)
  {
  }

  lemma StepStands(cfg: Config, s: State, a: Action)
    requires |s.bits| == |cfg.job.files| && Step(cfg, s, a).Some? && !ByTransfer(a)
    ensures RunStands(s, Step(cfg, s, a).value)
  {
    hide ClearStep, ConsentStep, TransferStep, ReceiverStep, OtherStep;
    if ByReceiver(a) {
      ReceiverFrame(cfg, s, a);
    } else if ByClear(a) {
      ClearStands(s, a);
    } else if ByOther(a) {
      OtherStands(s, a);
    } else {
      ConsentStands(cfg, s, a);
    }
  }

  lemma RunInHandStep(cfg: Config, snap: seq<Bytes>, s: State, a: Action)
    requires Ready(cfg.job, snap) && RunInHand(cfg, snap, s) && Step(cfg, s, a).Some?
    ensures RunInHand(cfg, snap, Step(cfg, s, a).value)
  {
    hide TransferStep, EventsOk, Delivered;
    if ByTransfer(a) {
      RunInHandTransfer(cfg, snap, s, a);
    } else {
      StepStands(cfg, s, a);
      hide Step;
    }
  }

  /** Receivers never disappear and never change their claim, so old records stay true. */
  lemma RecordStaysTrue(cfg: Config, snap: seq<Bytes>, s: State, s': State, r: Record)
    requires |cfg.job.files| == |snap| && RecordTrue(cfg, snap, s, r)
    requires forall id :: id in s.receivers ==> id in s'.receivers && s'.receivers[id].claim == s.receivers[id].claim
    ensures RecordTrue(cfg, snap, s', r)
  {
  }

  lemma ReceiversStay(cfg: Config, s: State, a: Action)
    requires |s.bits| == |cfg.job.files| && KnownClaims(s) && Step(cfg, s, a).Some?
    ensures var s' := Step(cfg, s, a).value;
            forall id :: id in s.receivers ==> id in s'.receivers && s'.receivers[id].claim == s.receivers[id].claim
  {
    hide Step;
    if ByReceiver(a) {
      ReceiverMoves(cfg, s, a);
    } else {
      SenderFrame(cfg, s, a);
    }
  }

  lemma LogGrows(cfg: Config, s: State, a: Action)
    requires |s.bits| == |cfg.job.files| && Step(cfg, s, a).Some?
    ensures LogMoves(s, a, Step(cfg, s, a).value)
  {
    hide Step;
    if ByReceiver(a) {
      ReceiverFrame(cfg, s, a);
    } else {
      SenderFrame(cfg, s, a);
    }
  }

  lemma LogTrueStep(cfg: Config, snap: seq<Bytes>, s: State, a: Action)
    requires Ready(cfg.job, snap) && KnownClaims(s) && RunInHand(cfg, snap, s) && LogTrue(cfg, snap, s)
    requires Step(cfg, s, a).Some?
    ensures LogTrue(cfg, snap, Step(cfg, s, a).value)
  {
    hide Execute;
    var s' := Step(cfg, s, a).value;
    ReceiversStay(cfg, s, a);
    LogGrows(cfg, s, a);
    forall i | 0 <= i < |s'.book.log| ensures RecordTrue(cfg, snap, s', s'.book.log[i]) {
      if i < |s.book.log| {
        RecordStaysTrue(cfg, snap, s, s', s.book.log[i]);
      }
    }
  }

  lemma LogKeeps(cfg: Config, s: State, a: Action, st: SessionState)
    requires |s.bits| == |cfg.job.files| && Step(cfg, s, a).Some? && InLog(s.book.log, st)
    ensures InLog(Step(cfg, s, a).value.book.log, st)
  {
    LogGrows(cfg, s, a);
    var i :| 0 <= i < |s.book.log| && s.book.log[i].state == st;
    assert Step(cfg, s, a).value.book.log[i].state == st;
  }

  /** A receiver succeeds only on reading "completed" for its own claim. */
  lemma SuccessWasRead(cfg: Config, s: State, a: Action, id: ClaimId)
    requires |s.bits| == |cfg.job.files| && Step(cfg, s, a).Some?
    requires var s' := Step(cfg, s, a).value; id in s'.receivers && s'.receivers[id].pc.Succeeded?
    ensures var st := Step(cfg, s, a).value.receivers[id].pc.state;
            || (id in s.receivers && s.receivers[id].pc == Succeeded(st))
            || (st == s.session.stateFile && st.claim == Some(id) && st.status.Completed?)
  {
    hide ClearStep, ConsentStep, TransferStep, OtherStep;
    if !ByReceiver(a) {
      SenderFrame(cfg, s, a);
    }
  }

  lemma SeenWasWrittenStep(cfg: Config, s: State, a: Action)
    requires |s.bits| == |cfg.job.files| && SeenWasWritten(s) && Step(cfg, s, a).Some?
    ensures SeenWasWritten(Step(cfg, s, a).value)
  {
    hide Execute;
    var s' := Step(cfg, s, a).value;
    LogGrows(cfg, s, a);
    LogKeeps(cfg, s, a, s.session.stateFile);
    if Writes(a) {
      assert s'.book.log[|s.book.log|].state == s'.session.stateFile;
    }
    forall id | id in s'.receivers && s'.receivers[id].pc.Succeeded?
      ensures var st := s'.receivers[id].pc.state;
              InLog(s'.book.log, st) && st.claim == Some(id) && st.status.Completed?
    {
      SuccessWasRead(cfg, s, a, id);
      LogKeeps(cfg, s, a, s'.receivers[id].pc.state);
    }
  }

  // ---------------------------------------------------------------- consent

  predicate PastConsent(pc: SenderPc) {
    pc.Transferring? || pc.Reporting? || pc.SavingResult? || pc.Announcing?
  }

  // ---------------------------------------------------------------- once, and in one block

  ghost predicate NoDuplicates(ids: seq<ClaimId>) {
    forall i, j :: 0 <= i < j < |ids| ==> ids[i] != ids[j]
  }

  predicate Terminal(st: SessionState) {
    st.status.Completed? || st.status.Broken?
  }

  /** `i` and `j` are records of one claim, in this order. */
  ghost predicate SameClaim(log: seq<Record>, i: int, j: int) {
    0 <= i < j < |log| && log[i].state.claim.Some? && log[j].state.claim == log[i].state.claim
  }

  ghost predicate Contiguous(log: seq<Record>) {
    forall i, j, k :: i < j < k && SameClaim(log, i, k) ==> log[j].state.claim == log[i].state.claim
  }

  ghost predicate TerminalIsLast(log: seq<Record>) {
    forall i, j :: SameClaim(log, i, j) ==> !Terminal(log[i].state)
  }

  ghost predicate BytesGoUp(log: seq<Record>) {
    forall i, j :: SameClaim(log, i, j) && log[j].state.status.InTransfer? ==> log[i].state.bytesDone <= log[j].state.bytesDone
  }

  /** The records of one claim are contiguous, a terminal record is the last one of its claim, and
      reported bytes do not go back within a claim. */
  ghost predicate Blocks(log: seq<Record>) {
    Contiguous(log) && TerminalIsLast(log) && BytesGoUp(log)
  }

  /** The records since the current claim was taken: all progress on this claim. */
  ghost predicate CurrentRun(log: seq<Record>, mark: nat, id: ClaimId)
  {
    && mark <= |log|
    && (forall i :: mark <= i < |log| ==> log[i].state.claim == Some(id) && log[i].state.status.InTransfer?)
  }

  /** Everything older is about other claims. */
  ghost predicate OlderApart(log: seq<Record>, mark: nat, id: ClaimId)
  {
    forall i :: 0 <= i < mark && i < |log| ==> log[i].state.claim != Some(id)
  }

  /** Each progress event has been written at most once, and nothing written is past the next one. */
  ghost predicate BelowNext(s: State)
  {
    s.sender.Reporting? ==>
      && |s.book.log| - s.book.mark <= s.sender.next <= |s.sender.run.events|
      && (forall i, k :: s.book.mark <= i < |s.book.log| && s.sender.next <= k < |s.sender.run.events| ==>
            s.book.log[i].state.bytesDone <= s.sender.run.events[k].bytesDone)
  }

  function ProgressState(id: ClaimId, ev: ProgressEvent): SessionState {
    SessionState(Some(id), InTransfer, ev.bytesDone, ev.bytesTotal)
  }

  /** The records are those of some of the events, in order, each event used at most once. */
  ghost predicate Reports(records: seq<Record>, id: ClaimId, events: seq<ProgressEvent>) {
    if records == [] then true
    else if events == [] then false
    else
      var r, k := |records| - 1, |events| - 1;
      || (records[r].state == ProgressState(id, events[k]) && Reports(records[..r], id, events[..k]))
      || Reports(records, id, events[..k])
  }

  /** What was written since the claim was taken reports on its run, up to the event reported next. */
  ghost predicate ReportsRun(s: State)
  {
    && (s.sender.Reporting? ==>
          s.book.mark <= |s.book.log| && s.sender.next <= |s.sender.run.events|
          && Reports(s.book.log[s.book.mark..], s.sender.claim.id, s.sender.run.events[..s.sender.next]))
    && (s.sender.SavingResult? || s.sender.Announcing? ==>
          s.book.mark <= |s.book.log| && Reports(s.book.log[s.book.mark..], s.sender.claim.id, s.sender.run.events))
  }

  lemma ReportsMore(log: seq<Record>, mark: nat, id: ClaimId, events: seq<ProgressEvent>, next: nat, r: Record)
    requires mark <= |log| && next < |events| && Reports(log[mark..], id, events[..next])
    ensures Reports(log[mark..], id, events[..next + 1])
    ensures r.state == ProgressState(id, events[next]) ==> Reports((log + [r])[mark..], id, events[..next + 1])
  {
    assert events[..next + 1][..next] == events[..next];
    var records := (log + [r])[mark..];
    assert records[..|records| - 1] == log[mark..];
  }

  /** What every moment of a run keeps of the log. The last part needs that no claim was served twice. */
  ghost predicate Logged(s: State)
  {
    && (forall i :: 0 <= i < |s.book.log| && s.book.log[i].state.claim.Some? ==> s.book.log[i].state.claim.value in s.book.served)
    && (Serving(s.sender) ==>
          CurrentRun(s.book.log, s.book.mark, s.sender.claim.id) && s.sender.claim.id in s.book.served)
    && (BeforeRun(s.sender) ==> |s.book.log| == s.book.mark)
    && BelowNext(s) && ReportsRun(s)
    && (NoDuplicates(s.book.served) ==> InBlocks(s))
  }

  ghost predicate InBlocks(s: State) {
    Blocks(s.book.log) && (Serving(s.sender) ==> OlderApart(s.book.log, s.book.mark, s.sender.claim.id))
  }

  /** In the log with one more record of the current claim, two records of one claim are two old ones,
      or the new one and one from the current block. */
  lemma SameClaimAppended(log: seq<Record>, mark: nat, id: ClaimId, r: Record, i: int, j: int)
    requires CurrentRun(log, mark, id) && OlderApart(log, mark, id) && r.state.claim == Some(id) && SameClaim(log + [r], i, j)
    ensures SameClaim(log, i, j) || (mark <= i < |log| && j == |log|)
  {
  }

  lemma AppendToBlock(log: seq<Record>, mark: nat, id: ClaimId, r: Record)
    requires Blocks(log) && CurrentRun(log, mark, id) && OlderApart(log, mark, id) && r.state.claim == Some(id)
    requires r.state.status.InTransfer? ==>
               forall i :: mark <= i < |log| ==> log[i].state.bytesDone <= r.state.bytesDone
    ensures Blocks(log + [r])
  {
    var log' := log + [r];
    forall i, j | SameClaim(log', i, j)
      ensures !Terminal(log'[i].state)
      ensures log'[j].state.status.InTransfer? ==> log'[i].state.bytesDone <= log'[j].state.bytesDone
    {
      SameClaimAppended(log, mark, id, r, i, j);
    }
    forall i, j, k | i < j < k && SameClaim(log', i, k) ensures log'[j].state.claim == log'[i].state.claim {
      SameClaimAppended(log, mark, id, r, i, k);
    }
  }

  ghost predicate RunKept(cfg: Config, pc: SenderPc) {
    pc.Reporting? ==> EventsOk(cfg.job, pc.run.events, ChunkTotal(cfg.job.files))
  }

  predicate BeforeRun(pc: SenderPc) {
    Serving(pc) && !pc.Reporting? && !pc.SavingResult? && !pc.Announcing?
  }

  predicate Listening(pc: SenderPc) {
    pc.ClearingSenderYes? || pc.ClearingReceiverYes? || pc.AwaitingClaim?
  }

  /** A step that writes no record and takes no claim. */
  lemma LoggedQuiet(s: State, s': State)
    requires Logged(s) && s'.book == s.book
    requires Serving(s'.sender) ==> Serving(s.sender) && s'.sender.claim == s.sender.claim
    requires BeforeRun(s'.sender) ==> BeforeRun(s.sender)
    requires BelowNext(s') && ReportsRun(s')
    ensures Logged(s')
  {
    hide Blocks, CurrentRun, OlderApart, NoDuplicates, Reports;
  }

  lemma LoggedTake(cfg: Config, s: State)
    requires ConsentStep(cfg, s, TakeClaim).Some? && Logged(s)
    ensures Logged(ConsentStep(cfg, s, TakeClaim).value)
  {
    hide Blocks;
    var s' := ConsentStep(cfg, s, TakeClaim).value;
    NoDuplicatesAppended(s.book.served, s.session.claimFile.value.id);
    assert s'.book.served[|s.book.served|] == s'.sender.claim.id;
  }

  lemma NoDuplicatesAppended(ids: seq<ClaimId>, id: ClaimId)
    ensures NoDuplicates(ids + [id]) <==> NoDuplicates(ids) && id !in ids
  {
    var ids' := ids + [id];
    assert forall i :: 0 <= i < |ids| ==> ids'[i] == ids[i];
    assert ids'[|ids|] == id;
  }

  /** A record on the current claim that is the last word on it. */
  lemma LoggedLastWord(s: State, s': State, r: Record)
    requires Logged(s) && Serving(s.sender) && s'.sender.ClearingClaim?
    requires s'.book.log == s.book.log + [r] && s'.book.served == s.book.served
    requires r.state.claim == Some(s.sender.claim.id) && Terminal(r.state)
    ensures Logged(s')
  {
    if NoDuplicates(s.book.served) {
      AppendToBlock(s.book.log, s.book.mark, s.sender.claim.id, r);
    }
    hide Blocks;
  }

  lemma LoggedConsent(cfg: Config, s: State, a: Action)
    requires |s.bits| == |cfg.job.files| && ConsentStep(cfg, s, a).Some? && Logged(s)
    ensures Logged(ConsentStep(cfg, s, a).value)
  {
    hide InBlocks, CurrentRun, NoDuplicates;
    var s' := ConsentStep(cfg, s, a).value;
    if a.TakeClaim? {
      LoggedTake(cfg, s);
    } else if a == Reject(true) {
      LoggedLastWord(s, s', s'.book.log[|s.book.log|]);
    } else {
      LoggedQuiet(s, s');
    }
  }

  lemma LoggedReport(cfg: Config, s: State, written: bool)
    requires |s.bits| == |cfg.job.files| && TransferStep(cfg, s, Report(written)).Some? && Logged(s) && RunKept(cfg, s.sender)
    ensures Logged(TransferStep(cfg, s, Report(written)).value)
  {
    hide Execute, Blocks, NoDuplicates;
    var s' := TransferStep(cfg, s, Report(written)).value;
    var next := s.sender.next;
    ReportsMore(s.book.log, s.book.mark, s.sender.claim.id, s.sender.run.events, next,
                Record(ProgressState(s.sender.claim.id, s.sender.run.events[next]), s.disk.files));
    if written && NoDuplicates(s.book.served) {
      AppendToBlock(s.book.log, s.book.mark, s.sender.claim.id, s'.book.log[|s.book.log|]);
    }
  }

  lemma LoggedTransfer(cfg: Config, s: State, a: Action)
    requires |s.bits| == |cfg.job.files| && TransferStep(cfg, s, a).Some? && Logged(s)
    requires RunKept(cfg, s.sender)
    ensures Logged(TransferStep(cfg, s, a).value)
  {
    hide Execute, InBlocks, CurrentRun, NoDuplicates;
    var s' := TransferStep(cfg, s, a).value;
    if s.sender.Reporting? && s.sender.next == |s.sender.run.events| {
      assert s.sender.run.events[..s.sender.next] == s.sender.run.events;
    }
    if a.Report? {
      LoggedReport(cfg, s, a.written);
    } else if a == Announce(true) {
      LoggedLastWord(s, s', s'.book.log[|s.book.log|]);
    } else {
      LoggedQuiet(s, s');
    }
  }

  lemma LoggedStep(cfg: Config, s: State, a: Action)
    requires |s.bits| == |cfg.job.files| && RunKept(cfg, s.sender) && Step(cfg, s, a).Some? && Logged(s)
    ensures Logged(Step(cfg, s, a).value)
  {
    hide ConsentStep, TransferStep, ReceiverStep, InBlocks, CurrentRun, NoDuplicates;
    if ByReceiver(a) {
      ReceiverFrame(cfg, s, a);
      LoggedQuiet(s, Step(cfg, s, a).value);
    } else if ByTransfer(a) {
      LoggedTransfer(cfg, s, a);
    } else if ByClear(a) || ByOther(a) {
      LoggedQuiet(s, Step(cfg, s, a).value);
    } else {
      LoggedConsent(cfg, s, a);
    }
  }
}
