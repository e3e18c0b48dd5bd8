/** What holds in every state that any interleaving of the handshake reaches, and what a report of
    completion is worth. */
module HandshakeTheorems {
  import opened FileBytes
  import opened Device
  import opened Manifest
  import opened Transfer
  import opened TransferSafety
  import opened TransferTheorems
  import opened Handshake
  import opened HandshakeRuns
  import opened HandshakeSafety

  ghost predicate Safe(cfg: Config, snap: seq<Bytes>, s: State)
    requires |cfg.job.files| == |snap|
  {
    && RunInHand(cfg, snap, s)
    && KnownClaims(s)
    && LogTrue(cfg, snap, s)
    && SeenWasWritten(s)
    && Logged(s)
  }

  lemma InitiallySafe(cfg: Config, snap: seq<Bytes>, files: map<Path, Bytes>, trust: set<PeerId>)
    requires Ready(cfg.job, snap)
    ensures Safe(cfg, snap, Initial(cfg, files, trust))
  {
    var s := Initial(cfg, files, trust);
    assert s.book.log[0].state == s.session.stateFile;
  }

  lemma SafeStep(cfg: Config, snap: seq<Bytes>, s: State, a: Action)
    requires Ready(cfg.job, snap) && Safe(cfg, snap, s) && Step(cfg, s, a).Some?
    ensures Safe(cfg, snap, Step(cfg, s, a).value)
  {
    RunInHandStep(cfg, snap, s, a);
    KnownClaimsStep(cfg, s, a);
    LogTrueStep(cfg, snap, s, a);
    SeenWasWrittenStep(cfg, s, a);
    LoggedStep(cfg, s, a);
  }

  /** Every state that any interleaving of sender and receivers reaches is safe. */
  lemma {:induction false} SafeAlways(cfg: Config, snap: seq<Bytes>, files: map<Path, Bytes>, trust: set<PeerId>, actions: seq<Action>)
    requires Ready(cfg.job, snap)
    ensures var s := Run(cfg, Initial(cfg, files, trust), actions); s.Some? ==> Safe(cfg, snap, s.value)
  {
    InitiallySafe(cfg, snap, files, trust);
    if actions != [] {
      SafeAlways(cfg, snap, files, trust, actions[..|actions| - 1]);
      var before := Run(cfg, Initial(cfg, files, trust), actions[..|actions| - 1]);
      if before.Some? && Step(cfg, before.value, actions[|actions| - 1]).Some? {
        SafeStep(cfg, snap, before.value, actions[|actions| - 1]);
      }
    }
  }

  lemma ReachableIsSafe(cfg: Config, snap: seq<Bytes>, s: State)
    requires Ready(cfg.job, snap) && Reachable(cfg, s)
    ensures Safe(cfg, snap, s)
  {
    var files, trust, actions :| Run(cfg, Initial(cfg, files, trust), actions) == Some(s);
    SafeAlways(cfg, snap, files, trust, actions);
  }

  // ---------------------------------------------------------------- main results

  /** The one manifest that all claims share is safe for each of them: whenever "completed" was
      written for a claim, the whole snapshot was in that claim's own target directory at that moment. */
  lemma CompletedMeansDelivered(cfg: Config, snap: seq<Bytes>, s: State, i: nat)
    requires Ready(cfg.job, snap) && Reachable(cfg, s)
    requires i < |s.book.log| && s.book.log[i].state.status.Completed?
    ensures var r := s.book.log[i];
            && r.state.claim.Some? && r.state.claim.value in s.receivers
            && r.state.bytesDone == r.state.bytesTotal == TotalSize(cfg.job.files)
            && Delivered(cfg, snap, s.receivers[r.state.claim.value].claim.target, r.files)
  {
    ReachableIsSafe(cfg, snap, s);
    assert RecordTrue(cfg, snap, s, s.book.log[i]);
  }

  /** The sender comes to write "completed" only with the finished manifest saved. */
  lemma CompletedIsSaved(cfg: Config, snap: seq<Bytes>, s: State)
    requires Ready(cfg.job, snap) && Reachable(cfg, s) && s.sender.Announcing? && s.sender.run.outcome.Finished?
    ensures s.disk.checkpoint == Readable(s.bits)
    ensures s.sender.run.outcome.report == FullReport(cfg.job)
    ensures Delivered(cfg, snap, s.sender.claim.target, s.disk.files)
  {
    ReachableIsSafe(cfg, snap, s);
  }

  /** A receiver that returns success has read "completed" for its own claim, with all bytes counted,
      and the sender wrote that when the snapshot was in the receiver's target directory. */
  lemma SuccessIsAttributed(cfg: Config, snap: seq<Bytes>, s: State, id: ClaimId)
    requires Ready(cfg.job, snap) && Reachable(cfg, s)
    requires id in s.receivers && s.receivers[id].pc.Succeeded?
    ensures var st := s.receivers[id].pc.state;
            && st.claim == Some(id) && st.bytesDone == st.bytesTotal == TotalSize(cfg.job.files)
            && exists i :: 0 <= i < |s.book.log| && s.book.log[i].state == st
                           && Delivered(cfg, snap, s.receivers[id].claim.target, s.book.log[i].files)
  {
    ReachableIsSafe(cfg, snap, s);
    var st := s.receivers[id].pc.state;
    assert InLog(s.book.log, st);
    var i :| 0 <= i < |s.book.log| && s.book.log[i].state == st;
    assert RecordTrue(cfg, snap, s, s.book.log[i]);
  }

  /** If no claim was served twice, the records of a claim are contiguous, nothing follows its terminal
      record, and its bytes do not go back. */
  lemma OneBlockEach(cfg: Config, snap: seq<Bytes>, s: State)
    requires Ready(cfg.job, snap) && Reachable(cfg, s) && NoDuplicates(s.book.served)
    ensures Blocks(s.book.log)
  {
    ReachableIsSafe(cfg, snap, s);
  }

  /** While a claim is being reported, its writes since it was taken say what some of the progress events of
      its run said, in order, each at most once; those are at most one more than the chunks. */
  lemma ReportsAreBounded(cfg: Config, snap: seq<Bytes>, s: State)
    requires Ready(cfg.job, snap) && Reachable(cfg, s) && s.sender.Reporting?
    ensures CurrentRun(s.book.log, s.book.mark, s.sender.claim.id)
    ensures |s.book.log| - s.book.mark <= s.sender.next <= 1 + ChunkTotal(cfg.job.files)
    ensures s.sender.next <= |s.sender.run.events| && s.book.mark <= |s.book.log|
    ensures Reports(s.book.log[s.book.mark..], s.sender.claim.id, s.sender.run.events[..s.sender.next])
    ensures NoDuplicates(s.book.served) ==> OlderApart(s.book.log, s.book.mark, s.sender.claim.id)
  {
    ReachableIsSafe(cfg, snap, s);
  }

  /** `state.json` holds what was written last. */
  lemma StateFileIsLastRecord(cfg: Config, snap: seq<Bytes>, s: State)
    requires Ready(cfg.job, snap) && Reachable(cfg, s)
    ensures |s.book.log| > 0 && s.session.stateFile == s.book.log[|s.book.log| - 1].state
  {
    ReachableIsSafe(cfg, snap, s);
  }

  // ---------------------------------------------------------------- every outcome is announced

  /** The transfer for a claim goes to the directory of that claim, with checkpoints and three attempts for
      each chunk, and uses the bits that the last transfer left in the manifest. */
  lemma RunIsForTheClaim(cfg: Config, s: State, env: Env)
    requires |s.bits| == |cfg.job.files| && s.sender.Transferring?
    ensures var s' := Step(cfg, s, RunTransfer(env));
            && s'.Some? && s'.value.sender.Reporting? && s'.value.sender.claim == s.sender.claim && s'.value.sender.next == 0
            && var job := cfg.job.(targetRoot := s.sender.claim.target, checkpointing := true, maxRetries := 3);
               && s'.value.sender.run == Execute(env, job, s.disk, s.bits)
               && s'.value.disk == s'.value.sender.run.d && s'.value.bits == s'.value.sender.run.bits
  {
    hide Execute;
  }

  /** Once everything is reported, a finished run goes on to be saved, a failed one to be announced, and a
      killed one is the end of the sender. */
  lemma Concludes(cfg: Config, s: State)
    requires |s.bits| == |cfg.job.files| && s.sender.Reporting? && s.sender.next >= |s.sender.run.events|
    ensures var s' := Step(cfg, s, Conclude);
            && s'.Some?
            && (s.sender.run.outcome.Finished? ==> s'.value.sender == SavingResult(s.sender.claim, s.sender.run))
            && (s.sender.run.outcome.Failed? ==> s'.value.sender == Announcing(s.sender.claim, s.sender.run))
            && (!s.sender.run.outcome.Finished? && !s.sender.run.outcome.Failed? ==> s'.value.sender.Halted?)
  {
    hide Execute;
  }

  /** What a polling receiver makes of `state.json`: it succeeds exactly on "completed" for its own claim,
      gives up exactly on "failed" for it, and otherwise polls on. */
  lemma PollDecides(cfg: Config, s: State, id: ClaimId)
    requires |s.bits| == |cfg.job.files| && id in s.receivers && s.receivers[id].pc.Polling?
    ensures var s' := Step(cfg, s, Poll(id));
            && s'.Some? && id in s'.value.receivers
            && var st, pc := s.session.stateFile, s'.value.receivers[id].pc;
               && (pc.Succeeded? <==> st.claim == Some(id) && st.status.Completed?)
               && (pc.Succeeded? ==> pc.state == st)
               && (pc.Ended? <==> st.claim == Some(id) && st.status.Broken?)
               && (!pc.Succeeded? && !pc.Ended? ==> pc.Polling?)
               && s'.value == s.(receivers := s'.value.receivers)
  {
  }

  /** A finished run whose manifest can be saved is announced as completed, with all bytes counted, and its
      receiver, if it polls, then succeeds. */
  lemma FinishedIsAnnounced(cfg: Config, snap: seq<Bytes>, s: State, env: Env)
    requires Ready(cfg.job, snap) && Reachable(cfg, s) && s.sender.SavingResult? && env.fault(s.disk.clock).Fine?
    ensures |s.bits| == |cfg.job.files| && Step(cfg, s, SaveResult(env)).Some?
    ensures var s1 := Step(cfg, s, SaveResult(env)).value;
            |s1.bits| == |cfg.job.files| && Step(cfg, s1, Announce(true)).Some?
    ensures var id, s2 := s.sender.claim.id, Step(cfg, Step(cfg, s, SaveResult(env)).value, Announce(true)).value;
            && s2.session.stateFile == SessionState(Some(id), Completed, TotalSize(cfg.job.files), TotalSize(cfg.job.files))
            && s2.sender.ClearingClaim? && |s2.bits| == |cfg.job.files|
            && (id in s2.receivers && s2.receivers[id].pc.Polling? ==>
                  Step(cfg, s2, Poll(id)).Some? && Step(cfg, s2, Poll(id)).value.receivers[id].pc == Succeeded(s2.session.stateFile))
  {
    hide Execute, TotalSize;
    ReachableIsSafe(cfg, snap, s);
  }

  /** A failed run is announced as failed, with the bytes printed last, and its receiver gives up. */
  lemma FailedIsAnnounced(cfg: Config, snap: seq<Bytes>, s: State)
    requires Ready(cfg.job, snap) && Reachable(cfg, s) && s.sender.Announcing? && s.sender.run.outcome.Failed?
    ensures |s.bits| == |cfg.job.files| && Step(cfg, s, Announce(true)).Some?
    ensures var id, s' := s.sender.claim.id, Step(cfg, s, Announce(true)).value;
            var printed := LastPrint(s.sender.run.events, |s.sender.run.events|);
            && s'.session.stateFile == SessionState(Some(id), Broken, printed, TotalSize(cfg.job.files))
            && s'.sender.ClearingClaim? && |s'.bits| == |cfg.job.files|
            && (id in s'.receivers && s'.receivers[id].pc.Polling? ==>
                  Step(cfg, s', Poll(id)).Some? && Step(cfg, s', Poll(id)).value.receivers[id].pc.Ended?)
  {
    hide Execute, TotalSize, LastPrint;
    ReachableIsSafe(cfg, snap, s);
  }

  /** A sender that says no writes "failed" with no bytes, goes on to the next claim, and the receiver gives up. */
  lemma RejectionIsAnnounced(cfg: Config, s: State)
    requires |s.bits| == |cfg.job.files| && s.sender.Prompting?
    ensures Step(cfg, s, SenderAnswers(false)).Some?
    ensures var s1 := Step(cfg, s, SenderAnswers(false)).value;
            |s1.bits| == |cfg.job.files| && Step(cfg, s1, Reject(true)).Some?
    ensures var id, s2 := s.sender.claim.id, Step(cfg, Step(cfg, s, SenderAnswers(false)).value, Reject(true)).value;
            && s2.session.stateFile == SessionState(Some(id), Broken, 0, TotalSize(cfg.job.files))
            && s2.sender.ClearingClaim? && s2.disk == s.disk
            && |s2.bits| == |cfg.job.files|
            && (id in s2.receivers && s2.receivers[id].pc.Polling? ==>
                  Step(cfg, s2, Poll(id)).Some? && Step(cfg, s2, Poll(id)).value.receivers[id].pc.Ended?)
  {
    hide Execute, TotalSize;
  }

  lemma EmptyRun(env: Env, target: Path, d: DiskState)
    requires FaultFree(env)
    ensures var run := Execute(env, Small().JobTo(target), d, []);
            run.outcome == Finished(TransferReport(0, 0, 0, 0)) && |run.events| == 1 && run.bits == []
  {
  }

  /** A transfer that is run, reported, saved and announced. */
  lemma Delivers(actions: seq<Action>, s: State, env: Env) returns (actions': seq<Action>, s': State)
    requires At(actions, s) && s.sender.Transferring? && s.bits == [] && FaultFree(env)
    ensures At(actions', s') && s'.receivers == s.receivers
    ensures s'.session.stateFile == SessionState(Some(s.sender.claim.id), Completed, 0, 0)
  {
    hide Execute, Run, ConsentStep, ReceiverStep, ClearStep, OtherStep;
    EmptyRun(env, s.sender.claim.target, s.disk);
    actions', s' := Extend(Small(), SmallStart(), actions, s, RunTransfer(env));
    actions', s' := Extend(Small(), SmallStart(), actions', s', Report(true));
    actions', s' := Extend(Small(), SmallStart(), actions', s', Conclude);
    actions', s' := Saves(actions', s', env);
  }

  lemma Saves(actions: seq<Action>, s: State, env: Env) returns (actions': seq<Action>, s': State)
    requires At(actions, s) && s.sender.SavingResult? && FaultFree(env)
    requires s.sender.run.outcome == Finished(TransferReport(0, 0, 0, 0))
    ensures At(actions', s') && s'.receivers == s.receivers
    ensures s'.session.stateFile == SessionState(Some(s.sender.claim.id), Completed, 0, 0)
  {
    hide Execute, Run, ConsentStep, ReceiverStep, ClearStep, OtherStep;
    actions', s' := Extend(Small(), SmallStart(), actions, s, SaveResult(env));
    actions', s' := Extend(Small(), SmallStart(), actions', s', Announce(true));
  }

  /** There is a run in which a receiver that nobody knew is approved, paired, served, and succeeds. */
  lemma ReceiverSucceeds()
    ensures exists s :: Reachable(Small(), s) && 0 in s.receivers && s.receivers[0].pc.Succeeded?
  {
    hide Execute, Run, Reachable, TransferStep, ClearStep, OtherStep;
    var acts, s := FirstConnection();
    acts, s := Extend(Small(), SmallStart(), acts, s, PairReceiver);
    acts, s := Extend(Small(), SmallStart(), acts, s, PairSender(0));
    var env := Env(t => Fine, (t, p) => None, t => None);
    acts, s := Delivers(acts, s, env);
    PollDecides(Small(), s, 0);
    acts, s := Extend(Small(), SmallStart(), acts, s, Poll(0));
    AtIsReachable(acts, s);
  }

  /** The amount printed last is never ahead of the amount reported next, so the sender's subtraction
      never saturates; when everything was reported, everything was printed. It changes only by 2 MiB or
      more, or at the end, and is never 2 MiB behind. */
  lemma {:induction false} PrintedNeverAhead(cfg: Config, events: seq<ProgressEvent>, k: nat)
    requires EventsOk(cfg.job, events, ChunkTotal(cfg.job.files)) && k <= |events|
    ensures forall j :: k <= j < |events| ==> LastPrint(events, k) <= events[j].bytesDone
    ensures LastPrint(events, k) <= TotalSize(cfg.job.files)
    ensures k > 0 && events[k - 1].bytesDone == TotalSize(cfg.job.files) ==> LastPrint(events, k) == TotalSize(cfg.job.files)
    ensures k > 0 && LastPrint(events, k) != LastPrint(events, k - 1) ==>
              && LastPrint(events, k) == events[k - 1].bytesDone
              && (events[k - 1].bytesDone >= LastPrint(events, k - 1) + 2097152 || events[k - 1].bytesDone == TotalSize(cfg.job.files))
    ensures k > 0 ==> events[k - 1].bytesDone < LastPrint(events, k) + 2097152
  {
    if k > 0 {
      PrintedNeverAhead(cfg, events, k - 1);
      assert events[k - 1].bytesTotal == TotalSize(cfg.job.files);
    }
  }
}
