/** The serving part of the sender's loop as it works on objects: one manifest and one disk, changed in
    place by every claim that is served. */
module SendLoop {
  import opened FileBytes
  import opened Bitmap
  import opened Device
  import opened Manifest
  import opened Transfer
  import opened TransferSafety
  import opened TransferTheorems
  import opened TransferOutcome
  import opened TransferEngine
  import opened Handshake
  import opened HandshakeSafety

  /** The records of the first `k` progress events of a claim. A write that fails is passed over. */
  function ProgressRecords(claim: Claim, run: RunState, written: nat -> bool, k: nat): (rs: seq<Record>)
    requires k <= |run.events|
    ensures |rs| <= k
  {
    if k == 0 then []
    else
      var ev := run.events[k - 1];
      ProgressRecords(claim, run, written, k - 1)
      + if written(k - 1) then [Record(SessionState(Some(claim.id), InTransfer, ev.bytesDone, ev.bytesTotal), run.d.files)] else []
  }

  /** The disk after a run, once the manifest has been saved if the run returned Ok, and whether the sender
      goes on: a save that fails ends it, and so does being killed. */
  function Settled(env: Env, run: RunState): (r: (DiskState, bool))
    ensures r.0.files == run.d.files
  {
    if run.outcome.Finished? then
      var (d, reply) := Save(env, run.d, run.bits);
      (d, reply.Done?)
    else (run.d, run.outcome.Failed?)
  }

  /** Everything written to `state.json` for one claim that is served. A sender that has been killed, or
      that could not save the manifest, has no last word. */
  function ClaimRecords(cfg: Config, env: Env, claim: Claim, run: RunState, written: nat -> bool): seq<Record> {
    ProgressRecords(claim, run, written, |run.events|)
    + if Settled(env, run).1 && written(|run.events|) then [Record(Closing(cfg, claim, run), run.d.files)] else []
  }

  lemma {:induction false} ProgressIsNotCompletion(claim: Claim, run: RunState, written: nat -> bool, k: nat)
    requires k <= |run.events|
    ensures forall r :: r in ProgressRecords(claim, run, written, k) ==> r.state.status.InTransfer?
  {
    if k > 0 {
      ProgressIsNotCompletion(claim, run, written, k - 1);
    }
  }

  /** "Completed" stands in a claim's records only if the snapshot is in the claim's target directory. */
  ghost predicate Honest(cfg: Config, snap: seq<Bytes>, claims: seq<Claim>, r: Record)
    requires |cfg.job.files| == |snap|
  {
    r.state.status.Completed? ==>
      r.state.bytesDone == r.state.bytesTotal == TotalSize(cfg.job.files)
      && exists i :: 0 <= i < |claims| && r.state.claim == Some(claims[i].id) && Delivered(cfg, snap, claims[i].target, r.files)
  }

  lemma ClaimRecordsHonest(cfg: Config, snap: seq<Bytes>, env: Env, claims: seq<Claim>, n: nat, d: DiskState, bits: seq<Bits>, written: nat -> bool)
    requires Ready(cfg.job, snap) && Covered(cfg.job, bits) && n < |claims|
    ensures var run := Execute(env, cfg.JobTo(claims[n].target), d, bits);
            && Covered(cfg.job, run.bits)
            && forall r :: r in ClaimRecords(cfg, env, claims[n], run, written) ==> Honest(cfg, snap, claims, r)
  {
    hide Execute;
    var job := cfg.JobTo(claims[n].target);
    var run := Execute(env, job, d, bits);
    assert Ready(job, snap) && Covered(job, bits);
    ResumeIsCorrect(env, job, snap, d, bits);
    OkReportIsFull(env, job, snap, d, bits);
    RunKeepsCovered(env, job, snap, d, bits);
    ProgressIsNotCompletion(claims[n], run, written, |run.events|);
    assert Covered(cfg.job, run.bits);
  }

  /** What must be the last record of a claim that was served: "completed" with the numbers of the report,
      or "failed" with the bytes that were printed last. */
  predicate LastWord(st: SessionState, claim: Claim, run: RunState, total: nat) {
    match run.outcome
    case Finished(report) => st == SessionState(Some(claim.id), Completed, report.bytesDone, report.bytesTotal)
    case Failed(_) => st == SessionState(Some(claim.id), Broken, LastPrint(run.events, |run.events|), total)
    case _ => false
  }

  /** What must be written for a claim: a report for each progress event whose write succeeds, in order, and
      then, if the sender is still there, the last word. */
  ghost predicate Told(records: seq<Record>, claim: Claim, run: RunState, written: nat -> bool, serving: bool, total: nat) {
    && (serving ==> records != [] && LastWord(records[|records| - 1].state, claim, run, total))
    && var reports := if serving then records[..|records| - 1] else records;
       && Reports(reports, claim.id, run.events)
       && ((forall k :: 0 <= k < |run.events| ==> written(k)) ==> |reports| == |run.events|)
  }

  lemma {:induction false} ProgressIsReported(claim: Claim, run: RunState, written: nat -> bool, k: nat)
    requires k <= |run.events|
    ensures Reports(ProgressRecords(claim, run, written, k), claim.id, run.events[..k])
    ensures (forall i :: 0 <= i < k ==> written(i)) ==> |ProgressRecords(claim, run, written, k)| == k
  {
    if k > 0 {
      ProgressIsReported(claim, run, written, k - 1);
      var before, all := ProgressRecords(claim, run, written, k - 1), ProgressRecords(claim, run, written, k);
      assert run.events[..k][..k - 1] == run.events[..k - 1];
      if written(k - 1) {
        assert all[..|all| - 1] == before;
      } else {
        assert all == before;
      }
    }
  }

  lemma ClaimRecordsTell(cfg: Config, env: Env, claim: Claim, run: RunState, written: nat -> bool)
    requires !run.outcome.Running?
    ensures var serving := (run.outcome.Failed? || (run.outcome.Finished? && env.fault(run.d.clock).Fine?)) && written(|run.events|);
            && (serving <==> Settled(env, run).1 && written(|run.events|))
            && Told(ClaimRecords(cfg, env, claim, run, written), claim, run, written, serving, TotalSize(cfg.job.files))
  {
    hide Reports;
    ProgressIsReported(claim, run, written, |run.events|);
    assert run.events[..|run.events|] == run.events;
    var progress, rs := ProgressRecords(claim, run, written, |run.events|), ClaimRecords(cfg, env, claim, run, written);
    if Settled(env, run).1 && written(|run.events|) {
      assert rs[..|rs| - 1] == progress;
    } else {
      assert rs == progress;
    }
  }

  // ---------------------------------------------------------------- many claims

  /** The sender between two claims: its disk, its one manifest, what it has written, and whether it is
      still there. */
  datatype Serving = Serving(d: DiskState, bits: seq<Bits>, log: seq<Record>, alive: bool)

  /** After the first `n` claims. */
  function ServeEach(cfg: Config, envs: seq<Env>, claims: seq<Claim>, writes: seq<nat -> bool>, s: Serving, n: nat): (s': Serving)
    requires n <= |envs| == |claims| == |writes| && |s.bits| == |cfg.job.files|
    ensures |s'.bits| == |cfg.job.files|
  {
    if n == 0 then s
    else
      var before := ServeEach(cfg, envs, claims, writes, s, n - 1);
      if !before.alive then before
      else
        var run := Execute(envs[n - 1], cfg.JobTo(claims[n - 1].target), before.d, before.bits);
        var (d, alive) := Settled(envs[n - 1], run);
        Serving(d, run.bits, before.log + ClaimRecords(cfg, envs[n - 1], claims[n - 1], run, writes[n - 1]),
                alive && writes[n - 1](|run.events|))
  }

  /** While the sender is there, every claim has had its last word, in order: what its own run came to, from
      the disk and the bits that the claim before it left. */
  lemma {:induction false} EachIsAnswered(cfg: Config, envs: seq<Env>, claims: seq<Claim>, writes: seq<nat -> bool>,
                                          s: Serving, n: nat, i: nat)
    requires i < n <= |envs| == |claims| == |writes| && |s.bits| == |cfg.job.files|
    requires ServeEach(cfg, envs, claims, writes, s, n).alive
    ensures var before, after := ServeEach(cfg, envs, claims, writes, s, i), ServeEach(cfg, envs, claims, writes, s, i + 1);
            var job := cfg.job.(targetRoot := claims[i].target, checkpointing := true, maxRetries := 3);
            && before.alive && after.alive && before.log <= after.log <= ServeEach(cfg, envs, claims, writes, s, n).log
            && Told(after.log[|before.log|..], claims[i], Execute(envs[i], job, before.d, before.bits), writes[i], true,
                    TotalSize(cfg.job.files))
  {
    hide Execute, Told, ClaimRecords, Settled;
    if i < n - 1 {
      EachIsAnswered(cfg, envs, claims, writes, s, n - 1, i);
    } else {
      var before := ServeEach(cfg, envs, claims, writes, s, i);
      AnsweredOnce(cfg, envs[i], claims[i], writes[i], before, ServeEach(cfg, envs, claims, writes, s, n));
    }
  }

  lemma AnsweredOnce(cfg: Config, env: Env, claim: Claim, written: nat -> bool, before: Serving, after: Serving)
    requires |before.bits| == |cfg.job.files| && before.alive && after.alive
    requires var run := Execute(env, cfg.JobTo(claim.target), before.d, before.bits);
             && after.log == before.log + ClaimRecords(cfg, env, claim, run, written)
             && (after.alive <==> Settled(env, run).1 && written(|run.events|))
    ensures before.log <= after.log
    ensures var job := cfg.job.(targetRoot := claim.target, checkpointing := true, maxRetries := 3);
            Told(after.log[|before.log|..], claim, Execute(env, job, before.d, before.bits), written, true, TotalSize(cfg.job.files))
  {
    hide Execute, Told, ClaimRecords;
    var run := Execute(env, cfg.JobTo(claim.target), before.d, before.bits);
    KilledByLastCall(env, cfg.JobTo(claim.target), before.d, before.bits);
    ClaimRecordsTell(cfg, env, claim, run, written);
    assert after.log[|before.log|..] == ClaimRecords(cfg, env, claim, run, written);
  }

  /** And every "completed" was true when it was written. */
  lemma {:induction false} EachIsHonest(cfg: Config, snap: seq<Bytes>, envs: seq<Env>, claims: seq<Claim>, writes: seq<nat -> bool>,
                                        s: Serving, n: nat)
    requires n <= |envs| == |claims| == |writes| && Ready(cfg.job, snap) && Covered(cfg.job, s.bits)
    requires forall r :: r in s.log ==> Honest(cfg, snap, claims, r)
    ensures Covered(cfg.job, ServeEach(cfg, envs, claims, writes, s, n).bits)
    ensures forall r :: r in ServeEach(cfg, envs, claims, writes, s, n).log ==> Honest(cfg, snap, claims, r)
  {
    hide Execute, Honest, ClaimRecords, Settled;
    if n > 0 {
      EachIsHonest(cfg, snap, envs, claims, writes, s, n - 1);
      var before := ServeEach(cfg, envs, claims, writes, s, n - 1);
      ClaimRecordsHonest(cfg, snap, envs[n - 1], claims, n - 1, before.d, before.bits, writes[n - 1]);
    }
  }

  class Sender {
    const manifest: TransferManifest
    const fs: FileSystem
    const sourcePath: Path
    const sourceIsFile: bool
    const senderId: PeerId
    var log: seq<Record>

    constructor (manifest: TransferManifest, fs: FileSystem, sourcePath: Path, sourceIsFile: bool, senderId: PeerId)
      ensures this.manifest == manifest && this.fs == fs && log == []
    {
      this.manifest, this.fs, this.senderId := manifest, fs, senderId;
      this.sourcePath, this.sourceIsFile := sourcePath, sourceIsFile;
      log := [];
    }

    function Cfg(): Config {
      Config(manifest.JobTo(sourcePath, sourceIsFile, [], true, DEFAULT_MAX_RETRIES), senderId)
    }

    /** The progress callback, called for each event. */
    method ReportProgress(claim: Claim, progress: seq<ProgressEvent>, written: nat -> bool, ghost run: RunState)
      returns (lastPrint: nat)
      requires progress == run.events && fs.files == run.d.files
      modifies this`log
      ensures lastPrint == LastPrint(progress, |progress|)
      ensures log == old(log) + ProgressRecords(claim, run, written, |progress|)
    {
      lastPrint := 0;
      for k := 0 to |progress|
        invariant lastPrint == LastPrint(progress, k)
        invariant log == old(log) + ProgressRecords(claim, run, written, k)
      {
        var ev := progress[k];
        if written(k) {
          log := log + [Record(SessionState(Some(claim.id), InTransfer, ev.bytesDone, ev.bytesTotal), fs.files)];
        }
        if SaturatingSub(ev.bytesDone, lastPrint) >= 2 * 1024 * 1024 || ev.bytesDone == ev.bytesTotal {
          lastPrint := ev.bytesDone;
        }
      }
    }

    /** Serve one claim: run the transfer, report its progress, save the manifest if all went well, and
        write the last word. `written(k)` says whether write `k` of `state.json` succeeds, `serving` whether
        the sender is still there. */
    method ServeClaim(env: Env, claim: Claim, written: nat -> bool) returns (serving: bool)
      requires manifest.Valid()
      modifies this`log, fs, manifest.Arrays()
      ensures var run := Execute(env, manifest.JobTo(sourcePath, sourceIsFile, claim.target, true, 3),
                                 old(fs.State()), old(manifest.BitsNow()));
              && old(log) <= log && Told(log[|old(log)|..], claim, run, written, serving, TotalSize(manifest.Files()))
              && log == old(log) + ClaimRecords(Cfg(), env, claim, run, written)
              && fs.State() == Settled(env, run).0 && manifest.BitsNow() == run.bits
              && (serving <==> (run.outcome.Failed? || (run.outcome.Finished? && env.fault(run.d.clock).Fine?))
                               && written(|run.events|))
              && (serving <==> Settled(env, run).1 && written(|run.events|))
    {
      hide Execute, Told;
      ghost var job := manifest.JobTo(sourcePath, sourceIsFile, claim.target, true, 3);
      ghost var run := Execute(env, job, fs.State(), manifest.BitsNow());
      KilledByLastCall(env, job, fs.State(), manifest.BitsNow());
      ClaimRecordsTell(Cfg(), env, claim, run, written);
      var outcome, progress;
      outcome, progress := ExecuteLocalTransfer(env, fs, manifest, sourcePath, sourceIsFile, claim.target, true, DEFAULT_MAX_RETRIES);
      var lastPrint := ReportProgress(claim, progress, written, run);
      serving := outcome.Finished? || outcome.Failed?;
      if outcome.Finished? {
        var saved := fs.SaveManifest(env, manifest.BitsNow());
        serving := saved.Done?;
      }
      serving := serving && written(|progress|);
      if serving {
        var last := if outcome.Finished?
          then SessionState(Some(claim.id), Completed, outcome.report.bytesDone, outcome.report.bytesTotal)
          else SessionState(Some(claim.id), Broken, lastPrint, TotalSize(manifest.Files()));
        log := log + [Record(last, fs.files)];
      }
      assert log == old(log) + ClaimRecords(Cfg(), env, claim, run, written);
      assert log[|old(log)|..] == ClaimRecords(Cfg(), env, claim, run, written);
    }

    /** Serve any list of claims one after the other, with any failures in each, all with the one manifest,
        until they are done or the sender is not there any more. */
    method ServeAll(envs: seq<Env>, claims: seq<Claim>, writes: seq<nat -> bool>, ghost snap: seq<Bytes>) returns (serving: bool)
      requires manifest.Valid() && |envs| == |claims| == |writes|
      requires Ready(Cfg().job, snap) && Covered(Cfg().job, manifest.BitsNow()) && log == []
      modifies this`log, fs, manifest.Arrays()
      ensures Serving(fs.State(), manifest.BitsNow(), log, serving)
           == ServeEach(Cfg(), envs, claims, writes, old(Serving(fs.State(), manifest.BitsNow(), log, true)), |claims|)
      ensures forall r :: r in log ==> Honest(Cfg(), snap, claims, r)
    {
      hide Execute, Told, ClaimRecords, Settled, Honest;
      serving := true;
      ghost var start := Serving(fs.State(), manifest.BitsNow(), log, true);
      for n := 0 to |claims|
        invariant Serving(fs.State(), manifest.BitsNow(), log, serving) == ServeEach(Cfg(), envs, claims, writes, start, n)
      {
        if serving {
          serving := ServeClaim(envs[n], claims[n], writes[n]);
        }
      }
      EachIsHonest(Cfg(), snap, envs, claims, writes, start, |claims|);
    }
  }
}
