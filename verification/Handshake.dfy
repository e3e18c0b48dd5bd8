/** The sender loop and any number of receiver processes, meeting through the files of one session.
    One action is one file operation, one prompt, or one whole transfer. */
module Handshake {
  import opened FileBytes
  import opened Bitmap
  import opened Device
  import opened Manifest
  import opened Transfer

  type PeerId = string

  /** Claim ids are fresh and each receiver process makes one, so a claim id also names its process. */
  type ClaimId = nat

  datatype Claim = Claim(id: ClaimId, receiver: PeerId, target: Path)

  datatype Status = WaitingReceiver | InTransfer | Completed | Broken

  /** `state.json`. */
  datatype SessionState = SessionState(claim: Option<ClaimId>, status: Status, bytesDone: nat, bytesTotal: nat)

  /** The shared files. `receiverYes` carries the name of the process that wrote it, which the file
      itself does not. */
  datatype Session = Session(
    claimFile: Option<Claim>, senderYes: bool, receiverYes: Option<ClaimId>, stateFile: SessionState, trust: set<PeerId>)

  datatype SenderPc =
    | ClearingClaim | ClearingSenderYes | ClearingReceiverYes
    | AwaitingClaim
    | DroppingClaim(claim: Claim)
    | CheckingTrust(claim: Claim)
    | Prompting(claim: Claim)
    | Rejecting(claim: Claim)
    | Approving(claim: Claim)
    | AwaitingReceiverYes(claim: Claim)
    | Pairing(claim: Claim)
    | SavingTrust(claim: Claim, seen: set<PeerId>)
    | Transferring(claim: Claim)
    | Reporting(claim: Claim, run: RunState, next: nat)
    | SavingResult(claim: Claim, run: RunState)
    | Announcing(claim: Claim, run: RunState)
    | Halted

  datatype ReceiverPc =
    | ToClaim | ToCheckTrust | ToPrompt | ToWriteYes | AwaitingSenderYes | ToPair
    | ToSaveTrust(seen: set<PeerId>)
    | Polling
    | Succeeded(state: SessionState)
    | Ended

  datatype Receiver = Receiver(claim: Claim, pc: ReceiverPc)

  /** A write of `state.json`, with the files on disk at that moment. */
  datatype Record = Record(state: SessionState, files: map<Path, Bytes>)

  /** What happened so far; the program does not keep it. `mark` is the length of the log when the current
      claim was taken. */
  datatype Book = Book(log: seq<Record>, served: seq<ClaimId>, mark: nat)

  /** A pairing between its read of the trust store and its write: what was read, and whom it adds. */
  datatype Pending = Pending(seen: set<PeerId>, adding: PeerId)
  {
    function Result(): set<PeerId> { seen + {adding} }
  }

  /** `others` are the pairings of other programs that use the same trust store. */
  datatype State = State(
    session: Session, sender: SenderPc, bits: seq<Bits>, disk: DiskState,
    receivers: map<ClaimId, Receiver>, others: map<nat, Pending>, book: Book)

  datatype Action =
    | ClearClaim(removed: bool) | ClearSenderYes(removed: bool) | ClearReceiverYes(removed: bool)
    | TakeClaim | DropClaim(removed: bool) | CheckReceiver | SenderAnswers(yes: bool) | Reject(written: bool)
    | WriteSenderYes | SeeReceiverYes | ReadTrust | PairReceiver
    | RunTransfer(env: Env) | Report(written: bool) | Conclude | SaveResult(env: Env) | Announce(written: bool)
    | StopSender
    | Arrive(claim: Claim) | WriteClaim(id: ClaimId) | CheckSender(id: ClaimId)
    | ReceiverAnswers(id: ClaimId, answer: bool) | WriteReceiverYes(id: ClaimId) | SeeSenderYes(id: ClaimId)
    | ReadTrustBy(id: ClaimId) | PairSender(id: ClaimId) | Poll(id: ClaimId) | Abort(id: ClaimId)
    | OtherReads(k: nat, peer: PeerId) | OtherPairs(k: nat)

  /** What `cmd_send` fixes before its loop: the manifest, the source, and who the sender is. */
  datatype Config = Config(job: Job, senderId: PeerId)
  {
    function JobTo(target: Path): Job {
      job.(targetRoot := target, checkpointing := true, maxRetries := DEFAULT_MAX_RETRIES)
    }
  }

  function WriteState(s: State, st: SessionState): State {
    s.(session := s.session.(stateFile := st), book := s.book.(log := s.book.log + [Record(st, s.disk.files)]))
  }

  /** The bytes that the sender last printed after the first `k` progress events. */
  function LastPrint(events: seq<ProgressEvent>, k: nat): nat
    requires k <= |events|
  {
    if k == 0 then 0 else
    var printed, ev := LastPrint(events, k - 1), events[k - 1];
    if SaturatingSub(ev.bytesDone, printed) >= 2 * 1024 * 1024 || ev.bytesDone == ev.bytesTotal
    then ev.bytesDone else printed
  }

  function Closing(cfg: Config, claim: Claim, run: RunState): SessionState {
    if run.outcome.Finished?
    then SessionState(Some(claim.id), Completed, run.outcome.report.bytesDone, run.outcome.report.bytesTotal)
    else SessionState(Some(claim.id), Broken, LastPrint(run.events, |run.events|), TotalSize(cfg.job.files))
  }

  /** The three removals at the head of the loop. A removal that fails is ignored. */
  function ClearStep(s: State, a: Action): Option<State> {
    match a
    case ClearClaim(removed) =>
      if !s.sender.ClearingClaim? then None else
      Some(s.(sender := ClearingSenderYes,
              session := s.session.(claimFile := if removed then None else s.session.claimFile)))
    case ClearSenderYes(removed) =>
      if !s.sender.ClearingSenderYes? then None else
      Some(s.(sender := ClearingReceiverYes, session := s.session.(senderYes := s.session.senderYes && !removed)))
    case ClearReceiverYes(removed) =>
      if !s.sender.ClearingReceiverYes? then None else
      Some(s.(sender := AwaitingClaim,
              session := s.session.(receiverYes := if removed then None else s.session.receiverYes)))
    case _ => None
  }

  /** From a claim to the decision to serve it. */
  function ConsentStep(cfg: Config, s: State, a: Action): Option<State> {
    match a
    case TakeClaim =>
      if !s.sender.AwaitingClaim? || s.session.claimFile.None? then None else
      var claim := s.session.claimFile.value;
      Some(s.(sender := DroppingClaim(claim),
              book := s.book.(served := s.book.served + [claim.id], mark := |s.book.log|)))
    case DropClaim(removed) =>
      if !s.sender.DroppingClaim? then None else
      Some(s.(sender := CheckingTrust(s.sender.claim),
              session := s.session.(claimFile := if removed then None else s.session.claimFile)))
    case CheckReceiver =>
      if !s.sender.CheckingTrust? then None else
      var trusted := s.sender.claim.receiver in s.session.trust;
      Some(s.(sender := if trusted then Transferring(s.sender.claim) else Prompting(s.sender.claim)))
    case SenderAnswers(yes) =>
      if !s.sender.Prompting? then None else
      Some(s.(sender := if yes then Approving(s.sender.claim) else Rejecting(s.sender.claim)))
    case Reject(written) =>
      if !s.sender.Rejecting? then None else
      if !written then Some(s.(sender := Halted)) else
      Some(WriteState(s, SessionState(Some(s.sender.claim.id), Broken, 0, TotalSize(cfg.job.files))).(sender := ClearingClaim))
    case WriteSenderYes =>
      if !s.sender.Approving? then None else
      Some(s.(sender := AwaitingReceiverYes(s.sender.claim), session := s.session.(senderYes := true)))
    case SeeReceiverYes =>
      if !s.sender.AwaitingReceiverYes? || s.session.receiverYes.None? then None else
      Some(s.(sender := Pairing(s.sender.claim)))
    case ReadTrust =>
      if !s.sender.Pairing? then None else
      Some(s.(sender := SavingTrust(s.sender.claim, s.session.trust)))
    case PairReceiver =>
      if !s.sender.SavingTrust? then None else
      Some(s.(sender := Transferring(s.sender.claim),
              session := s.session.(trust := Pending(s.sender.seen, s.sender.claim.receiver).Result())))
    case _ => None
  }

  /** The transfer itself, the progress reports, and the last word on the claim. The sender's one
      manifest is used for every claim: `bits` are whatever the last target left in it. */
  function TransferStep(cfg: Config, s: State, a: Action): Option<State>
    requires |s.bits| == |cfg.job.files|
  {
    match a
    case RunTransfer(env) =>
      if !s.sender.Transferring? then None else
      var run := Execute(env, cfg.JobTo(s.sender.claim.target), s.disk, s.bits);
      Some(s.(sender := Reporting(s.sender.claim, run, 0), disk := run.d, bits := run.bits))
    case Report(written) =>
      if !s.sender.Reporting? || s.sender.next >= |s.sender.run.events| then None else
      var ev := s.sender.run.events[s.sender.next];
      var st := SessionState(Some(s.sender.claim.id), InTransfer, ev.bytesDone, ev.bytesTotal);
      Some((if written then WriteState(s, st) else s).(sender := s.sender.(next := s.sender.next + 1)))
    case Conclude =>
      if !s.sender.Reporting? || s.sender.next < |s.sender.run.events| then None else
      Some(s.(sender :=
        if s.sender.run.outcome.Finished? then SavingResult(s.sender.claim, s.sender.run)
        else if s.sender.run.outcome.Failed? then Announcing(s.sender.claim, s.sender.run)
        else Halted))
    case SaveResult(env) =>
      if !s.sender.SavingResult? then None else
      var (d, reply) := Save(env, s.disk, s.bits);
      Some(s.(sender := if reply.Done? then Announcing(s.sender.claim, s.sender.run) else Halted, disk := d))
    case Announce(written) =>
      if !s.sender.Announcing? then None else
      if !written then Some(s.(sender := Halted)) else
      Some(WriteState(s, Closing(cfg, s.sender.claim, s.sender.run)).(sender := ClearingClaim))
    case StopSender => Some(s.(sender := Halted))
    case _ => None
  }

  function Move(s: State, id: ClaimId, pc: ReceiverPc): State
    requires id in s.receivers
  {
    s.(receivers := s.receivers[id := s.receivers[id].(pc := pc)])
  }

  /** A receiver process. It may abort between any two of its actions. */
  function ReceiverStep(cfg: Config, s: State, a: Action): Option<State> {
    match a
    case Arrive(claim) =>
      if claim.id in s.receivers then None else
      Some(s.(receivers := s.receivers[claim.id := Receiver(claim, ToClaim)]))
    case WriteClaim(id) =>
      if id !in s.receivers || !s.receivers[id].pc.ToClaim? then None else
      Some(Move(s, id, ToCheckTrust).(session := s.session.(claimFile := Some(s.receivers[id].claim))))
    case CheckSender(id) =>
      if id !in s.receivers || !s.receivers[id].pc.ToCheckTrust? then None else
      Some(Move(s, id, if cfg.senderId in s.session.trust then Polling else ToPrompt))
    case ReceiverAnswers(id, answer) =>
      if id !in s.receivers || !s.receivers[id].pc.ToPrompt? then None else
      Some(Move(s, id, if answer then ToWriteYes else Ended))
    case WriteReceiverYes(id) =>
      if id !in s.receivers || !s.receivers[id].pc.ToWriteYes? then None else
      Some(Move(s, id, AwaitingSenderYes).(session := s.session.(receiverYes := Some(id))))
    case SeeSenderYes(id) =>
      if id !in s.receivers || !s.receivers[id].pc.AwaitingSenderYes? || !s.session.senderYes then None else
      Some(Move(s, id, ToPair))
    case ReadTrustBy(id) =>
      if id !in s.receivers || !s.receivers[id].pc.ToPair? then None else
      Some(Move(s, id, ToSaveTrust(s.session.trust)))
    case PairSender(id) =>
      if id !in s.receivers || !s.receivers[id].pc.ToSaveTrust? then None else
      Some(Move(s, id, Polling).(session := s.session.(trust := Pending(s.receivers[id].pc.seen, cfg.senderId).Result())))
    case Poll(id) =>
      if id !in s.receivers || !s.receivers[id].pc.Polling? then None else
      var st := s.session.stateFile;
      if st.claim != Some(id) then Some(Move(s, id, Polling)) else
      Some(Move(s, id, match st.status
                       case Completed => Succeeded(st)
                       case Broken => Ended
                       case _ => Polling))
    case Abort(id) =>
      if id !in s.receivers || s.receivers[id].pc.Succeeded? then None else
      Some(Move(s, id, Ended))
    case _ => None
  }

  /** Another program pairs with anyone, reading and writing the same store. */
  function OtherStep(s: State, a: Action): Option<State> {
    match a
    case OtherReads(k, peer) =>
      if k in s.others then None else Some(s.(others := s.others[k := Pending(s.session.trust, peer)]))
    case OtherPairs(k) =>
      if k !in s.others then None else
      Some(s.(others := s.others - {k}, session := s.session.(trust := s.others[k].Result())))
    case _ => None
  }

  function Step(cfg: Config, s: State, a: Action): Option<State>
    requires |s.bits| == |cfg.job.files|
  {
    match a
    case ClearClaim(_) => ClearStep(s, a)
    case ClearSenderYes(_) => ClearStep(s, a)
    case ClearReceiverYes(_) => ClearStep(s, a)
    case TakeClaim => ConsentStep(cfg, s, a)
    case DropClaim(_) => ConsentStep(cfg, s, a)
    case CheckReceiver => ConsentStep(cfg, s, a)
    case SenderAnswers(_) => ConsentStep(cfg, s, a)
    case Reject(_) => ConsentStep(cfg, s, a)
    case WriteSenderYes => ConsentStep(cfg, s, a)
    case SeeReceiverYes => ConsentStep(cfg, s, a)
    case ReadTrust => ConsentStep(cfg, s, a)
    case PairReceiver => ConsentStep(cfg, s, a)
    case RunTransfer(_) => TransferStep(cfg, s, a)
    case Report(_) => TransferStep(cfg, s, a)
    case Conclude => TransferStep(cfg, s, a)
    case SaveResult(_) => TransferStep(cfg, s, a)
    case Announce(_) => TransferStep(cfg, s, a)
    case StopSender => TransferStep(cfg, s, a)
    case OtherReads(_, _) => OtherStep(s, a)
    case OtherPairs(_) => OtherStep(s, a)
    case _ => ReceiverStep(cfg, s, a)
  }

  /** The state in which the loop begins, on any disk and with any trust store. */
  function Initial(cfg: Config, files: map<Path, Bytes>, trust: set<PeerId>): (s: State)
    ensures |s.bits| == |cfg.job.files|
  {
    var bits := seq(|cfg.job.files|, e requires 0 <= e < |cfg.job.files| => ClearBits(cfg.job.files[e]));
    var waiting := SessionState(None, WaitingReceiver, 0, TotalSize(cfg.job.files));
    State(Session(None, false, None, waiting, trust), ClearingClaim, bits, DiskState(files, Readable(bits), 0, 0, 0),
          map[], map[], Book([Record(waiting, files)], [], 0))
  }

  /** The state after a list of actions, if every one of them could be taken. */
  function Run(cfg: Config, s: State, actions: seq<Action>): Option<State>
    requires |s.bits| == |cfg.job.files|
    ensures Run(cfg, s, actions).Some? ==> |Run(cfg, s, actions).value.bits| == |cfg.job.files|
  {
    if actions == [] then Some(s) else
    match Run(cfg, s, actions[..|actions| - 1])
    case None => None
    case Some(before) => Step(cfg, before, actions[|actions| - 1])
  }
}
