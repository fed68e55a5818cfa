/** keyd/child.cpp as a transition system: the proposal pipe thread, the password loop and the
    autolock watcher interleave at every point where one of them takes a mutex, appends to the
    ledger, or sends a reply. What a step meets outside the process (a message, the outcome of
    opening the vault, a failing write) is chosen by the action. */
module TrustPlane {
  import opened Bytes
  import opened ProposalQueue
  import opened Protocol
  import opened Vault
  import Identity
  import E = Envelope

  // --- What signing yields -----------------------------------------------------------

  datatype Signature = Signature(bytes: seq<byte>, digest: seq<byte>, signer: seq<byte>)

  /** The functions the process calls but this model does not look into. `sign` is the family's
      signer on a parsed body; its last argument is the randomness it draws. */
  datatype Config = Config(
    mac: Mac,
    sign: (Wallet, E.ProposalBody, nat) -> Option<Signature>)

  /** Approving: parse the queued bytes, then let the named identity's family sign. */
  function SignProposal(cfg: Config, w: Wallet, payload: seq<byte>, salt: nat): Option<Signature>
  {
    match E.ParseProposal(payload)
    case Err(_) => None
    case Ok(body) => cfg.sign(w, body, salt)
  }

  /** One signature: for which proposal, over which bytes, by which wallet. */
  datatype Issue = Issue(id: nat, over: seq<byte>, wallet: Wallet, salt: nat, signature: Signature)

  ghost predicate Genuine(cfg: Config, i: Issue)
  {
    SignProposal(cfg, i.wallet, i.over, i.salt) == Some(i.signature)
  }

  // --- Ledger events and replies -----------------------------------------------------

  datatype LockReason = SessionLock | Suspend

  datatype Event =
    | SubmitBadMac
    | SubmitLogged(id: nat, provenance: Provenance, size: nat)
    | AutoLock(reason: LockReason)
    | ApproveBadPass(id: nat)
    | SignFailed(id: nat)
    | ApproveLogged(issue: Issue)
    | DenyLogged(id: nat)
    | RevealSeed
    | RevealKey
    | RevealBadPass

  /** Replies of the password loop. The id in a proposal body or signature reply is not on the
      wire; it records which proposal the bytes belong to. */
  datatype Reply =
    | Done
    | Failure
    | StateIs(unlocked: bool)
    | PendingList(items: seq<(nat, Provenance)>)
    | Body(id: nat, provenance: Provenance, payload: seq<byte>)
    | Signed(issue: Issue)
    | RootSecret(kind: byte, secret: seq<byte>)
    | AddressIs(kind: byte, address: seq<byte>)

  datatype PipeReply = Accepted(id: nat) | Refused | QueryIs(state: State)

  // --- Control states ----------------------------------------------------------------

  datatype Loop =
    | AtRecv
    | Verifying(request: Request, stall: nat)      // throttled, about to open the vault
    | AtHolder(op: HolderOp)                       // about to lock the wallet holder
    | Replying(reply: Reply)
    | BadPassphrase(id: nat)                       // approve: about to record the failure
    | Verified(id: nat, wallet: Wallet)            // approve: about to read the queue
    | Fetched(id: nat, wallet: Wallet, payload: seq<byte>)   // approve: about to sign
    | SignRefused(id: nat)
    | SignedOff(issue: Issue)                      // about to resolve
    | ResolvedAs(issue: Issue)                     // about to record the approval
    | DenyResolved(id: nat)                        // about to record the denial
    | Listing(ids: seq<nat>, done: seq<(nat, Provenance)>)
    | Revealing(wallet: Wallet)
    | RevealRefused

  datatype HolderOp = Commit(wallet: Wallet) | Drop | LockNow | Report | Tell(account: u32) | Stop

  datatype PipeLoop =
    | Waiting
    | MacRefused
    | Queued(id: nat, provenance: Provenance, size: nat)
    | Answering(reply: PipeReply)

  datatype Watcher = Watching | Locking(reason: LockReason)   // Locking holds the holder mutex

  /** One examined passphrase: how long the loop stalled before it, and whether the vault opened. */
  datatype Attempt = Attempt(success: bool, stall: nat)

  datatype Plane = Plane(
    alive: bool,
    items: seq<Proposal>,
    holder: Option<Wallet>,
    badPass: nat,
    loop: Loop,
    pipe: PipeLoop,
    watcher: Watcher,
    // what has happened so far
    ledger: seq<Event>,
    torn: bool,                     // a ledger write has failed
    requests: seq<Request>,
    replies: seq<Reply>,
    pipeReplies: seq<PipeReply>,
    attempts: seq<Attempt>)

  const START := Plane(true, [], None, 0, AtRecv, Waiting, Watching, [], false, [], [], [], [])

  // --- The throttle ------------------------------------------------------------------

  const THROTTLE_AFTER: nat := 3
  const THROTTLE_CAP: nat := 10

  /** throttle_bad_pass: seconds slept before the next examination. */
  function Delay(badPass: nat): nat
  {
    if badPass < THROTTLE_AFTER then 0
    else if badPass - THROTTLE_AFTER + 1 < THROTTLE_CAP then badPass - THROTTLE_AFTER + 1
    else THROTTLE_CAP
  }

  // --- Actions -----------------------------------------------------------------------

  datatype Action =
    // the password loop
    | Receive(frame: Option<seq<byte>>)            // None: the parent is gone, or a frame was tampered with
    | OpenVault(wallet: Option<Wallet>)
    | TakeHolder(address: Option<seq<byte>>)
    | ReadQueue
    | SignNow(salt: nat)
    | ResolveNow
    | Record(ok: bool)
    | Send(fits: bool)
    // the pipe thread
    | PipeMessage(msg: seq<byte>)
    | PipeRecord(ok: bool)
    | PipeSend
    // the autolock watcher
    | Fire(reason: LockReason)
    | FireRecord(ok: bool)

  /** A ledger append; when it throws, the exception ends the process on the spot. */
  function Append(s: Plane, e: Event, ok: bool): Plane
  {
    if ok then s.(ledger := s.ledger + [e]) else s.(torn := true, alive := false)
  }

  /** The password loop records an event and goes on to a reply. */
  function RecordThen(s: Plane, e: Event, ok: bool, reply: Reply): Plane
  {
    if ok then Append(s, e, ok).(loop := Replying(reply)) else Append(s, e, ok)
  }

  /** Only these replies can outgrow a frame; sending one that does ends the process. */
  predicate Bulky(r: Reply) { r.PendingList? || r.Body? || r.Signed? }

  function Answer(s: Plane, r: Reply): Plane
  {
    s.(replies := s.replies + [r], loop := AtRecv)
  }

  /** Reading a request: which steps its case of the switch takes first. */
  function Dispatch(s: Plane, r: Request): Plane
  {
    var t := s.(requests := s.requests + [r]);
    match r
    case Unlock(_) => t.(loop := Verifying(r, Delay(s.badPass)))
    case Approve(_, _) => t.(loop := Verifying(r, Delay(s.badPass)))
    case Reveal(_) => t.(loop := Verifying(r, Delay(s.badPass)))
    case Lock => t.(loop := AtHolder(LockNow))
    case Status => t.(loop := AtHolder(Report))
    case Address(account, _) => t.(loop := AtHolder(Tell(account)))
    case Shutdown => t.(loop := AtHolder(Stop))
    case Deny(id) =>
      if IsPending(s.items, id) then
        t.(items := Resolved(s.items, id, Denied), loop := DenyResolved(id))
      else t.(loop := Replying(Failure))
    case ListPending => t.(loop := Listing(PendingIds(s.items), []))
    case Fetch(id) =>
      (match Lookup(s.items, id)
       case None => t.(loop := Replying(Failure))
       case Some(p) => t.(loop := Replying(Body(id, p.provenance, p.payload))))
    case ShortFrame => t.(loop := Replying(Failure))
    case UnknownPreset => t.(loop := Replying(Failure))
    case UnknownOp => t.(loop := Replying(Failure))
  }

  /** vault::open has succeeded or thrown. */
  function Opened(s: Plane, r: Request, stall: nat, wallet: Option<Wallet>): Plane
  {
    var t := s.(attempts := s.attempts + [Attempt(wallet.Some?, stall)],
                badPass := if wallet.Some? then 0 else s.badPass + 1);
    match (r, wallet)
    case (Unlock(_), Some(w)) => t.(loop := AtHolder(Commit(w)))
    case (Unlock(_), None) => t.(loop := AtHolder(Drop))
    case (Approve(id, _), Some(w)) => t.(loop := Verified(id, w))
    case (Approve(id, _), None) => t.(loop := BadPassphrase(id))
    case (_, Some(w)) => t.(loop := Revealing(w))
    case (_, None) => t.(loop := RevealRefused)
  }

  /** Under the holder mutex: act and answer in one. */
  function Held(s: Plane, op: HolderOp, address: Option<seq<byte>>): Plane
  {
    var wallet := match op
                  case Commit(w) => Some(w)
                  case Drop => None
                  case LockNow => None
                  case Stop => None
                  case _ => s.holder;
    Answer(s.(holder := wallet, alive := !op.Stop?), HeldReply(s, op, address))
  }

  function HeldReply(s: Plane, op: HolderOp, address: Option<seq<byte>>): Reply
  {
    match op
    case Drop => Failure
    case Report => StateIs(s.holder.Some?)
    case Tell(_) => if s.holder.Some? && address.Some? then AddressIs(Identity.RevealKind(s.holder.value), address.value)
                    else Failure
    case _ => Done
  }

  /** Reveal with an open vault: an empty wallet is refused; otherwise the record comes before
      the reply, and a failing record counts as a failed verification. */
  function RevealStep(s: Plane, w: Wallet, ok: bool): Plane
  {
    if w.entropy == [] && w.imported == [] then s.(loop := Replying(Failure))
    else if ok then
      s.(ledger := s.ledger + [if w.entropy != [] then RevealSeed else RevealKey],
         loop := Replying(RootSecret(Identity.RevealKind(w), if w.entropy != [] then w.entropy else w.imported[0].key)))
    else
      s.(torn := true, badPass := s.badPass + 1, attempts := s.attempts + [Attempt(false, 0)],
         loop := RevealRefused)
  }

  /** channel.recv: nothing more comes, an empty frame is passed over, or a request starts. */
  function Received(s: Plane, frame: Option<seq<byte>>): Plane
  {
    match frame
    case None => s.(alive := false)
    case Some(f) => if f == [] then s else Dispatch(s, DecodeRequest(f))
  }

  /** The two places where the loop looks at the queue again: approve, and the pending list. */
  function QueueRead(s: Plane): Option<Plane>
  {
    match s.loop
    case Verified(id, w) =>
      Some(if IsPending(s.items, id) then s.(loop := Fetched(id, w, Lookup(s.items, id).value.payload))
           else s.(loop := Replying(Failure)))
    case Listing(ids, done) =>
      if ids == [] then Some(s.(loop := Replying(PendingList(done))))
      else if Lookup(s.items, ids[0]).None? then None   // the source dereferences an absent value
      else Some(s.(loop := Listing(ids[1..], done + [(ids[0], Lookup(s.items, ids[0]).value.provenance)])))
    case _ => None
  }

  function SignedStep(cfg: Config, s: Plane, id: nat, w: Wallet, payload: seq<byte>, salt: nat): Plane
  {
    match SignProposal(cfg, w, payload, salt)
    case None => s.(loop := SignRefused(id))
    case Some(sig) => s.(loop := SignedOff(Issue(id, payload, w, salt, sig)))
  }

  /** The places where the loop writes to the ledger. */
  function RecordStep(s: Plane, ok: bool): Option<Plane>
  {
    match s.loop
    case BadPassphrase(id) => Some(RecordThen(s, ApproveBadPass(id), ok, Failure))
    case SignRefused(id) => Some(RecordThen(s, SignFailed(id), ok, Failure))
    case ResolvedAs(i) => Some(RecordThen(s, ApproveLogged(i), ok, Signed(i)))
    case DenyResolved(id) => Some(RecordThen(s, DenyLogged(id), ok, Done))
    case Revealing(w) => Some(RevealStep(s, w, ok))
    case RevealRefused => Some(RecordThen(s, RevealBadPass, ok, Failure))
    case _ => None
  }

  /** The password loop; None where the action is not what the loop does next. */
  function LoopNext(cfg: Config, s: Plane, a: Action): Option<Plane>
  {
    match a
    case Receive(frame) => if s.loop.AtRecv? then Some(Received(s, frame)) else None
    case OpenVault(w) => if s.loop.Verifying? then Some(Opened(s, s.loop.request, s.loop.stall, w)) else None
    case TakeHolder(address) =>
      if s.loop.AtHolder? && s.watcher.Watching? then Some(Held(s, s.loop.op, address)) else None
    case ReadQueue => QueueRead(s)
    case SignNow(salt) =>
      if s.loop.Fetched? then Some(SignedStep(cfg, s, s.loop.id, s.loop.wallet, s.loop.payload, salt)) else None
    case ResolveNow =>
      if s.loop.SignedOff? then
        Some(s.(items := Resolved(s.items, s.loop.issue.id, Approved), loop := ResolvedAs(s.loop.issue)))
      else None
    case Record(ok) => RecordStep(s, ok)
    case Send(fits) =>
      if !s.loop.Replying? then None
      else if fits || !Bulky(s.loop.reply) then Some(Answer(s, s.loop.reply))
      else Some(s.(alive := false))
    case _ => None
  }

  function PipeTold(s: Plane, r: PipeReply): Plane
  {
    s.(pipe := Answering(r))
  }

  /** serve_proposals: the queue is entered first, the record and the reply follow. */
  function PipeReceived(cfg: Config, s: Plane, msg: seq<byte>): Plane
  {
    match DecodePipe(cfg.mac, msg)
    case Ignored => s
    case Rejected => PipeTold(s, Refused)
    case BadMac => s.(pipe := MacRefused)
    case Submission(prov, payload) =>
      s.(items := Submitted(s.items, payload, prov), pipe := Queued(|s.items| + 1, prov, |payload|))
    case Query(id) =>
      PipeTold(s, QueryIs(match Lookup(s.items, id) case None => Unknown case Some(p) => p.state))
  }

  function PipeRecorded(s: Plane, e: Event, ok: bool, reply: PipeReply): Plane
  {
    if ok then PipeTold(Append(s, e, ok), reply) else Append(s, e, ok)
  }

  function PipeNext(cfg: Config, s: Plane, a: Action): Option<Plane>
  {
    match a
    case PipeMessage(msg) => if s.pipe.Waiting? then Some(PipeReceived(cfg, s, msg)) else None
    case PipeRecord(ok) =>
      (match s.pipe
       case MacRefused => Some(PipeRecorded(s, SubmitBadMac, ok, Refused))
       case Queued(id, prov, size) => Some(PipeRecorded(s, SubmitLogged(id, prov, size), ok, Accepted(id)))
       case _ => None)
    case PipeSend =>
      if s.pipe.Answering? then Some(s.(pipeReplies := s.pipeReplies + [s.pipe.reply], pipe := Waiting))
      else None
    case _ => None
  }

  /** The autolock callback: lock the holder, drop the wallet, record, release. */
  function WatcherNext(s: Plane, a: Action): Option<Plane>
  {
    match a
    case Fire(reason) =>
      if s.watcher.Locking? then None
      else if s.holder.None? then Some(s)
      else Some(s.(holder := None, watcher := Locking(reason)))
    case FireRecord(ok) =>
      if s.watcher.Locking? then Some(Append(s, AutoLock(s.watcher.reason), ok).(watcher := Watching)) else None
    case _ => None
  }

  /** One step of whichever thread the action belongs to; a dead process takes none. */
  function Next(cfg: Config, s: Plane, a: Action): Option<Plane>
  {
    if !s.alive then None
    else if a.PipeMessage? || a.PipeRecord? || a.PipeSend? then PipeNext(cfg, s, a)
    else if a.Fire? || a.FireRecord? then WatcherNext(s, a)
    else LoopNext(cfg, s, a)
  }

  /** A run: any sequence of actions, those a thread is not ready for being passed over. */
  function Run(cfg: Config, actions: seq<Action>): Plane
  {
    if actions == [] then START
    else
      var s := Run(cfg, actions[..|actions| - 1]);
      match Next(cfg, s, actions[|actions| - 1])
      case None => s
      case Some(t) => t
  }
}
