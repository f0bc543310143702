/**
 * One CCTP bridge job as a state machine: the persisted row, what really
 * happened on the destination chain, and where the worker processing it stands
 * (src/bridge/relayer.py). A step performs one read, one external call or one
 * database write; the environment decides how it turns out.
 */
module BridgeMachine {
  import opened Bytes
  import opened Wrappers
  import opened Cctp

  /** A transaction hash; the row's text columns treat "" as absent, so a recorded hash is not empty. */
  type Hash = s: string | s != "" witness "0x"

  datatype Chain = Arc | Base | Solana

  datatype Status = Pending | Attesting | Minting | Trading
                  | Completed | MintCompleted | Failed | MintCompletedTradeFailed

  /** burn_tx_hash: a "pending:" reservation, or the hash of a burn that was broadcast. */
  datatype Burn = Reserved | Burned(tx: Hash)

  datatype Job = Job(
    status: Status,
    dest: Chain,
    burn: Burn,
    burnAmount: Fallback,
    signedTrade: bool,
    attestation: Option<seq<byte>>,   // the message; its signature is written with it
    mintTx: Option<Hash>,
    tradeTx: Option<Hash>,
    arcReceiveTx: Option<Hash>,
    arcFinalizeTx: Option<Hash>,
    gross: Option<int>,
    fee: Option<int>,
    net: Option<int>,
    receiver: Option<string>)

  /** Position on the way to a final state; both failure states are final. */
  function Rank(s: Status): nat {
    match s
    case Pending => 0
    case Attesting => 1
    case Minting => 2
    case Trading => 3
    case _ => 4
  }

  predicate PreMint(s: Status) { s.Pending? || s.Attesting? || s.Minting? }

  function ArcFinalizeTx(job: Job): Option<Hash> {
    if job.arcFinalizeTx.Some? then job.arcFinalizeTx else job.tradeTx
  }

  /** The amounts an Arc deposit carries between its two contract calls. */
  datatype Deposit = Deposit(gross: Option<int>, fee: Option<int>, net: Option<int>)

  /** Where the worker stands: `job` is the row as it was read at the start. */
  datatype PC =
    | Idle
    | PreserveEarly(tx: Hash)                       // before the try block
    | PreserveInside(tx: Hash)                      // in _process_arc_deposit_job
    | PreserveLate(tx: Hash)                        // in the except block
    | WriteAttesting(job: Job)
    | Poll(job: Job)
    | WriteMinting(job: Job, message: seq<byte>)
    | Receive(job: Job, message: seq<byte>, deposit: Deposit)
    | WriteMinted(job: Job, tx: Hash, deposit: Deposit)
    | WriteMintOnly
    | SubmitTrade(attempt: nat)
    | WriteCompleted(tx: Hash)
    | LookupIntent(job: Job, deposit: Deposit)
    | Finalize(deposit: Deposit, receiver: string, job: Job)
    | WriteFinalized(tx: Hash, deposit: Deposit, receiver: string, job: Job)
    | Handler                                       // re-reads the row after an exception
    | WriteFailed(status: Status)

  /** The job row, the facts on the destination chain, the worker, and the configured number of trade attempts. */
  datatype World = World(job: Job, pc: PC, minted: bool, finalized: bool, maxAttempts: int)

  /** A database write applies, is refused, or applies although the call raises. */
  datatype WriteOutcome = Applied | Refused | AppliedButRaised

  /** A contract call is confirmed under a hash, or raises; it may have landed all the same. */
  datatype CallOutcome = Confirmed(tx: Hash) | Raised(landed: bool)

  /** How the environment answers whatever the worker does next. */
  datatype Answer = Answer(
    write: WriteOutcome,
    call: CallOutcome,
    message: Option<seq<byte>>,     // attestation poll: None is a timeout
    intent: Option<string>,         // receiver of a usable linked intent: None raises
    rowReadable: bool)

  datatype Action =
    | Dequeue                       // a worker takes the job from the queue and reads its row
    | Proceed(answer: Answer)
    | Crash
    | BroadcastReservation(tx: Hash, burnAmount: Fallback, signedTrade: bool) // the API attaches the burn to a reservation
    | AbandonReservation             // the API marks a reservation failed

  // ── Local decisions between two steps ──

  function EnterArc(job: Job, message: seq<byte>): PC {
    var tx := ArcFinalizeTx(job);
    if tx.Some? then PreserveInside(tx.value)
    else if PreMint(job.status) && job.mintTx.None? then
      match ParseBurnAmounts(message, job.burnAmount)
      case Err(_) => Handler
      case Ok(a) => Receive(job, message, Deposit(Some(a.gross), Some(a.fee), Some(a.net)))
    else if job.mintTx.None? then Handler
    else LookupIntent(job, Recorded(job))
  }

  /** `max` is the configured number of trade attempts; without any, submitting raises at once. */
  function EnterTrade(job: Job, max: int): PC {
    if !job.signedTrade then WriteMintOnly else if max < 1 then Handler else SubmitTrade(1)
  }

  function AfterAttestation(job: Job, message: seq<byte>, max: int): PC {
    if job.dest.Arc? then EnterArc(job, message)
    else if PreMint(job.status) then Receive(job, message, Deposit(None, None, None))
    else EnterTrade(job, max)
  }

  function BeginProcessing(job: Job, max: int): PC {
    if job.status.Completed? || job.status.MintCompleted? then Idle
    else if job.dest.Arc? && ArcFinalizeTx(job).Some? then PreserveEarly(ArcFinalizeTx(job).value)
    else if job.burn.Reserved? then Idle
    else if job.status.Pending? || job.status.Attesting? then WriteAttesting(job)
    else if job.attestation.None? then Handler
    else AfterAttestation(job, job.attestation.value, max)
  }

  // ── Row updates ──

  function MarkFinalized(job: Job, tx: Hash): Job {
    job.(status := MintCompleted, tradeTx := Some(tx), arcFinalizeTx := Some(tx))
  }

  function MarkMinted(job: Job, tx: Hash, d: Deposit): Job {
    if job.dest.Arc? then
      job.(status := Trading, mintTx := Some(tx), arcReceiveTx := Some(tx),
           gross := d.gross, fee := d.fee, net := d.net)
    else
      job.(status := Trading, mintTx := Some(tx))
  }

  /** str(fee or "0") and str(gross or burn_amount). */
  function MarkDeposited(job: Job, read: Job, tx: Hash, d: Deposit, receiver: string): Job {
    MarkFinalized(job, tx).(
      receiver := Some(receiver),
      net := d.net,
      fee := if d.fee.Some? then d.fee else Some(0),
      gross := if d.gross.Some? then d.gross
               else if read.burnAmount.Amount? then Some(read.burnAmount.value) else None)
  }

  function Apply(o: WriteOutcome, before: Job, after: Job): Job {
    if o.Refused? then before else after
  }

  /** The state a write leads to: the next program point, or `onRaise`. */
  function Write(w: World, o: WriteOutcome, after: Job, next: PC, onRaise: PC): World {
    w.(job := Apply(o, w.job, after), pc := if o.Applied? then next else onRaise)
  }

  function AfterMint(job: Job, d: Deposit, max: int): PC {
    if job.dest.Arc? then LookupIntent(job, d) else EnterTrade(job, max)
  }

  function FailState(current: Job): Status {
    if current.status.Trading? then MintCompletedTradeFailed else Failed
  }

  // ── One step ──

  function Answered(w: World, a: Answer): World {
    match w.pc
    case Idle => w
    case PreserveEarly(tx) => Write(w, a.write, MarkFinalized(w.job, tx), Idle, Idle)
    case PreserveInside(tx) => Write(w, a.write, MarkFinalized(w.job, tx), Idle, Handler)
    case PreserveLate(tx) => Write(w, a.write, MarkFinalized(w.job, tx), Idle, Idle)
    case WriteAttesting(job) => Write(w, a.write, w.job.(status := Attesting), Poll(job), Handler)
    case Poll(job) => w.(pc := if a.message.Some? then WriteMinting(job, a.message.value) else Handler)
    case WriteMinting(job, message) =>
      Write(w, a.write, w.job.(status := Minting, attestation := Some(message)),
            AfterAttestation(job, message, w.maxAttempts), Handler)
    case Receive(job, _, d) =>
      (match a.call
       case Confirmed(tx) => w.(minted := true, pc := WriteMinted(job, tx, d))
       case Raised(landed) => w.(minted := w.minted || landed, pc := Handler))
    case WriteMinted(job, tx, d) =>
      Write(w, a.write, MarkMinted(w.job, tx, d), AfterMint(job, d, w.maxAttempts), Handler)
    case WriteMintOnly => Write(w, a.write, w.job.(status := MintCompleted), Idle, Handler)
    case SubmitTrade(attempt) =>
      (match a.call
       case Confirmed(tx) => w.(pc := WriteCompleted(tx))
       case Raised(_) => w.(pc := if attempt < w.maxAttempts then SubmitTrade(attempt + 1) else Handler))
    case WriteCompleted(tx) =>
      Write(w, a.write, w.job.(status := Completed, tradeTx := Some(tx)), Idle, Handler)
    case LookupIntent(job, d) =>
      w.(pc := if a.intent.Some? && d.net.Some? then Finalize(d, a.intent.value, job) else Handler)
    case Finalize(d, receiver, job) =>
      (match a.call
       case Confirmed(tx) => w.(finalized := true, pc := WriteFinalized(tx, d, receiver, job))
       case Raised(landed) => w.(finalized := w.finalized || landed, pc := Handler))
    case WriteFinalized(tx, d, receiver, job) =>
      Write(w, a.write, MarkDeposited(w.job, job, tx, d, receiver), Idle, Handler)
    case Handler =>
      if !a.rowReadable then w.(pc := Idle)
      else if w.job.dest.Arc? && ArcFinalizeTx(w.job).Some? then w.(pc := PreserveLate(ArcFinalizeTx(w.job).value))
      else w.(pc := WriteFailed(FailState(w.job)))
    case WriteFailed(status) => Write(w, a.write, w.job.(status := status), Idle, Idle)
  }

  function Step(w: World, action: Action): World {
    match action
    case Dequeue => if w.pc.Idle? then w.(pc := BeginProcessing(w.job, w.maxAttempts)) else w
    case Proceed(a) => Answered(w, a)
    case Crash => w.(pc := Idle)
    case BroadcastReservation(tx, amount, signed) =>
      if w.job.burn.Reserved? && w.job.status.Pending? then
        w.(job := w.job.(burn := Burned(tx), burnAmount := amount, signedTrade := signed))
      else w
    case AbandonReservation =>
      if w.job.burn.Reserved? && w.job.status.Pending? then w.(job := w.job.(status := Failed)) else w
  }

  function Run(w: World, actions: seq<Action>): World {
    if actions == [] then w else Step(Run(w, actions[..|actions| - 1]), actions[|actions| - 1])
  }

  /** One processing, from the row just read, under the first answers of the environment. */
  function Processing(w: World, answers: seq<Answer>): World {
    if answers == [] then w else Answered(Processing(w, answers[..|answers| - 1]), answers[|answers| - 1])
  }

  // ── Invariant ──

  predicate NewJob(job: Job) {
    && job.status.Pending? && job.attestation.None?
    && job.mintTx.None? && job.tradeTx.None? && job.arcReceiveTx.None? && job.arcFinalizeTx.None?
    && job.fee.None? && job.net.None?   // a gross amount may be on the row from the start
    && (job.dest.Arc? ==> job.burn.Burned?)   // reservations exist for Base and Solana only
  }

  function Insert(job: Job, max: int): World { World(job, Idle, false, false, max) }

  function Recorded(job: Job): Deposit { Deposit(job.gross, job.fee, job.net) }

  predicate MintDone(s: Status) {
    s.Trading? || s.Completed? || s.MintCompleted? || s.MintCompletedTradeFailed?
  }

  /** The deposit's amounts are those of the attested message. */
  predicate AttestedAmounts(job: Job, d: Deposit) {
    && job.attestation.Some? && d.gross.Some? && d.fee.Some? && d.net.Some?
    && ParseBurnAmounts(job.attestation.value, job.burnAmount) == Ok(Amounts(d.gross.value, d.fee.value, d.net.value))
  }

  predicate RowInv(job: Job, minted: bool, finalized: bool) {
    && (job.mintTx.Some? ==> minted && !PreMint(job.status))
    && (MintDone(job.status) ==> job.mintTx.Some?)
    && (job.status.Minting? || job.status.Trading? ==> job.attestation.Some?)
    && (job.burn.Reserved? ==>
          && !minted && (job.status.Pending? || job.status.Failed?) && job.dest != Arc
          && job.attestation.None? && job.tradeTx.None?)
    && (job.dest != Arc ==>
         && (job.status.MintCompleted? ==> !job.signedTrade)
         && (job.tradeTx.Some? ==> job.signedTrade && job.mintTx.Some?))
    && (job.status.Completed? ==> job.dest != Arc && job.tradeTx.Some?)
    && (job.dest.Arc? ==>
         && (job.status.MintCompleted? ==> ArcFinalizeTx(job).Some?)
         && (ArcFinalizeTx(job).Some? ==> job.mintTx.Some? && finalized)
         && (job.arcFinalizeTx.Some? ==> job.tradeTx == job.arcFinalizeTx)
         && (job.mintTx.Some? ==> AttestedAmounts(job, Recorded(job)))
         && (job.net.Some? ==> job.mintTx.Some?))
  }

  /** The row still holds what the worker read, apart from its status and attestation. */
  predicate Reads(job: Job, row: Job) {
    row == job.(status := row.status, attestation := row.attestation) && row.burn.Burned?
  }

  predicate PcInv(w: World) {
    match w.pc
    case Idle => true
    case PreserveEarly(tx) => w.job.dest.Arc? && ArcFinalizeTx(w.job) == Some(tx)
    case PreserveInside(tx) => w.job.dest.Arc? && ArcFinalizeTx(w.job) == Some(tx)
    case PreserveLate(tx) => w.job.dest.Arc? && ArcFinalizeTx(w.job) == Some(tx)
    case WriteAttesting(job) =>
      Reads(job, w.job) && job.status == w.job.status && (job.status.Pending? || job.status.Attesting?)
    case Poll(job) => Reads(job, w.job) && w.job.status.Attesting? && Rank(job.status) <= 1
    case WriteMinting(job, _) => Reads(job, w.job) && w.job.status.Attesting? && Rank(job.status) <= 1
    case Receive(job, message, d) =>
      && Reads(job, w.job) && w.job.status.Minting? && PreMint(job.status) && w.job.attestation == Some(message)
      && (w.job.dest.Arc? ==> AttestedAmounts(w.job, d) && ArcFinalizeTx(w.job).None?)
    case WriteMinted(job, tx, d) =>
      && Reads(job, w.job) && w.job.status.Minting? && PreMint(job.status) && w.minted
      && (w.job.dest.Arc? ==> AttestedAmounts(w.job, d) && ArcFinalizeTx(w.job).None?)
    case WriteMintOnly => w.job.mintTx.Some? && w.job.dest != Arc && w.job.burn.Burned? && !w.job.signedTrade
    case SubmitTrade(n) =>
      w.job.mintTx.Some? && w.job.dest != Arc && w.job.burn.Burned? && w.job.signedTrade && 1 <= n <= w.maxAttempts
    case WriteCompleted(_) => w.job.mintTx.Some? && w.job.dest != Arc && w.job.burn.Burned? && w.job.signedTrade
    case LookupIntent(_, d) => w.job.mintTx.Some? && ArcDeposit(w, d)
    case Finalize(d, _, _) => w.job.mintTx.Some? && ArcDeposit(w, d)
    case WriteFinalized(_, d, _, _) => w.job.mintTx.Some? && ArcDeposit(w, d) && w.finalized
    case Handler => w.job.burn.Burned?
    case WriteFailed(status) =>
      && w.job.burn.Burned? && status == FailState(w.job)
      && (w.job.dest.Arc? ==> ArcFinalizeTx(w.job).None?)
  }

  predicate ArcDeposit(w: World, d: Deposit) {
    && w.job.dest.Arc? && w.job.burn.Burned? && ArcFinalizeTx(w.job).None?
    && AttestedAmounts(w.job, d)
  }

  predicate Inv(w: World) { RowInv(w.job, w.minted, w.finalized) && PcInv(w) }

  /**
   * When it is safe to hand a job to a worker: an Arc job at any time, any other
   * job unless it failed before its mint was recorded and already holds an attestation.
   */
  predicate SafeToReplay(job: Job) {
    || job.dest.Arc? || job.status != Failed || job.attestation.None?
    || job.mintTx.Some? || job.burn.Reserved?
  }

  predicate Allowed(w: World, action: Action) {
    action.Dequeue? ==> SafeToReplay(w.job)
  }

  /** Every dequeue along the run finds the job safe to replay. */
  predicate AllowedRun(w: World, actions: seq<Action>) {
    actions == [] ||
    (AllowedRun(w, actions[..|actions| - 1])
     && Allowed(Run(w, actions[..|actions| - 1]), actions[|actions| - 1]))
  }

  /** The recovery query (recover_incomplete_jobs) selects only such jobs; so is every new row. */
  predicate Recoverable(s: Status) { !(s.Completed? || s.MintCompleted? || s.Failed? || s.MintCompletedTradeFailed?) }

  lemma RecoveryIsSafe(job: Job)
    requires Recoverable(job.status) || NewJob(job)
    ensures SafeToReplay(job)
  {}

  /** What one step may do to the row, whatever it was about to do. */
  ghost predicate StepKeeps(w: World, w': World) {
    && Rank(w.job.status) <= Rank(w'.job.status)
    && (w.minted ==> w'.minted) && (w.finalized ==> w'.finalized)
    && (w.job.mintTx.Some? ==> w'.job.mintTx == w.job.mintTx)
    && w'.job.dest == w.job.dest && w'.maxAttempts == w.maxAttempts
    && (w.job.burn.Burned? ==>
          w'.job.burn == w.job.burn && w'.job.burnAmount == w.job.burnAmount && w'.job.signedTrade == w.job.signedTrade)
    && (w.job.dest.Arc? && ArcFinalizeTx(w.job).Some? ==>
          && ArcFinalizeTx(w'.job) == ArcFinalizeTx(w.job)
          && (w'.job.status == w.job.status || w'.job.status.MintCompleted?))
  }

  lemma DequeueKeepsInv(w: World)
    requires Inv(w) && w.pc.Idle? && SafeToReplay(w.job)
    ensures Inv(Step(w, Dequeue))
  {}

  lemma PreserveKeepsInv(w: World, a: Answer)
    requires Inv(w) && (w.pc.PreserveEarly? || w.pc.PreserveInside? || w.pc.PreserveLate?)
    ensures Inv(Answered(w, a)) && StepKeeps(w, Answered(w, a))
  {}

  lemma AttestKeepsInv(w: World, a: Answer)
    requires Inv(w) && (w.pc.WriteAttesting? || w.pc.Poll?)
    ensures Inv(Answered(w, a)) && StepKeeps(w, Answered(w, a))
  {
    hide ParseBurnAmounts;
  }

  lemma AttestedKeepsInv(w: World, a: Answer)
    requires Inv(w) && w.pc.WriteMinting?
    ensures Inv(Answered(w, a)) && StepKeeps(w, Answered(w, a))
  {
    hide ParseBurnAmounts;
  }

  lemma MintKeepsInv(w: World, a: Answer)
    requires Inv(w) && (w.pc.Receive? || w.pc.WriteMinted?)
    ensures Inv(Answered(w, a)) && StepKeeps(w, Answered(w, a))
  {
    hide ParseBurnAmounts;
  }

  lemma TradeKeepsInv(w: World, a: Answer)
    requires Inv(w) && (w.pc.WriteMintOnly? || w.pc.SubmitTrade? || w.pc.WriteCompleted?)
    ensures Inv(Answered(w, a)) && StepKeeps(w, Answered(w, a))
  {}

  lemma DepositKeepsInv(w: World, a: Answer)
    requires Inv(w) && (w.pc.LookupIntent? || w.pc.Finalize? || w.pc.WriteFinalized?)
    ensures Inv(Answered(w, a)) && StepKeeps(w, Answered(w, a))
  {}

  lemma HandlerKeepsInv(w: World, a: Answer)
    requires Inv(w) && (w.pc.Handler? || w.pc.WriteFailed?)
    ensures Inv(Answered(w, a)) && StepKeeps(w, Answered(w, a))
  {}

  lemma AnswerKeepsInv(w: World, a: Answer)
    requires Inv(w)
    ensures Inv(Answered(w, a)) && StepKeeps(w, Answered(w, a))
  {
    match w.pc
    case Idle =>
    case PreserveEarly(_) => PreserveKeepsInv(w, a);
    case PreserveInside(_) => PreserveKeepsInv(w, a);
    case PreserveLate(_) => PreserveKeepsInv(w, a);
    case WriteAttesting(_) => AttestKeepsInv(w, a);
    case Poll(_) => AttestKeepsInv(w, a);
    case WriteMinting(_, _) => AttestedKeepsInv(w, a);
    case Receive(_, _, _) => MintKeepsInv(w, a);
    case WriteMinted(_, _, _) => MintKeepsInv(w, a);
    case WriteMintOnly => TradeKeepsInv(w, a);
    case SubmitTrade(_) => TradeKeepsInv(w, a);
    case WriteCompleted(_) => TradeKeepsInv(w, a);
    case LookupIntent(_, _) => DepositKeepsInv(w, a);
    case Finalize(_, _, _) => DepositKeepsInv(w, a);
    case WriteFinalized(_, _, _, _) => DepositKeepsInv(w, a);
    case Handler => HandlerKeepsInv(w, a);
    case WriteFailed(_) => HandlerKeepsInv(w, a);
  }

  lemma StepKeepsInv(w: World, action: Action)
    requires Inv(w) && Allowed(w, action)
    ensures Inv(Step(w, action)) && StepKeeps(w, Step(w, action))
  {
    match action
    case Dequeue => if w.pc.Idle? { DequeueKeepsInv(w); }
    case Proceed(a) => AnswerKeepsInv(w, a);
    case _ =>
  }
}
