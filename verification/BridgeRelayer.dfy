/**
 * The relayer's worker as it runs: one processing of a job that rewrites the row
 * step by step (src/bridge/relayer.py), proved to be a run of the machine.
 */
module BridgeRelayer {
  import opened Bytes
  import opened Wrappers
  import opened Cctp
  import opened BridgeMachine
  import opened BridgeSafety

  lemma ProcessingSnoc(w: World, answers: seq<Answer>, k: nat)
    requires k < |answers|
    ensures Processing(w, answers[..k + 1]) == Answered(Processing(w, answers[..k]), answers[k])
  {
    assert answers[..k + 1][..k] == answers[..k];
  }

  lemma SubmissionAnswered(w: World, attempt: nat, a: Answer)
    requires w.pc == SubmitTrade(attempt)
    ensures Answered(w, a) == w.(pc := if a.call.Confirmed? then WriteCompleted(a.call.tx)
                                       else if attempt < w.maxAttempts then SubmitTrade(attempt + 1) else Handler)
  {}

  lemma CompletionAnswered(w: World, tx: Hash, a: Answer)
    requires w.pc == WriteCompleted(tx)
    ensures Answered(w, a) == Write(w, a.write, w.job.(status := Completed, tradeTx := Some(tx)), Idle, Handler)
  {}

  lemma ReceiveAnswered(w: World, job: Job, message: seq<byte>, d: Deposit, a: Answer)
    requires w.pc == Receive(job, message, d)
    ensures Answered(w, a)
         == w.(minted := w.minted || a.call.Confirmed? || a.call.landed,
               pc := if a.call.Confirmed? then WriteMinted(job, a.call.tx, d) else Handler)
  {}

  lemma MintedAnswered(w: World, job: Job, tx: Hash, d: Deposit, a: Answer)
    requires w.pc == WriteMinted(job, tx, d)
    ensures Answered(w, a) == Write(w, a.write, MarkMinted(w.job, tx, d), AfterMint(job, d, w.maxAttempts), Handler)
  {}

  lemma LookupAnswered(w: World, job: Job, d: Deposit, a: Answer)
    requires w.pc == LookupIntent(job, d)
    ensures Answered(w, a) == w.(pc := if a.intent.Some? && d.net.Some? then Finalize(d, a.intent.value, job) else Handler)
  {}

  lemma FinalizeAnswered(w: World, d: Deposit, receiver: string, job: Job, a: Answer)
    requires w.pc == Finalize(d, receiver, job)
    ensures Answered(w, a)
         == w.(finalized := w.finalized || a.call.Confirmed? || a.call.landed,
               pc := if a.call.Confirmed? then WriteFinalized(a.call.tx, d, receiver, job) else Handler)
  {}

  lemma FinalizedAnswered(w: World, tx: Hash, d: Deposit, receiver: string, job: Job, a: Answer)
    requires w.pc == WriteFinalized(tx, d, receiver, job)
    ensures Answered(w, a) == Write(w, a.write, MarkDeposited(w.job, job, tx, d, receiver), Idle, Handler)
  {}

  /** The answers from start on were refused submissions, but for a last one that returned the hash. */
  ghost predicate Tried(answers: seq<Answer>, start: nat, used: nat, tradeTx: Option<Hash>) {
    && start <= used <= |answers|
    && (tradeTx.Some? ==> start < used && answers[used - 1].call == Confirmed(tradeTx.value))
    && (forall i :: start <= i < used - (if tradeTx.Some? then 1 else 0) ==> answers[i].call.Raised?)
  }

  lemma TriedNothing(answers: seq<Answer>, start: nat)
    requires start <= |answers|
    ensures Tried(answers, start, start, None)
  {}

  lemma TriedMore(answers: seq<Answer>, start: nat, used: nat)
    requires Tried(answers, start, used, None) && used < |answers|
    ensures var call := answers[used].call;
            Tried(answers, start, used + 1, if call.Confirmed? then Some(call.tx) else None)
  {}

  class Worker {
    var row: Job
    ghost var minted: bool
    ghost var finalized: bool
    /** settings.cctp_trade_max_retries. */
    const maxAttempts: int

    constructor (job: Job, maxAttempts: int)
      ensures row == job && !minted && !finalized && this.maxAttempts == maxAttempts
    {
      row, minted, finalized, this.maxAttempts := job, false, false, maxAttempts;
    }

    ghost function At(pc: PC): World
      reads this
    {
      World(row, pc, minted, finalized, maxAttempts)
    }

    /** _update_job: the row takes the fields unless the write is refused. */
    method UpdateJob(after: Job, outcome: WriteOutcome) returns (raised: bool)
      modifies this`row
      ensures row == Apply(outcome, old(row), after)
      ensures raised == !outcome.Applied?
    {
      if !outcome.Refused? {
        row := after;
      }
      raised := !outcome.Applied?;
    }

    /** receive_message_base, receive_message_solana and receive_message_arc. */
    method ReceiveMessage(outcome: CallOutcome) returns (tx: Option<Hash>)
      modifies this`minted
      ensures minted == (old(minted) || outcome.Confirmed? || outcome.landed)
      ensures tx == if outcome.Confirmed? then Some(outcome.tx) else None
    {
      match outcome
      case Confirmed(h) => minted := true; tx := Some(h);
      case Raised(landed) => minted := minted || landed; tx := None;
    }

    /** finalize_arc_metavault_deposit. */
    method FinalizeDeposit(outcome: CallOutcome) returns (tx: Option<Hash>)
      modifies this`finalized
      ensures finalized == (old(finalized) || outcome.Confirmed? || outcome.landed)
      ensures tx == if outcome.Confirmed? then Some(outcome.tx) else None
    {
      match outcome
      case Confirmed(h) => finalized := true; tx := Some(h);
      case Raised(landed) => finalized := finalized || landed; tx := None;
    }

    /** The worker stands where `w0` gets to under the first `used` answers. */
    ghost predicate Follows(at: PC, w0: World, answers: seq<Answer>, used: nat)
      reads this
    {
      used <= |answers| && At(at) == Processing(w0, answers[..used])
    }

    /**
     * One call of process_bridge_job. `answers` are the environment's answers in
     * order; running out of them is the process dying there. The result is the
     * machine's run under the answers used.
     */
    method ProcessBridgeJob(answers: seq<Answer>) returns (used: nat, ghost at: PC)
      modifies this
      ensures Follows(at, Step(old(At(Idle)), Dequeue), answers, used)
      ensures at.Idle? || used == |answers|
      ensures Inv(old(At(Idle))) && SafeToReplay(old(row)) ==> Inv(At(at)) && Safe(At(at))
    {
      ghost var w0 := Step(At(Idle), Dequeue);
      used, at := Process(answers);
      if Inv(old(At(Idle))) && SafeToReplay(old(row)) {
        DequeueKeepsInv(old(At(Idle)));
        ProcessingKeepsInv(w0, answers[..used]);
        InvIsSafe(At(at));
      }
    }

    method Process(answers: seq<Answer>) returns (used: nat, ghost at: PC)
      modifies this
      ensures Follows(at, Step(old(At(Idle)), Dequeue), answers, used)
      ensures at.Idle? || used == |answers|
    {
      ghost var w0 := Step(At(Idle), Dequeue);
      var job := row;
      used, at := 0, Idle;
      if job.status.Completed? || job.status.MintCompleted? {
        return;
      }
      if job.dest.Arc? && ArcFinalizeTx(job).Some? {
        at := PreserveEarly(ArcFinalizeTx(job).value);
        if used == |answers| { return; }
        ProcessingSnoc(w0, answers, used);
        var raised := UpdateJob(MarkFinalized(row, ArcFinalizeTx(job).value), answers[used].write);
        used, at := used + 1, Idle;
        return;
      }
      if job.burn.Reserved? {
        return;
      }
      var failed: bool;
      used, failed, at := Attempt(job, answers, w0);
      if failed {
        used, at := HandleException(answers, used, w0);
      }
    }

    /** The try block; `failed` is a raised exception. */
    method Attempt(job: Job, answers: seq<Answer>, ghost w0: World)
      returns (used: nat, failed: bool, ghost at: PC)
      requires w0 == At(BeginProcessing(job, maxAttempts)) && row == job && job.burn.Burned?
      requires !job.status.Completed? && !job.status.MintCompleted? && (job.dest.Arc? ==> ArcFinalizeTx(job).None?)
      modifies this
      ensures Follows(at, w0, answers, used)
      ensures failed ==> at.Handler?
      ensures !failed ==> at.Idle? || used == |answers|
    {
      used, failed, at := 0, false, BeginProcessing(job, maxAttempts);
      var message := job.attestation;
      if job.status.Pending? || job.status.Attesting? {
        used, message, failed, at := Attest(job, answers, w0);
        if failed || message.None? {
          return;
        }
      } else if message.None? {
        failed := true;
        return;
      }
      if job.dest.Arc? {
        used, failed, at := ProcessArcDeposit(job, message.value, answers, used, w0);
      } else {
        used, failed, at := MintAndTrade(job, message.value, answers, used, w0);
      }
    }

    /** Polls for the attestation and stores it; no message and no exception: the process died. */
    method Attest(job: Job, answers: seq<Answer>, ghost w0: World)
      returns (used: nat, message: Option<seq<byte>>, failed: bool, ghost at: PC)
      requires w0 == At(WriteAttesting(job)) && row.dest == job.dest
      modifies this
      ensures Follows(at, w0, answers, used) && row.dest == job.dest
      ensures failed ==> at.Handler?
      ensures !failed && message.None? ==> used == |answers|
      ensures !failed && message.Some? ==> at == AfterAttestation(job, message.value, maxAttempts)
    {
      var raised: bool;
      used, message, failed, at := 0, None, false, WriteAttesting(job);
      if used == |answers| { return; }
      ProcessingSnoc(w0, answers, used);
      raised := UpdateJob(row.(status := Attesting), answers[used].write);
      used, failed, at := used + 1, raised, if raised then Handler else Poll(job);
      if raised || used == |answers| { return; }

      ProcessingSnoc(w0, answers, used);
      var polled := answers[used].message;
      used, failed, at := used + 1, polled.None?, if polled.None? then Handler else WriteMinting(job, polled.value);
      if polled.None? || used == |answers| { return; }

      ProcessingSnoc(w0, answers, used);
      raised := UpdateJob(row.(status := Minting, attestation := polled), answers[used].write);
      used, failed, at := used + 1, raised, if raised then Handler else AfterAttestation(job, polled.value, maxAttempts);
      message := polled;
    }

    /** The except block: re-reads the row and records the failure, or keeps a finalized Arc deposit. */
    method HandleException(answers: seq<Answer>, start: nat, ghost w0: World) returns (used: nat, ghost at: PC)
      requires Follows(Handler, w0, answers, start)
      modifies this
      ensures Follows(at, w0, answers, used)
      ensures at.Idle? || used == |answers|
    {
      var raised: bool;
      used, at := start, Handler;
      if used == |answers| { return; }
      ProcessingSnoc(w0, answers, used);
      if !answers[used].rowReadable {
        used, at := used + 1, Idle;
        return;
      }
      used := used + 1;
      var current := row;
      if current.dest.Arc? && ArcFinalizeTx(current).Some? {
        at := PreserveLate(ArcFinalizeTx(current).value);
        if used == |answers| { return; }
        ProcessingSnoc(w0, answers, used);
        raised := UpdateJob(MarkFinalized(row, ArcFinalizeTx(current).value), answers[used].write);
        used, at := used + 1, Idle;
        return;
      }
      var failState := if current.status.Trading? then MintCompletedTradeFailed else Failed;
      at := WriteFailed(failState);
      if used == |answers| { return; }
      ProcessingSnoc(w0, answers, used);
      raised := UpdateJob(row.(status := failState), answers[used].write);
      used, at := used + 1, Idle;
    }

    /** Minting, unless the row is past it, and then trading. */
    method MintAndTrade(job: Job, message: seq<byte>, answers: seq<Answer>, start: nat, ghost w0: World)
      returns (used: nat, failed: bool, ghost at: PC)
      requires job.dest != Arc && row.dest == job.dest
      requires Follows(AfterAttestation(job, message, maxAttempts), w0, answers, start)
      modifies this
      ensures Follows(at, w0, answers, used)
      ensures failed ==> at.Handler?
      ensures !failed ==> at.Idle? || used == |answers|
    {
      used, failed, at := start, false, AfterAttestation(job, message, maxAttempts);
      if job.status.Pending? || job.status.Attesting? || job.status.Minting? {
        if used == |answers| { return; }
        ProcessingSnoc(w0, answers, used);
        var mintTx := ReceiveMessage(answers[used].call);
        used := used + 1;
        if mintTx.None? {
          failed, at := true, Handler;
          return;
        }
        at := WriteMinted(job, mintTx.value, Deposit(None, None, None));
        if used == |answers| { return; }
        ProcessingSnoc(w0, answers, used);
        var raised := UpdateJob(row.(status := Trading, mintTx := mintTx), answers[used].write);
        used, failed, at := used + 1, raised, if raised then Handler else EnterTrade(job, maxAttempts);
        if raised { return; }
      }
      used, failed, at := Trade(job, answers, used, w0);
    }

    method Trade(job: Job, answers: seq<Answer>, start: nat, ghost w0: World)
      returns (used: nat, failed: bool, ghost at: PC)
      requires Follows(EnterTrade(job, maxAttempts), w0, answers, start)
      modifies this
      ensures Follows(at, w0, answers, used)
      ensures failed ==> at.Handler?
      ensures !failed ==> at.Idle? || used == |answers|
    {
      var raised: bool;
      used, failed, at := start, false, EnterTrade(job, maxAttempts);
      if !job.signedTrade {
        if used == |answers| { return; }
        ProcessingSnoc(w0, answers, used);
        raised := UpdateJob(row.(status := MintCompleted), answers[used].write);
        used, failed, at := used + 1, raised, if raised then Handler else Idle;
        return;
      }
      used, failed, at := SubmitAndRecord(answers, used, w0);
    }

    /** A signed trade: submitting it, then the row update. */
    method SubmitAndRecord(answers: seq<Answer>, start: nat, ghost w0: World)
      returns (used: nat, failed: bool, ghost at: PC)
      requires Follows(if maxAttempts < 1 then Handler else SubmitTrade(1), w0, answers, start)
      modifies this
      ensures Follows(at, w0, answers, used)
      ensures failed ==> at.Handler?
      ensures !failed ==> at.Idle? || used == |answers|
    {
      var tradeTx: Option<Hash>;
      hide Tried, Answered, Processing;
      used, tradeTx, failed, at := SubmitWithRetry(answers, start, w0);
      if failed || tradeTx.None? || used == |answers| {
        return;
      }
      ProcessingSnoc(w0, answers, used);
      CompletionAnswered(At(at), tradeTx.value, answers[used]);
      var raised := UpdateJob(row.(status := Completed, tradeTx := tradeTx), answers[used].write);
      used, failed, at := used + 1, raised, if raised then Handler else Idle;
    }

    /** _submit_trade: no hash and no exception: the process died. */
    method SubmitWithRetry(answers: seq<Answer>, start: nat, ghost w0: World)
      returns (used: nat, tradeTx: Option<Hash>, failed: bool, ghost at: PC)
      requires Follows(if maxAttempts < 1 then Handler else SubmitTrade(1), w0, answers, start)
      modifies this
      ensures Follows(at, w0, answers, used)
      ensures failed ==> at.Handler?
      ensures !failed && tradeTx.None? ==> used == |answers|
      ensures !failed && tradeTx.Some? ==> at == WriteCompleted(tradeTx.value)
      ensures Tried(answers, start, used, tradeTx)
      ensures failed ==> used - start == if maxAttempts < 1 then 0 else maxAttempts
    {
      used, tradeTx, failed, at := start, None, false, if maxAttempts < 1 then Handler else SubmitTrade(1);
      hide Tried, Answered, Processing;
      TriedNothing(answers, start);
      var attempt := 1;
      while attempt <= maxAttempts
        invariant used == start + attempt - 1 && Tried(answers, start, used, None)
        invariant (maxAttempts < 1 ==> attempt == 1) && (maxAttempts >= 1 ==> attempt <= maxAttempts + 1)
        invariant 1 <= attempt && !failed && tradeTx.None? && Follows(at, w0, answers, used)
        invariant at == if attempt <= maxAttempts then SubmitTrade(attempt) else Handler
      {
        if used == |answers| { return; }
        ProcessingSnoc(w0, answers, used);
        var call := answers[used].call;
        SubmissionAnswered(At(at), attempt, answers[used]);
        TriedMore(answers, start, used);
        used := used + 1;
        if call.Confirmed? {
          tradeTx, at := Some(call.tx), WriteCompleted(call.tx);
          return;
        }
        at := if attempt < maxAttempts then SubmitTrade(attempt + 1) else Handler;
        attempt := attempt + 1;
      }
      failed := true;
    }

    /** _process_arc_deposit_job. */
    method ProcessArcDeposit(job: Job, message: seq<byte>, answers: seq<Answer>, start: nat, ghost w0: World)
      returns (used: nat, failed: bool, ghost at: PC)
      requires job.dest.Arc? && row.dest == job.dest
      requires Follows(AfterAttestation(job, message, maxAttempts), w0, answers, start)
      modifies this
      ensures Follows(at, w0, answers, used)
      ensures failed ==> at.Handler?
      ensures !failed ==> at.Idle? || used == |answers|
    {
      var finalizeTx := ArcFinalizeTx(job);
      var d := Recorded(job);
      used, failed, at := start, false, AfterAttestation(job, message, maxAttempts);
      if finalizeTx.Some? {
        if used == |answers| { return; }
        ProcessingSnoc(w0, answers, used);
        var raised := UpdateJob(MarkFinalized(row, finalizeTx.value), answers[used].write);
        used, failed, at := used + 1, raised, if raised then Handler else Idle;
        return;
      }
      if (job.status.Pending? || job.status.Attesting? || job.status.Minting?) && job.mintTx.None? {
        var parsed := ParseBurnAmounts(message, job.burnAmount);
        if parsed.Err? {
          failed := true;
          return;
        }
        d := Deposit(Some(parsed.value.gross), Some(parsed.value.fee), Some(parsed.value.net));
        used, failed, at := ReceiveDeposit(job, message, d, answers, used, w0);
        if failed || used == |answers| { return; }
      } else if job.mintTx.None? {
        failed := true;
        return;
      }
      used, failed, at := FinalizeArc(job, d, answers, used, w0);
    }

    method ReceiveDeposit(job: Job, message: seq<byte>, d: Deposit, answers: seq<Answer>, start: nat, ghost w0: World)
      returns (used: nat, failed: bool, ghost at: PC)
      requires job.dest.Arc? && row.dest == job.dest
      requires Follows(Receive(job, message, d), w0, answers, start)
      modifies this
      ensures Follows(at, w0, answers, used)
      ensures failed ==> at.Handler?
      ensures !failed ==> at == LookupIntent(job, d) || used == |answers|
    {
      hide Answered, Processing;
      used, failed, at := start, false, Receive(job, message, d);
      if used == |answers| { return; }
      ProcessingSnoc(w0, answers, used);
      ReceiveAnswered(At(at), job, message, d, answers[used]);
      var mintTx := ReceiveMessage(answers[used].call);
      used := used + 1;
      if mintTx.None? {
        failed, at := true, Handler;
        return;
      }
      at := WriteMinted(job, mintTx.value, d);
      if used == |answers| { return; }
      ProcessingSnoc(w0, answers, used);
      MintedAnswered(At(at), job, mintTx.value, d, answers[used]);
      var raised := UpdateJob(
        row.(status := Trading, mintTx := mintTx, arcReceiveTx := mintTx,
             gross := d.gross, fee := d.fee, net := d.net),
        answers[used].write);
      used, failed, at := used + 1, raised, if raised then Handler else LookupIntent(job, d);
    }

    method FinalizeArc(job: Job, d: Deposit, answers: seq<Answer>, start: nat, ghost w0: World)
      returns (used: nat, failed: bool, ghost at: PC)
      requires Follows(LookupIntent(job, d), w0, answers, start)
      modifies this
      ensures Follows(at, w0, answers, used)
      ensures failed ==> at.Handler?
      ensures !failed ==> at.Idle? || used == |answers|
    {
      hide Answered, Processing;
      used, failed, at := start, false, LookupIntent(job, d);
      if used == |answers| { return; }
      ProcessingSnoc(w0, answers, used);
      LookupAnswered(At(at), job, d, answers[used]);
      var intent := answers[used].intent;
      used := used + 1;
      if intent.None? || d.net.None? {
        failed, at := true, Handler;
        return;
      }
      var receiver := intent.value;
      at := Finalize(d, receiver, job);
      if used == |answers| { return; }
      ProcessingSnoc(w0, answers, used);
      FinalizeAnswered(At(at), d, receiver, job, answers[used]);
      var finalizeTx := FinalizeDeposit(answers[used].call);
      used := used + 1;
      if finalizeTx.None? {
        failed, at := true, Handler;
        return;
      }
      at := WriteFinalized(finalizeTx.value, d, receiver, job);
      if used == |answers| { return; }
      ProcessingSnoc(w0, answers, used);
      FinalizedAnswered(At(at), finalizeTx.value, d, receiver, job, answers[used]);
      var raised := UpdateJob(
        row.(status := MintCompleted, tradeTx := finalizeTx, arcFinalizeTx := finalizeTx,
             receiver := Some(receiver), net := d.net,
             fee := if d.fee.Some? then d.fee else Some(0),
             gross := if d.gross.Some? then d.gross
                      else if job.burnAmount.Amount? then Some(job.burnAmount.value) else None),
        answers[used].write);
      used, failed, at := used + 1, raised, if raised then Handler else Idle;
    }
  }
}
