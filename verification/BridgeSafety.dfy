/** What the bridge relayer keeps over every run of one job. */
module BridgeSafety {
  import opened Bytes
  import opened Wrappers
  import opened Cctp
  import opened BridgeMachine

  lemma {:induction false} RunKeepsInv(w: World, actions: seq<Action>)
    requires Inv(w) && AllowedRun(w, actions)
    ensures Inv(Run(w, actions))
  {
    if actions != [] {
      var init, last := actions[..|actions| - 1], actions[|actions| - 1];
      RunKeepsInv(w, init);
      StepKeepsInv(Run(w, init), last);
    }
  }

  lemma {:induction false} RunKeepsFacts(w: World, first: seq<Action>, more: seq<Action>)
    requires Inv(w) && AllowedRun(w, first + more)
    ensures AllowedRun(w, first)
    ensures StepKeeps(Run(w, first), Run(w, first + more))
    decreases |more|
  {
    var all := first + more;
    if more == [] {
      assert all == first;
    } else {
      var init, last := more[..|more| - 1], more[|more| - 1];
      assert all[..|all| - 1] == first + init && all[|all| - 1] == last;
      RunKeepsFacts(w, first, init);
      RunKeepsInv(w, first + init);
      StepKeepsInv(Run(w, first + init), last);
    }
  }

  /**
   * What the row and the worker say in every state, on the columns: a job past its
   * mint has its hash and its mint, a reservation is never minted, and receive and
   * finalize are only called when due; a signed trade is never left out and never
   * recorded without one; an Arc deposit completes only finalized, and its amounts
   * are those of the attested message and balance.
   */
  ghost predicate Safe(w: World) {
    && (w.job.status in {Trading, Completed, MintCompleted, MintCompletedTradeFailed} ==> w.job.mintTx.Some? && w.minted)
    && (w.job.mintTx.Some? ==> w.minted)
    && (w.job.burn.Reserved? ==> !w.minted && !w.pc.Receive?)
    && (w.pc.Receive? ==> w.job.mintTx.None?)
    && (w.job.dest != Arc ==>
         && (w.job.status.MintCompleted? ==> !w.job.signedTrade)
         && (w.job.status.Completed? ==> w.job.signedTrade && w.job.tradeTx.Some?)
         && (w.pc.SubmitTrade? ==> w.job.signedTrade && w.job.mintTx.Some?)
         && (w.job.tradeTx.Some? ==> w.job.signedTrade))
    && (w.job.dest.Arc? ==>
         && (w.pc.Receive? || w.pc.Finalize? ==> w.job.arcFinalizeTx.None? && w.job.tradeTx.None?)
         && (w.pc.Finalize? ==> w.job.mintTx.Some?)
         && (w.job.arcFinalizeTx.Some? || w.job.tradeTx.Some? ==> w.finalized)
         && !w.job.status.Completed?
         && (w.job.status.MintCompleted? ==> w.job.arcFinalizeTx.Some? || w.job.tradeTx.Some?)
         && (w.job.mintTx.Some? || w.job.net.Some? ==>
               && w.job.gross.Some? && w.job.fee.Some? && w.job.net.Some? && w.job.attestation.Some?
               && ParseBurnAmounts(w.job.attestation.value, w.job.burnAmount)
               == Ok(Amounts(w.job.gross.value, w.job.fee.value, w.job.net.value))
               && w.job.gross.value == w.job.fee.value + w.job.net.value))
  }

  lemma InvIsSafe(w: World)
    requires Inv(w)
    ensures Safe(w)
  {}

  /**
   * Over every run from a new row, with a crash between any two steps, every
   * call failing or landing without a confirmation and every write refused or
   * applied at will: the job is safe in every state.
   */
  lemma EveryRunIsSafe(job: Job, max: int, actions: seq<Action>)
    requires NewJob(job) && AllowedRun(Insert(job, max), actions)
    ensures Safe(Run(Insert(job, max), actions))
  {
    RunKeepsInv(Insert(job, max), actions);
    InvIsSafe(Run(Insert(job, max), actions));
  }

  /**
   * Between two states of such a run the rank never falls, recorded hashes never
   * change, and a finalized Arc deposit is neither called again nor demoted.
   */
  lemma ProgressIsKept(job: Job, max: int, first: seq<Action>, more: seq<Action>)
    requires NewJob(job) && AllowedRun(Insert(job, max), first + more)
    ensures var w, w' := Run(Insert(job, max), first), Run(Insert(job, max), first + more);
            && Rank(w.job.status) <= Rank(w'.job.status)
            && (w.job.mintTx.Some? ==> w'.job.mintTx == w.job.mintTx && !w'.pc.Receive?)
            && (w.minted ==> w'.minted) && w'.job.dest == w.job.dest
            && (w.job.burn.Burned? ==>
                  w'.job.burn == w.job.burn && w'.job.burnAmount == w.job.burnAmount && w'.job.signedTrade == w.job.signedTrade)
            && (w.job.dest.Arc? && ArcFinalizeTx(w.job).Some? ==>
                  && ArcFinalizeTx(w'.job) == ArcFinalizeTx(w.job)
                  && !w'.pc.Receive? && !w'.pc.Finalize?
                  && (w'.job.status == w.job.status || w'.job.status.MintCompleted?))
  {
    RunKeepsFacts(Insert(job, max), first, more);
    RunKeepsInv(Insert(job, max), first + more);
  }

  // ── Every record is an answer ──

  /** A hash or message, and the call it was the answer of. */
  datatype Record = MintHash(tx: Hash) | TradeHash(tx: Hash) | FinalizeHash(tx: Hash) | Message(message: seq<byte>)

  ghost predicate Gives(pc: PC, action: Action, r: Record) {
    action.Proceed? &&
    match r
    case MintHash(tx) => pc.Receive? && action.answer.call == Confirmed(tx)
    case TradeHash(tx) => pc.SubmitTrade? && action.answer.call == Confirmed(tx)
    case FinalizeHash(tx) => pc.Finalize? && action.answer.call == Confirmed(tx)
    case Message(m) => pc.Poll? && action.answer.message == Some(m)
  }

  /** Some step of the run was that call, and this its answer. */
  ghost predicate Given(w: World, actions: seq<Action>, r: Record) {
    exists i :: 0 <= i < |actions| && Gives(Run(w, actions[..i]).pc, actions[i], r)
  }

  lemma GivenStays(w: World, actions: seq<Action>, last: Action)
    ensures forall r :: Given(w, actions, r) ==> Given(w, actions + [last], r)
    ensures forall r :: Gives(Run(w, actions).pc, last, r) ==> Given(w, actions + [last], r)
  {
    var all := actions + [last];
    assert forall i :: 0 <= i <= |actions| ==> all[..i] == actions[..i];
    assert actions[..|actions|] == actions;
    forall r | Given(w, actions, r) ensures Given(w, all, r) {
      var i :| 0 <= i < |actions| && Gives(Run(w, actions[..i]).pc, actions[i], r);
      assert Gives(Run(w, all[..i]).pc, all[i], r);
    }
    forall r | Gives(Run(w, actions).pc, last, r) ensures Given(w, all, r) {
      assert Gives(Run(w, all[..|actions|]).pc, all[|actions|], r);
    }
  }

  /** The records of the row. */
  ghost predicate OnRow(job: Job, r: Record) {
    match r
    case MintHash(tx) => job.mintTx == Some(tx)
    case TradeHash(tx) => job.dest != Arc && job.tradeTx == Some(tx)
    case FinalizeHash(tx) => job.dest.Arc? && (job.arcFinalizeTx == Some(tx) || job.tradeTx == Some(tx))
    case Message(m) => job.attestation == Some(m)
  }

  /** The records the worker is about to write. */
  ghost predicate InHand(pc: PC, r: Record) {
    match r
    case MintHash(tx) => pc.WriteMinted? && pc.tx == tx
    case TradeHash(tx) => pc.WriteCompleted? && pc.tx == tx
    case FinalizeHash(tx) => pc.WriteFinalized? && pc.tx == tx
    case Message(m) => pc.WriteMinting? && pc.message == m
  }

  /** What the step from w to w' wrote or took in hand was there before, or given by the action. */
  ghost predicate CarriesOver(w: World, w': World, action: Action) {
    forall r :: OnRow(w'.job, r) || InHand(w'.pc, r) ==> OnRow(w.job, r) || InHand(w.pc, r) || Gives(w.pc, action, r)
  }

  lemma PreserveCarriesOver(w: World, a: Answer)
    requires PcInv(w) && (w.pc.PreserveEarly? || w.pc.PreserveInside? || w.pc.PreserveLate?)
    ensures CarriesOver(w, Answered(w, a), Proceed(a))
  {}

  lemma AttestCarriesOver(w: World, a: Answer)
    requires w.pc.WriteAttesting? || w.pc.Poll? || w.pc.WriteMinting?
    ensures CarriesOver(w, Answered(w, a), Proceed(a))
  {
    hide ParseBurnAmounts;
  }

  lemma MintCarriesOver(w: World, a: Answer)
    requires w.pc.Receive? || w.pc.WriteMinted? || w.pc.WriteMintOnly?
    ensures CarriesOver(w, Answered(w, a), Proceed(a))
  {}

  lemma TradeCarriesOver(w: World, a: Answer)
    requires w.pc.SubmitTrade? || (w.pc.WriteCompleted? && w.job.dest != Arc)
    ensures CarriesOver(w, Answered(w, a), Proceed(a))
  {}

  lemma DepositCarriesOver(w: World, a: Answer)
    requires w.pc.LookupIntent? || w.pc.Finalize? || (w.pc.WriteFinalized? && w.job.dest.Arc?)
    ensures CarriesOver(w, Answered(w, a), Proceed(a))
  {}

  lemma RestCarriesOver(w: World, action: Action)
    requires action.Proceed? ==> w.pc.Idle? || w.pc.Handler? || w.pc.WriteFailed?
    ensures CarriesOver(w, Step(w, action), action)
  {
    hide ParseBurnAmounts;
  }

  /** A step puts nothing on the row or in the worker's hand that was not there or just given. */
  lemma StepCarriesOver(w: World, action: Action)
    requires Inv(w)
    ensures CarriesOver(w, Step(w, action), action)
  {
    hide CarriesOver, RowInv, Answered;
    if !action.Proceed? || w.pc.Idle? || w.pc.Handler? || w.pc.WriteFailed? {
      RestCarriesOver(w, action);
    } else if w.pc.PreserveEarly? || w.pc.PreserveInside? || w.pc.PreserveLate? {
      PreserveCarriesOver(w, action.answer);
    } else if w.pc.WriteAttesting? || w.pc.Poll? || w.pc.WriteMinting? {
      AttestCarriesOver(w, action.answer);
    } else if w.pc.Receive? || w.pc.WriteMinted? || w.pc.WriteMintOnly? {
      MintCarriesOver(w, action.answer);
    } else if w.pc.SubmitTrade? || w.pc.WriteCompleted? {
      TradeCarriesOver(w, action.answer);
    } else {
      DepositCarriesOver(w, action.answer);
    }
  }

  lemma {:induction false} RecordsAreGiven(w: World, actions: seq<Action>, r: Record)
    requires Inv(w) && AllowedRun(w, actions) && forall q :: !OnRow(w.job, q) && !InHand(w.pc, q)
    requires OnRow(Run(w, actions).job, r) || InHand(Run(w, actions).pc, r)
    ensures Given(w, actions, r)
  {
    if actions != [] {
      var init, last := actions[..|actions| - 1], actions[|actions| - 1];
      assert actions == init + [last];
      RunKeepsInv(w, init);
      StepCarriesOver(Run(w, init), last);
      GivenStays(w, init, last);
      if OnRow(Run(w, init).job, r) || InHand(Run(w, init).pc, r) {
        RecordsAreGiven(w, init, r);
      }
    }
  }

  /**
   * Over every run from a new row: the mint hash was returned by a confirmed receive, the
   * trade hash of a Base or Solana job by a confirmed submission, the finalize hash of an
   * Arc deposit by a confirmed finalize, and the message by a poll of that run.
   */
  lemma EveryRecordIsAnAnswer(job: Job, max: int, actions: seq<Action>, r: Record)
    requires NewJob(job) && AllowedRun(Insert(job, max), actions) && OnRow(Run(Insert(job, max), actions).job, r)
    ensures Given(Insert(job, max), actions, r)
  {
    RecordsAreGiven(Insert(job, max), actions, r);
  }

  /**
   * A failure, when the row can be read and the write applies: a finalized Arc deposit is
   * completed, a job that failed while trading says so, and any other one is failed.
   */
  lemma FailureIsRecorded(w: World, read: Answer, write: Answer)
    requires w.pc.Handler? && read.rowReadable && write.write.Applied?
    ensures var end := Answered(Answered(w, read), write);
            && end.pc.Idle? && end.minted == w.minted && end.finalized == w.finalized
            && (w.job.dest.Arc? && w.job.arcFinalizeTx.Some? ==>
                  end.job == w.job.(status := MintCompleted, tradeTx := w.job.arcFinalizeTx))
            && (w.job.dest.Arc? && w.job.arcFinalizeTx.None? && w.job.tradeTx.Some? ==>
                  end.job == w.job.(status := MintCompleted, arcFinalizeTx := w.job.tradeTx))
            && (!(w.job.dest.Arc? && (w.job.arcFinalizeTx.Some? || w.job.tradeTx.Some?)) ==>
                  end.job == w.job.(status := if w.job.status == Trading then MintCompletedTradeFailed else Failed))
  {}

  /** A trade is given up only when every configured attempt raised. */
  lemma {:induction false} TradeIsRetried(w: World, answers: seq<Answer>)
    requires w.pc == SubmitTrade(1) && w.maxAttempts >= 1 && |answers| <= w.maxAttempts
    requires forall i :: 0 <= i < |answers| ==> answers[i].call.Raised?
    ensures Processing(w, answers) == w.(pc := if |answers| < w.maxAttempts then SubmitTrade(|answers| + 1) else Handler)
  {
    if answers != [] {
      var init := answers[..|answers| - 1];
      TradeIsRetried(w, init);
      assert Processing(w, answers) == Answered(Processing(w, init), answers[|answers| - 1]);
    }
  }

  /** Only Arc deposits are protected: a traded job whose last write raises although it applied ends failed. */
  lemma TradedJobCanEndFailed(w: World, tx: Hash, write: Answer, read: Answer, last: Answer)
    requires w.pc == WriteCompleted(tx) && w.job.dest != Arc
    requires write.write.AppliedButRaised? && read.rowReadable && last.write.Applied?
    ensures Answered(Answered(Answered(w, write), read), last).job == w.job.(status := Failed, tradeTx := Some(tx))
  {
    FailureIsRecorded(Answered(w, write), read, last);
  }

  // ── Recovery finishes the job, if it can ──

  /** The contracts take a message and a deposit once: a second receive or finalize can only raise. */
  predicate Honest(w: World, a: Answer) {
    (w.pc.Receive? && w.minted) || (w.pc.Finalize? && w.finalized) ==> a.call.Raised?
  }

  predicate HonestRun(w: World, actions: seq<Action>) {
    actions == [] ||
    (HonestRun(w, actions[..|actions| - 1])
     && (actions[|actions| - 1].Proceed? ==> Honest(Run(w, actions[..|actions| - 1]), actions[|actions| - 1].answer)))
  }

  /** The answer a, but for a call the contract refuses. */
  function Refused(w: World, a: Answer): Answer {
    if (w.pc.Receive? && w.minted) || (w.pc.Finalize? && w.finalized) then a.(call := Raised(false)) else a
  }

  /** The worker's next n steps in an honest environment that answers a. */
  function Steps(w: World, a: Answer, n: nat): World
    decreases n
  {
    if n == 0 then w else Steps(Answered(w, Refused(w, a)), a, n - 1)
  }

  function Answers(w: World, a: Answer, n: nat): seq<Answer>
    decreases n
  {
    if n == 0 then [] else Answers(w, a, n - 1) + [Refused(Steps(w, a, n - 1), a)]
  }

  lemma {:induction false} StepsSnoc(w: World, a: Answer, n: nat)
    ensures Steps(w, a, n + 1) == Answered(Steps(w, a, n), Refused(Steps(w, a, n), a))
    decreases n
  {
    if n > 0 {
      StepsSnoc(Answered(w, Refused(w, a)), a, n - 1);
    }
  }

  lemma {:induction false} StepsIsProcessing(w: World, a: Answer, n: nat)
    ensures Processing(w, Answers(w, a, n)) == Steps(w, a, n)
    decreases n
  {
    hide Answered, Refused;
    if n > 0 {
      assert Answers(w, a, n)[..n - 1] == Answers(w, a, n - 1) by {
        AnswersLength(w, a, n - 1);
      }
      StepsIsProcessing(w, a, n - 1);
      StepsSnoc(w, a, n - 1);
      AnswersLength(w, a, n);
    }
  }

  lemma {:induction false} AnswersLength(w: World, a: Answer, n: nat)
    ensures |Answers(w, a, n)| == n
    decreases n
  {
    if n > 0 {
      AnswersLength(w, a, n - 1);
    }
  }

  /** One processing, as actions: the worker takes the job and the environment answers. */
  function Actions(answers: seq<Answer>): seq<Action> {
    if answers == [] then [Dequeue] else Actions(answers[..|answers| - 1]) + [Proceed(answers[|answers| - 1])]
  }

  /** A processing is a run of the machine, allowed exactly when the job is safe to replay. */
  lemma {:induction false} ProcessingIsRun(w: World, answers: seq<Answer>)
    ensures Run(w, Actions(answers)) == Processing(Step(w, Dequeue), answers)
    ensures AllowedRun(w, Actions(answers)) <==> SafeToReplay(w.job)
  {
    var actions := Actions(answers);
    if answers == [] {
      assert actions[..0] == [];
    } else {
      var init := Actions(answers[..|answers| - 1]);
      ProcessingIsRun(w, answers[..|answers| - 1]);
      assert actions[..|actions| - 1] == init;
    }
  }

  /** The processing that recovery starts, under the answer a, as actions. */
  function Recovery(w: World, a: Answer, n: nat): seq<Action> { Actions(Answers(Step(w, Dequeue), a, n)) }

  lemma {:induction false} RecoveryIsHonest(w: World, a: Answer, n: nat)
    ensures Run(w, Recovery(w, a, n)) == Steps(Step(w, Dequeue), a, n) && HonestRun(w, Recovery(w, a, n))
    decreases n
  {
    var s := Step(w, Dequeue);
    var answers := Answers(s, a, n);
    var actions := Actions(answers);
    ProcessingIsRun(w, answers);
    StepsIsProcessing(s, a, n);
    AnswersLength(s, a, n);
    if n == 0 {
      assert actions[..0] == [];
    } else {
      AnswersLength(s, a, n - 1);
      assert answers[..n - 1] == Answers(s, a, n - 1);
      assert actions[..|actions| - 1] == Actions(Answers(s, a, n - 1));
      RecoveryIsHonest(w, a, n - 1);
    }
  }

  /** An environment in which everything succeeds that can. */
  predicate Cooperative(w: World, a: Answer) {
    && a.write.Applied? && a.call.Confirmed? && a.message.Some? && a.intent.Some?
    && (w.job.signedTrade ==> w.maxAttempts >= 1)
    && (w.job.dest.Arc? ==>
         && ParseBurnAmounts(a.message.value, w.job.burnAmount).Ok?
         && (w.job.attestation.Some? ==> ParseBurnAmounts(w.job.attestation.value, w.job.burnAmount).Ok?))
  }

  /** Minted, and traded or finalized as the job asks for, with the hashes on the row. */
  ghost predicate Done(w: World) {
    && w.pc.Idle? && w.minted && w.job.mintTx.Some?
    && (w.job.dest.Arc? ==> w.job.status.MintCompleted? && w.finalized && w.job.arcFinalizeTx.Some?)
    && (w.job.dest != Arc && w.job.signedTrade ==> w.job.status.Completed? && w.job.tradeTx.Some?)
    && (w.job.dest != Arc && !w.job.signedTrade ==> w.job.status.MintCompleted?)
  }

  /** The row knows of every call that landed. */
  predicate RowIsCurrent(w: World) {
    (w.minted ==> w.job.mintTx.Some?) && (w.job.dest.Arc? && w.finalized ==> ArcFinalizeTx(w.job).Some?)
  }

  lemma DoneStays(w: World, a: Answer, n: nat)
    requires w.pc.Idle?
    ensures Steps(w, a, n) == w
  {}

  lemma TradeFinishes(w: World, a: Answer)
    requires Inv(w) && w.job.dest != Arc && Cooperative(w, a)
    requires w.pc.WriteMintOnly? || w.pc.SubmitTrade?
    ensures Done(Steps(w, a, 2))
  {
    var w1 := Answered(w, a);
    AnswerKeepsInv(w, a);
    AnswerKeepsInv(w1, a);
    assert Steps(w, a, 2) == Steps(w1, a, 1) == Answered(w1, a);
  }

  lemma DepositFinishes(w: World, a: Answer)
    requires Inv(w) && w.pc.LookupIntent? && Cooperative(w, a) && RowIsCurrent(w)
    ensures Done(Steps(w, a, 3))
  {
    var w1 := Answered(w, a);
    var w2 := Answered(w1, a);
    AnswerKeepsInv(w, a);
    AnswerKeepsInv(w1, a);
    AnswerKeepsInv(w2, a);
    assert Steps(w, a, 3) == Steps(w1, a, 2) == Steps(w2, a, 1) == Answered(w2, a);
  }

  lemma MintFinishes(w: World, a: Answer)
    requires Inv(w) && w.pc.Receive? && Cooperative(w, a) && RowIsCurrent(w)
    ensures Done(Steps(w, a, 5))
  {
    var w1 := Answered(w, a);
    var w2 := Answered(w1, a);
    AnswerKeepsInv(w, a);
    AnswerKeepsInv(w1, a);
    assert Steps(w, a, 5) == Steps(w1, a, 4) == Steps(w2, a, 3);
    if w.job.dest.Arc? {
      DepositFinishes(w2, a);
    } else {
      TradeFinishes(w2, a);
      StepsChain(w2, a, 2, 1);
      DoneStays(Steps(w2, a, 2), a, 1);
    }
  }

  lemma {:induction false} StepsChain(w: World, a: Answer, m: nat, n: nat)
    ensures Steps(w, a, m + n) == Steps(Steps(w, a, m), a, n)
    decreases m
  {
    if m > 0 {
      StepsChain(Answered(w, Refused(w, a)), a, m - 1, n);
    }
  }

  lemma AttestationFinishes(w: World, a: Answer)
    requires Inv(w) && w.pc.WriteAttesting? && Cooperative(w, a) && RowIsCurrent(w)
    requires ArcFinalizeTx(w.job).None? || !w.job.dest.Arc?
    ensures Done(Steps(w, a, 8))
  {
    var w1 := Answered(w, a);
    var w2 := Answered(w1, a);
    var w3 := Answered(w2, a);
    AnswerKeepsInv(w, a);
    AnswerKeepsInv(w1, a);
    AnswerKeepsInv(w2, a);
    assert Steps(w, a, 8) == Steps(w1, a, 7) == Steps(w2, a, 6) == Steps(w3, a, 5);
    MintFinishes(w3, a);
  }

  predicate Resumable(w: World) {
    || w.pc.PreserveEarly? || w.pc.WriteMintOnly? || w.pc.SubmitTrade? || w.pc.LookupIntent? || w.pc.Receive?
    || (w.pc.WriteAttesting? && (ArcFinalizeTx(w.job).None? || !w.job.dest.Arc?))
  }

  lemma DequeueIsResumable(w: World, a: Answer)
    requires Inv(w) && w.pc.Idle? && w.job.burn.Burned? && Recoverable(w.job.status) && Cooperative(w, a)
    ensures Inv(Step(w, Dequeue)) && Resumable(Step(w, Dequeue))
    ensures Step(w, Dequeue).pc.WriteMintOnly? || Step(w, Dequeue).pc.SubmitTrade? ==> w.job.dest != Arc
  {
    DequeueKeepsInv(w);
  }

  lemma ResumableFinishes(w: World, a: Answer)
    requires Inv(w) && Resumable(w) && Cooperative(w, a) && RowIsCurrent(w)
    ensures Done(Steps(w, a, 8))
  {
    if w.pc.WriteAttesting? {
      AttestationFinishes(w, a);
    } else if w.pc.Receive? {
      MintFinishes(w, a);
      StayDone(w, a, 5);
    } else if w.pc.LookupIntent? {
      DepositFinishes(w, a);
      StayDone(w, a, 3);
    } else if w.pc.PreserveEarly? {
      AnswerKeepsInv(w, a);
      assert Steps(w, a, 1) == Steps(Answered(w, a), a, 0);
      StayDone(w, a, 1);
    } else {
      TradeFinishes(w, a);
      StayDone(w, a, 2);
    }
  }

  lemma StayDone(w: World, a: Answer, n: nat)
    requires n <= 8 && Done(Steps(w, a, n))
    ensures Done(Steps(w, a, 8))
  {
    StepsChain(w, a, n, 8 - n);
    DoneStays(Steps(w, a, n), a, 8 - n);
  }

  /** A call landed that the row does not know of, and the worker is not about to record it. */
  predicate Stranded(w: World) {
    || (w.minted && w.job.mintTx.None? && !w.pc.WriteMinted?)
    || (w.job.dest.Arc? && w.finalized && ArcFinalizeTx(w.job).None? && !w.pc.WriteFinalized?)
  }

  lemma StrandedStep(w: World, action: Action)
    requires Inv(w) && Allowed(w, action) && Stranded(w) && (action.Proceed? ==> Honest(w, action.answer))
    ensures Stranded(Step(w, action))
  {}

  /** A stranded job is never completed again by anything the relayer does. */
  lemma {:induction false} StrandedStays(w: World, more: seq<Action>)
    requires Inv(w) && Stranded(w) && AllowedRun(w, more) && HonestRun(w, more)
    ensures Stranded(Run(w, more)) && Run(w, more).job.status !in {Completed, MintCompleted}
  {
    RunKeepsInv(w, more);
    if more != [] {
      var init, last := more[..|more| - 1], more[|more| - 1];
      RunKeepsInv(w, init);
      StrandedStays(w, init);
      StrandedStep(Run(w, init), last);
    }
  }

  /**
   * A job interrupted anywhere in an allowed run and picked up by recovery completes
   * in one processing of a cooperative environment exactly when the row knows of
   * every call that landed; otherwise no honest run whatever marks it completed.
   */
  lemma RecoveryCompletesIff(job: Job, max: int, actions: seq<Action>, a: Answer)
    requires NewJob(job) && AllowedRun(Insert(job, max), actions)
    requires var w := Run(Insert(job, max), actions);
             w.pc.Idle? && w.job.burn.Burned? && Recoverable(w.job.status) && Cooperative(w, a)
    ensures var w := Run(Insert(job, max), actions);
            && HonestRun(w, Recovery(w, a, 8)) && AllowedRun(w, Recovery(w, a, 8))
            && (RowIsCurrent(w) <==> Done(Run(w, Recovery(w, a, 8))))
            && (!RowIsCurrent(w) ==> forall more :: AllowedRun(w, more) && HonestRun(w, more) ==>
                  Run(w, more).job.status !in {Completed, MintCompleted})
  {
    var w := Run(Insert(job, max), actions);
    RunKeepsInv(Insert(job, max), actions);
    RecoveryIsSafe(w.job);
    ProcessingIsRun(w, Answers(Step(w, Dequeue), a, 8));
    RecoveryIsHonest(w, a, 8);
    hide AllowedRun, HonestRun, Recovery, Cooperative, SafeToReplay;
    if RowIsCurrent(w) {
      DequeueIsResumable(w, a);
      ResumableFinishes(Step(w, Dequeue), a);
    } else {
      hide Inv, Run;
      forall more | AllowedRun(w, more) && HonestRun(w, more) ensures Run(w, more).job.status !in {Completed, MintCompleted} {
        StrandedStays(w, more);
      }
      DoneIsMarked(Run(w, Recovery(w, a, 8)));
    }
  }

  lemma DoneIsMarked(w: World)
    ensures Done(w) ==> w.job.status in {Completed, MintCompleted}
  {}

  // ── Dying between a call and its row update ──

  function FreshArcJob(): Job {
    Job(Pending, Arc, Burned("0xb"), Amount(5), false, None, None, None, None, None, Some(5), None, None, None)
  }

  /** A burn of five units of which one goes to the fee. */
  function BurnOfFive(): BurnMessage {
    BurnMessage(seq(HEADER_SIZE, i => 0), seq(68, i => 0), 5, seq(64, i => 0), 1, [])
  }

  lemma BurnOfFiveParses(fallback: Fallback)
    ensures BurnOfFive().WellFormed() && ParseBurnAmounts(AttestedBurn(), fallback) == Ok(Amounts(5, 1, 4))
  {
    ParseOfEncoding(BurnOfFive(), fallback);
  }

  /** The attested message of that burn. */
  function AttestedBurn(): seq<byte> {
    assert Pow256(32) == 256 * Pow256(31);
    BurnOfFive().Encode()
  }

  const GOOD_ANSWER := Answer(Applied, Confirmed("0x01"), Some(AttestedBurn()), Some("r"), true)

  /** A new job, n steps of a first processing, and a crash. */
  function CrashAfter(job: Job, max: int, n: nat): seq<Action> { Recovery(Insert(job, max), GOOD_ANSWER, n) + [Crash] }

  lemma CrashedRun(job: Job, max: int, n: nat)
    requires NewJob(job)
    ensures var w0, actions := Insert(job, max), CrashAfter(job, max, n);
            && AllowedRun(w0, actions) && HonestRun(w0, actions)
            && Run(w0, actions) == Steps(Step(w0, Dequeue), GOOD_ANSWER, n).(pc := Idle)
  {
    var w0, actions := Insert(job, max), CrashAfter(job, max, n);
    assert actions[..|actions| - 1] == Recovery(w0, GOOD_ANSWER, n);
    RecoveryIsHonest(w0, GOOD_ANSWER, n);
    ProcessingIsRun(w0, Answers(Step(w0, Dequeue), GOOD_ANSWER, n));
  }

  /** The first three steps of a new job, with every write applied: it is attested and about to be minted. */
  lemma AttestsABaseJob(s: World, a: Answer)
    requires s == Step(Insert(FreshBaseJob(), s.maxAttempts), Dequeue) && a.write.Applied? && a.message == Some(AttestedBurn())
    ensures Steps(s, a, 3) == AttestedBaseJob(s.maxAttempts)
  {
    ThreeSteps(s, a);
  }

  function AttestedBaseJob(max: int): World {
    World(FreshBaseJob().(status := Minting, attestation := Some(AttestedBurn())), Receive(FreshBaseJob(), AttestedBurn(), Deposit(None, None, None)),
          false, false, max)
  }

  /** Dying between the mint and its row update strands a job that recovery goes on selecting. */
  lemma CrashAfterMintStrands(max: int)
    ensures NewJob(FreshBaseJob()) && AllowedRun(Insert(FreshBaseJob(), max), CrashAfter(FreshBaseJob(), max, 4))
    ensures HonestRun(Insert(FreshBaseJob(), max), CrashAfter(FreshBaseJob(), max, 4))
    ensures var w := Run(Insert(FreshBaseJob(), max), CrashAfter(FreshBaseJob(), max, 4));
            w.pc.Idle? && w.job.burn.Burned? && Recoverable(w.job.status) && w.minted && !RowIsCurrent(w)
  {
    CrashedRun(FreshBaseJob(), max, 4);
    hide Run, AllowedRun, HonestRun;
    var s := Step(Insert(FreshBaseJob(), max), Dequeue);
    StepsChain(s, GOOD_ANSWER, 3, 1);
    AttestsABaseJob(s, GOOD_ANSWER);
    hide Steps;
    MintsABaseJob(max);
    assert Steps(s, GOOD_ANSWER, 4) == Steps(AttestedBaseJob(max), GOOD_ANSWER, 1);
  }

  lemma MintsABaseJob(max: int)
    ensures var end := Steps(AttestedBaseJob(max), GOOD_ANSWER, 1);
            end.minted && end.job == AttestedBaseJob(max).job
  {
    var w := AttestedBaseJob(max);
    assert Steps(w, GOOD_ANSWER, 1) == Steps(Answered(w, GOOD_ANSWER), GOOD_ANSWER, 0);
  }

  /** The same between an Arc deposit's finalize and its row update. */
  lemma CrashAfterFinalizeStrands(max: int)
    ensures NewJob(FreshArcJob()) && AllowedRun(Insert(FreshArcJob(), max), CrashAfter(FreshArcJob(), max, 7))
    ensures HonestRun(Insert(FreshArcJob(), max), CrashAfter(FreshArcJob(), max, 7))
    ensures var w := Run(Insert(FreshArcJob(), max), CrashAfter(FreshArcJob(), max, 7));
            w.pc.Idle? && w.job.burn.Burned? && Recoverable(w.job.status) && w.finalized && !RowIsCurrent(w)
  {
    CrashedRun(FreshArcJob(), max, 7);
    hide Answered, Run, AllowedRun, HonestRun;
    var s := Step(Insert(FreshArcJob(), max), Dequeue);
    StepsChain(s, GOOD_ANSWER, 3, 4);
    AttestsAnArcJob(s);
    FinalizesAnArcJob(Steps(s, GOOD_ANSWER, 3));
  }

  lemma AttestsAnArcJob(s: World)
    requires s == Step(Insert(FreshArcJob(), s.maxAttempts), Dequeue)
    ensures var attested := FreshArcJob().(status := Minting, attestation := Some(AttestedBurn()));
            Steps(s, GOOD_ANSWER, 3) == s.(job := attested, pc := Receive(FreshArcJob(), AttestedBurn(), Deposit(Some(5), Some(1), Some(4))))
  {
    ThreeSteps(s, GOOD_ANSWER);
    hide Steps;
    BurnOfFiveParses(FreshArcJob().burnAmount);
    hide AttestedBurn, BurnOfFive, ParseBurnAmounts, Inv, Run, Recovery, Answers;
    var w1 := Answered(s, GOOD_ANSWER);
    StartsAnArcJob(s);
    hide Step, Insert;
    var w2 := Answered(w1, GOOD_ANSWER);
    assert w2 == w1.(pc := WriteMinting(FreshArcJob(), AttestedBurn()));
  }

  lemma StartsAnArcJob(s: World)
    requires s == Step(Insert(FreshArcJob(), s.maxAttempts), Dequeue)
    ensures Answered(s, GOOD_ANSWER) == s.(job := FreshArcJob().(status := Attesting), pc := Poll(FreshArcJob()))
    ensures !s.pc.Receive? && !s.pc.Finalize?
  {
    hide AttestedBurn;
  }

  lemma FinalizesAnArcJob(w: World)
    requires w.pc == Receive(FreshArcJob(), AttestedBurn(), Deposit(Some(5), Some(1), Some(4))) && !w.minted && !w.finalized
    requires w.job == FreshArcJob().(status := Minting, attestation := Some(AttestedBurn()))
    ensures var end := Steps(w, GOOD_ANSWER, 4);
            end.finalized && end.job.dest.Arc? && end.job.burn.Burned? && end.job.status.Trading? && ArcFinalizeTx(end.job).None?
  {
    StepsChain(w, GOOD_ANSWER, 3, 1);
    ThreeSteps(w, GOOD_ANSWER);
  }

  lemma ThreeSteps(w: World, a: Answer)
    ensures var w1 := Answered(w, Refused(w, a));
            var w2 := Answered(w1, Refused(w1, a));
            Steps(w, a, 3) == Answered(w2, Refused(w2, a))
  {
    var w1 := Answered(w, Refused(w, a));
    var w2 := Answered(w1, Refused(w1, a));
    assert Steps(w, a, 3) == Steps(w1, a, 2) == Steps(w2, a, 1);
  }

  // ── Reservations ──

  /**
   * A reservation is left alone until its burn is broadcast; then it has the burn, the
   * amount and the trade of the broadcast, and a cooperative processing completes it.
   */
  lemma BroadcastReservationCompletes(job: Job, max: int, tx: Hash, amount: Fallback, signed: bool, a: Answer)
    requires NewJob(job) && job.burn.Reserved?
    requires var w := Step(Insert(job, max), BroadcastReservation(tx, amount, signed)); Cooperative(w, a)
    ensures Step(Insert(job, max), Dequeue) == Insert(job, max)
    ensures var w := Step(Insert(job, max), BroadcastReservation(tx, amount, signed));
            var end := Run(w, Recovery(w, a, 8));
            && Done(end) && end.job.burn == Burned(tx) && end.job.burnAmount == amount && end.job.signedTrade == signed
            && end.job.dest == job.dest
  {
    var w0 := Insert(job, max);
    var w := Step(w0, BroadcastReservation(tx, amount, signed));
    NewJobKeepsInv(job, max);
    StepKeepsInv(w0, BroadcastReservation(tx, amount, signed));
    assert SafeToReplay(w.job);
    RecoveryKeepsOrder(w, a);
    hide Inv, Run, AllowedRun, HonestRun, Recovery, Cooperative, Done;
    RecoveryIsHonest(w, a, 8);
    DequeueIsResumable(w, a);
    ResumableFinishes(Step(w, Dequeue), a);
  }

  lemma RecoveryKeepsOrder(w: World, a: Answer)
    requires Inv(w) && SafeToReplay(w.job)
    ensures StepKeeps(w, Run(w, Recovery(w, a, 8)))
  {
    hide Inv, StepKeeps, AllowedRun, SafeToReplay, Answers, Actions, Step, Answered;
    ProcessingIsRun(w, Answers(Step(w, Dequeue), a, 8));
    assert [] + Recovery(w, a, 8) == Recovery(w, a, 8);
    RunKeepsFacts(w, [], Recovery(w, a, 8));
  }

  // ── Replaying a failed job ──

  lemma {:induction false} ProcessingKeepsInv(w: World, answers: seq<Answer>)
    requires Inv(w)
    ensures Inv(Processing(w, answers))
  {
    if answers != [] {
      ProcessingKeepsInv(w, answers[..|answers| - 1]);
      AnswerKeepsInv(Processing(w, answers[..|answers| - 1]), answers[|answers| - 1]);
    }
  }

  ghost predicate MintBacked(w: World) { MintDone(w.job.status) ==> w.job.mintTx.Some? && w.minted }

  /** Replaying the job leads past the minting it never had, to a trade or straight to mint-completed. */
  predicate ReplaySkipsMint(w: World) { !SafeToReplay(w.job) && (w.job.signedTrade ==> w.maxAttempts >= 1) }

  lemma UnsafeReplayGoesWrong(w: World)
    requires Inv(w) && w.pc.Idle? && ReplaySkipsMint(w)
    ensures !MintBacked(Processing(Step(w, Dequeue), [GOOD_ANSWER, GOOD_ANSWER]))
  {
    var start := Step(w, Dequeue);
    var answers := [GOOD_ANSWER, GOOD_ANSWER];
    assert answers[..1] == [GOOD_ANSWER] && [GOOD_ANSWER][..0] == [];
    assert Processing(start, [GOOD_ANSWER]) == Answered(start, GOOD_ANSWER);
    assert Processing(start, answers) == Answered(Answered(start, GOOD_ANSWER), GOOD_ANSWER);
  }

  lemma HarmlessDequeueKeepsInv(w: World)
    requires Inv(w) && w.pc.Idle? && !ReplaySkipsMint(w)
    ensures Inv(Step(w, Dequeue))
  {
    if SafeToReplay(w.job) {
      DequeueKeepsInv(w);
    }
  }

  /**
   * Handing a job to a worker keeps "a job past its mint was minted", whatever the
   * environment answers, exactly when it is not a Base or Solana job that failed with
   * an attestation but no mint: such a job must not be enqueued again. (With a signed
   * trade and no attempts configured it fails again at once.)
   */
  lemma ReplayIsSafeIff(w: World)
    requires Inv(w) && w.pc.Idle?
    ensures !ReplaySkipsMint(w)
       <==> forall answers :: MintBacked(Processing(Step(w, Dequeue), answers))
  {
    if !ReplaySkipsMint(w) {
      HarmlessDequeueKeepsInv(w);
      forall answers ensures MintBacked(Processing(Step(w, Dequeue), answers)) {
        ProcessingKeepsInv(Step(w, Dequeue), answers);
      }
    } else {
      UnsafeReplayGoesWrong(w);
    }
  }

  function FreshBaseJob(): Job {
    Job(Pending, Base, Burned("0xb"), Amount(5), true, None, None, None, None, None, None, None, None, None)
  }

  /** The state the exception handler leaves when minting raises: failed, attested, not minted. */
  lemma UnsafeJobIsReachable() returns (actions: seq<Action>)
    ensures NewJob(FreshBaseJob()) && AllowedRun(Insert(FreshBaseJob(), 3), actions)
    ensures var w := Run(Insert(FreshBaseJob(), 3), actions);
            Inv(w) && w.pc.Idle? && ReplaySkipsMint(w)
  {
    var good := Answer(Applied, Raised(false), Some(AttestedBurn()), None, true);
    hide Steps, Answered;
    var w0 := Insert(FreshBaseJob(), 3);
    actions := Recovery(w0, good, 6);
    RecoveryIsHonest(w0, good, 6);
    ProcessingIsRun(w0, Answers(Step(w0, Dequeue), good, 6));
    NewJobKeepsInv(FreshBaseJob(), 3);
    RunKeepsInv(w0, actions);
    SixSteps(Step(w0, Dequeue), good);
  }

  lemma NewJobKeepsInv(job: Job, max: int)
    requires NewJob(job)
    ensures Inv(Insert(job, max))
  {}

  lemma SixSteps(s: World, good: Answer)
    requires s == Step(Insert(FreshBaseJob(), 3), Dequeue) && good == Answer(Applied, Raised(false), Some(AttestedBurn()), None, true)
    ensures Steps(s, good, 6).pc.Idle? && ReplaySkipsMint(Steps(s, good, 6))
  {
    AttestsABaseJob(s, good);
    ThreeSteps(AttestedBaseJob(3), good);
    hide Step, Insert;
    StepsChain(s, good, 3, 3);
  }
}
