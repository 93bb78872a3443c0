/** The maturity-payment executor: one staged envelope, resubmitted across crashes
    and restarts until its finality is on record.

    What happens to a process is an input: the ledger's answers, poll by poll, and the
    number of effects after which it is interrupted, if it is.  The log of file effects and
    submissions is kept over all processes that ever ran on the same pending path; files
    are replaced atomically. */
module MaturityPayment {

  import opened Options

  /** A parsed envelope.  `amount` is None unless it is a proper integer. */
  datatype Envelope = Envelope(
    operationId: string,
    operationType: string,
    stage: Option<string>,
    amount: Option<int>,
    sourceTransition: Option<string>,
    rest: string)

  datatype Output = Rejected(e: Envelope) | Finalized(e: Envelope) | AwaitingFinality(e: Envelope)

  datatype Step = Staged(e: Envelope) | Submitted(e: Envelope) | Wrote(output: Output) | Unlinked

  datatype Exit = Paid | NotPaid | Blocked | Crashed

  /** What a poll finds: a failed submission, verified finality, or neither. */
  datatype Answer = Rejects | Finalizes | Waits

  /** One process: its source file, None if that does not parse, the polls it makes after
      the first before its deadline, the ledger's answers, and the number of effects after
      which it is interrupted, by a kill or by an error it reports as BLOCKED. */
  datatype Process = Process(
    source: Option<Envelope>,
    rounds: nat,
    answers: seq<Answer>,
    life: Option<nat>,
    killed: bool)

  predicate HexDigest(s: string) {
    |s| == 64 && forall i :: 0 <= i < |s| ==> '0' <= s[i] <= '9' || 'a' <= s[i] <= 'f'
  }

  predicate Payable(e: Envelope) {
    && e.operationType == "DEVELOPMENT_REWARD_PAY_MATURITY"
    && (e.stage == Some("MATURITY_STAGE_ONE") || e.stage == Some("MATURITY_STAGE_TWO"))
    && e.amount.Some? && e.amount.value > 0
    && e.sourceTransition.Some? && HexDigest(e.sourceTransition.value)
  }

  // ---------- The protocol the log must follow ----------

  /** The envelope staged and not yet unlinked after these steps. */
  ghost function Open(log: seq<Step>): Option<Envelope> {
    if log == [] then None
    else
      match log[|log| - 1]
      case Staged(e) => Some(e)
      case Unlinked => None
      case _ => Open(log[..|log| - 1])
  }

  ghost predicate Allowed(before: seq<Step>, step: Step) {
    match step
    case Staged(e) => Open(before) == None && Payable(e)
    case Submitted(e) => Open(before) == Some(e)
    case Wrote(output) =>
      Open(before) == Some(output.e) && before != [] && before[|before| - 1] == Submitted(output.e)
    case Unlinked =>
      Open(before).Some? && before != [] && before[|before| - 1] == Wrote(Finalized(Open(before).value))
  }

  ghost predicate Lawful(log: seq<Step>) {
    forall i :: 0 <= i < |log| ==> Allowed(log[..i], log[i])
  }

  lemma LawfulAppend(log: seq<Step>, step: Step)
    requires Lawful(log) && Allowed(log, step)
    ensures Lawful(log + [step])
    ensures Open(log + [step]) == match step { case Staged(e) => Some(e) case Unlinked => None case _ => Open(log) }
  {
    var longer := log + [step];
    forall i | 0 <= i < |longer|
      ensures Allowed(longer[..i], longer[i])
    {
      assert longer[..i] == log[..i];
      assert log[..|log|] == log;
    }
    assert longer[..|longer| - 1] == log;
  }

  /** While nothing is unlinked, the staged envelope stays the open one. */
  lemma {:induction false} StaysOpen(log: seq<Step>, i: nat, j: nat)
    requires Lawful(log) && i < j <= |log| && log[i].Staged?
    requires forall k :: i < k < j ==> !log[k].Unlinked?
    ensures Open(log[..j]) == Some(log[i].e)
    ensures forall k :: i < k < j ==> !log[k].Staged?
    decreases j
  {
    if j == i + 1 {
      assert log[..j][|log[..j]| - 1] == log[i];
    } else {
      StaysOpen(log, i, j - 1);
      assert Allowed(log[..j - 1], log[j - 1]);
      assert log[..j][..|log[..j]| - 1] == log[..j - 1];
      assert log[..j][|log[..j]| - 1] == log[j - 1];
    }
  }

  /** From staging until the pending file is unlinked, every submission and every
      written result is for the staged envelope, and no other one is staged. */
  lemma SubmissionsCarryStaged(log: seq<Step>, i: nat, j: nat)
    requires Lawful(log) && i < j < |log| && log[i].Staged?
    requires forall k :: i < k < j ==> !log[k].Unlinked?
    ensures !log[j].Staged?
    ensures log[j].Submitted? ==> log[j].e == log[i].e
    ensures log[j].Wrote? ==> log[j].output.e == log[i].e && log[j - 1] == Submitted(log[i].e)
    ensures log[j].Unlinked? ==> log[j - 1] == Wrote(Finalized(log[i].e))
  {
    StaysOpen(log, i, j);
    assert Allowed(log[..j], log[j]);
  }

  /** Nothing is submitted, written or unlinked before something is staged. */
  lemma {:induction false} StagedFirst(log: seq<Step>, j: nat) returns (i: nat)
    requires Lawful(log) && j < |log| && !log[j].Staged?
    ensures i < j && log[i].Staged? && forall k :: i < k < j ==> !log[k].Unlinked?
  {
    assert Allowed(log[..j], log[j]);
    i := LastStaged(log, j);
  }

  lemma {:induction false} LastStaged(log: seq<Step>, j: nat) returns (i: nat)
    requires j <= |log| && Open(log[..j]).Some?
    ensures i < j && log[i].Staged? && forall k :: i < k < j ==> !log[k].Unlinked?
    decreases j
  {
    assert log[..j] != [];
    assert log[..j][|log[..j]| - 1] == log[j - 1];
    if log[j - 1].Staged? {
      i := j - 1;
    } else {
      assert log[..j][..|log[..j]| - 1] == log[..j - 1];
      i := LastStaged(log, j - 1);
    }
  }

  /** A process that began with the log `before` ended it by recording the finality of
      `e` and unlinking. */
  ghost predicate Settled(before: seq<Step>, log: seq<Step>, e: Envelope) {
    |before| + 2 <= |log| && log[|log| - 2..] == [Wrote(Finalized(e)), Unlinked]
  }

  /** The finality of `e` was recorded after the log `first`. */
  ghost predicate Recorded(first: seq<Step>, log: seq<Step>, e: Envelope) {
    exists k :: |first| <= k < |log| && log[k] == Wrote(Finalized(e))
  }

  /** A record stays, and a process that settles makes one. */
  lemma RecordedLater(first: seq<Step>, before: seq<Step>, log: seq<Step>)
    requires first <= before <= log
    ensures forall e :: Recorded(first, before, e) || Settled(before, log, e) ==> Recorded(first, log, e)
  {
    forall e | Recorded(first, before, e) || Settled(before, log, e)
      ensures Recorded(first, log, e)
    {
      if Settled(before, log, e) {
        assert log[|log| - 2] == log[|log| - 2..][0];
      } else {
        var k :| |first| <= k < |before| && before[k] == Wrote(Finalized(e));
        assert log[k] == before[k];
      }
    }
  }

  /** Every process that reported payment recorded the finality of its source. */
  ghost predicate PaidRecorded(first: seq<Step>, log: seq<Step>, ps: seq<Process>, exits: seq<Exit>) {
    && |exits| <= |ps|
    && forall i :: 0 <= i < |exits| && exits[i] == Paid ==> ps[i].source.Some? && Recorded(first, log, ps[i].source.value)
  }

  lemma PaidLater(first: seq<Step>, before: seq<Step>, log: seq<Step>,
                  ps: seq<Process>, exits: seq<Exit>, exit: Exit)
    requires first <= before <= log && PaidRecorded(first, before, ps, exits) && |exits| < |ps|
    requires exit == Paid ==> ps[|exits|].source.Some? && Settled(before, log, ps[|exits|].source.value)
    ensures PaidRecorded(first, log, ps, exits + [exit])
  {
    RecordedLater(first, before, log);
  }

  // ---------- What a process does, as a function of its input ----------

  function AnswerAt(answers: seq<Answer>, k: nat): Answer {
    if k < |answers| then answers[k] else Waits
  }

  predicate Accepts(source: Option<Envelope>, pending: Option<Envelope>) {
    source.Some? && Payable(source.value) && (pending.None? || pending == source)
  }

  /** What the last poll leads to. */
  function Ending(e: Envelope, answer: Answer): seq<Step> {
    match answer
    case Rejects => [Wrote(Rejected(e))]
    case Finalizes => [Wrote(Finalized(e)), Unlinked]
    case Waits => [Wrote(AwaitingFinality(e))]
  }

  /** The effects from poll `k` on, if nothing interrupts them. */
  function Polling(e: Envelope, answers: seq<Answer>, k: nat, rounds: nat): seq<Step>
    requires k <= rounds
    decreases rounds - k, 1
  {
    [Submitted(e)] + AfterSubmit(e, answers, k, rounds)
  }

  function AfterSubmit(e: Envelope, answers: seq<Answer>, k: nat, rounds: nat): seq<Step>
    requires k <= rounds
    decreases rounds - k, 0
  {
    if AnswerAt(answers, k) == Waits && k < rounds then Polling(e, answers, k + 1, rounds)
    else Ending(e, AnswerAt(answers, k))
  }

  function PollingExit(answers: seq<Answer>, k: nat, rounds: nat): Exit
    requires k <= rounds
    decreases rounds - k
  {
    if AnswerAt(answers, k) == Waits && k < rounds then PollingExit(answers, k + 1, rounds)
    else if AnswerAt(answers, k) == Finalizes then Paid else NotPaid
  }

  function Staging(e: Envelope, pending: Option<Envelope>): seq<Step> {
    if pending.None? then [Staged(e)] else []
  }

  /** All effects of a process that finds `pending`, if nothing interrupts them. */
  function Effects(p: Process, pending: Option<Envelope>): seq<Step> {
    if !Accepts(p.source, pending) then []
    else Staging(p.source.value, pending) + Polling(p.source.value, p.answers, 0, p.rounds)
  }

  function NaturalExit(p: Process, pending: Option<Envelope>): Exit {
    if !Accepts(p.source, pending) then Blocked else PollingExit(p.answers, 0, p.rounds)
  }

  /** An interruption strikes before an effect or before the exit. */
  predicate Interrupted(steps: seq<Step>, life: Option<nat>) {
    life.Some? && life.value <= |steps|
  }

  function Taken(steps: seq<Step>, life: Option<nat>): seq<Step> {
    if Interrupted(steps, life) then steps[..life.value] else steps
  }

  function Older(life: Option<nat>): Option<nat>
    requires life != Some(0)
  {
    if life.Some? then Some(life.value - 1) else None
  }

  function Struck(killed: bool): Exit {
    if killed then Crashed else Blocked
  }

  lemma TakeOne(step: Step, rest: seq<Step>, life: Option<nat>)
    requires life != Some(0)
    ensures Taken([step] + rest, life) == [step] + Taken(rest, Older(life))
    ensures Interrupted([step] + rest, life) <==> Interrupted(rest, Older(life))
  {
    if Interrupted([step] + rest, life) {
      assert ([step] + rest)[..life.value] == [step] + rest[..life.value - 1];
    }
  }

  /** The last result on file after these steps. */
  function LastOutput(output: Option<Output>, steps: seq<Step>): Option<Output> {
    if steps == [] then output
    else if steps[|steps| - 1].Wrote? then Some(steps[|steps| - 1].output)
    else LastOutput(output, steps[..|steps| - 1])
  }

  lemma LastOutputAppend(output: Option<Output>, steps: seq<Step>, step: Step)
    ensures LastOutput(output, steps + [step]) == if step.Wrote? then Some(step.output) else LastOutput(output, steps)
  {
    assert (steps + [step])[..|steps|] == steps;
  }

  lemma {:induction false} LastOutputSplit(output: Option<Output>, first: seq<Step>, later: seq<Step>)
    ensures LastOutput(LastOutput(output, first), later) == LastOutput(output, first + later)
    decreases |later|
  {
    if later == [] {
      assert first + later == first;
    } else {
      var front, last := later[..|later| - 1], later[|later| - 1];
      LastOutputSplit(output, first, front);
      LastOutputAppend(output, first + front, last);
      assert first + later == (first + front) + [last];
    }
  }

  /** Where a process ends that has `steps` before it and `left` to live: the log, the
      result on file, and whether it was interrupted. */
  datatype End = End(log: seq<Step>, output: Option<Output>, interrupted: bool)

  function EndOf(log: seq<Step>, output: Option<Output>, steps: seq<Step>, left: Option<nat>): End {
    End(log + Taken(steps, left), LastOutput(output, Taken(steps, left)), Interrupted(steps, left))
  }

  lemma EndNow(log: seq<Step>, output: Option<Output>, steps: seq<Step>)
    ensures EndOf(log, output, steps, Some(0)) == End(log, output, true)
  {
    assert log + [] == log;
  }

  lemma EndNext(log: seq<Step>, output: Option<Output>, step: Step, rest: seq<Step>, left: Option<nat>)
    requires left != Some(0)
    ensures EndOf(log, output, [step] + rest, left)
            == EndOf(log + [step], if step.Wrote? then Some(step.output) else output, rest, Older(left))
  {
    TakeOne(step, rest, left);
    var later := Taken(rest, Older(left));
    assert log + ([step] + later) == (log + [step]) + later;
    LastOutputSplit(output, [step], later);
  }

  // ---------- The closed form of polling ----------

  function Submissions(e: Envelope, n: nat): seq<Step> {
    seq(n, _ => Submitted(e))
  }

  lemma SubmissionsNext(e: Envelope, n: nat, rest: seq<Step>)
    ensures [Submitted(e)] + (Submissions(e, n) + rest) == Submissions(e, n + 1) + rest
  {
  }

  /** The ledger first answers at poll `k`. */
  predicate AnsweredAt(answers: seq<Answer>, k: nat) {
    AnswerAt(answers, k) != Waits && forall i :: 0 <= i < k ==> AnswerAt(answers, i) == Waits
  }

  /** An answer at poll `k` in time: `k + 1` submissions and what the answer calls for. */
  lemma {:induction false} PollingAnswered(e: Envelope, answers: seq<Answer>, j: nat, k: nat, rounds: nat)
    requires j <= k <= rounds && AnsweredAt(answers, k)
    ensures AnswerAt(answers, k) == Finalizes ==>
              && PollingExit(answers, j, rounds) == Paid
              && Polling(e, answers, j, rounds) == Submissions(e, k - j + 1) + [Wrote(Finalized(e)), Unlinked]
    ensures AnswerAt(answers, k) == Rejects ==>
              && PollingExit(answers, j, rounds) == NotPaid
              && Polling(e, answers, j, rounds) == Submissions(e, k - j + 1) + [Wrote(Rejected(e))]
    decreases k - j
  {
    var end := if AnswerAt(answers, k) == Finalizes then [Wrote(Finalized(e)), Unlinked] else [Wrote(Rejected(e))];
    SubmissionsNext(e, k - j, end);
    if j == k {
      assert Submissions(e, 0) + end == end;
    } else {
      PollingAnswered(e, answers, j + 1, k, rounds);
    }
  }

  /** No answer in time: a submission at every poll and the result AWAITING. */
  lemma {:induction false} PollingUnanswered(e: Envelope, answers: seq<Answer>, j: nat, rounds: nat)
    requires j <= rounds && forall i :: 0 <= i <= rounds ==> AnswerAt(answers, i) == Waits
    ensures PollingExit(answers, j, rounds) == NotPaid
    ensures Polling(e, answers, j, rounds) == Submissions(e, rounds - j + 1) + [Wrote(AwaitingFinality(e))]
    decreases rounds - j
  {
    SubmissionsNext(e, rounds - j, [Wrote(AwaitingFinality(e))]);
    if j == rounds {
      assert Submissions(e, 0) + [Wrote(AwaitingFinality(e))] == [Wrote(AwaitingFinality(e))];
    } else {
      PollingUnanswered(e, answers, j + 1, rounds);
    }
  }

  lemma {:induction false} FirstAnswer(answers: seq<Answer>, rounds: nat) returns (k: nat)
    ensures k <= rounds + 1 && (k <= rounds ==> AnsweredAt(answers, k))
    ensures k == rounds + 1 ==> forall i :: 0 <= i <= rounds ==> AnswerAt(answers, i) == Waits
  {
    k := 0;
    while k <= rounds && AnswerAt(answers, k) == Waits
      invariant k <= rounds + 1 && forall i :: 0 <= i < k ==> AnswerAt(answers, i) == Waits
    {
      k := k + 1;
    }
  }

  /** A process reports payment by itself exactly for a payable source that nothing
      different is pending against and that is final at some poll in time, before any
      rejection; its last two effects are then the record and the unlinking. */
  lemma PaidExactly(p: Process, pending: Option<Envelope>)
    ensures NaturalExit(p, pending) == Paid <==>
              Accepts(p.source, pending) && exists k :: 0 <= k <= p.rounds && AnsweredAt(p.answers, k)
                                                       && AnswerAt(p.answers, k) == Finalizes
    ensures NaturalExit(p, pending) == Paid ==>
              Settled([], Effects(p, pending), p.source.value)
    ensures NaturalExit(p, pending) != Paid ==> Unlinked !in Effects(p, pending)
  {
    if Accepts(p.source, pending) {
      var e := p.source.value;
      var k := FirstAnswer(p.answers, p.rounds);
      if k <= p.rounds {
        PollingAnswered(e, p.answers, 0, k, p.rounds);
        assert forall i :: 0 <= i <= p.rounds && AnsweredAt(p.answers, i) ==> i == k;
      } else {
        PollingUnanswered(e, p.answers, 0, p.rounds);
      }
    }
  }

  /** Nothing is unlinked before the last effect. */
  lemma UnlinkedLast(p: Process, pending: Option<Envelope>)
    ensures forall i :: 0 <= i < |Effects(p, pending)| - 1 ==> !Effects(p, pending)[i].Unlinked?
    ensures pending.Some? ==> forall i :: 0 <= i < |Effects(p, pending)| ==> !Effects(p, pending)[i].Staged?
    ensures forall i :: 0 <= i < |Effects(p, pending)| && Effects(p, pending)[i].Staged? ==>
              p.source == Some(Effects(p, pending)[i].e)
  {
    if Accepts(p.source, pending) {
      var k := FirstAnswer(p.answers, p.rounds);
      if k <= p.rounds {
        PollingAnswered(p.source.value, p.answers, 0, k, p.rounds);
      } else {
        PollingUnanswered(p.source.value, p.answers, 0, p.rounds);
      }
    }
  }

  lemma {:induction false} OpenStays(log: seq<Step>, steps: seq<Step>)
    requires forall i :: 0 <= i < |steps| ==> !steps[i].Unlinked? && !steps[i].Staged?
    ensures Open(log + steps) == Open(log)
  {
    if steps == [] {
      assert log + steps == log;
    } else {
      var front := steps[..|steps| - 1];
      OpenStays(log, front);
      assert (log + steps)[..|log + steps| - 1] == log + front;
    }
  }

  /** Only a staged envelope can become the open one. */
  lemma {:induction false} OpenFrom(log: seq<Step>, steps: seq<Step>, source: Option<Envelope>)
    requires forall i :: 0 <= i < |steps| && steps[i].Staged? ==> source == Some(steps[i].e)
    ensures Open(log + steps) == Open(log) || Open(log + steps) == None || Open(log + steps) == source
  {
    if steps == [] {
      assert log + steps == log;
    } else {
      var front := steps[..|steps| - 1];
      OpenFrom(log, front, source);
      assert (log + steps)[..|log + steps| - 1] == log + front;
    }
  }

  lemma EndsSettled(log0: seq<Step>, output0: Option<Output>, steps: seq<Step>, e: Envelope)
    requires Settled([], steps, e)
    ensures Settled(log0, log0 + steps, e) && Open(log0 + steps) == None
    ensures LastOutput(output0, steps) == Some(Finalized(e))
  {
    var n := |steps|;
    assert steps[n - 2..][0] == steps[n - 2] && steps[n - 2..][1] == steps[n - 1];
    assert (log0 + steps)[|log0 + steps| - 2..] == steps[n - 2..];
    assert steps[..n - 1][..n - 2] == steps[..n - 2] && steps[..n - 1][n - 2] == steps[n - 2];
  }

  /** A process that comes to its unlinking. */
  lemma SettledFacts(log0: seq<Step>, output0: Option<Output>, p: Process, pending: Option<Envelope>)
    requires NaturalExit(p, pending) == Paid && Taken(Effects(p, pending), p.life) == Effects(p, pending)
    ensures var log := log0 + Taken(Effects(p, pending), p.life);
            && Accepts(p.source, pending) && Settled(log0, log, p.source.value) && Open(log) == None
            && LastOutput(output0, Taken(Effects(p, pending), p.life)) == Some(Finalized(p.source.value))
  {
    PaidExactly(p, pending);
    EndsSettled(log0, output0, Effects(p, pending), p.source.value);
  }

  /** A process that does not come to its unlinking. */
  lemma UnsettledFacts(log0: seq<Step>, p: Process, pending: Option<Envelope>)
    requires Open(log0) == pending
    requires NaturalExit(p, pending) != Paid || Taken(Effects(p, pending), p.life) != Effects(p, pending)
    ensures pending.Some? ==> Open(log0 + Taken(Effects(p, pending), p.life)) == pending
  {
    PaidExactly(p, pending);
    UnlinkedLast(p, pending);
    if pending.Some? {
      NoUnlink(Effects(p, pending), p.life);
      OpenStays(log0, Taken(Effects(p, pending), p.life));
    }
  }

  lemma SourceFacts(log0: seq<Step>, p: Process, pending: Option<Envelope>)
    requires Open(log0) == pending
    ensures var open := Open(log0 + Taken(Effects(p, pending), p.life));
            open == pending || open == None || open == p.source
  {
    UnlinkedLast(p, pending);
    OpenFrom(log0, Taken(Effects(p, pending), p.life), p.source);
  }

  /** What the effects of a process say about its exit, the pending file and the result. */
  lemma ProcessFacts(log0: seq<Step>, output0: Option<Output>, p: Process, pending: Option<Envelope>, log: seq<Step>)
    requires Open(log0) == pending && log == log0 + Taken(Effects(p, pending), p.life)
    ensures !Interrupted(Effects(p, pending), p.life) && NaturalExit(p, pending) == Paid ==>
              && p.source.Some? && Settled(log0, log, p.source.value) && Open(log) == None
              && LastOutput(output0, Taken(Effects(p, pending), p.life)) == Some(Finalized(p.source.value))
    ensures pending.Some? && Open(log) != pending ==>
              && p.source == pending && Settled(log0, log, pending.value) && Open(log) == None
              && LastOutput(output0, Taken(Effects(p, pending), p.life)) == Some(Finalized(pending.value))
    ensures pending.None? && Open(log).Some? ==> Open(log) == p.source
  {
    SourceFacts(log0, p, pending);
    if NaturalExit(p, pending) == Paid && Taken(Effects(p, pending), p.life) == Effects(p, pending) {
      SettledFacts(log0, output0, p, pending);
    } else {
      UnsettledFacts(log0, p, pending);
    }
  }

  lemma NoUnlink(steps: seq<Step>, life: Option<nat>)
    requires forall i :: 0 <= i < |steps| - 1 ==> !steps[i].Unlinked?
    requires Taken(steps, life) == steps ==> Unlinked !in steps
    ensures forall i :: 0 <= i < |Taken(steps, life)| ==> !Taken(steps, life)[i].Unlinked?
  {
    if Interrupted(steps, life) && life.value == |steps| {
      assert steps[..life.value] == steps;
    }
  }

  /** The staging, if it is called for, and what then remains of the process. */
  lemma StagingEnd(log: seq<Step>, output: Option<Output>, p: Process, pending: Option<Envelope>)
    requires Accepts(p.source, pending) && p.life != Some(0)
    ensures var e := p.source.value;
            EndOf(log, output, Effects(p, pending), p.life)
            == EndOf(log + Staging(e, pending), output, Polling(e, p.answers, 0, p.rounds),
                     if pending.None? then Older(p.life) else p.life)
  {
    var rest := Polling(p.source.value, p.answers, 0, p.rounds);
    if pending.None? {
      EndNext(log, output, Staged(p.source.value), rest, p.life);
    } else {
      assert [] + rest == rest && log + [] == log;
    }
  }

  lemma SettleEnd(log: seq<Step>, output: Option<Output>, e: Envelope, life: Option<nat>)
    ensures var wrote, unlinked := Wrote(Finalized(e)), Unlinked;
            EndOf(log, output, [wrote, unlinked], life) ==
            if life == Some(0) then End(log, output, true)
            else if life == Some(1) then End(log + [wrote], Some(Finalized(e)), true)
            else End(log + [wrote] + [unlinked], Some(Finalized(e)), life == Some(2))
  {
    var wrote := Wrote(Finalized(e));
    assert [wrote, Unlinked] == [wrote] + [Unlinked] && [Unlinked] == [Unlinked] + [];
    if life == Some(0) {
      EndNow(log, output, [wrote, Unlinked]);
    } else {
      EndNext(log, output, wrote, [Unlinked], life);
      if life == Some(1) {
        EndNow(log + [wrote], Some(Finalized(e)), [Unlinked]);
      } else {
        EndNext(log + [wrote], Some(Finalized(e)), Unlinked, [], Older(life));
      }
    }
  }

  lemma ConcludeEnd(log: seq<Step>, output: Option<Output>, o: Output, life: Option<nat>)
    ensures EndOf(log, output, [Wrote(o)], life) ==
            if life == Some(0) then End(log, output, true) else End(log + [Wrote(o)], Some(o), life == Some(1))
  {
    assert [Wrote(o)] == [Wrote(o)] + [];
    if life == Some(0) {
      EndNow(log, output, [Wrote(o)]);
    } else {
      EndNext(log, output, Wrote(o), [], life);
    }
  }

  /** A process in closed form: it does nothing for a source that is not payable or that
      something different is pending against; otherwise it stages if nothing is pending,
      submits once per poll up to the first answer or the deadline, and ends as that answer
      says. */
  lemma ProcessExactly(p: Process, pending: Option<Envelope>, k: nat)
    ensures !Accepts(p.source, pending) ==> Effects(p, pending) == [] && NaturalExit(p, pending) == Blocked
    ensures Accepts(p.source, pending) && k <= p.rounds && AnsweredAt(p.answers, k) ==>
              var e := p.source.value;
              var polls := (if pending.None? then [Staged(e)] else []) + Submissions(e, k + 1);
              if AnswerAt(p.answers, k) == Finalizes
              then Effects(p, pending) == polls + [Wrote(Finalized(e)), Unlinked] && NaturalExit(p, pending) == Paid
              else Effects(p, pending) == polls + [Wrote(Rejected(e))] && NaturalExit(p, pending) == NotPaid
    ensures Accepts(p.source, pending) && (forall i :: 0 <= i <= p.rounds ==> AnswerAt(p.answers, i) == Waits) ==>
              var e := p.source.value;
              && Effects(p, pending) == (if pending.None? then [Staged(e)] else []) + Submissions(e, p.rounds + 1)
                                        + [Wrote(AwaitingFinality(e))]
              && NaturalExit(p, pending) == NotPaid
  {
    if Accepts(p.source, pending) {
      var e := p.source.value;
      if k <= p.rounds && AnsweredAt(p.answers, k) {
        PollingAnswered(e, p.answers, 0, k, p.rounds);
      }
      if forall i :: 0 <= i <= p.rounds ==> AnswerAt(p.answers, i) == Waits {
        PollingUnanswered(e, p.answers, 0, p.rounds);
      }
    }
  }

  /** After any number of processes with the same payable source, interrupted wherever,
      one that is left alone and sees finality in time pays. */
  lemma RetryPays(ps: seq<Process>, p: Process, before: Option<Envelope>, pending: Option<Envelope>, k: nat)
    requires Retried(ps, before) && p.source == ps[0].source && (pending.None? || pending == ps[0].source)
    requires p.life.None? && k <= p.rounds && AnsweredAt(p.answers, k) && AnswerAt(p.answers, k) == Finalizes
    ensures !Interrupted(Effects(p, pending), p.life) && NaturalExit(p, pending) == Paid
  {
    ProcessExactly(p, pending, k);
  }

  /** A payable envelope, spelled out. */
  lemma PayableExactly(e: Envelope)
    ensures Payable(e) <==>
              && e.operationType == "DEVELOPMENT_REWARD_PAY_MATURITY"
              && e.stage in {Some("MATURITY_STAGE_ONE"), Some("MATURITY_STAGE_TWO")}
              && (exists amount :: e.amount == Some(amount) && amount >= 1)
              && exists digest :: e.sourceTransition == Some(digest) && |digest| == 64
                                  && forall c :: c in digest ==> '0' <= c <= '9' || 'a' <= c <= 'f'
  {
    if e.sourceTransition.Some? {
      var digest := e.sourceTransition.value;
      assert forall i :: 0 <= i < |digest| ==> digest[i] in digest;
    }
  }

  /** Whatever the processes, only payable envelopes are ever staged, submitted or
      reported on. */
  lemma OnlyPayable(log: seq<Step>, j: nat)
    requires Lawful(log) && j < |log| && !log[j].Unlinked?
    ensures Payable(match log[j] case Staged(e) => e case Submitted(e) => e case Wrote(o) => o.e)
  {
    if log[j].Staged? {
      assert Allowed(log[..j], log[j]);
    } else {
      var i := StagedFirst(log, j);
      SubmissionsCarryStaged(log, i, j);
      assert Allowed(log[..i], log[i]);
    }
  }

  // ---------- The executor ----------

  class Workspace {
    var pending: Option<Envelope>
    var output: Option<Output>
    ghost var log: seq<Step>

    /** The pending file holds the open envelope of a lawful log. */
    ghost predicate Valid()
      reads this
    {
      Lawful(log) && Open(log) == pending
    }

    constructor ()
      ensures Valid() && log == [] && pending == None && output == None
    {
      pending, output, log := None, None, [];
    }

    method WriteOutput(o: Output)
      requires Valid() && pending == Some(o.e) && log != [] && log[|log| - 1] == Submitted(o.e)
      modifies this`output, this`log
      ensures Valid() && output == Some(o) && log == old(log) + [Wrote(o)]
    {
      LawfulAppend(log, Wrote(o));
      output := Some(o);
      log := log + [Wrote(o)];
    }

    /** `_load_or_stage_envelope`; a source that does not parse is None. */
    method LoadOrStage(source: Option<Envelope>) returns (staged: Option<Envelope>)
      requires Valid()
      modifies this`pending, this`log
      ensures Valid()
      ensures staged.Some? <==> source.Some? && Payable(source.value) && (old(pending).None? || old(pending) == source)
      ensures staged.Some? ==> staged == source == pending && log == old(log) + Staging(source.value, old(pending))
      ensures staged.None? ==> pending == old(pending) && log == old(log)
    {
      if source.None? || !Payable(source.value) { return None; }
      if pending.Some? {
        if pending.value != source.value { return None; }
      } else {
        LawfulAppend(log, Staged(source.value));
        pending := source;
        log := log + [Staged(source.value)];
      }
      return source;
    }

    method Submit(e: Envelope)
      requires Valid() && pending == Some(e)
      modifies this`log
      ensures Valid() && log == old(log) + [Submitted(e)]
    {
      LawfulAppend(log, Submitted(e));
      log := log + [Submitted(e)];
    }

    method Unlink(e: Envelope)
      requires Valid() && pending == Some(e) && log != [] && log[|log| - 1] == Wrote(Finalized(e))
      modifies this`pending, this`log
      ensures Valid() && pending == None && log == old(log) + [Unlinked]
    {
      LawfulAppend(log, Unlinked);
      pending := None;
      log := log + [Unlinked];
    }

    /** The finalized branch: record the result, then unlink, then report, as far as the
        process lives. */
    method Settle(e: Envelope, life: Option<nat>) returns (struck: bool)
      requires Valid() && pending == Some(e) && log != [] && log[|log| - 1] == Submitted(e)
      modifies this
      ensures Valid() && End(log, output, struck) == EndOf(old(log), old(output), [Wrote(Finalized(e)), Unlinked], life)
      ensures pending == if life == Some(0) || life == Some(1) then old(pending) else None
      ensures output == if life == Some(0) then old(output) else Some(Finalized(e))
    {
      SettleEnd(log, output, e, life);
      if life == Some(0) { return true; }
      WriteOutput(Finalized(e));
      if life == Some(1) { return true; }
      Unlink(e);
      return life == Some(2);
    }

    /** A result that leaves the envelope pending. */
    method Conclude(o: Output, life: Option<nat>) returns (struck: bool)
      requires Valid() && pending == Some(o.e) && log != [] && log[|log| - 1] == Submitted(o.e)
      modifies this`output, this`log
      ensures Valid() && End(log, output, struck) == EndOf(old(log), old(output), [Wrote(o)], life)
    {
      ConcludeEnd(log, output, o, life);
      if life == Some(0) { return true; }
      WriteOutput(o);
      return life == Some(1);
    }

    /** What the last poll leads to, as far as the process lives. */
    method EndPolling(e: Envelope, answer: Answer, life: Option<nat>) returns (struck: bool)
      requires Valid() && pending == Some(e) && log != [] && log[|log| - 1] == Submitted(e)
      modifies this
      ensures Valid() && End(log, output, struck) == EndOf(old(log), old(output), Ending(e, answer), life)
    {
      match answer {
        case Rejects => struck := Conclude(Rejected(e), life);
        case Finalizes => struck := Settle(e, life);
        case Waits => struck := Conclude(AwaitingFinality(e), life);
      }
    }

    /** The submit/reconcile loop: the effects of `Polling`, as far as the process lives. */
    method SubmitUntilFinal(e: Envelope, answers: seq<Answer>, rounds: nat, life: Option<nat>)
        returns (exit: Exit, struck: bool)
      requires Valid() && pending == Some(e)
      modifies this
      ensures Valid() && End(log, output, struck) == EndOf(old(log), old(output), Polling(e, answers, 0, rounds), life)
      ensures !struck ==> exit == PollingExit(answers, 0, rounds)
    {
      var round, left := 0, life;
      while true
        invariant Valid() && pending == Some(e) && round <= rounds
        invariant EndOf(log, output, Polling(e, answers, round, rounds), left)
                  == EndOf(old(log), old(output), Polling(e, answers, 0, rounds), life)
        invariant PollingExit(answers, round, rounds) == PollingExit(answers, 0, rounds)
        decreases rounds - round
      {
        if left == Some(0) {
          EndNow(log, output, Polling(e, answers, round, rounds));
          return Blocked, true;
        }
        EndNext(log, output, Submitted(e), AfterSubmit(e, answers, round, rounds), left);
        Submit(e);
        left := Older(left);
        if AnswerAt(answers, round) != Waits || round == rounds {
          struck := EndPolling(e, AnswerAt(answers, round), left);
          return if AnswerAt(answers, round) == Finalizes then Paid else NotPaid, struck;
        }
        round := round + 1;
      }
    }

    /** One process: the effects that its source, the pending file and the ledger's answers
        call for, as far as it lives. */
    method Execute(p: Process) returns (exit: Exit)
      requires Valid()
      modifies this
      ensures Valid() && log == old(log) + Taken(Effects(p, old(pending)), p.life)
      ensures exit == if Interrupted(Effects(p, old(pending)), p.life) then Struck(p.killed) else NaturalExit(p, old(pending))
      ensures output == LastOutput(old(output), Taken(Effects(p, old(pending)), p.life))
      ensures exit == Paid ==>
                && pending == None && p.source.Some? && output == Some(Finalized(p.source.value))
                && Settled(old(log), log, p.source.value)
      ensures old(pending).Some? && pending != old(pending) ==>
                && pending == None && p.source == old(pending) && output == Some(Finalized(old(pending).value))
                && Settled(old(log), log, old(pending).value)
      ensures pending == old(pending) || pending == None || (old(pending).None? && pending == p.source)
      ensures old(pending).Some? && old(pending) != p.source ==>
                (exit == Blocked || exit == Crashed) && log == old(log) && output == old(output)
    {
      exit := Perform(p);
      ProcessFacts(old(log), old(output), p, old(pending), log);
    }

    method Perform(p: Process) returns (exit: Exit)
      requires Valid()
      modifies this
      ensures Valid() && log == old(log) + Taken(Effects(p, old(pending)), p.life)
      ensures exit == if Interrupted(Effects(p, old(pending)), p.life) then Struck(p.killed) else NaturalExit(p, old(pending))
      ensures output == LastOutput(old(output), Taken(Effects(p, old(pending)), p.life))
    {
      if p.life == Some(0) { return Struck(p.killed); }
      var first := pending.None?;
      var staged := LoadOrStage(p.source);
      if staged.None? { return Blocked; }
      var e, left := staged.value, if first then Older(p.life) else p.life;
      StagingEnd(old(log), old(output), p, old(pending));
      var struck;
      exit, struck := SubmitUntilFinal(e, p.answers, p.rounds, left);
      if struck { exit := Struck(p.killed); }
    }

    /** Any number of processes one after the other, each with whatever the source file
        contains when it starts.  A pending envelope disappears only after its finality
        was written, whatever the processes reported. */
    method ExecuteAll(ps: seq<Process>) returns (exits: seq<Exit>)
      requires Valid()
      modifies this
      ensures Valid() && old(log) <= log && |exits| == |ps|
      ensures old(pending).Some? && pending != old(pending) ==>
                Recorded(old(log), log, old(pending).value)
      ensures PaidRecorded(old(log), log, ps, exits)
      ensures Retried(ps, old(pending)) ==> pending.None? || pending == ps[0].source
    {
      exits := [];
      for i := 0 to |ps|
        invariant Valid() && old(log) <= log && |exits| == i
        invariant old(pending).Some? && pending != old(pending) ==>
                    Recorded(old(log), log, old(pending).value)
        invariant PaidRecorded(old(log), log, ps, exits)
        invariant Retried(ps, old(pending)) ==> pending.None? || pending == ps[0].source
      {
        ghost var before := log;
        var exit := Execute(ps[i]);
        RecordedLater(old(log), before, log);
        PaidLater(old(log), before, log, ps, exits, exit);
        exits := exits + [exit];
      }
    }
  }

  /** All processes have the same payable source, and nothing different is pending. */
  ghost predicate Retried(ps: seq<Process>, pending: Option<Envelope>) {
    && ps != [] && Accepts(ps[0].source, pending)
    && forall i :: 0 <= i < |ps| ==> ps[i].source == ps[0].source
  }
}
