/** The TransactionCommit request handler: it puts one commit record per
    transaction id of the request, never stopping early, and folds the
    outcomes into a single acknowledgement code in which the last failure wins. */
module TransactionCommit {
  import opened Protocol

  datatype ProducerType = JMQ

  /** The producer the handler commits as; the source builds it from the
      request's topic (passed twice, as id and as topic) and app. */
  datatype Producer = Producer(id: string, topic: string, app: string, kind: ProducerType)

  /** One commit record handed to the produce service. */
  datatype BrokerCommit = BrokerCommit(topic: string, app: string, txId: string)

  datatype Request = Request(topic: string, app: string, txIds: seq<string>)

  /** What putting one commit record does: it returns normally, raises the
      broker's coded exception, or raises any other `Exception`. A Java
      `Error`, which the handler does not catch, is not an outcome here. */
  datatype Outcome = Ok | Coded(code: Code) | Unexpected

  /** The produce service: it answers each commit according to `answer` and
      keeps the records it was given, in order. `answered` logs the outcome
      of every put, so that what the handler reports can also be stated in
      terms of the outcomes actually returned. */
  class Produce {
    const answer: (Producer, BrokerCommit) -> Outcome
    var sent: seq<(Producer, BrokerCommit)>
    ghost var answered: seq<Outcome>

    constructor (answer: (Producer, BrokerCommit) -> Outcome)
      ensures this.answer == answer && sent == [] && answered == []
    {
      this.answer := answer;
      sent := [];
      answered := [];
    }

    method PutTransactionMessage(producer: Producer, commit: BrokerCommit) returns (outcome: Outcome)
      modifies this
      ensures sent == old(sent) + [(producer, commit)]
      ensures answered == old(answered) + [outcome]
      ensures outcome == answer(producer, commit)
    {
      sent := sent + [(producer, commit)];
      outcome := answer(producer, commit);
      answered := answered + [outcome];
    }
  }

  function ProducerOf(req: Request): (p: Producer)
    ensures p.topic == req.topic && p.app == req.app && p.kind == JMQ
  {
    Producer(req.topic, req.topic, req.app, JMQ)
  }

  /** The records the handler sends, one per transaction id, in request order. */
  function Commits(req: Request): (cs: seq<(Producer, BrokerCommit)>)
    ensures |cs| == |req.txIds|
    ensures forall k | 0 <= k < |cs| ::
      cs[k].0 == ProducerOf(req) && cs[k].1 == BrokerCommit(req.topic, req.app, req.txIds[k])
  {
    seq(|req.txIds|, k requires 0 <= k < |req.txIds| =>
      (ProducerOf(req), BrokerCommit(req.topic, req.app, req.txIds[k])))
  }

  /** How one outcome updates the accumulated code: a failure overwrites
      it with the failure's code, anything else leaves it alone. */
  function Step(code: Code, outcome: Outcome): (r: Code)
    ensures IsFailure(outcome) ==> r == FailureCode(outcome)
    ensures !IsFailure(outcome) ==> r == code
  {
    match outcome
    case Ok => code
    case Coded(c) => if c != Success then c else code
    case Unexpected => CnUnknownError
  }

  /** The accumulated code after a sequence of outcomes, starting from SUCCESS. */
  function Aggregate(outcomes: seq<Outcome>): (r: Code)
    ensures outcomes == [] ==> r == Success
    ensures outcomes != [] && IsFailure(outcomes[|outcomes| - 1]) ==> r == FailureCode(outcomes[|outcomes| - 1])
  {
    if outcomes == [] then Success
    else Step(Aggregate(outcomes[..|outcomes| - 1]), outcomes[|outcomes| - 1])
  }

  /** The outcomes of putting the request's records, in order. */
  function Outcomes(answer: (Producer, BrokerCommit) -> Outcome, req: Request): (os: seq<Outcome>)
    ensures |os| == |req.txIds|
    ensures forall k | 0 <= k < |os| :: os[k] == answer(Commits(req)[k].0, Commits(req)[k].1)
  {
    seq(|req.txIds|, k requires 0 <= k < |req.txIds| => answer(Commits(req)[k].0, Commits(req)[k].1))
  }

  /** An outcome that the handler reports: a coded exception other than SUCCESS, or any other `Exception`. */
  predicate IsFailure(outcome: Outcome) {
    outcome.Unexpected? || (outcome.Coded? && outcome.code != Success)
  }

  /** The code a failure reports. */
  function FailureCode(outcome: Outcome): Code
    requires IsFailure(outcome)
  {
    if outcome.Unexpected? then CnUnknownError else outcome.code
  }

  /** The handler: every transaction id is attempted, whatever happened to the earlier ones. */
  method Handle(produce: Produce, req: Request) returns (code: Code)
    modifies produce
    ensures produce.sent == old(produce.sent) + Commits(req)
    ensures code == Aggregate(Outcomes(produce.answer, req))
    ensures produce.answered == old(produce.answered) + Outcomes(produce.answer, req)
    ensures code == Aggregate(produce.answered[|old(produce.answered)|..])
  {
    var producer := ProducerOf(req);
    code := Success;
    for i := 0 to |req.txIds|
      invariant produce.sent == old(produce.sent) + Commits(req)[..i]
      invariant code == Aggregate(Outcomes(produce.answer, req)[..i])
      invariant produce.answered == old(produce.answered) + Outcomes(produce.answer, req)[..i]
      invariant code == Aggregate(produce.answered[|old(produce.answered)|..])
    {
      var commit := BrokerCommit(req.topic, req.app, req.txIds[i]);
      var outcome := produce.PutTransactionMessage(producer, commit);
      assert Outcomes(produce.answer, req)[..i + 1] == Outcomes(produce.answer, req)[..i] + [outcome];
      assert produce.answered[|old(produce.answered)|..] == Outcomes(produce.answer, req)[..i + 1];
      match outcome {
        case Ok =>
        case Coded(c) =>
          if c != Success {
            code := c;
          }
        case Unexpected =>
          code := CnUnknownError;
      }
      assert Commits(req)[..i + 1] == Commits(req)[..i] + [(producer, commit)];
      assert Outcomes(produce.answer, req)[..i + 1][..i] == Outcomes(produce.answer, req)[..i];
    }
    assert Commits(req)[..|req.txIds|] == Commits(req);
    assert Outcomes(produce.answer, req)[..|req.txIds|] == Outcomes(produce.answer, req);
    assert produce.answered[|old(produce.answered)|..] == Outcomes(produce.answer, req);
  }

  /** The result is SUCCESS exactly when no outcome is a failure; in
      particular an empty request, or one whose every put succeeded, is
      acknowledged with SUCCESS. */
  lemma {:induction false} SuccessIffNoFailure(outcomes: seq<Outcome>)
    ensures Aggregate(outcomes) == Success <==> forall k | 0 <= k < |outcomes| :: !IsFailure(outcomes[k])
  {
    if outcomes != [] {
      var init := outcomes[..|outcomes| - 1];
      SuccessIffNoFailure(init);
      assert forall k | 0 <= k < |init| :: init[k] == outcomes[k];
    }
  }

  /** The last failure wins: the result is the code of the last failing
      outcome, since a later failure overwrites an earlier one and a success
      never resets it. */
  lemma {:induction false} LastFailureWins(outcomes: seq<Outcome>, j: nat)
    requires j < |outcomes| && IsFailure(outcomes[j])
    requires forall k | j < k < |outcomes| :: !IsFailure(outcomes[k])
    ensures Aggregate(outcomes) == FailureCode(outcomes[j])
  {
    if j < |outcomes| - 1 {
      var init := outcomes[..|outcomes| - 1];
      assert init[j] == outcomes[j];
      assert forall k | j < k < |init| :: init[k] == outcomes[k];
      LastFailureWins(init, j);
    }
  }

  /** Non-failures are invisible: dropping an outcome that is not a failure
      (a normal return, or a coded exception carrying SUCCESS) from anywhere
      in the sequence leaves the result unchanged. */
  lemma {:induction false} NonFailureIsInvisible(before: seq<Outcome>, outcome: Outcome, after: seq<Outcome>)
    requires !IsFailure(outcome)
    ensures Aggregate(before + [outcome] + after) == Aggregate(before + after)
    decreases |after|
  {
    if after == [] {
      assert (before + [outcome] + after)[..|before|] == before;
      assert before + after == before;
    } else {
      var init := after[..|after| - 1];
      var last := after[|after| - 1];
      NonFailureIsInvisible(before, outcome, init);
      assert (before + [outcome] + after)[..|before| + |after|] == before + [outcome] + init;
      assert (before + after)[..|before| + |after| - 1] == before + init;
    }
  }
}
