/** Messages, verdicts, errors and the handler configuration of the batch consumer. */
module BatchTypes {
  datatype Option<+T> = None | Some(value: T)

  function Max(a: int, b: int): int {
    if a >= b then a else b
  }

  /** The sentinel errors that errors.Is can find in the chain of an error. */
  datatype Sentinel = MissingResult | HandlerPanic | Poison | AttemptsExhausted | OrderBlocked

  /** An error: its identity and the sentinels it wraps. */
  datatype Error = Error(id: int, chain: set<Sentinel>)

  const ERR_MISSING_RESULT := Error(1, {MissingResult})
  const ERR_HANDLER_PANIC := Error(2, {HandlerPanic})
  const ERR_ATTEMPTS_EXHAUSTED := Error(3, {AttemptsExhausted})
  const ERR_ORDER_BLOCKED := Error(4, {OrderBlocked})

  datatype Verdict = VerdictNak | VerdictAck | VerdictNakDelay | VerdictTerm | VerdictSkip

  /** after is 1 + the index of the previous non-acked message of the same order key, 0 for none. */
  datatype Result = Result(verdict: Verdict, delay: int, err: Option<Error>, after: nat)

  function Ack(): Result { Result(VerdictAck, 0, None, 0) }

  function Nak(err: Error): Result { Result(VerdictNak, 0, Some(err), 0) }

  function NakDelay(delay: int, err: Error): Result { Result(VerdictNakDelay, delay, Some(err), 0) }

  predicate SettlesAsAck(verdict: Verdict) {
    verdict == VerdictAck || verdict == VerdictSkip
  }

  predicate Acked(result: Result) {
    SettlesAsAck(result.verdict)
  }

  /** What the key functions of InTxOpts read from a message. */
  datatype Msg = Msg(key: string, orderKey: string)

  /** The handler's answer inside one transaction. Apply that returns nil is Answered with any results. */
  datatype Reply = Panicked | Refused(err: Error) | Answered(results: seq<Result>)

  /** What happens around the handler: keys other consumers committed since, and database errors. */
  datatype Surroundings = Surroundings(arrivals: set<string>,
                                       claimErr: Option<Error>,
                                       releaseErr: Option<Error>,
                                       commitErr: Option<Error>)

  /** An adversary: it answers the t-th transaction of a batch for the selected message indexes. */
  datatype Oracle = Oracle(around: nat -> Surroundings, apply: (nat, seq<nat>) -> Reply)

  /** The options of InTx and the batch one handle call works on. */
  datatype Ctx = Ctx(dedup: bool,
                     ordered: bool,
                     perMessage: bool,
                     transientDelay: int,
                     transient: Error -> bool,
                     msgs: seq<Msg>,
                     oracle: Oracle)
  {
    function Key(i: nat): string
      requires i < |msgs|
    {
      msgs[i].key
    }

    function OrderKey(i: nat): string
      requires i < |msgs|
    {
      msgs[i].orderKey
    }
  }

  ghost predicate InRange(c: Ctx, idxs: seq<nat>) {
    forall p :: 0 <= p < |idxs| ==> idxs[p] < |c.msgs|
  }

  ghost predicate Ascending(idxs: seq<nat>) {
    forall p, q :: 0 <= p < q < |idxs| ==> idxs[p] < idxs[q]
  }

  function Keys(c: Ctx, idxs: seq<nat>): set<string>
    requires InRange(c, idxs)
  {
    set i | i in idxs :: c.Key(i)
  }

  /** The result of a held message. */
  function Blocked(c: Ctx): Result {
    NakDelay(c.transientDelay, ERR_ORDER_BLOCKED)
  }

  function TransientResult(c: Ctx, err: Error): Result {
    if c.transientDelay > 0 then NakDelay(c.transientDelay, err) else Nak(err)
  }

  lemma AppendAssociates<T>(a: seq<T>, b: seq<T>, c: seq<T>)
    ensures (a + b) + c == a + (b + c)
  {
  }
}
