/** One settle pass: results become acks, terms and naks, with delay floors between messages of one order key. */
module Settling {
  import opened BatchTypes
  import opened Links
  import opened FrameSettlement

  /** What the consumer was built with; onPoison says whether there is a poison handler. */
  datatype Settings = Settings(delays: seq<int>, maxAttempts: int, maxDeliver: int, onPoison: bool)

  /** A delivered message: the frame it is an element of, and its delivery count when the metadata can be read. */
  datatype Delivery = Delivery(frame: Option<nat>, delivered: Option<nat>)

  /** What a message is told. */
  datatype Op = AckOp | TermOp | NakOp(delay: int)

  datatype Kind = SettledAck | SettledSkip | SettledPoison | SettledRetry | SettledBlocked

  datatype Decision = Done(kind: Kind) | HandOff(reason: Option<Error>) | Return(kind: Kind, delay: int)

  /** Delays are positive and there is one, the poison handler's answer for message i is accepts(i). */
  datatype Pass = Pass(cfg: Settings, msgs: seq<Delivery>, results: seq<Result>, accepts: nat -> bool)

  ghost predicate ValidSettings(cfg: Settings) {
    cfg.delays != [] && forall k :: 0 <= k < |cfg.delays| ==> cfg.delays[k] > 0
  }

  /** MaxAttempts as the options resolve it: 0 means one more than the delays, below -1 is refused. */
  function ResolvedAttempts(opt: int, delays: seq<int>): Option<int> {
    if opt == 0 then Some(|delays| + 1) else if opt < -1 then None else Some(opt)
  }

  /** The check of MaxDeliver against MaxAttempts. */
  predicate Accepted(cfg: Settings) {
    !(cfg.maxDeliver > 0 && (cfg.maxAttempts < 0 || cfg.maxDeliver <= cfg.maxAttempts))
  }

  predicate Is(err: Option<Error>, sentinel: Sentinel) {
    err.Some? && sentinel in err.value.chain
  }

  /** Unreadable metadata counts as a first delivery. */
  function NumDelivered(d: Delivery): nat {
    if d.delivered.Some? then d.delivered.value else 1
  }

  function DelayFor(cfg: Settings, delivered: nat): int
    requires ValidSettings(cfg)
  {
    var index := if delivered > 1 then delivered - 1 else 0;
    cfg.delays[if index >= |cfg.delays| then |cfg.delays| - 1 else index]
  }

  function ExhaustedBy(err: Option<Error>): Error {
    Error(if err.Some? then err.value.id else 0, {AttemptsExhausted} + (if err.Some? then err.value.chain else {}))
  }

  function Decide(cfg: Settings, d: Delivery, r: Result, floor: int): Decision
    requires ValidSettings(cfg)
  {
    match r.verdict
    case VerdictAck => Done(SettledAck)
    case VerdictSkip => Done(SettledSkip)
    case VerdictTerm => HandOff(r.err)
    case _ =>
      var delivered := NumDelivered(d);
      if Is(r.err, OrderBlocked) then
        if cfg.maxDeliver > 0 && delivered >= cfg.maxDeliver then HandOff(Some(ExhaustedBy(r.err)))
        else Return(SettledBlocked, Max(if r.delay > 0 then r.delay else DelayFor(cfg, delivered), floor))
      else if Is(r.err, Poison) then HandOff(r.err)
      else if cfg.maxAttempts > 0 && delivered >= cfg.maxAttempts then
        HandOff(Some(if r.err.Some? then r.err.value else ERR_ATTEMPTS_EXHAUSTED))
      else
        Return(SettledRetry,
               Max(if r.verdict == VerdictNakDelay && r.delay > 0 then r.delay else DelayFor(cfg, delivered), floor))
  }

  /** Term only after the poison handler accepted the message, or when there is none. */
  function OpOf(cfg: Settings, accepted: bool, decision: Decision): Op
    requires ValidSettings(cfg)
  {
    match decision
    case Done(_) => AckOp
    case HandOff(_) => if !cfg.onPoison || accepted then TermOp else NakOp(cfg.delays[0])
    case Return(_, delay) => NakOp(delay)
  }

  function KindOf(decision: Decision): Kind {
    match decision
    case Done(kind) => kind
    case HandOff(_) => SettledPoison
    case Return(kind, _) => kind
  }

  /** The delay a decision reports to the messages behind it. */
  function Reported(decision: Decision): int {
    if decision.Return? then decision.delay else 0
  }

  function ResultAt(p: Pass, i: nat): Result {
    if i < |p.results| then p.results[i] else Nak(ERR_MISSING_RESULT)
  }

  predicate SameFrame(a: Delivery, b: Delivery) {
    a.frame.Some? && a.frame == b.frame
  }

  /** The first message of the run of elements that message i belongs to. */
  function Start(msgs: seq<Delivery>, i: nat): (start: nat)
    requires i < |msgs|
    ensures start <= i
  {
    if i > 0 && SameFrame(msgs[i - 1], msgs[i]) then Start(msgs, i - 1) else i
  }

  /** The return time of the message that result refers to, or 0. */
  function Floor(p: Pass, times: seq<int>, i: nat): int
    requires i < |p.msgs| == |times|
  {
    var after := ResultAt(p, i).after;
    if after == 0 || after > i then 0 else times[Start(p.msgs, after - 1)]
  }

  /** The return times by frame start, after the first n messages. */
  function Returns(p: Pass, n: nat): (times: seq<int>)
    requires n <= |p.msgs| && ValidSettings(p.cfg)
    ensures |times| == |p.msgs|
  {
    if n == 0 then seq(|p.msgs|, _ => 0)
    else
      var times, i := Returns(p, n - 1), n - 1;
      var floor, start := Floor(p, times, i), Start(p.msgs, i);
      times[start := Max(times[start], Max(Reported(Decide(p.cfg, p.msgs[i], ResultAt(p, i), floor)), floor))]
  }

  function FloorOf(p: Pass, i: nat): int
    requires i < |p.msgs| && ValidSettings(p.cfg)
  {
    Floor(p, Returns(p, i), i)
  }

  function DecisionOf(p: Pass, i: nat): Decision
    requires i < |p.msgs| && ValidSettings(p.cfg)
  {
    Decide(p.cfg, p.msgs[i], ResultAt(p, i), FloorOf(p, i))
  }

  function OpAt(p: Pass, i: nat): Op
    requires i < |p.msgs| && ValidSettings(p.cfg)
  {
    OpOf(p.cfg, p.accepts(i), DecisionOf(p, i))
  }

  /** The elements of one frame stand next to each other, as unpacking leaves them. */
  ghost predicate Contiguous(msgs: seq<Delivery>) {
    forall i, j, k :: 0 <= i < j < k < |msgs| && SameFrame(msgs[i], msgs[k]) ==> SameFrame(msgs[i], msgs[j])
  }

  /** A fetched message is one of its own, a frame with some elements, or a frame that cannot be unpacked. */
  datatype Content = Alone | Frame(elements: nat) | Broken

  datatype Fetched = Fetched(content: Content, delivered: Option<nat>)

  function Repeat(d: Delivery, n: nat): (r: seq<Delivery>)
    ensures |r| == n && forall i :: 0 <= i < n ==> r[i] == d
  {
    seq(n, _ => d)
  }

  /** The messages that the frame-th message of a batch becomes; a broken frame is handed off as a whole. */
  function ElementsOf(m: Fetched, frame: nat): seq<Delivery> {
    match m.content
    case Alone => [Delivery(None, m.delivered)]
    case Frame(n) => Repeat(Delivery(Some(frame), m.delivered), n)
    case Broken => []
  }

  /** The batch the handler sees: every frame is replaced by its elements, in place. */
  function Unpacked(batch: seq<Fetched>, frame: nat): seq<Delivery> {
    if batch == [] then [] else ElementsOf(batch[0], frame) + Unpacked(batch[1..], frame + 1)
  }

  ghost predicate FramesFrom(msgs: seq<Delivery>, frame: nat) {
    forall i :: 0 <= i < |msgs| && msgs[i].frame.Some? ==> msgs[i].frame.value >= frame
  }

  /** Elements of one frame, or one message of its own, in front of later frames. */
  lemma ContiguousBehind(first: seq<Delivery>, rest: seq<Delivery>, frame: nat)
    requires forall i :: 0 <= i < |first| ==> first[i].frame == Some(frame) || (first[i].frame == None && |first| == 1)
    requires Contiguous(rest) && FramesFrom(rest, frame + 1)
    ensures Contiguous(first + rest) && FramesFrom(first + rest, frame)
  {
    var msgs, n := first + rest, |first|;
    assert forall i, k :: 0 <= i < n && n <= k < |msgs| ==> !SameFrame(msgs[i], msgs[k]);
    forall i, j, k | 0 <= i < j < k < |msgs| && SameFrame(msgs[i], msgs[k]) ensures SameFrame(msgs[i], msgs[j]) {
      if i >= n {
        assert SameFrame(rest[i - n], rest[k - n]);
      }
    }
  }

  /** Unpacking leaves the elements of a frame next to each other. */
  lemma {:induction false} UnpackedIsContiguous(batch: seq<Fetched>, frame: nat)
    ensures Contiguous(Unpacked(batch, frame)) && FramesFrom(Unpacked(batch, frame), frame)
  {
    hide Contiguous, FramesFrom;
    if batch == [] {
      NoneIsContiguous(frame);
    } else {
      UnpackedIsContiguous(batch[1..], frame + 1);
      ContiguousBehind(ElementsOf(batch[0], frame), Unpacked(batch[1..], frame + 1), frame);
    }
  }

  function Size(m: Fetched): nat {
    match m.content
    case Alone => 1
    case Frame(n) => n
    case Broken => 0
  }

  function SizeOf(batch: seq<Fetched>): nat {
    if batch == [] then 0 else Size(batch[0]) + SizeOf(batch[1..])
  }

  /** Unpacking loses and adds nothing: element j of the k-th message has its place behind all messages before it, belongs
      to the frame if there is one, and has the delivery count of the message. */
  lemma {:induction false} UnpackedIsWhole(batch: seq<Fetched>, frame: nat, k: nat, j: nat)
    ensures |Unpacked(batch, frame)| == SizeOf(batch)
    ensures k < |batch| && j < Size(batch[k]) ==>
      var at := SizeOf(batch[..k]) + j;
      at < SizeOf(batch)
      && Unpacked(batch, frame)[at] == Delivery(if batch[k].content.Frame? then Some(frame + k) else None, batch[k].delivered)
  {
    if batch != [] {
      UnpackedIsWhole(batch[1..], frame + 1, if k > 0 then k - 1 else 0, j);
      if 0 < k < |batch| {
        assert batch[..k][1..] == batch[1..][..k - 1];
      }
    }
  }

  lemma NoneIsContiguous(frame: nat)
    ensures Contiguous([]) && FramesFrom([], frame)
  {
  }

  /** i and j are settled as one message. */
  predicate Together(msgs: seq<Delivery>, i: nat, j: nat)
    requires i < |msgs| && j < |msgs|
  {
    i == j || SameFrame(msgs[i], msgs[j])
  }

  lemma {:induction false} StartTogether(msgs: seq<Delivery>, i: nat)
    requires i < |msgs|
    ensures Together(msgs, Start(msgs, i), i)
  {
    if i > 0 && SameFrame(msgs[i - 1], msgs[i]) {
      StartTogether(msgs, i - 1);
    }
  }

  lemma {:induction false} TogetherStart(msgs: seq<Delivery>, i: nat, j: nat)
    requires i <= j < |msgs| && Contiguous(msgs)
    ensures Together(msgs, i, j) <==> Start(msgs, i) == Start(msgs, j)
  {
    if i < j && SameFrame(msgs[i], msgs[j]) {
      assert SameFrame(msgs[i], msgs[j - 1]) || i == j - 1;
      TogetherStart(msgs, i, j - 1);
    } else if Start(msgs, i) == Start(msgs, j) {
      StartTogether(msgs, i);
      StartTogether(msgs, j);
    }
  }

  /** A return time never shrinks. */
  lemma {:induction false} ReturnsGrow(p: Pass, m: nat, n: nat, k: nat)
    requires m <= n <= |p.msgs| && k < |p.msgs| && ValidSettings(p.cfg)
    ensures Returns(p, m)[k] <= Returns(p, n)[k]
  {
    hide Decide, Floor, Start;
    if m < n {
      ReturnsGrow(p, m, n - 1, k);
    }
  }

  /** A return time covers what every message of the frame reported and its own floor. */
  lemma ReturnsCover(p: Pass, i: nat, n: nat)
    requires i < n <= |p.msgs| && ValidSettings(p.cfg)
    ensures Returns(p, n)[Start(p.msgs, i)] >= Reported(DecisionOf(p, i))
    ensures Returns(p, n)[Start(p.msgs, i)] >= FloorOf(p, i)
  {
    hide Returns, Decide, Floor, Start;
    ReturnsStep(p, i);
    ReturnsGrow(p, i + 1, n, Start(p.msgs, i));
  }

  lemma ReturnsStep(p: Pass, i: nat)
    requires i < |p.msgs| && ValidSettings(p.cfg)
    ensures Returns(p, i + 1) ==
      Returns(p, i)[Start(p.msgs, i) := Max(Returns(p, i)[Start(p.msgs, i)], Max(Reported(DecisionOf(p, i)), FloorOf(p, i)))]
  {
    hide Decide, Floor, Start;
  }

  /** Message j comes back after message i: j is not acked, has the order key of i and is behind it. */
  lemma {:induction false} FloorCovers(c: Ctx, p: Pass, answers: seq<Result>, i: nat, j: nat, k: nat)
    requires |answers| == |c.msgs| == |p.msgs| && p.results == LinkAll(c, answers)
    requires ValidSettings(p.cfg) && Contiguous(p.msgs)
    requires i < j < |p.msgs| && c.OrderKey(i) == c.OrderKey(j)
    requires !Acked(p.results[i]) && !Acked(p.results[j])
    requires !Together(p.msgs, i, j)
    requires k < |p.msgs| && Together(p.msgs, i, k)
    ensures FloorOf(p, j) >= Reported(DecisionOf(p, k))
    decreases j
  {
    hide Decide, Returns;
    var previous := LastFailed(c, answers, c.OrderKey(j), j);
    assert Acked(p.results[i]) == Acked(answers[i]) && Acked(p.results[j]) == Acked(answers[j]);
    assert previous.Some? && i <= previous.value;
    var h := previous.value;
    assert FloorOf(p, j) == Returns(p, j)[Start(p.msgs, h)];
    if Together(p.msgs, i, h) {
      FrameBefore(p.msgs, i, j, k);
      ReturnsCover(p, k, j);
      SameStart(p.msgs, h, k);
    } else {
      FloorCovers(c, p, answers, i, h, k);
      ReturnsCover(p, h, j);
    }
  }

  lemma SameStart(msgs: seq<Delivery>, i: nat, j: nat)
    requires i < |msgs| && j < |msgs| && Contiguous(msgs) && Together(msgs, i, j)
    ensures Start(msgs, i) == Start(msgs, j)
  {
    if i <= j {
      TogetherStart(msgs, i, j);
    } else {
      TogetherStart(msgs, j, i);
    }
  }

  /** All elements of an earlier frame are settled before message j. */
  lemma FrameBefore(msgs: seq<Delivery>, i: nat, j: nat, k: nat)
    requires i < j < |msgs| && k < |msgs| && Contiguous(msgs)
    requires Together(msgs, i, k) && !Together(msgs, i, j)
    ensures k < j
  {
  }

  /** Message k was handed off, refused and sent back. */
  predicate Refused(p: Pass, k: nat)
    requires k < |p.msgs| && ValidSettings(p.cfg)
  {
    DecisionOf(p, k).HandOff? && p.cfg.onPoison && !p.accepts(k)
  }

  /** What the elements settled together with message i ask their shared message for. */
  function Asked(p: Pass, i: nat): map<nat, Outcome>
    requires i < |p.msgs| && ValidSettings(p.cfg)
  {
    map k: nat | k < |p.msgs| && Together(p.msgs, i, k) ::
      match OpAt(p, k)
      case NakOp(delay) => Outcome(true, delay)
      case _ => Outcome(false, 0)
  }

  /** Return-time order: for i before j of one order key in different frames, j asks for a delay, and its
      shared message gets one, that is not shorter than the final delay of the shared message of i. The
      floor passes through the poisoned messages in between. */
  lemma ReturnTimeOrder(c: Ctx, p: Pass, answers: seq<Result>, i: nat, j: nat, early: int, late: int)
    requires |answers| == |c.msgs| == |p.msgs| && p.results == LinkAll(c, answers)
    requires ValidSettings(p.cfg) && Contiguous(p.msgs)
    requires i < j < |p.msgs| && c.OrderKey(i) == c.OrderKey(j) && !Together(p.msgs, i, j)
    requires !Acked(p.results[i]) && OpAt(p, j).NakOp?
    requires !Refused(p, j) && forall k :: 0 <= k < |p.msgs| && Together(p.msgs, i, k) ==> !Refused(p, k)
    requires Longest(Asked(p, i), early) && Longest(Asked(p, j), late)
    ensures early <= OpAt(p, j).delay <= late
  {
    hide Returns, Floor, LinkAll, Decide;
    DelaysArePositive(p, j);
    DecisionCoversFloor(p, j);
    assert Asked(p, j)[j] == Outcome(true, OpAt(p, j).delay);
    assert p.results[j] == ResultAt(p, j);
    if early > 0 {
      var k :| k in Asked(p, i) && Asked(p, i)[k] == Outcome(true, early);
      assert OpAt(p, k) == NakOp(early) && !Refused(p, k);
      assert Reported(DecisionOf(p, k)) == early;
      FloorCovers(c, p, answers, i, j, k);
    }
  }

  lemma DecisionCoversFloor(p: Pass, j: nat)
    requires j < |p.msgs| && ValidSettings(p.cfg)
    ensures DecisionOf(p, j).Return? ==> DecisionOf(p, j).delay >= FloorOf(p, j)
    ensures OpAt(p, j).NakOp? && !Refused(p, j) ==> DecisionOf(p, j).Return?
    ensures OpAt(p, j).NakOp? ==> !Acked(ResultAt(p, j))
  {
    hide Returns, Floor;
  }

  lemma DelaysArePositive(p: Pass, j: nat)
    requires j < |p.msgs| && ValidSettings(p.cfg)
    ensures DecisionOf(p, j).Return? ==> DecisionOf(p, j).delay > 0
  {
    hide Returns, Floor;
  }

  /** A message that is not acked is on its last server delivery. */
  ghost predicate OnLastDelivery(cfg: Settings, d: Delivery) {
    cfg.maxDeliver > 0 && d.delivered.Some? && d.delivered.value >= cfg.maxDeliver
  }

  /** Whatever the result, a message that is not acked on its last server delivery is handed off. */
  ghost predicate NeverWasted(cfg: Settings)
    requires ValidSettings(cfg)
  {
    forall d: Delivery, r: Result, floor: int ::
      OnLastDelivery(cfg, d) && !Acked(r) ==> Decide(cfg, d, r, floor).HandOff?
  }

  /** Last deliveries are never wasted exactly under these bounds, which the accepted configurations meet. */
  lemma LastDeliveryNeverWasted(cfg: Settings)
    requires ValidSettings(cfg)
    ensures NeverWasted(cfg) <==> cfg.maxDeliver <= 0 || 1 <= cfg.maxAttempts <= cfg.maxDeliver
  {
    if cfg.maxDeliver > 0 && !(1 <= cfg.maxAttempts <= cfg.maxDeliver) {
      var d, r := Delivery(None, Some(cfg.maxDeliver)), Nak(Error(0, {}));
      assert OnLastDelivery(cfg, d) && !Acked(r) && !Decide(cfg, d, r, 0).HandOff?;
    }
  }

  /** A delivery whose count cannot be read is treated as a first one, whatever the server has counted: it is
      handed off for every failed result exactly when the first delivery exhausts both bounds. */
  lemma UnreadableDeliveryIsWasted(cfg: Settings, frame: Option<nat>)
    requires ValidSettings(cfg)
    ensures (forall r: Result, floor: int :: !Acked(r) ==> Decide(cfg, Delivery(frame, None), r, floor).HandOff?)
      <==> cfg.maxDeliver == 1 && cfg.maxAttempts == 1
    ensures Accepted(cfg) ==>
      exists r: Result, floor: int :: !Acked(r) && Decide(cfg, Delivery(frame, None), r, floor).Return?
  {
    var d := Delivery(frame, None);
    if cfg.maxAttempts != 1 {
      assert !Acked(Nak(Error(0, {}))) && Decide(cfg, d, Nak(Error(0, {})), 0).Return?;
    } else if cfg.maxDeliver != 1 {
      assert !Acked(Nak(ERR_ORDER_BLOCKED)) && Decide(cfg, d, Nak(ERR_ORDER_BLOCKED), 0).Return?;
    }
  }

  /** A configuration is accepted if and only if it never wastes a last delivery and leaves a delivery for a refused
      hand-off: the first delivery that exhausts the attempts is not the last one. */
  lemma AcceptedNeverWastes(cfg: Settings, opt: int)
    requires ValidSettings(cfg) && ResolvedAttempts(opt, cfg.delays) == Some(cfg.maxAttempts)
    ensures Accepted(cfg) <==>
      NeverWasted(cfg) && forall d: Delivery :: d.delivered == Some(cfg.maxAttempts) ==> !OnLastDelivery(cfg, d)
  {
    hide NeverWasted;
    LastDeliveryNeverWasted(cfg);
    if cfg.maxDeliver > 0 && cfg.maxAttempts > 0 {
      assert Delivery(None, Some(cfg.maxAttempts)).delivered == Some(cfg.maxAttempts);
    }
  }

  /** A message is terminated only when it was decided to hand it off and the hand-off was accepted or there
      is no poison handler; a message on its last delivery is never told to come back by a decision. */
  lemma TermOnlyAfterHandOff(p: Pass, i: nat)
    requires i < |p.msgs| && ValidSettings(p.cfg)
    ensures OpAt(p, i).TermOp? <==> DecisionOf(p, i).HandOff? && !Refused(p, i)
    ensures OpAt(p, i).AckOp? <==> Acked(ResultAt(p, i))
    ensures NeverWasted(p.cfg) && OnLastDelivery(p.cfg, p.msgs[i]) && !Acked(ResultAt(p, i)) ==>
      DecisionOf(p, i).HandOff? && (OpAt(p, i).TermOp? || Refused(p, i))
  {
    hide Returns, Floor;
  }

  /** One call on a message, and one call of the poison handler. */
  datatype Call = Told(index: nat, op: Op) | Handed(index: nat, reason: Option<Error>)

  /** The calls that settle message i. */
  function CallsFor(p: Pass, i: nat): seq<Call>
    requires i < |p.msgs| && ValidSettings(p.cfg)
  {
    var decision := DecisionOf(p, i);
    (if decision.HandOff? && p.cfg.onPoison then [Handed(i, decision.reason)] else []) + [Told(i, OpAt(p, i))]
  }

  function Calls(p: Pass, n: nat): seq<Call>
    requires n <= |p.msgs| && ValidSettings(p.cfg)
  {
    if n == 0 then [] else Calls(p, n - 1) + CallsFor(p, n - 1)
  }

  function Kinds(p: Pass, n: nat): seq<Kind>
    requires n <= |p.msgs| && ValidSettings(p.cfg)
  {
    if n == 0 then [] else Kinds(p, n - 1) + [KindOf(DecisionOf(p, n - 1))]
  }

  lemma PassBegins(p: Pass)
    requires ValidSettings(p.cfg)
    ensures Returns(p, 0) == seq(|p.msgs|, _ => 0) && Calls(p, 0) == [] && Kinds(p, 0) == []
  {
  }

  lemma PassGoesOn(p: Pass, i: nat)
    requires i < |p.msgs| && ValidSettings(p.cfg)
    ensures var decision := Decide(p.cfg, p.msgs[i], ResultAt(p, i), FloorOf(p, i));
      && Returns(p, i + 1) ==
           Returns(p, i)[Start(p.msgs, i) := Max(Returns(p, i)[Start(p.msgs, i)], Max(Reported(decision), FloorOf(p, i)))]
      && Calls(p, i + 1) == Calls(p, i)
           + ((if decision.HandOff? && p.cfg.onPoison then [Handed(i, decision.reason)] else [])
              + [Told(i, OpOf(p.cfg, p.accepts(i), decision))])
      && Kinds(p, i + 1) == Kinds(p, i) + [KindOf(decision)]
  {
    hide Decide, Start, Returns, OpOf;
    ReturnsStep(p, i);
  }

  class Consumer {
    const cfg: Settings
    const accepts: nat -> bool
    var calls: seq<Call>

    constructor (cfg: Settings, accepts: nat -> bool)
      ensures this.cfg == cfg && this.accepts == accepts && calls == []
    {
      this.cfg, this.accepts := cfg, accepts;
      calls := [];
    }

    method SendPoison(i: nat, reason: Option<Error>)
      requires ValidSettings(cfg)
      modifies this
      ensures calls == old(calls) + (if cfg.onPoison then [Handed(i, reason)] else [])
        + [Told(i, OpOf(cfg, accepts(i), HandOff(reason)))]
    {
      if !cfg.onPoison {
        calls := calls + [Told(i, TermOp)];
        return;
      }
      calls := calls + [Handed(i, reason)];
      if !accepts(i) {
        calls := calls + [Told(i, NakOp(cfg.delays[0]))];
        return;
      }
      calls := calls + [Told(i, TermOp)];
    }

    method Hold(i: nat, d: Delivery, r: Result, floor: int) returns (kind: Kind, delay: int)
      requires ValidSettings(cfg) && !Acked(r) && r.verdict != VerdictTerm && Is(r.err, OrderBlocked)
      modifies this
      ensures var decision := Decide(cfg, d, r, floor);
        && kind == KindOf(decision) && delay == Reported(decision)
        && calls == old(calls) + (if decision.HandOff? && cfg.onPoison then [Handed(i, decision.reason)] else [])
          + [Told(i, OpOf(cfg, accepts(i), decision))]
    {
      var delivered := NumDelivered(d);
      if cfg.maxDeliver > 0 && delivered >= cfg.maxDeliver {
        SendPoison(i, Some(ExhaustedBy(r.err)));
        return SettledPoison, 0;
      }
      delay := DelayFor(cfg, delivered);
      if r.delay > 0 {
        delay := r.delay;
      }
      delay := Max(delay, floor);
      calls := calls + [Told(i, NakOp(delay))];
      return SettledBlocked, delay;
    }

    method Retry(i: nat, d: Delivery, r: Result, floor: int) returns (kind: Kind, delay: int)
      requires ValidSettings(cfg) && !Acked(r) && r.verdict != VerdictTerm
      modifies this
      ensures var decision := Decide(cfg, d, r, floor);
        && kind == KindOf(decision) && delay == Reported(decision)
        && calls == old(calls) + (if decision.HandOff? && cfg.onPoison then [Handed(i, decision.reason)] else [])
          + [Told(i, OpOf(cfg, accepts(i), decision))]
    {
      if Is(r.err, OrderBlocked) {
        kind, delay := Hold(i, d, r, floor);
        return;
      }
      if Is(r.err, Poison) {
        SendPoison(i, r.err);
        return SettledPoison, 0;
      }
      var delivered := NumDelivered(d);
      if cfg.maxAttempts > 0 && delivered >= cfg.maxAttempts {
        var reason := r.err;
        if reason.None? {
          reason := Some(ERR_ATTEMPTS_EXHAUSTED);
        }
        SendPoison(i, reason);
        return SettledPoison, 0;
      }
      delay := DelayFor(cfg, delivered);
      if r.verdict == VerdictNakDelay && r.delay > 0 {
        delay := r.delay;
      }
      delay := Max(delay, floor);
      calls := calls + [Told(i, NakOp(delay))];
      return SettledRetry, delay;
    }

    method Apply(i: nat, d: Delivery, r: Result, floor: int) returns (kind: Kind, delay: int)
      requires ValidSettings(cfg)
      modifies this
      ensures var decision := Decide(cfg, d, r, floor);
        && kind == KindOf(decision) && delay == Reported(decision)
        && calls == old(calls) + (if decision.HandOff? && cfg.onPoison then [Handed(i, decision.reason)] else [])
          + [Told(i, OpOf(cfg, accepts(i), decision))]
    {
      match r.verdict
      case VerdictAck =>
        calls := calls + [Told(i, AckOp)];
        return SettledAck, 0;
      case VerdictSkip =>
        calls := calls + [Told(i, AckOp)];
        return SettledSkip, 0;
      case VerdictTerm =>
        SendPoison(i, r.err);
        return SettledPoison, 0;
      case _ =>
        kind, delay := Retry(i, d, r, floor);
    }

    method FrameStarts(msgs: seq<Delivery>) returns (starts: seq<nat>)
      ensures |starts| == |msgs| && forall i :: 0 <= i < |msgs| ==> starts[i] == Start(msgs, i)
    {
      starts := [];
      var i := 0;
      while i < |msgs|
        invariant 0 <= i <= |msgs| && |starts| == i
        invariant forall k :: 0 <= k < i ==> starts[k] == Start(msgs, k)
      {
        if i > 0 && SameFrame(msgs[i - 1], msgs[i]) {
          starts := starts + [starts[i - 1]];
        } else {
          starts := starts + [i];
        }
        i := i + 1;
      }
    }

    /** Settles a whole batch; tally counts the kinds. */
    method Settle(msgs: seq<Delivery>, results: seq<Result>) returns (tally: multiset<Kind>)
      requires ValidSettings(cfg)
      modifies this
      ensures var p := Pass(cfg, msgs, results, accepts);
        calls == old(calls) + Calls(p, |msgs|) && tally == multiset(Kinds(p, |msgs|))
    {
      hide Decide, Start, Calls, CallsFor, Kinds, Returns, OpOf;
      ghost var p := Pass(cfg, msgs, results, accepts);
      PassBegins(p);
      tally := multiset{};
      var starts := FrameStarts(msgs);
      var times: seq<int> := seq(|msgs|, _ => 0);
      var i := 0;
      while i < |msgs|
        invariant 0 <= i <= |msgs|
        invariant times == Returns(p, i)
        invariant calls == old(calls) + Calls(p, i)
        invariant tally == multiset(Kinds(p, i))
      {
        PassGoesOn(p, i);
        var result := Nak(ERR_MISSING_RESULT);
        if i < |results| {
          result := results[i];
        }
        var floor := 0;
        if result.after > 0 && result.after <= i {
          floor := times[starts[result.after - 1]];
        }
        assert floor == FloorOf(p, i);
        var kind, delay := Apply(i, msgs[i], result, floor);
        var start := starts[i];
        times := times[start := Max(times[start], Max(delay, floor))];
        tally := tally + multiset{kind};
        i := i + 1;
      }
    }
  }
}
