/** The shared message behind the elements of a frame: settled once, when every element is done. */
module FrameSettlement {
  import opened BatchTypes

  /** What an element asks for. Ack, DoubleAck and Term all ask for no redelivery. */
  datatype Outcome = Outcome(nak: bool, delay: int)

  /** The call that settles the shared message. */
  datatype Sent = AckSent | DoubleAckSent | NakSent | NakDelaySent(delay: int)

  /** owed is the double flag of the caller that settled the last element and has not finished yet. */
  datatype View = View(done: set<nat>, pending: int, failed: bool, delay: int, owed: Option<bool>, sent: seq<Sent>)

  function Opened(n: nat): View {
    View({}, n, false, 0, None, [])
  }

  /** One caller settles an element under the lock. */
  function Settle(v: View, element: nat, outcome: Outcome, double: bool): View {
    if element in v.done then v
    else
      View(v.done + {element}, v.pending - 1, v.failed || outcome.nak,
           if outcome.nak then Max(v.delay, outcome.delay) else v.delay,
           if v.pending == 1 then Some(double) else v.owed, v.sent)
  }

  function Closing(failed: bool, delay: int, double: bool): Sent {
    if failed && delay > 0 then NakDelaySent(delay)
    else if failed then NakSent
    else if double then DoubleAckSent
    else AckSent
  }

  /** The caller that settled the last element settles the shared message, after it released the lock. */
  function Finish(v: View): View
    requires v.owed.Some?
  {
    v.(owed := None, sent := v.sent + [Closing(v.failed, v.delay, v.owed.value)])
  }

  datatype Event = Resolved(element: nat, outcome: Outcome, double: bool) | Finished

  /** Every interleaving of callers: Finished is a stutter step unless some caller owes it. */
  function Run(n: nat, events: seq<Event>): View {
    if events == [] then Opened(n)
    else
      var v := Run(n, events[..|events| - 1]);
      match events[|events| - 1]
      case Resolved(element, outcome, double) => if element < n then Settle(v, element, outcome, double) else v
      case Finished => if v.owed.Some? then Finish(v) else v
  }

  /** The first outcome of every element; later ones are repeats. */
  function Firsts(n: nat, events: seq<Event>): (asked: map<nat, Outcome>)
    ensures forall element :: element in asked ==> element < n
  {
    if events == [] then map[]
    else
      var asked := Firsts(n, events[..|events| - 1]);
      match events[|events| - 1]
      case Resolved(element, outcome, _) =>
        if element < n && element !in asked then asked[element := outcome] else asked
      case Finished => asked
  }

  ghost predicate SomeNak(asked: map<nat, Outcome>) {
    exists element :: element in asked && asked[element].nak
  }

  /** delay is the longest delay of the nak'ed elements, 0 when none is above it. */
  ghost predicate Longest(asked: map<nat, Outcome>, delay: int) {
    && delay >= 0
    && (forall element :: element in asked && asked[element].nak ==> asked[element].delay <= delay)
    && (delay > 0 ==> exists element :: element in asked && asked[element] == Outcome(true, delay))
  }

  ghost predicate Tallied(n: nat, asked: map<nat, Outcome>, v: View) {
    && v.done == asked.Keys
    && v.pending == n - |v.done|
    && (v.failed <==> SomeNak(asked))
    && Longest(asked, v.delay)
    && (v.pending > 0 ==> v.owed.None? && v.sent == [])
    && (v.pending == 0 ==> if v.owed.Some? then v.sent == []
                           else |v.sent| == 1 && exists double :: v.sent[0] == Closing(v.failed, v.delay, double))
  }

  ghost function Elements(n: nat): (all: set<nat>)
    ensures |all| == n && forall element: nat :: element in all <==> element < n
  {
    if n == 0 then {} else Elements(n - 1) + {n - 1}
  }

  lemma DoneCounts(n: nat, done: set<nat>)
    requires forall element :: element in done ==> element < n
    ensures |done| <= n && (|done| == n <==> forall element :: 0 <= element < n ==> element in done)
  {
    var all := Elements(n);
    SubsetCounts(done, all);
    if forall element :: 0 <= element < n ==> element in done {
      assert done == all;
    }
  }

  lemma SubsetCounts(a: set<nat>, b: set<nat>)
    requires a <= b
    ensures |a| <= |b| && (|a| == |b| ==> a == b)
  {
    var rest := b - a;
    assert b == a + rest;
    if |a| == |b| {
      assert rest == {};
    }
  }

  lemma SettleTallied(n: nat, asked: map<nat, Outcome>, v: View, element: nat, outcome: Outcome, double: bool)
    requires Tallied(n, asked, v) && element < n && element !in asked
    requires forall e :: e in asked ==> e < n
    ensures Tallied(n, asked[element := outcome], Settle(v, element, outcome, double))
  {
    var later := asked[element := outcome];
    var w := Settle(v, element, outcome, double);
    assert later.Keys == asked.Keys + {element};
    DoneCounts(n, later.Keys);
    DoneCounts(n, asked.Keys);
    assert v.pending > 0;
    if SomeNak(asked) {
      var e :| e in asked && asked[e].nak;
      assert later[e].nak;
    }
    if outcome.nak {
      assert later[element].nak;
    }
    if w.delay > 0 {
      if outcome.nak && w.delay == outcome.delay {
        assert later[element] == Outcome(true, w.delay);
      } else {
        var e :| e in asked && asked[e] == Outcome(true, v.delay);
        assert later[e] == Outcome(true, w.delay);
      }
    }
  }

  lemma {:induction false} RunTallied(n: nat, events: seq<Event>)
    requires n > 0
    ensures Tallied(n, Firsts(n, events), Run(n, events))
  {
    if events != [] {
      hide Tallied, Longest;
      var init, last := events[..|events| - 1], events[|events| - 1];
      RunTallied(n, init);
      var asked, v := Firsts(n, init), Run(n, init);
      TalliedKeys(n, asked, v);
      if last.Resolved? {
        if last.element < n && last.element !in asked {
          SettleTallied(n, asked, v, last.element, last.outcome, last.double);
        }
      } else if v.owed.Some? {
        FinishTallied(n, asked, v);
      }
    }
  }

  lemma TalliedKeys(n: nat, asked: map<nat, Outcome>, v: View)
    requires Tallied(n, asked, v)
    ensures v.done == asked.Keys
  {
  }

  lemma FinishTallied(n: nat, asked: map<nat, Outcome>, v: View)
    requires Tallied(n, asked, v) && v.owed.Some? && forall e :: e in asked ==> e < n
    ensures Tallied(n, asked, Finish(v))
  {
    DoneCounts(n, v.done);
    assert Finish(v).sent == [Closing(v.failed, v.delay, v.owed.value)];
  }

  /** Over every interleaving of callers and repeats, the shared message is settled at most once, and only
      when every element has an outcome; it is owed or sent as soon as that is so. */
  lemma SettledOnceWhenAllDone(n: nat, events: seq<Event>)
    requires n > 0
    ensures var v := Run(n, events);
      && |v.sent| <= 1
      && ((v.owed.Some? || |v.sent| == 1) <==> forall element :: 0 <= element < n ==> element in Firsts(n, events))
      && !(v.owed.Some? && |v.sent| == 1)
  {
    RunTallied(n, events);
    DoneCounts(n, Firsts(n, events).Keys);
  }

  /** How it is settled depends on the first outcomes only: a nak with the longest asked delay if some
      element asked for one, an ack otherwise. */
  lemma SettledByOutcomes(n: nat, events: seq<Event>)
    requires n > 0 && Run(n, events).sent != []
    ensures var sent, asked := Run(n, events).sent[0], Firsts(n, events);
      && (sent.NakSent? || sent.NakDelaySent? <==> SomeNak(asked))
      && (sent.NakDelaySent? ==> sent.delay > 0 && Longest(asked, sent.delay))
      && (sent.NakSent? ==> Longest(asked, 0))
  {
    SentWhenDone(n, events);
  }

  lemma SentWhenDone(n: nat, events: seq<Event>)
    requires n > 0 && Run(n, events).sent != []
    ensures var v := Run(n, events);
      Tallied(n, Firsts(n, events), v) && v.owed.None? && |v.sent| == 1
      && exists double :: v.sent[0] == Closing(v.failed, v.delay, double)
  {
    RunTallied(n, events);
    DoneCounts(n, Firsts(n, events).Keys);
  }

  /** The order of the callers does not matter: two runs that gave every element the same first outcome
      settle the message alike; an acked message may differ in waiting for the server or not. */
  lemma SettlementConfluent(n: nat, a: seq<Event>, b: seq<Event>)
    requires n > 0 && Firsts(n, a) == Firsts(n, b) && Run(n, a).sent != [] && Run(n, b).sent != []
    ensures Run(n, a).sent == Run(n, b).sent
      || {Run(n, a).sent[0], Run(n, b).sent[0]} == {AckSent, DoubleAckSent}
  {
    hide Run, Firsts;
    SentWhenDone(n, a);
    SentWhenDone(n, b);
    var u, v := Run(n, a), Run(n, b);
    assert u.delay == v.delay && u.failed == v.failed;
    var x :| u.sent[0] == Closing(u.failed, u.delay, x);
    var y :| v.sent[0] == Closing(v.failed, v.delay, y);
    assert u.sent == [Closing(u.failed, u.delay, x)] && v.sent == [Closing(u.failed, u.delay, y)];
  }

  /** Event k gives the last element that was still open its outcome. */
  ghost predicate Completes(n: nat, events: seq<Event>, k: nat) {
    && k < |events| && events[k].Resolved? && events[k].element < n
    && events[k].element !in Firsts(n, events[..k])
    && forall element :: 0 <= element < n ==> element in Firsts(n, events[..k]) || element == events[k].element
  }

  lemma {:induction false} FirstsGrow(n: nat, events: seq<Event>, k: nat)
    requires k <= |events|
    ensures forall element :: element in Firsts(n, events[..k]) ==> element in Firsts(n, events)
  {
    if k == |events| {
      assert events[..k] == events;
    } else {
      assert events[..|events| - 1][..k] == events[..k];
      FirstsGrow(n, events[..|events| - 1], k);
    }
  }

  lemma {:induction false} LastCallerDecides(n: nat, events: seq<Event>, k: nat)
    requires n > 0 && Completes(n, events, k)
    ensures var v := Run(n, events);
      && (v.owed.Some? ==> v.owed == Some(events[k].double))
      && (v.sent != [] ==> v.sent == [Closing(v.failed, v.delay, events[k].double)])
  {
    hide Tallied;
    var init, last := events[..|events| - 1], events[|events| - 1];
    if k == |init| {
      CompletesOwes(n, events);
    } else {
      assert init[..k] == events[..k] && init[k] == events[k];
      LastCallerDecides(n, init, k);
      FirstsGrow(n, init, k + 1);
      assert init[..k + 1][..k] == init[..k];
      RunTallied(n, init);
      TalliedKeys(n, Firsts(n, init), Run(n, init));
      SettledOnceWhenAllDone(n, init);
    }
  }

  lemma CompletesOwes(n: nat, events: seq<Event>)
    requires n > 0 && events != [] && Completes(n, events, |events| - 1)
    ensures var v := Run(n, events); v.sent == [] && v.owed == Some(events[|events| - 1].double)
  {
    var init, last := events[..|events| - 1], events[|events| - 1];
    RunTallied(n, init);
    RunTallied(n, events);
    var asked := Firsts(n, init);
    DoneCounts(n, asked.Keys);
    DoneCounts(n, Firsts(n, events).Keys);
    assert Firsts(n, events) == asked[last.element := last.outcome];
    assert Firsts(n, events).Keys == asked.Keys + {last.element};
  }

  /** The shared message waits for the server to confirm its ack if and only if no element was nak'ed and the call that
      completed the frame waits for it. */
  lemma ConfirmedIff(n: nat, events: seq<Event>, k: nat)
    requires n > 0 && Completes(n, events, k) && Run(n, events).sent != []
    ensures var sent := Run(n, events).sent;
      && |sent| == 1
      && (sent[0] == DoubleAckSent <==> !SomeNak(Firsts(n, events)) && events[k].double)
      && (sent[0] == AckSent <==> !SomeNak(Firsts(n, events)) && !events[k].double)
  {
    hide Run, Firsts, Completes;
    LastCallerDecides(n, events, k);
    SettledByOutcomes(n, events);
    SentWhenDone(n, events);
  }

  /** A repeated outcome changes nothing. */
  lemma RepeatChangesNothing(n: nat, events: seq<Event>, element: nat, outcome: Outcome, double: bool)
    requires n > 0 && element in Firsts(n, events)
    ensures Run(n, events + [Resolved(element, outcome, double)]) == Run(n, events)
    ensures Firsts(n, events + [Resolved(element, outcome, double)]) == Firsts(n, events)
  {
    var more := events + [Resolved(element, outcome, double)];
    assert more[..|more| - 1] == events;
    RunTallied(n, events);
  }

  /** One element message: its frame settles it at most once. */
  class Element {
    var done: bool

    constructor ()
      ensures !done
    {
      done := false;
    }
  }

  class FrameState {
    const elements: seq<Element>
    var pending: int
    var failed: bool
    var delay: int
    var owed: Option<bool>
    var sent: seq<Sent>

    ghost predicate Valid()
      reads this
    {
      forall i, j :: 0 <= i < j < |elements| ==> elements[i] != elements[j]
    }

    ghost function Contents(): View
      reads this, elements
    {
      View(set i: nat | i < |elements| && elements[i].done :: i, pending, failed, delay, owed, sent)
    }

    constructor (elements: seq<Element>)
      requires forall i, j :: 0 <= i < j < |elements| ==> elements[i] != elements[j]
      requires forall i :: 0 <= i < |elements| ==> !elements[i].done
      ensures Valid() && this.elements == elements && Contents() == Opened(|elements|)
    {
      this.elements := elements;
      pending, failed, delay, owed, sent := |elements|, false, 0, None, [];
    }

    /** Settles one element; already says it was settled before, last that it was the last one. */
    method SettleElement(i: nat, outcome: Outcome, double: bool) returns (last: bool, already: bool)
      requires Valid() && i < |elements|
      modifies this`pending, this`failed, this`delay, this`owed, elements[i]
      ensures Contents() == Settle(old(Contents()), i, outcome, double)
      ensures already == old(elements[i].done)
      ensures last == (!already && pending == 0)
    {
      var element := elements[i];
      if element.done {
        return false, true;
      }
      element.done := true;
      pending := pending - 1;
      if outcome.nak {
        failed := true;
        delay := Max(delay, outcome.delay);
      }
      if pending == 0 {
        owed := Some(double);
      }
      return pending == 0, false;
    }

    method FinishFrame()
      requires Valid() && owed.Some?
      modifies this`owed, this`sent
      ensures Contents() == Finish(old(Contents()))
    {
      if failed && delay > 0 {
        sent := sent + [NakDelaySent(delay)];
      } else if failed {
        sent := sent + [NakSent];
      } else if owed.value {
        sent := sent + [DoubleAckSent];
      } else {
        sent := sent + [AckSent];
      }
      owed := None;
    }

    /** One call on an element, with no other caller in between. */
    method Resolve(i: nat, outcome: Outcome, double: bool) returns (already: bool)
      requires Valid() && i < |elements| && owed.None?
      modifies this`pending, this`failed, this`delay, this`owed, this`sent, elements[i]
      ensures already == old(elements[i].done)
      ensures var v := Settle(old(Contents()), i, outcome, double);
        Contents() == if v.owed.Some? then Finish(v) else v
    {
      var last;
      last, already := SettleElement(i, outcome, double);
      if last {
        FinishFrame();
      }
    }
  }
}
