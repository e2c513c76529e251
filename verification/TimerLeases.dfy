/** Timer rows that several pollers claim with a lease and delete by that exact lease. Times are nanoseconds. */
module TimerLeases {

  datatype Settings = Settings(lease: int, handlerTimeout: int, poll: int, batch: int, concurrency: int)

  const MILLISECOND: int := 1_000_000
  const MAX_REMOVE_TIMEOUT: int := 5_000_000_000
  const LIMIT_BATCH: int := 1000
  const LIMIT_CONCURRENCY: int := 256

  predicate Accepted(s: Settings) {
    && s.lease > 0 && s.handlerTimeout > 0 && s.poll > 0
    && s.handlerTimeout <= s.lease / 2
    && 1 <= s.batch <= LIMIT_BATCH
    && 1 <= s.concurrency <= LIMIT_CONCURRENCY
  }

  function RemoveTimeout(s: Settings): int {
    if MAX_REMOVE_TIMEOUT <= s.lease / 4 then MAX_REMOVE_TIMEOUT else s.lease / 4
  }

  /** The lease the claim statement adds to the clock: whole milliseconds only. */
  function Effective(s: Settings): int
    requires s.lease > 0
  {
    s.lease / MILLISECOND * MILLISECOND
  }

  datatype Key = Key(key: string, name: string, attempt: string)

  /** Nothing keeps the application from writing two rows with one key. */
  datatype Row = Row(key: Key, due: int)

  datatype Status = Waiting | Running | Returned(ok: bool) | Finished

  /** A claim and its firing: when it was claimed, when its handler started and returned, when its delete ended. */
  datatype Claim = Claim(key: Key, row: nat, claimedAt: int, lease: int, status: Status,
                         startedAt: int, returnedAt: int, removedAt: int)

  /** rows are numbered in the order in which they were written, next is the next number; claims holds every claim
      of every poller, in the order of the statements. */
  datatype World = World(rows: map<nat, Row>, claims: seq<Claim>, next: nat)

  /** Take is one row of a claim statement, with its own clock; Start begins its handler, Remove is the delete
      after it and may fail; the application writes and deletes rows as it likes. */
  datatype Step =
    | Write(key: Key, due: int)
    | Drop(row: nat)
    | Take(row: nat, now: int)
    | Start(claim: nat, at: int)
    | Return(claim: nat, ok: bool, at: int)
    | Remove(claim: nat, done: bool, at: int)

  const EMPTY := World(map[], [], 0)

  /** A fresh claim: nothing has happened to it yet. */
  function Taken(key: Key, row: nat, now: int, lease: int): Claim {
    Claim(key, row, now, lease, Waiting, now, now, now)
  }

  /** The rows that the delete statement of a timer with this lease takes. */
  function Matching(rows: map<nat, Row>, key: Key, lease: int): set<nat> {
    set r | r in rows && rows[r] == Row(key, lease)
  }

  predicate Enabled(w: World, step: Step) {
    match step
    case Write(_, _) => true
    case Drop(_) => true
    case Take(r, now) => r in w.rows && w.rows[r].due <= now
    case Start(c, _) => c < |w.claims| && w.claims[c].status == Waiting
    case Return(c, _, _) => c < |w.claims| && w.claims[c].status == Running
    case Remove(c, _, _) => c < |w.claims| && w.claims[c].status == Returned(true)
  }

  function Apply(s: Settings, w: World, step: Step): World
    requires s.lease > 0 && Enabled(w, step)
  {
    match step
    case Write(key, due) => w.(rows := w.rows[w.next := Row(key, due)], next := w.next + 1)
    case Drop(r) => w.(rows := w.rows - {r})
    case Take(r, now) =>
      var lease := now + Effective(s);
      w.(rows := w.rows[r := w.rows[r].(due := lease)], claims := w.claims + [Taken(w.rows[r].key, r, now, lease)])
    case Start(c, at) => w.(claims := w.claims[c := w.claims[c].(status := Running, startedAt := at)])
    case Return(c, ok, at) => w.(claims := w.claims[c := w.claims[c].(status := Returned(ok), returnedAt := at)])
    case Remove(c, done, at) =>
      var claim := w.claims[c];
      w.(rows := if done then w.rows - Matching(w.rows, claim.key, claim.lease) else w.rows,
         claims := w.claims[c := claim.(status := Finished, removedAt := at)])
  }

  function Run(s: Settings, steps: seq<Step>): World
    requires s.lease > 0
  {
    if steps == [] then EMPTY
    else
      var w, step := Run(s, steps[..|steps| - 1]), steps[|steps| - 1];
      if Enabled(w, step) then Apply(s, w, step) else w
  }

  /** Two claims of the same row, the first one earlier. */
  ghost predicate SameRow(w: World, i: int, j: int) {
    0 <= i < j < |w.claims| && w.claims[i].row == w.claims[j].row
  }

  ghost predicate Leased(s: Settings, w: World)
    requires s.lease > 0
  {
    && (forall r :: r in w.rows ==> r < w.next)
    && (forall i :: 0 <= i < |w.claims| ==>
          && w.claims[i].row < w.next && w.claims[i].lease == w.claims[i].claimedAt + Effective(s)
          && (w.claims[i].row in w.rows ==>
                w.rows[w.claims[i].row].key == w.claims[i].key && w.claims[i].lease <= w.rows[w.claims[i].row].due))
    && (forall i, j :: SameRow(w, i, j) ==>
          w.claims[i].key == w.claims[j].key && w.claims[i].lease <= w.claims[j].claimedAt)
  }

  lemma StepLeased(s: Settings, w: World, step: Step)
    requires s.lease > 0 && Leased(s, w) && Enabled(w, step)
    ensures Leased(s, Apply(s, w, step))
  {
    hide Leased;
    match step
    case Take(r, now) => TakeLeased(s, w, r, now);
    case Start(c, _) => StatusLeased(s, w, Apply(s, w, step), c);
    case Return(c, _, _) => StatusLeased(s, w, Apply(s, w, step), c);
    case Remove(c, _, _) => StatusLeased(s, w, Apply(s, w, step), c);
    case _ => RowLeased(s, w, step);
  }

  lemma TakeLeased(s: Settings, w: World, r: nat, now: int)
    requires s.lease > 0 && Leased(s, w) && Enabled(w, Take(r, now))
    ensures Leased(s, Apply(s, w, Take(r, now)))
  {
    hide Effective;
    var t := Apply(s, w, Take(r, now));
    assert Effective(s) >= 0 by { EffectiveIsPositive(s); }
    forall i, j | SameRow(t, i, j) ensures
      t.claims[i].key == t.claims[j].key && t.claims[i].lease <= t.claims[j].claimedAt
    {
      if j < |w.claims| {
        assert SameRow(w, i, j);
      }
    }
  }

  /** The firing of a claim goes on, and rows may go. */
  lemma StatusLeased(s: Settings, w: World, t: World, c: nat)
    requires s.lease > 0 && Leased(s, w) && c < |w.claims| && t.next == w.next
    requires |t.claims| == |w.claims| && forall i :: 0 <= i < |w.claims| ==>
      t.claims[i] == w.claims[i].(status := t.claims[i].status, startedAt := t.claims[i].startedAt,
                                  returnedAt := t.claims[i].returnedAt, removedAt := t.claims[i].removedAt)
    requires forall r :: r in t.rows ==> r in w.rows && t.rows[r] == w.rows[r]
    ensures Leased(s, t)
  {
    hide Effective;
    forall i, j | SameRow(t, i, j) ensures
      t.claims[i].key == t.claims[j].key && t.claims[i].lease <= t.claims[j].claimedAt
    {
      assert SameRow(w, i, j);
    }
  }

  lemma RowLeased(s: Settings, w: World, step: Step)
    requires s.lease > 0 && Leased(s, w) && (step.Write? || step.Drop?)
    ensures Leased(s, Apply(s, w, step))
  {
    hide Effective;
    var t := Apply(s, w, step);
    forall i, j | SameRow(t, i, j) ensures
      t.claims[i].key == t.claims[j].key && t.claims[i].lease <= t.claims[j].claimedAt
    {
      assert SameRow(w, i, j);
    }
  }

  lemma EffectiveIsPositive(s: Settings)
    requires s.lease > 0
    ensures Effective(s) >= 0 && (Effective(s) > 0 <==> s.lease >= MILLISECOND)
    ensures s.lease - MILLISECOND < Effective(s) <= s.lease
    ensures Effective(s) == s.lease <==> s.lease % MILLISECOND == 0
  {
  }

  lemma {:induction false} RunLeased(s: Settings, steps: seq<Step>)
    requires s.lease > 0
    ensures Leased(s, Run(s, steps))
  {
    if steps != [] {
      hide Leased, Apply, Enabled;
      RunLeased(s, steps[..|steps| - 1]);
      var w, step := Run(s, steps[..|steps| - 1]), steps[|steps| - 1];
      if Enabled(w, step) {
        StepLeased(s, w, step);
      }
    }
  }

  /** On every run the claims of a row carry strictly increasing leases, whatever the clocks of the
      statements show. */
  ghost predicate LeasesIncrease(s: Settings)
    requires s.lease > 0
  {
    forall steps: seq<Step>, i, j :: SameRow(Run(s, steps), i, j) ==> Run(s, steps).claims[i].lease < Run(s, steps).claims[j].lease
  }

  const SAMPLE := Key("key", "name", "attempt")

  /** Leases increase exactly when the lease has a whole millisecond; accepted settings need not have one. */
  lemma LeasesIncreaseIff(s: Settings)
    requires s.lease > 0
    ensures LeasesIncrease(s) <==> s.lease >= MILLISECOND
  {
    EffectiveIsPositive(s);
    if s.lease >= MILLISECOND {
      forall steps: seq<Step>, i, j | SameRow(Run(s, steps), i, j)
        ensures Run(s, steps).claims[i].lease < Run(s, steps).claims[j].lease
      {
        RunLeased(s, steps);
      }
    } else {
      var steps := ClaimedTwice(s);
      assert SameRow(Run(s, steps), 0, 1);
    }
  }

  /** A lease below a millisecond: the same row is claimed twice with one lease. */
  lemma ClaimedTwice(s: Settings) returns (steps: seq<Step>)
    requires 0 < s.lease < MILLISECOND
    ensures var w := Run(s, steps);
      && SameRow(w, 0, 1) && w.claims[0].lease == w.claims[1].lease
      && w.claims[0].row in w.rows && w.rows[w.claims[0].row].due == w.claims[0].lease
  {
    var write, take := Write(SAMPLE, 0), Take(0, 0);
    steps := [write, take, take];
    assert Effective(s) == 0;
    assert steps[..2] == [write, take] && [write, take][..1] == [write] && [write][..0] == [];
    assert Run(s, []) == EMPTY;
    var a := Apply(s, EMPTY, write);
    assert Run(s, [write]) == a;
    var b := Apply(s, a, take);
    assert Run(s, [write, take]) == b;
    assert Run(s, steps) == Apply(s, b, take);
  }

  ghost predicate KeysUnique(w: World) {
    forall r, q :: r in w.rows && q in w.rows && w.rows[r].key == w.rows[q].key ==> r == q
  }

  /** The delete of a claim that is not the last one of its row leaves that row alone. It takes exactly the other
      rows that the application wrote with the same key and that are due at the old lease; so while keys are
      unique, and the row is still there, it takes nothing. */
  lemma StaleDeleteIsHarmless(s: Settings, steps: seq<Step>, i: nat, j: nat, done: bool, at: int)
    requires s.lease >= MILLISECOND && SameRow(Run(s, steps), i, j) && Enabled(Run(s, steps), Remove(i, done, at))
    ensures var w, t := Run(s, steps), Apply(s, Run(s, steps), Remove(i, done, at));
      var claim := w.claims[i];
      && (claim.row in w.rows ==> claim.row in t.rows && t.rows[claim.row] == w.rows[claim.row])
      && (forall r :: r in w.rows ==>
            (r !in t.rows <==> done && r != claim.row && w.rows[r].key == claim.key && w.rows[r].due == claim.lease))
      && (KeysUnique(w) && claim.row in w.rows ==> t.rows == w.rows)
  {
    EffectiveIsPositive(s);
    RunLeased(s, steps);
  }

  /** A row that the application does not delete disappears only when the handler of a claim of its key returned nil
      and the lease of that claim is the one in the row; if it is a claim of this row, it is the last one. */
  lemma RowGoesWithItsLease(s: Settings, steps: seq<Step>, step: Step, r: nat)
    requires s.lease >= MILLISECOND && Enabled(Run(s, steps), step) && !step.Drop?
    requires r in Run(s, steps).rows && r !in Apply(s, Run(s, steps), step).rows
    ensures var w := Run(s, steps);
      && step.Remove? && w.claims[step.claim].status == Returned(true)
      && w.claims[step.claim].key == w.rows[r].key && w.claims[step.claim].lease == w.rows[r].due
      && (w.claims[step.claim].row == r ==> forall j :: !SameRow(w, step.claim, j))
  {
    EffectiveIsPositive(s);
    RunLeased(s, steps);
  }

  /** A lag that dispatch stays below. */
  predicate ShortLag(s: Settings, lag: int) {
    0 <= lag && 4 * lag < s.lease
  }

  /** The firing keeps its bounds: dispatch is short, the handler returns by its deadline, the delete ends by its own. */
  predicate Timely(s: Settings, c: Claim) {
    && (!c.status.Waiting? ==> ShortLag(s, c.startedAt - c.claimedAt))
    && (c.status.Returned? || c.status.Finished? ==> 0 <= c.returnedAt - c.startedAt <= s.handlerTimeout)
    && (c.status.Finished? ==> 0 <= c.removedAt - c.returnedAt <= RemoveTimeout(s))
  }

  /** The end of what the firing has done so far: handler and delete take the time from the claim to here. */
  function Until(c: Claim): int {
    match c.status
    case Waiting => c.claimedAt
    case Running => c.startedAt
    case Returned(_) => c.returnedAt
    case Finished => c.removedAt
  }

  /** The longest a timely firing takes with a lag. */
  function Busy(s: Settings, lag: int): int {
    lag + s.handlerTimeout + RemoveTimeout(s)
  }

  /** On every run, two timely firings of one row do not overlap: the handler and the delete of the earlier claim
      are over when the row is claimed again. */
  ghost predicate NeverOverlaps(s: Settings)
    requires s.lease > 0
  {
    forall steps: seq<Step>, i, j :: SameRow(Run(s, steps), i, j) && Timely(s, Run(s, steps).claims[i]) ==>
      Until(Run(s, steps).claims[i]) <= Run(s, steps).claims[j].claimedAt
  }

  /** Firings of a row never overlap exactly when the longest short lag, the handler and the delete fit into the
      whole milliseconds of the lease. */
  lemma NeverOverlapsIff(s: Settings)
    requires s.lease > 0 && s.handlerTimeout >= 0
    ensures NeverOverlaps(s) <==> Busy(s, (s.lease - 1) / 4) <= Effective(s)
  {
    var longest := (s.lease - 1) / 4;
    if Busy(s, longest) <= Effective(s) {
      forall steps: seq<Step>, i, j | SameRow(Run(s, steps), i, j) && Timely(s, Run(s, steps).claims[i])
        ensures Until(Run(s, steps).claims[i]) <= Run(s, steps).claims[j].claimedAt
      {
        RunLeased(s, steps);
        TimelyEnds(s, Run(s, steps).claims[i]);
      }
    }
    if NeverOverlaps(s) {
      var steps := ClaimedInTurn(s);
      assert SameRow(Run(s, steps), 0, 1) && Timely(s, Run(s, steps).claims[0]);
    }
  }

  lemma TimelyEnds(s: Settings, c: Claim)
    requires s.lease > 0 && s.handlerTimeout >= 0 && Timely(s, c)
    ensures Until(c) <= c.claimedAt + Busy(s, (s.lease - 1) / 4)
  {
  }

  /** A slow but timely firing of a row that is claimed again as soon as its lease is over. */
  lemma ClaimedInTurn(s: Settings) returns (steps: seq<Step>)
    requires s.lease > 0 && s.handlerTimeout >= 0
    ensures var w := Run(s, steps);
      && SameRow(w, 0, 1) && Timely(s, w.claims[0])
      && Until(w.claims[0]) == Busy(s, (s.lease - 1) / 4) && w.claims[1].claimedAt == Effective(s)
  {
    hide Effective, RemoveTimeout, Run;
    var lag := (s.lease - 1) / 4;
    var first, second := [Write(SAMPLE, 0), Take(0, 0)], [Take(0, Effective(s)), Start(0, lag)];
    var third := [Return(0, true, lag + s.handlerTimeout), Remove(0, true, Busy(s, lag))];
    steps := first + second + third;
    TwoSteps(s, [], first);
    TwoSteps(s, first, second);
    TwoSteps(s, first + second, third);
    assert [] + first == first;
    RunNothing(s);
    RemoveTimeoutIsPositive(s);
  }

  lemma RunNothing(s: Settings)
    requires s.lease > 0
    ensures Run(s, []) == EMPTY
  {
  }

  lemma RemoveTimeoutIsPositive(s: Settings)
    requires s.lease > 0
    ensures RemoveTimeout(s) >= 0
  {
  }

  /** What a run does with two more steps. */
  lemma TwoSteps(s: Settings, steps: seq<Step>, more: seq<Step>)
    requires s.lease > 0 && |more| == 2
    ensures var w := Run(s, steps);
      var v := if Enabled(w, more[0]) then Apply(s, w, more[0]) else w;
      Run(s, steps + more) == if Enabled(v, more[1]) then Apply(s, v, more[1]) else v
  {
    hide Enabled, Apply;
    var all, one := steps + more, steps + [more[0]];
    assert all[..|all| - 1] == one && all[|all| - 1] == more[1];
    assert one[..|one| - 1] == steps && one[|one| - 1] == more[0];
  }

  /** Accepted settings with a lease of whole milliseconds are safe. */
  lemma AcceptedWholeMilliseconds(s: Settings)
    requires Accepted(s) && s.lease % MILLISECOND == 0
    ensures NeverOverlaps(s) && LeasesIncrease(s)
  {
    EffectiveIsPositive(s);
    LeasesIncreaseIff(s);
    NeverOverlapsIff(s);
  }

  /** An accepted setting whose lease has a fraction of a millisecond and whose firings can overlap. */
  lemma AcceptedFractionOverlaps()
    ensures var s := Settings(1_999_999, 999_999, 1, 1, 1); Accepted(s) && !NeverOverlaps(s)
  {
    NeverOverlapsIff(Settings(1_999_999, 999_999, 1, 1, 1));
  }
}
