/** The poller: slots, the claim and delete statements, and one firing. */
module TimerPoller {
  import opened BatchTypes
  import opened TimerLeases

  datatype Timer = Timer(key: Key, dueAt: int, leaseDueAt: int, claimedAt: int)

  /** What the poller learns of a statement: it was done, it was done but the answer got lost, or it was not done. */
  datatype Report = Confirmed | AnswerLost | NotDone

  /** The rows the claim statement may take. */
  predicate Claimable(rows: map<nat, Row>, names: set<string>, locked: set<nat>, now: int, r: nat) {
    r in rows && rows[r].due <= now && rows[r].key.name in names && r !in locked
  }

  ghost predicate Distinct(taken: seq<nat>) {
    forall a, b :: 0 <= a < b < |taken| ==> taken[a] != taken[b]
  }

  /** The timers that a claim statement returns for the rows it took. */
  function TimersOf(rows: map<nat, Row>, taken: seq<nat>, lease: int, now: int): (timers: seq<Timer>)
    requires forall k :: 0 <= k < |taken| ==> taken[k] in rows
    ensures |timers| == |taken|
    ensures forall k :: 0 <= k < |taken| ==> timers[k] == Timer(rows[taken[k]].key, rows[taken[k]].due, lease, now)
  {
    seq(|taken|, k requires 0 <= k < |taken| => Timer(rows[taken[k]].key, rows[taken[k]].due, lease, now))
  }

  /** The rows after the claim statement took some of them. */
  function LeasedRows(rows: map<nat, Row>, taken: seq<nat>, lease: int): map<nat, Row> {
    map r | r in rows :: if r in taken then rows[r].(due := lease) else rows[r]
  }

  /** taken are the oldest claimable rows, and left are the others. */
  ghost predicate OldestFirst(rows: map<nat, Row>, names: set<string>, locked: set<nat>, now: int,
                              left: set<nat>, taken: seq<nat>) {
    && Distinct(taken)
    && (forall r :: r in left <==> Claimable(rows, names, locked, now, r) && r !in taken)
    && (forall r :: r in taken ==> Claimable(rows, names, locked, now, r))
    && (forall a, b :: 0 <= a < b < |taken| && taken[a] in rows && taken[b] in rows ==> rows[taken[a]].due <= rows[taken[b]].due)
    && forall r, t :: r in left && t in taken && r in rows && t in rows ==> rows[t].due <= rows[r].due
  }

  /** What the claim statement does: it takes the oldest claimable rows, at most limit of them, and fewer only when
      no claimable row is left; each gets its lease. */
  ghost predicate ClaimDone(rows: map<nat, Row>, names: set<string>, locked: set<nat>, limit: nat, now: int, lease: int,
                            taken: seq<nat>, after: map<nat, Row>) {
    && |taken| <= limit && after == LeasedRows(rows, taken, lease)
    && exists left :: OldestFirst(rows, names, locked, now, left, taken) && (|taken| < limit ==> left == {})
  }

  lemma TakesOldest(rows: map<nat, Row>, names: set<string>, locked: set<nat>, now: int, left: set<nat>, taken: seq<nat>,
                    r: nat)
    requires OldestFirst(rows, names, locked, now, left, taken)
    requires r in left && forall q :: q in left ==> q in rows && rows[r].due <= rows[q].due
    ensures OldestFirst(rows, names, locked, now, left - {r}, taken + [r])
  {
    var more := taken + [r];
    assert forall q :: q in more <==> q in taken || q == r;
    assert forall a :: 0 <= a < |taken| ==> taken[a] in taken;
  }

  class Table {
    var rows: map<nat, Row>

    constructor (rows: map<nat, Row>)
      ensures this.rows == rows
    {
      this.rows := rows;
    }

    /** The oldest claimable rows, at most limit of them, with their lease written into the row. */
    method Claim(names: set<string>, locked: set<nat>, limit: nat, leaseMs: int, now: int)
      returns (timers: seq<Timer>, ghost taken: seq<nat>)
      requires leaseMs >= 0
      modifies this
      ensures ClaimDone(old(rows), names, locked, limit, now, now + leaseMs * MILLISECOND, taken, rows)
      ensures (forall k :: 0 <= k < |taken| ==> taken[k] in old(rows))
        && timers == TimersOf(old(rows), taken, now + leaseMs * MILLISECOND, now)
    {
      timers, taken := [], [];
      ghost var before := rows;
      var left := set r | r in rows && Claimable(rows, names, locked, now, r);
      var lease := now + leaseMs * MILLISECOND;
      assert LeasedRows(rows, [], lease) == rows;
      while |timers| < limit && left != {}
        invariant |timers| == |taken| <= limit && OldestFirst(before, names, locked, now, left, taken)
        invariant forall k :: 0 <= k < |taken| ==> taken[k] in before
        invariant rows == LeasedRows(before, taken, lease) && timers == TimersOf(before, taken, lease, now)
        decreases left
      {
        assert forall r :: r in left ==> r in before && r !in taken && rows[r] == before[r];
        var r := Oldest(left);
        TakesOldest(before, names, locked, now, left, taken, r);
        timers := timers + [Timer(rows[r].key, rows[r].due, lease, now)];
        LeasedStep(before, taken, lease, r);
        rows := rows[r := rows[r].(due := lease)];
        taken := taken + [r];
        left := left - {r};
      }
    }

    method Oldest(among: set<nat>) returns (oldest: nat)
      requires among != {} && among <= rows.Keys
      ensures oldest in among && forall r :: r in among ==> rows[oldest].due <= rows[r].due
    {
      oldest :| oldest in among;
      var left := among - {oldest};
      while left != {}
        invariant left <= among && oldest in among
        invariant forall r :: r in among && r !in left ==> rows[oldest].due <= rows[r].due
        decreases left
      {
        var r :| r in left;
        if rows[r].due < rows[oldest].due {
          oldest := r;
        }
        left := left - {r};
      }
    }

    /** Deletes the rows of the timer's key that still carry its lease. */
    method Delete(timer: Timer) returns (deleted: bool)
      modifies this
      ensures rows == old(rows) - Matching(old(rows), timer.key, timer.leaseDueAt)
      ensures deleted == (Matching(old(rows), timer.key, timer.leaseDueAt) != {})
    {
      var matching := Matching(rows, timer.key, timer.leaseDueAt);
      rows := rows - matching;
      deleted := matching != {};
    }
  }

  lemma LeasedStep(rows: map<nat, Row>, taken: seq<nat>, lease: int, r: nat)
    requires r in rows && r !in taken
    ensures LeasedRows(rows, taken + [r], lease) == LeasedRows(rows, taken, lease)[r := rows[r].(due := lease)]
  {
  }

  lemma ClaimLeases(rows: map<nat, Row>, names: set<string>, locked: set<nat>, limit: nat, now: int, lease: int,
                    taken: seq<nat>, after: map<nat, Row>)
    requires ClaimDone(rows, names, locked, limit, now, lease, taken, after)
    ensures |taken| <= limit && after == LeasedRows(rows, taken, lease)
  {
  }

  lemma DispatchKeeps(fires: seq<Timer>, claimed: seq<Timer>)
    requires claimed != []
    ensures (fires + [claimed[0]]) + claimed[1..] == fires + claimed
  {
  }

  /** A poller: its loop holds reserved slots and claimed timers in hand, while firings end at any time. */
  class Poller {
    const settings: Settings
    const table: Table
    var slots: nat
    var reserved: nat
    var claimed: seq<Timer>
    var fires: seq<Timer>

    /** Every taken slot is reserved, or belongs to one claimed timer or one firing. */
    ghost predicate Valid()
      reads this
    {
      Accepted(settings) && slots == reserved + |claimed| + |fires| <= settings.concurrency
    }

    constructor (settings: Settings, table: Table)
      requires Accepted(settings)
      ensures Valid() && this.settings == settings && this.table == table
      ensures fires == [] && claimed == [] && reserved == 0
    {
      this.settings, this.table := settings, table;
      slots, reserved, claimed, fires := 0, 0, [], [];
    }

    /** Takes one slot, which the caller has waited for, and every further free one up to the batch size. */
    method Reserve()
      requires Valid() && reserved == 0 && slots < settings.concurrency
      modifies `slots, `reserved
      ensures Valid() && 1 <= reserved <= settings.batch
      ensures slots == old(slots) + reserved
      ensures reserved < settings.batch ==> slots == settings.concurrency
    {
      slots, reserved := slots + 1, 1;
      while reserved < settings.batch
        invariant Valid() && 1 <= reserved <= settings.batch
        invariant slots == old(slots) + reserved
      {
        if slots == settings.concurrency {
          return;
        }
        slots, reserved := slots + 1, reserved + 1;
      }
    }

    /** The claim with the reserved slots: each claimed timer takes one over, the others are free again. A claim
        that reports an error gives none; its rows stay as they are, or wait for the end of their new lease. */
    method ClaimReserved(names: set<string>, locked: set<nat>, now: int, report: Report) returns (ghost taken: seq<nat>)
      requires Valid() && claimed == []
      modifies `slots, `reserved, `claimed, table
      ensures Valid() && reserved == 0 && |claimed| <= old(reserved) && slots == old(slots) - old(reserved) + |claimed|
      ensures report.NotDone? ==> table.rows == old(table.rows) && taken == []
      ensures !report.NotDone? ==>
        ClaimDone(old(table.rows), names, locked, old(reserved), now, now + Effective(settings), taken, table.rows)
      ensures (forall k :: 0 <= k < |taken| ==> taken[k] in old(table.rows))
        && claimed == if report.Confirmed? then TimersOf(old(table.rows), taken, now + Effective(settings), now) else []
    {
      taken := [];
      if !report.NotDone? {
        var timers;
        timers, taken := table.Claim(names, locked, reserved, settings.lease / MILLISECOND, now);
        if report.Confirmed? {
          claimed := timers;
        }
      }
      slots := slots - (reserved - |claimed|);
      reserved := 0;
    }

    /** Starts the firing of the next claimed timer, which keeps its slot. */
    method Dispatch()
      requires Valid() && claimed != []
      modifies `claimed, `fires
      ensures Valid() && claimed == old(claimed)[1..] && fires == old(fires) + [old(claimed)[0]]
    {
      fires := fires + [claimed[0]];
      claimed := claimed[1..];
    }

    /** The end of firing k, at any point of the loop: rows are deleted only after the handler returned nil, and
        only with the lease of the firing; a lost answer does not undo the delete; one slot is free again in every
        case. */
    method Fire(k: nat, handler: Timer -> Option<Error>, report: Report) returns (deleted: bool)
      requires Valid() && k < |fires|
      modifies `slots, `fires, table
      ensures Valid() && fires == old(fires)[..k] + old(fires)[k + 1..] && slots == old(slots) - 1
      ensures var timer := old(fires)[k];
        var matching := Matching(old(table.rows), timer.key, timer.leaseDueAt);
        && table.rows == (if handler(timer).None? && !report.NotDone? then old(table.rows) - matching else old(table.rows))
        && deleted == (handler(timer).None? && report.Confirmed? && matching != {})
    {
      var timer := fires[k];
      deleted := false;
      if handler(timer).None? && !report.NotDone? {
        deleted := table.Delete(timer);
        if report.AnswerLost? {
          deleted := false;
        }
      }
      fires := fires[..k] + fires[k + 1..];
      slots := slots - 1;
    }

    /** One undisturbed round of the loop. */
    method Round(names: set<string>, locked: set<nat>, now: int, report: Report) returns (ghost taken: seq<nat>)
      requires Valid() && reserved == 0 && claimed == [] && slots < settings.concurrency
      modifies this, table
      ensures Valid() && reserved == 0 && claimed == [] && |taken| <= settings.batch
      ensures (forall k :: 0 <= k < |taken| ==> taken[k] in old(table.rows))
      ensures fires == old(fires) +
        if report.Confirmed? then TimersOf(old(table.rows), taken, now + Effective(settings), now) else []
      ensures if report.NotDone? then table.rows == old(table.rows)
              else table.rows == LeasedRows(old(table.rows), taken, now + Effective(settings))
    {
      hide ClaimDone, LeasedRows, Effective;
      Reserve();
      ghost var limit := reserved;
      taken := ClaimReserved(names, locked, now, report);
      if !report.NotDone? {
        ClaimLeases(old(table.rows), names, locked, limit, now, now + Effective(settings), taken, table.rows);
      }
      ghost var all := fires + claimed;
      ghost var after := table.rows;
      while claimed != []
        invariant Valid() && reserved == 0 && fires + claimed == all && table.rows == after
        decreases |claimed|
      {
        DispatchKeeps(fires, claimed);
        Dispatch();
      }
      assert fires + claimed == fires;
    }
  }

  function Takes(taken: seq<nat>, now: int): (steps: seq<Step>)
    ensures |steps| == |taken|
  {
    seq(|taken|, k requires 0 <= k < |taken| => Take(taken[k], now))
  }

  function RunFrom(s: Settings, w: World, steps: seq<Step>): World
    requires s.lease > 0
  {
    if steps == [] then w
    else
      var before, step := RunFrom(s, w, steps[..|steps| - 1]), steps[|steps| - 1];
      if Enabled(before, step) then Apply(s, before, step) else before
  }

  /** The rows of a claim statement are claims, in order. */
  ghost predicate Claims(s: Settings, w: World, t: World, taken: seq<nat>, now: int)
    requires s.lease > 0
  {
    && t.rows == LeasedRows(w.rows, taken, now + Effective(s))
    && |t.claims| == |w.claims| + |taken|
    && forall k :: 0 <= k < |taken| ==>
         && taken[k] in w.rows
         && t.claims[|w.claims| + k] == Taken(w.rows[taken[k]].key, taken[k], now, now + Effective(s))
  }

  /** The claim statement is one Take for each of the rows it takes. */
  lemma {:induction false} ClaimIsTakes(s: Settings, w: World, taken: seq<nat>, now: int)
    requires s.lease > 0 && Distinct(taken)
    requires forall k :: 0 <= k < |taken| ==> taken[k] in w.rows && w.rows[taken[k]].due <= now
    ensures Claims(s, w, RunFrom(s, w, Takes(taken, now)), taken, now)
  {
    hide Effective;
    if taken == [] {
      assert Takes(taken, now) == [];
      assert LeasedRows(w.rows, taken, now + Effective(s)) == w.rows;
    } else {
      hide Claims, Enabled, Apply;
      var init := taken[..|taken| - 1];
      ClaimIsTakes(s, w, init, now);
      LastTake(s, w, taken, now);
      TakeNext(s, w, RunFrom(s, w, Takes(init, now)), taken, now);
    }
  }

  lemma TakeNext(s: Settings, w: World, t: World, taken: seq<nat>, now: int)
    requires s.lease > 0 && taken != [] && Distinct(taken)
    requires Claims(s, w, t, taken[..|taken| - 1], now)
    requires var r := taken[|taken| - 1]; r in w.rows && w.rows[r].due <= now
    ensures var step := Take(taken[|taken| - 1], now);
      Enabled(t, step) && Claims(s, w, Apply(s, t, step), taken, now)
  {
    hide Effective;
    var init, r := taken[..|taken| - 1], taken[|taken| - 1];
    assert taken == init + [r] && r !in init;
    LeasedStep(w.rows, init, now + Effective(s), r);
  }

  lemma LastTake(s: Settings, w: World, taken: seq<nat>, now: int)
    requires s.lease > 0 && taken != []
    ensures var before := RunFrom(s, w, Takes(taken[..|taken| - 1], now));
      var step := Take(taken[|taken| - 1], now);
      RunFrom(s, w, Takes(taken, now)) == if Enabled(before, step) then Apply(s, before, step) else before
  {
    hide Enabled, Apply;
    assert Takes(taken, now)[..|taken| - 1] == Takes(taken[..|taken| - 1], now);
  }

  /** What a claim takes: rows that are due, of a known timer and not locked by anyone else, each once and with the new
      lease; such a row is left only if it is not older than any taken one and the limit is reached. No other row changes. */
  lemma ClaimTakesTheDue(rows: map<nat, Row>, names: set<string>, locked: set<nat>, limit: nat, now: int, lease: int,
                         taken: seq<nat>, after: map<nat, Row>)
    requires ClaimDone(rows, names, locked, limit, now, lease, taken, after)
    ensures |taken| <= limit && Distinct(taken) && after.Keys == rows.Keys
    ensures forall r :: r in taken ==>
      r in rows && rows[r].due <= now && rows[r].key.name in names && r !in locked && after[r] == rows[r].(due := lease)
    ensures forall r :: r in rows && r !in taken ==>
      && after[r] == rows[r]
      && (rows[r].due <= now && rows[r].key.name in names && r !in locked ==>
            |taken| == limit && forall t :: t in taken && t in rows ==> rows[t].due <= rows[r].due)
  {
    var left :| OldestFirst(rows, names, locked, now, left, taken) && (|taken| < limit ==> left == {});
    forall r | r in rows && r !in taken && rows[r].due <= now && rows[r].key.name in names && r !in locked
      ensures |taken| == limit && forall t :: t in taken && t in rows ==> rows[t].due <= rows[r].due
    {
      assert r in left;
    }
  }

  /** The claim statement of the poller is a sequence of atomic takes, none of which is refused. */
  lemma ClaimRuns(s: Settings, w: World, names: set<string>, locked: set<nat>, limit: nat, now: int, taken: seq<nat>,
                  after: map<nat, Row>)
    requires s.lease > 0 && ClaimDone(w.rows, names, locked, limit, now, now + Effective(s), taken, after)
    ensures RunFrom(s, w, Takes(taken, now)).rows == after && Claims(s, w, RunFrom(s, w, Takes(taken, now)), taken, now)
  {
    hide ClaimDone, Effective, RunFrom, LeasedRows;
    ClaimTakesTheDue(w.rows, names, locked, limit, now, now + Effective(s), taken, after);
    ClaimLeases(w.rows, names, locked, limit, now, now + Effective(s), taken, after);
    ClaimIsTakes(s, w, taken, now);
  }
}
