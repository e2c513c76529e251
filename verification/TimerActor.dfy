/** The timer code of the replicas on a shared bucket, proved against the atomic steps. */
module TimerActor {
  import opened BatchTypes
  import opened TimerLineage

  /** What a watcher delivers: any revision ever written, or a delete marker. */
  datatype Entry = PutSeen(rev: nat) | DeleteSeen(key: string)

  /** Revision-guarded and unguarded writes of the bucket, with the timers of all replicas beside it. */
  class Cluster {
    const cfg: Config
    var now: int
    var last: nat
    var puts: map<nat, Put>
    var current: map<string, nat>
    var timers: map<(nat, string), Timer>
    var attempts: seq<Attempt>
    var holders: map<nat, Holder>
    var fires: seq<Fire>

    function Contents(): World
      reads this
    {
      World(now, last, puts, current, timers, attempts, holders, fires)
    }

    constructor (cfg: Config)
      ensures this.cfg == cfg && Contents() == EMPTY
    {
      this.cfg := cfg;
      now, last, puts, current := 0, 0, map[], map[];
      timers, attempts, holders, fires := map[], [], map[], [];
    }

    method Put(put: Put)
      modifies `last, `puts, `current
      ensures Contents() == Written(old(Contents()), put)
    {
      last := last + 1;
      puts := puts[last := put];
      current := current[put.key := last];
    }

    /** Writes put if rev is the live revision of its key. */
    method Update(put: Put, rev: nat) returns (written: Option<nat>)
      modifies `last, `puts, `current
      ensures var live := put.key in old(current) && old(current)[put.key] == rev;
        && (live ==> Contents() == Written(old(Contents()), put) && written == Some(last))
        && (!live ==> Contents() == old(Contents()) && written == None)
    {
      if put.key !in current || current[put.key] != rev {
        return None;
      }
      Put(put);
      return Some(last);
    }

    /** Deletes the key if rev is its live revision. */
    method RemoveRevision(key: string, rev: nat) returns (removed: bool)
      modifies `last, `current
      ensures removed == (key in old(current) && old(current)[key] == rev)
      ensures Contents() == if removed then Deleted(old(Contents()), key) else old(Contents())
    {
      removed := key in current && current[key] == rev;
      if removed {
        last := last + 1;
        current := current - {key};
      }
    }

    method Add(key: string, meta: string, timeout: int)
      modifies this
      ensures Contents() == Apply(cfg, old(Contents()), Step.Add(key, meta, timeout))
    {
      Put(TimerLineage.Put(key, now + timeout, meta, last + 1));
    }

    method Clear(key: string)
      modifies this
      ensures Contents() == Apply(cfg, old(Contents()), Step.Clear(key))
    {
      last := last + 1;
      current := current - {key};
    }

    /** The second half of Hold: pushes the expiry of the revision it has read, if that is still live. */
    method AcquireHold(holder: nat, answered: bool)
      requires holder in holders && holders[holder].Read? && holders[holder].original in puts
      modifies this
      ensures Contents() == Apply(cfg, old(Contents()), HoldUpdate(holder, answered))
    {
      var original := holders[holder].original;
      var put := puts[original];
      holders := holders - {holder};
      var held := Update(put.(expiresAt := HoldDeadline(put.expiresAt, now, cfg.maxHold)), original);
      if held.Some? && answered {
        holders := holders[holder := Holding(original, held.value)];
      }
    }

    /** The release of a hold, read and write with nobody in between. */
    method ReleaseHold(holder: nat)
      requires holder in holders && holders[holder].Holding?
      requires holders[holder].original in puts && holders[holder].held in puts
      requires puts[holders[holder].original].key == puts[holders[holder].held].key
      modifies this
      ensures var w := Apply(cfg, old(Contents()), ReleaseRead(holder));
        Contents() == if holder in w.holders then Apply(cfg, w, ReleaseUpdate(holder)) else w
    {
      var h := holders[holder];
      var key := puts[h.held].key;
      holders := holders - {holder};
      if key !in current || current[key] != h.held {
        return;
      }
      var restored := Update(puts[h.original], h.held);
    }

    method ScheduleTimer(replica: nat, rev: nat)
      requires rev in puts
      modifies `timers
      ensures Contents() == Scheduled(old(Contents()), replica, rev)
    {
      var put := puts[rev];
      var delay := put.expiresAt - now;
      if delay < 0 {
        delay := 0;
      }
      timers := timers[(replica, put.key) := Timer(rev, now + delay)];
    }

    /** A watch event of a replica: a delete marker stops the timer of the key, a put schedules its revision. */
    method HandleWatchEntry(replica: nat, entry: Entry)
      requires entry.PutSeen? ==> entry.rev in puts
      modifies `timers
      ensures Contents() == Apply(cfg, old(Contents()),
                                  match entry
                                  case DeleteSeen(key) => WatchDelete(replica, key)
                                  case PutSeen(rev) => WatchPut(replica, rev))
    {
      match entry
      case DeleteSeen(key) => timers := timers - {(replica, key)};
      case PutSeen(rev) => ScheduleTimer(replica, rev);
    }

    method RetryLater(a: Attempt)
      requires a.rev in puts
      modifies `timers
      ensures Contents() == RetriedLater(cfg, old(Contents()), a)
    {
      if !cfg.rescan {
        return;
      }
      var key := puts[a.rev].key;
      if (a.replica, key) in timers {
        return;
      }
      timers := timers[(a.replica, key) := Timer(a.rev, now + cfg.checkInterval)];
    }

    /** One attempt: callbacks run only after a confirmed delete of the live revision. */
    method TryFireCallback(k: nat, answer: Answer)
      requires k < |attempts| && attempts[k].rev in puts
      modifies this
      ensures Contents() == Apply(cfg, old(Contents()), TryDelete(k, answer))
    {
      hide HoldDeadline, Scheduled, Written, Others, RetriedLater, Max;
      var a := attempts[k];
      var put := puts[a.rev];
      attempts := attempts[..k] + attempts[k + 1..];
      if answer == NeverSent {
        RetryLater(a);
        return;
      }
      var removed := RemoveRevision(put.key, a.rev);
      if !removed {
        return;
      }
      if answer == AnswerLost {
        RetryLater(a);
        return;
      }
      fires := fires + [Fire(a.rev, put.lineage, put.meta, now)];
    }

    /** The rescan of one key: an overdue entry is tried at once, another one gets a timer. */
    method RescanKey(replica: nat, rev: nat)
      requires rev in puts
      modifies this
      ensures Contents() == Apply(cfg, old(Contents()), Step.Rescan(replica, rev))
    {
      if now > puts[rev].expiresAt {
        timers := timers - {(replica, puts[rev].key)};
        attempts := attempts + [Attempt(replica, rev)];
      } else {
        ScheduleTimer(replica, rev);
      }
    }

    /** The rescan of a replica: every listed key that had no timer when the rescan began. */
    method RescanOverdueTimers(replica: nat, listed: seq<(string, nat)>)
      requires forall n :: 0 <= n < |listed| ==> listed[n].1 in puts && puts[listed[n].1].key == listed[n].0
      modifies this
      ensures Contents() == RescanAll(cfg, old(Contents()), replica, old(timers), listed)
    {
      var tracked := timers.Keys;
      var n := 0;
      while n < |listed|
        invariant 0 <= n <= |listed|
        invariant puts == old(puts)
        invariant Contents() == RescanAll(cfg, old(Contents()), replica, old(timers), listed[..n])
      {
        assert listed[..n + 1][..n] == listed[..n];
        var (key, rev) := listed[n];
        if (replica, key) !in tracked {
          RescanKey(replica, rev);
        }
        n := n + 1;
      }
      assert listed[..n] == listed;
    }
  }

  function RescanAll(cfg: Config, w: World, replica: nat, tracked: map<(nat, string), Timer>,
                     listed: seq<(string, nat)>): (t: World)
    ensures (forall n :: 0 <= n < |listed| ==> listed[n].1 in w.puts) ==> t.puts == w.puts
  {
    if listed == [] then w
    else
      var before := RescanAll(cfg, w, replica, tracked, listed[..|listed| - 1]);
      var (key, rev) := listed[|listed| - 1];
      if (replica, key) in tracked || !Enabled(before, Step.Rescan(replica, rev)) then before
      else Apply(cfg, before, Step.Rescan(replica, rev))
  }

  ghost predicate Listed(w: World, listed: seq<(string, nat)>) {
    forall n :: 0 <= n < |listed| ==> listed[n].1 in w.puts && w.puts[listed[n].1].key == listed[n].0
  }

  /** A rescan leaves the keys alone that had a timer, and the other replicas. */
  lemma {:induction false} RescanLeavesTracked(cfg: Config, w: World, replica: nat, tracked: map<(nat, string), Timer>,
                                              listed: seq<(string, nat)>, other: nat, key: string)
    requires Listed(w, listed) && (other != replica || (other, key) in tracked)
    ensures var t := RescanAll(cfg, w, replica, tracked, listed);
      && t.now == w.now && t.puts == w.puts && t.current == w.current
      && ((other, key) in t.timers <==> (other, key) in w.timers)
      && ((other, key) in t.timers ==> t.timers[(other, key)] == w.timers[(other, key)])
  {
    if listed != [] {
      RescanLeavesTracked(cfg, w, replica, tracked, listed[..|listed| - 1], other, key);
    }
  }

  /** A rescan finds every listed key without a timer: an overdue entry is tried, another one has a timer for its expiry. */
  lemma {:induction false} RescanFindsLost(cfg: Config, w: World, replica: nat, tracked: map<(nat, string), Timer>,
                                          listed: seq<(string, nat)>, n: nat)
    requires Listed(w, listed) && n < |listed| && (replica, listed[n].0) !in tracked
    requires forall m :: 0 <= m < |listed| && m != n ==> listed[m].0 != listed[n].0
    ensures var t, key, rev := RescanAll(cfg, w, replica, tracked, listed), listed[n].0, listed[n].1;
      if w.now > w.puts[rev].expiresAt then Attempt(replica, rev) in t.attempts
      else (replica, key) in t.timers && t.timers[(replica, key)] == Timer(rev, w.puts[rev].expiresAt)
  {
    var init := listed[..|listed| - 1];
    RescanLeavesTracked(cfg, w, replica, tracked, init, replica + 1, listed[n].0);
    if n < |init| {
      RescanFindsLost(cfg, w, replica, tracked, init, n);
    }
  }
}
