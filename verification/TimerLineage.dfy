/** Timer entries in a key-value bucket: revision-guarded deletes of many replicas race with adds, holds,
    hold releases and clears. */
module TimerLineage {
  import opened BatchTypes

  /** One revision of a key. lineage is the revision of the Add that it descends from through holds and
      restores; an Add is its own lineage. */
  datatype Put = Put(key: string, expiresAt: int, meta: string, lineage: nat)

  datatype Timer = Timer(rev: nat, due: int)

  /** A timer that has fired on a replica and is about to try the delete. */
  datatype Attempt = Attempt(replica: nat, rev: nat)

  /** A Hold call: it has read a revision, has the key held, or has found it still held on release. */
  datatype Holder = Read(original: nat) | Holding(original: nat, held: nat) | Restoring(original: nat, held: nat)

  /** One round of callbacks. */
  datatype Fire = Fire(rev: nat, lineage: nat, meta: string, at: int)

  datatype Config = Config(maxHold: int, checkInterval: int, rescan: bool)

  /** puts is every revision ever written, current the live revision of each key, last the last sequence. */
  datatype World = World(now: int, last: nat, puts: map<nat, Put>, current: map<string, nat>,
                         timers: map<(nat, string), Timer>, attempts: seq<Attempt>, holders: map<nat, Holder>,
                         fires: seq<Fire>)

  /** What the replica learns from its delete. */
  datatype Answer = Confirmed | AnswerLost | NeverSent

  /** Watch events and reads may deliver any revision ever written, so also late, repeated and stale ones. */
  datatype Step =
    | Tick(elapsed: nat)
    | Add(key: string, meta: string, timeout: int)
    | Clear(key: string)
    | Expire(key: string)
    | HoldRead(holder: nat, rev: nat)
    | HoldUpdate(holder: nat, answered: bool)
    | ReleaseRead(holder: nat)
    | ReleaseUpdate(holder: nat)
    | WatchPut(replica: nat, rev: nat)
    | WatchDelete(replica: nat, key: string)
    | TimerFires(replica: nat, key: string)
    | Rescan(replica: nat, rev: nat)
    | TryDelete(k: nat, answer: Answer)
    | Crash(replica: nat)

  const EMPTY := World(0, 0, map[], map[], map[], [], map[], [])

  /** The expiry of a held entry: never before the original one. */
  function HoldDeadline(original: int, now: int, maxHold: int): (held: int)
    ensures held >= original && held >= now + maxHold && (held == original || held == now + maxHold)
  {
    var held := now + maxHold;
    if original > held then original else held
  }

  /** The live revision of the key of a put is rev. */
  predicate IsCurrent(w: World, rev: nat) {
    rev in w.puts && w.puts[rev].key in w.current && w.current[w.puts[rev].key] == rev
  }

  predicate Enabled(w: World, step: Step) {
    match step
    case HoldRead(holder, rev) => holder !in w.holders && rev in w.puts
    case HoldUpdate(holder, _) => holder in w.holders && w.holders[holder].Read?
    case ReleaseRead(holder) => holder in w.holders && w.holders[holder].Holding?
    case ReleaseUpdate(holder) => holder in w.holders && w.holders[holder].Restoring?
    case WatchPut(_, rev) => rev in w.puts
    case TimerFires(replica, key) => (replica, key) in w.timers && w.timers[(replica, key)].due <= w.now
    case Rescan(_, rev) => rev in w.puts
    case TryDelete(k, _) => k < |w.attempts|
    case _ => true
  }

  function Written(w: World, put: Put): World {
    w.(last := w.last + 1, puts := w.puts[w.last + 1 := put], current := w.current[put.key := w.last + 1])
  }

  /** A delete marker takes a revision too. */
  function Deleted(w: World, key: string): World {
    w.(last := w.last + 1, current := w.current - {key})
  }

  function Scheduled(w: World, replica: nat, rev: nat): World
    requires rev in w.puts
  {
    w.(timers := w.timers[(replica, w.puts[rev].key) := Timer(rev, Max(w.now, w.puts[rev].expiresAt))])
  }

  /** A delete without a clear answer is tried again later, unless the key has a timer by then. */
  function RetriedLater(cfg: Config, w: World, a: Attempt): World {
    if a.rev in w.puts && cfg.rescan && (a.replica, w.puts[a.rev].key) !in w.timers then
      w.(timers := w.timers[(a.replica, w.puts[a.rev].key) := Timer(a.rev, w.now + cfg.checkInterval)])
    else w
  }

  function Apply(cfg: Config, w: World, step: Step): World
    requires Enabled(w, step)
  {
    match step
    case Tick(elapsed) => w.(now := w.now + elapsed)
    case Add(key, meta, timeout) => Written(w, Put(key, w.now + timeout, meta, w.last + 1))
    case Clear(key) => Deleted(w, key)
    case Expire(key) => w.(current := w.current - {key})
    case HoldRead(holder, rev) => w.(holders := w.holders[holder := Read(rev)])
    case HoldUpdate(holder, answered) =>
      var original := w.holders[holder].original;
      var idle := w.(holders := w.holders - {holder});
      if !IsCurrent(w, original) then idle
      else
        var put := w.puts[original];
        var held := Written(idle, put.(expiresAt := HoldDeadline(put.expiresAt, w.now, cfg.maxHold)));
        if answered then held.(holders := held.holders[holder := Holding(original, held.last)]) else held
    case ReleaseRead(holder) =>
      var h := w.holders[holder];
      if IsCurrent(w, h.held) then w.(holders := w.holders[holder := Restoring(h.original, h.held)])
      else w.(holders := w.holders - {holder})
    case ReleaseUpdate(holder) =>
      var h := w.holders[holder];
      var idle := w.(holders := w.holders - {holder});
      if IsCurrent(w, h.held) && h.original in w.puts then
        Written(idle, w.puts[h.original])
      else idle
    case WatchPut(replica, rev) => Scheduled(w, replica, rev)
    case WatchDelete(replica, key) => w.(timers := w.timers - {(replica, key)})
    case TimerFires(replica, key) =>
      w.(timers := w.timers - {(replica, key)}, attempts := w.attempts + [Attempt(replica, w.timers[(replica, key)].rev)])
    case Rescan(replica, rev) =>
      if w.now > w.puts[rev].expiresAt then
        w.(timers := w.timers - {(replica, w.puts[rev].key)}, attempts := w.attempts + [Attempt(replica, rev)])
      else Scheduled(w, replica, rev)
    case TryDelete(k, answer) =>
      var a := w.attempts[k];
      var rest := w.(attempts := w.attempts[..k] + w.attempts[k + 1..]);
      if answer.NeverSent? then RetriedLater(cfg, rest, a)
      else if !IsCurrent(w, a.rev) then rest
      else
        var gone := Deleted(rest, w.puts[a.rev].key);
        if answer.AnswerLost? then RetriedLater(cfg, gone, a)
        else gone.(fires := w.fires + [Fire(a.rev, w.puts[a.rev].lineage, w.puts[a.rev].meta, w.now)])
    case Crash(replica) =>
      w.(timers := map t | t in w.timers && t.0 != replica :: w.timers[t],
         attempts := Others(w.attempts, replica))
  }

  function Others(attempts: seq<Attempt>, replica: nat): (others: seq<Attempt>)
    ensures forall a :: a in others <==> a in attempts && a.replica != replica
  {
    if attempts == [] then []
    else (if attempts[0].replica == replica then [] else [attempts[0]]) + Others(attempts[1..], replica)
  }

  function Run(cfg: Config, steps: seq<Step>): World {
    if steps == [] then EMPTY
    else
      var w, step := Run(cfg, steps[..|steps| - 1]), steps[|steps| - 1];
      if Enabled(w, step) then Apply(cfg, w, step) else w
  }

  /** Every revision of a lineage is on the key and has the metadata of its Add. */
  ghost predicate PutsKept(w: World) {
    && (forall rev :: rev in w.puts ==> 0 < rev <= w.last)
    && (forall rev :: rev in w.puts ==>
          && w.puts[rev].lineage in w.puts && w.puts[w.puts[rev].lineage].lineage == w.puts[rev].lineage
          && w.puts[w.puts[rev].lineage].key == w.puts[rev].key && w.puts[w.puts[rev].lineage].meta == w.puts[rev].meta)
    && (forall key :: key in w.current ==> w.current[key] in w.puts && w.puts[w.current[key]].key == key)
  }

  /** Timers and attempts are for revisions of their key, and never early. */
  ghost predicate TimersKept(w: World) {
    && (forall t :: t in w.timers ==>
          && w.timers[t].rev in w.puts && w.puts[w.timers[t].rev].key == t.1
          && w.puts[w.timers[t].rev].expiresAt <= w.timers[t].due)
    && (forall a :: a in w.attempts ==> a.rev in w.puts && w.puts[a.rev].expiresAt <= w.now)
  }

  ghost predicate HoldersKept(w: World) {
    forall h :: h in w.holders ==>
      && w.holders[h].original in w.puts
      && (!w.holders[h].Read? ==>
            && w.holders[h].held in w.puts
            && w.puts[w.holders[h].held].lineage == w.puts[w.holders[h].original].lineage
            && w.puts[w.holders[h].original].expiresAt <= w.puts[w.holders[h].held].expiresAt)
  }

  /** A round of callbacks ran for the lineage. */
  ghost predicate Dead(fires: seq<Fire>, lineage: nat) {
    exists k :: 0 <= k < |fires| && fires[k].lineage == lineage
  }

  ghost predicate FiresKept(w: World) {
    && (forall k :: 0 <= k < |w.fires| ==>
          && w.fires[k].rev in w.puts && w.fires[k].meta == w.puts[w.fires[k].rev].meta
          && w.fires[k].lineage == w.puts[w.fires[k].rev].lineage
          && w.puts[w.fires[k].rev].expiresAt <= w.fires[k].at <= w.now)
    && (forall j, k :: 0 <= j < k < |w.fires| ==> w.fires[j].lineage != w.fires[k].lineage)
  }

  /** A live entry has not fired. */
  ghost predicate LiveKept(w: World) {
    forall key :: key in w.current && w.current[key] in w.puts ==> !Dead(w.fires, w.puts[w.current[key]].lineage)
  }

  ghost predicate Kept(w: World) {
    PutsKept(w) && TimersKept(w) && HoldersKept(w) && FiresKept(w) && LiveKept(w)
  }

  /** What the revisions of a world may become. */
  ghost predicate Extends(w: World, t: World) {
    && (forall rev :: rev in w.puts ==> rev in t.puts && t.puts[rev] == w.puts[rev])
    && w.last <= t.last && w.now <= t.now
  }

  lemma TimersExtend(w: World, t: World)
    requires TimersKept(w) && Extends(w, t) && t.timers == w.timers && t.attempts == w.attempts
    ensures TimersKept(t)
  {
  }

  lemma HoldersExtend(w: World, t: World)
    requires HoldersKept(w) && Extends(w, t) && t.holders == w.holders
    ensures HoldersKept(t)
  {
  }

  lemma FiresExtend(w: World, t: World)
    requires FiresKept(w) && Extends(w, t) && t.fires == w.fires
    ensures FiresKept(t)
  {
    forall k | 0 <= k < |t.fires| ensures
      && t.fires[k].rev in t.puts && t.fires[k].meta == t.puts[t.fires[k].rev].meta
      && t.fires[k].lineage == t.puts[t.fires[k].rev].lineage
      && t.puts[t.fires[k].rev].expiresAt <= t.fires[k].at <= t.now
    {
      assert t.puts[w.fires[k].rev] == w.puts[w.fires[k].rev];
    }
  }

  lemma AllExtend(w: World, t: World)
    requires TimersKept(w) && HoldersKept(w) && FiresKept(w) && Extends(w, t)
    requires t.timers == w.timers && t.attempts == w.attempts && t.holders == w.holders && t.fires == w.fires
    ensures TimersKept(t) && HoldersKept(t) && FiresKept(t)
  {
    hide TimersKept, HoldersKept, FiresKept, Extends;
    TimersExtend(w, t);
    HoldersExtend(w, t);
    FiresExtend(w, t);
  }

  /** Fewer live keys. */
  lemma FewerLive(w: World, t: World)
    requires PutsKept(w) && LiveKept(w) && t.puts == w.puts && w.last <= t.last && t.fires == w.fires
    requires forall key :: key in t.current ==> key in w.current && t.current[key] == w.current[key]
    ensures PutsKept(t) && LiveKept(t)
  {
    hide Dead;
  }

  /** A put that starts a lineage, or goes on with one that is live. */
  ghost predicate Descends(w: World, put: Put) {
    put.lineage == w.last + 1
    || (put.lineage in w.puts && w.puts[put.lineage].lineage == put.lineage
        && w.puts[put.lineage].key == put.key && w.puts[put.lineage].meta == put.meta && !Dead(w.fires, put.lineage))
  }

  lemma PutsWritten(w: World, put: Put)
    requires PutsKept(w) && Descends(w, put)
    ensures PutsKept(Written(w, put))
  {
    hide Dead;
    var t := Written(w, put);
    assert forall rev :: rev in w.puts ==> t.puts[rev] == w.puts[rev];
  }

  lemma LiveWritten(w: World, put: Put)
    requires PutsKept(w) && FiresKept(w) && LiveKept(w) && Descends(w, put)
    ensures LiveKept(Written(w, put))
  {
    hide Dead, FiresKept;
    NewLineageIsAlive(w);
    var t := Written(w, put);
    assert forall rev :: rev in w.puts ==> t.puts[rev] == w.puts[rev];
  }

  lemma ExtendedByWrite(w: World, put: Put)
    requires PutsKept(w)
    ensures Extends(w, Written(w, put))
  {
  }

  lemma WrittenKept(w: World, put: Put)
    requires Kept(w) && Descends(w, put)
    ensures Kept(Written(w, put))
  {
    hide PutsKept, TimersKept, HoldersKept, FiresKept, LiveKept, Descends, Extends;
    ExtendedByWrite(w, put);
    AllExtend(w, Written(w, put));
    PutsWritten(w, put);
    LiveWritten(w, put);
  }

  lemma NewLineageIsAlive(w: World)
    requires PutsKept(w) && FiresKept(w)
    ensures !Dead(w.fires, w.last + 1)
  {
    forall k | 0 <= k < |w.fires| ensures w.fires[k].lineage <= w.last {
      assert w.puts[w.fires[k].rev].lineage in w.puts;
    }
  }

  lemma DeletedKept(w: World, key: string)
    requires Kept(w)
    ensures Kept(Deleted(w, key)) && Kept(w.(current := w.current - {key}))
  {
    hide PutsKept, TimersKept, HoldersKept, FiresKept, LiveKept;
    AllExtend(w, Deleted(w, key));
    FewerLive(w, Deleted(w, key));
    AllExtend(w, w.(current := w.current - {key}));
    FewerLive(w, w.(current := w.current - {key}));
  }

  /** Steps that change neither the bucket nor the fires. */
  lemma LocalKept(w: World, t: World)
    requires Kept(w) && t.puts == w.puts && t.current == w.current && t.fires == w.fires && t.last == w.last
    requires w.now <= t.now && TimersKept(t) && HoldersKept(t)
    ensures Kept(t)
  {
    hide PutsKept, TimersKept, HoldersKept, FiresKept, LiveKept;
    FiresExtend(w, t);
    FewerLive(w, t);
  }

  lemma LetGoKept(w: World, holder: nat)
    requires Kept(w)
    ensures Kept(w.(holders := w.holders - {holder}))
  {
    hide PutsKept, FiresKept, LiveKept;
    LocalKept(w, w.(holders := w.holders - {holder}));
  }

  lemma HoldingKept(w: World, holder: nat, original: nat, held: nat)
    requires Kept(w) && original in w.puts && held in w.puts && w.puts[held].lineage == w.puts[original].lineage
    requires w.puts[original].expiresAt <= w.puts[held].expiresAt
    ensures Kept(w.(holders := w.holders[holder := Holding(original, held)]))
  {
    hide PutsKept, FiresKept, LiveKept;
    LocalKept(w, w.(holders := w.holders[holder := Holding(original, held)]));
  }

  /** A hold writes a later expiry in the same lineage. */
  lemma HeldKept(w: World, rev: nat, expiresAt: int)
    requires Kept(w) && IsCurrent(w, rev) && expiresAt >= w.puts[rev].expiresAt
    ensures var t := Written(w, w.puts[rev].(expiresAt := expiresAt));
      && Kept(t) && rev in t.puts && t.puts[rev] == w.puts[rev] && t.last in t.puts
      && t.puts[t.last] == w.puts[rev].(expiresAt := expiresAt)
  {
    hide Kept;
    LiveLineage(w, rev);
    WrittenKept(w, w.puts[rev].(expiresAt := expiresAt));
    KnownRevs(w);
  }

  lemma KnownRevs(w: World)
    requires Kept(w)
    ensures forall rev :: rev in w.puts ==> rev <= w.last
  {
  }

  lemma HoldUpdateKept(cfg: Config, w: World, step: Step)
    requires Kept(w) && step.HoldUpdate? && Enabled(w, step)
    ensures Kept(Apply(cfg, w, step))
  {
    hide Kept, Written;
    var original := w.holders[step.holder].original;
    var idle := w.(holders := w.holders - {step.holder});
    LetGoKept(w, step.holder);
    if IsCurrent(w, original) {
      var put := w.puts[original];
      var deadline := HoldDeadline(put.expiresAt, w.now, cfg.maxHold);
      HeldKept(idle, original, deadline);
      var held := Written(idle, put.(expiresAt := deadline));
      HoldingKept(held, step.holder, original, held.last);
    }
  }

  lemma LiveLineage(w: World, rev: nat)
    requires Kept(w) && IsCurrent(w, rev)
    ensures Descends(w, w.puts[rev])
  {
  }

  lemma ReleaseUpdateKept(cfg: Config, w: World, step: Step)
    requires Kept(w) && step.ReleaseUpdate? && Enabled(w, step)
    ensures Kept(Apply(cfg, w, step))
  {
    hide Dead, TimersKept, FiresKept, LiveKept;
    var h := w.holders[step.holder];
    var idle := w.(holders := w.holders - {step.holder});
    LetGoKept(w, step.holder);
    if IsCurrent(w, h.held) && h.original in w.puts {
      LiveLineage(w, h.held);
      SameLineage(w, h.original, h.held);
      WrittenKept(idle, w.puts[h.original]);
    }
  }

  lemma SameLineage(w: World, a: nat, b: nat)
    requires PutsKept(w) && a in w.puts && b in w.puts && w.puts[a].lineage == w.puts[b].lineage
    ensures w.puts[a].key == w.puts[b].key && w.puts[a].meta == w.puts[b].meta
  {
  }

  lemma TryDeleteKept(cfg: Config, w: World, step: Step)
    requires Kept(w) && step.TryDelete? && Enabled(w, step) && cfg.checkInterval >= 0
    ensures Kept(Apply(cfg, w, step))
  {
    hide Dead;
    var a := w.attempts[step.k];
    var rest := w.(attempts := w.attempts[..step.k] + w.attempts[step.k + 1..]);
    assert a in w.attempts;
    LocalKept(w, rest);
    if step.answer.NeverSent? {
      RetryKept(cfg, rest, a);
    } else if IsCurrent(w, a.rev) {
      var key := w.puts[a.rev].key;
      DeletedKept(rest, key);
      var gone := Deleted(rest, key);
      if step.answer.AnswerLost? {
        RetryKept(cfg, gone, a);
      } else {
        FiredKept(w, gone, a.rev);
      }
    }
  }

  lemma RetryKept(cfg: Config, w: World, a: Attempt)
    requires Kept(w) && a.rev in w.puts && w.puts[a.rev].expiresAt <= w.now && cfg.checkInterval >= 0
    ensures Kept(RetriedLater(cfg, w, a))
  {
    hide TimersKept, HoldersKept, FiresKept, LiveKept, PutsKept;
    if RetriedLater(cfg, w, a) != w {
      TimerSet(w, a.replica, a.rev, w.now + cfg.checkInterval);
      HandsKept(w, RetriedLater(cfg, w, a));
    }
  }

  /** A confirmed delete of a live revision ends its lineage. */
  lemma FiredKept(w: World, gone: World, rev: nat)
    requires Kept(w) && Kept(gone) && IsCurrent(w, rev) && gone.puts == w.puts && gone.fires == w.fires
    requires gone.current == w.current - {w.puts[rev].key} && gone.now == w.now && w.puts[rev].expiresAt <= w.now
    ensures Kept(gone.(fires := w.fires + [Fire(rev, w.puts[rev].lineage, w.puts[rev].meta, w.now)]))
  {
    hide TimersKept, HoldersKept, FiresKept, LiveKept, Dead;
    var f := Fire(rev, w.puts[rev].lineage, w.puts[rev].meta, w.now);
    LiveFired(w, gone, rev);
    FiresNext(gone, f);
    SameHands(gone, gone.(fires := w.fires + [f]));
  }

  lemma SameHands(w: World, t: World)
    requires TimersKept(w) && HoldersKept(w) && t == w.(fires := t.fires)
    ensures TimersKept(t) && HoldersKept(t)
  {
  }

  lemma FiresNext(w: World, f: Fire)
    requires FiresKept(w) && f.rev in w.puts && f.lineage == w.puts[f.rev].lineage && f.meta == w.puts[f.rev].meta
    requires w.puts[f.rev].expiresAt <= f.at <= w.now && !Dead(w.fires, f.lineage)
    ensures FiresKept(w.(fires := w.fires + [f]))
  {
  }

  lemma LiveFired(w: World, gone: World, rev: nat)
    requires LiveKept(w) && PutsKept(w) && IsCurrent(w, rev) && gone.puts == w.puts
    requires gone.current == w.current - {w.puts[rev].key}
    ensures !Dead(w.fires, w.puts[rev].lineage)
    ensures LiveKept(gone.(fires := w.fires + [Fire(rev, w.puts[rev].lineage, w.puts[rev].meta, w.now)]))
  {
    var lineage := w.puts[rev].lineage;
    var t := gone.(fires := w.fires + [Fire(rev, lineage, w.puts[rev].meta, w.now)]);
    forall key | key in t.current && t.current[key] in t.puts ensures !Dead(t.fires, t.puts[t.current[key]].lineage) {
      assert !Dead(w.fires, w.puts[w.current[key]].lineage);
      assert key != w.puts[rev].key;
    }
  }

  /** Time passes, or a hold goes on: no timer changes. */
  lemma QuietStepKept(cfg: Config, w: World, step: Step)
    requires Kept(w) && Enabled(w, step) && (step.Tick? || step.HoldRead? || step.ReleaseRead?)
    ensures Kept(Apply(cfg, w, step))
  {
    hide Dead, FiresKept, LiveKept, PutsKept;
    LocalKept(w, Apply(cfg, w, step));
  }

  /** Only timers and attempts differ. */
  lemma HandsKept(w: World, t: World)
    requires Kept(w) && t == w.(timers := t.timers, attempts := t.attempts) && TimersKept(t)
    ensures Kept(t)
  {
    hide TimersKept, FiresKept, LiveKept, PutsKept;
    LocalKept(w, t);
  }

  lemma TimerSet(w: World, replica: nat, rev: nat, due: int)
    requires TimersKept(w) && rev in w.puts && w.puts[rev].expiresAt <= due
    ensures TimersKept(w.(timers := w.timers[(replica, w.puts[rev].key) := Timer(rev, due)]))
  {
  }

  lemma FewerHands(w: World, t: World)
    requires TimersKept(w) && t == w.(timers := t.timers, attempts := t.attempts)
    requires forall k :: k in t.timers ==> k in w.timers && t.timers[k] == w.timers[k]
    requires forall a :: a in t.attempts ==> a in w.attempts
    ensures TimersKept(t)
  {
  }

  lemma OneMoreAttempt(w: World, a: Attempt)
    requires TimersKept(w) && a.rev in w.puts && w.puts[a.rev].expiresAt <= w.now
    ensures TimersKept(w.(attempts := w.attempts + [a]))
  {
  }

  lemma ScheduleStepKept(cfg: Config, w: World, step: Step)
    requires Kept(w) && Enabled(w, step) && (step.WatchPut? || step.WatchDelete? || step.Crash?)
    ensures Kept(Apply(cfg, w, step))
  {
    hide Others, TimersKept, HoldersKept, FiresKept, LiveKept, PutsKept;
    var t := Apply(cfg, w, step);
    if step.WatchPut? {
      TimerSet(w, step.replica, step.rev, Max(w.now, w.puts[step.rev].expiresAt));
    } else {
      FewerHands(w, t);
    }
    HandsKept(w, t);
  }

  lemma FireStepKept(cfg: Config, w: World, step: Step)
    requires Kept(w) && Enabled(w, step) && (step.TimerFires? || step.Rescan?)
    ensures Kept(Apply(cfg, w, step))
  {
    hide TimersKept, HoldersKept, FiresKept, LiveKept, PutsKept;
    var t := Apply(cfg, w, step);
    if step.Rescan? && w.now <= w.puts[step.rev].expiresAt {
      TimerSet(w, step.replica, step.rev, Max(w.now, w.puts[step.rev].expiresAt));
    } else {
      var key := if step.TimerFires? then step.key else w.puts[step.rev].key;
      var fewer := w.(timers := w.timers - {(step.replica, key)});
      FewerHands(w, fewer);
      var rev := if step.TimerFires? then w.timers[(step.replica, key)].rev else step.rev;
      if step.TimerFires? {
        FiredTimer(w, step);
      }
      OneMoreAttempt(fewer, Attempt(step.replica, rev));
    }
    HandsKept(w, t);
  }

  lemma FiredTimer(w: World, step: Step)
    requires TimersKept(w) && Enabled(w, step) && step.TimerFires?
    ensures var rev := w.timers[(step.replica, step.key)].rev; rev in w.puts && w.puts[rev].expiresAt <= w.now
  {
  }

  lemma StepKept(cfg: Config, w: World, step: Step)
    requires Kept(w) && Enabled(w, step) && cfg.checkInterval >= 0
    ensures Kept(Apply(cfg, w, step))
  {
    hide Kept, Dead;
    match step
    case Add(key, meta, timeout) => WrittenKept(w, Put(key, w.now + timeout, meta, w.last + 1));
    case Clear(key) => DeletedKept(w, key);
    case Expire(key) => DeletedKept(w, key);
    case HoldUpdate(_, _) => HoldUpdateKept(cfg, w, step);
    case ReleaseUpdate(_) => ReleaseUpdateKept(cfg, w, step);
    case TryDelete(_, _) => TryDeleteKept(cfg, w, step);
    case TimerFires(_, _) => FireStepKept(cfg, w, step);
    case Rescan(_, _) => FireStepKept(cfg, w, step);
    case WatchPut(_, _) => ScheduleStepKept(cfg, w, step);
    case WatchDelete(_, _) => ScheduleStepKept(cfg, w, step);
    case Crash(_) => ScheduleStepKept(cfg, w, step);
    case _ => QuietStepKept(cfg, w, step);
  }

  lemma {:induction false} RunKept(cfg: Config, steps: seq<Step>)
    requires cfg.checkInterval >= 0
    ensures Kept(Run(cfg, steps))
  {
    if steps != [] {
      hide Kept, Enabled, Apply;
      RunKept(cfg, steps[..|steps| - 1]);
      var w, step := Run(cfg, steps[..|steps| - 1]), steps[|steps| - 1];
      if Enabled(w, step) {
        StepKept(cfg, w, step);
      }
    } else {
      EmptyKept();
    }
  }

  lemma EmptyKept()
    ensures Kept(EMPTY)
  {
  }

  /** Over every interleaving of replicas, watch events, rescans, retries, adds, clears, holds and releases,
      at most one round of callbacks runs for all revisions that descend from one Add, with the metadata of
      that Add and not before the expiry of the revision it ran for. */
  lemma LineageFiresAtMostOnce(cfg: Config, steps: seq<Step>)
    requires cfg.checkInterval >= 0
    ensures var w := Run(cfg, steps);
      && (forall j, k :: 0 <= j < k < |w.fires| ==> w.fires[j].lineage != w.fires[k].lineage)
      && forall k :: 0 <= k < |w.fires| ==>
           var f := w.fires[k];
           && f.rev in w.puts && w.puts[f.rev].lineage == f.lineage && w.puts[f.rev].expiresAt <= f.at
           && f.lineage in w.puts && w.puts[f.lineage].meta == f.meta && w.puts[f.lineage].key == w.puts[f.rev].key
  {
    RunKept(cfg, steps);
  }

  /** The live revision of a key is the last one that was written. */
  ghost predicate LatestIsLive(w: World) {
    && (forall rev :: rev in w.puts ==> rev <= w.last)
    && forall rev :: rev in w.puts && w.puts[rev].key in w.current ==> rev <= w.current[w.puts[rev].key]
  }

  lemma StepLatest(cfg: Config, w: World, step: Step)
    requires LatestIsLive(w) && Enabled(w, step)
    ensures LatestIsLive(Apply(cfg, w, step))
  {
    hide LatestIsLive;
    if step.Add? || step.HoldUpdate? || step.ReleaseUpdate? {
      WriteLatest(cfg, w, step);
    } else {
      DeleteLatest(cfg, w, step);
    }
  }

  lemma WriteLatest(cfg: Config, w: World, step: Step)
    requires LatestIsLive(w) && Enabled(w, step) && (step.Add? || step.HoldUpdate? || step.ReleaseUpdate?)
    ensures LatestIsLive(Apply(cfg, w, step))
  {
    hide HoldDeadline;
  }

  lemma DeleteLatest(cfg: Config, w: World, step: Step)
    requires LatestIsLive(w) && Enabled(w, step) && !step.Add? && !step.HoldUpdate? && !step.ReleaseUpdate?
    ensures LatestIsLive(Apply(cfg, w, step))
  {
    BucketShrinks(cfg, w, step);
    hide Apply, Enabled;
  }

  lemma BucketShrinks(cfg: Config, w: World, step: Step)
    requires Enabled(w, step) && !step.Add? && !step.HoldUpdate? && !step.ReleaseUpdate?
    ensures var t := Apply(cfg, w, step);
      && t.puts == w.puts && w.last <= t.last
      && forall key :: key in t.current ==> key in w.current && t.current[key] == w.current[key]
  {
    hide Apply;
    if step.TryDelete? {
      DeleteShrinks(cfg, w, step);
    } else {
      LocalShrinks(cfg, w, step);
    }
  }

  lemma DeleteShrinks(cfg: Config, w: World, step: Step)
    requires Enabled(w, step) && step.TryDelete?
    ensures var t := Apply(cfg, w, step);
      && t.puts == w.puts && w.last <= t.last
      && forall key :: key in t.current ==> key in w.current && t.current[key] == w.current[key]
  {
    hide RetriedLater;
    var a, rest := w.attempts[step.k], w.(attempts := w.attempts[..step.k] + w.attempts[step.k + 1..]);
    RetrySchedules(cfg, rest, a);
    if IsCurrent(w, a.rev) {
      RetrySchedules(cfg, Deleted(rest, w.puts[a.rev].key), a);
    }
  }

  lemma RetrySchedules(cfg: Config, w: World, a: Attempt)
    ensures RetriedLater(cfg, w, a) == w.(timers := RetriedLater(cfg, w, a).timers)
  {
  }

  lemma LocalShrinks(cfg: Config, w: World, step: Step)
    requires Enabled(w, step) && !step.Add? && !step.HoldUpdate? && !step.ReleaseUpdate? && !step.TryDelete?
    ensures var t := Apply(cfg, w, step);
      && t.puts == w.puts && w.last <= t.last && t.fires == w.fires
      && forall key :: key in t.current ==> key in w.current && t.current[key] == w.current[key]
  {
    hide Others, IsCurrent, Max;
  }

  lemma {:induction false} RunLatest(cfg: Config, steps: seq<Step>)
    ensures LatestIsLive(Run(cfg, steps))
  {
    if steps != [] {
      hide LatestIsLive, Enabled, Apply;
      RunLatest(cfg, steps[..|steps| - 1]);
      var w, step := Run(cfg, steps[..|steps| - 1]), steps[|steps| - 1];
      if Enabled(w, step) {
        StepLatest(cfg, w, step);
      }
    }
  }

  /** One step keeps every revision and every fire, and a new fire is for the live revision. */
  lemma StepFires(cfg: Config, w: World, step: Step)
    requires Enabled(w, step) && LatestIsLive(w)
    ensures var t := Apply(cfg, w, step);
      && (forall rev :: rev in w.puts ==> rev in t.puts && t.puts[rev] == w.puts[rev])
      && (t.fires == w.fires
          || exists f :: t.fires == w.fires + [f] && IsCurrent(w, f.rev) && w.puts[f.rev].key !in t.current)
  {
    hide Apply, LatestIsLive;
    if step.TryDelete? {
      DeleteShrinks(cfg, w, step);
      DeleteFires(cfg, w, step);
    } else if step.Add? || step.HoldUpdate? || step.ReleaseUpdate? {
      WriteAdds(cfg, w, step);
    } else {
      LocalShrinks(cfg, w, step);
    }
  }

  lemma WriteAdds(cfg: Config, w: World, step: Step)
    requires Enabled(w, step) && LatestIsLive(w) && (step.Add? || step.HoldUpdate? || step.ReleaseUpdate?)
    ensures var t := Apply(cfg, w, step);
      t.fires == w.fires && forall rev :: rev in w.puts ==> rev in t.puts && t.puts[rev] == w.puts[rev]
  {
    hide HoldDeadline;
  }

  lemma DeleteFires(cfg: Config, w: World, step: Step)
    requires Enabled(w, step) && step.TryDelete?
    ensures var t := Apply(cfg, w, step);
      t.fires == w.fires
      || exists f :: t.fires == w.fires + [f] && IsCurrent(w, f.rev) && w.puts[f.rev].key !in t.current
  {
    hide RetriedLater;
    var a, rest := w.attempts[step.k], w.(attempts := w.attempts[..step.k] + w.attempts[step.k + 1..]);
    RetrySchedules(cfg, rest, a);
    if IsCurrent(w, a.rev) {
      RetrySchedules(cfg, Deleted(rest, w.puts[a.rev].key), a);
    }
  }

  /** Over every run: a timer for a superseded revision never fires. Whatever fires after the first n steps is
      for a revision not older than any revision of the key that was written in these steps. */
  lemma {:induction false} OnlyLiveRevisionsFire(cfg: Config, steps: seq<Step>, n: nat)
    requires n <= |steps|
    ensures var w, v := Run(cfg, steps[..n]), Run(cfg, steps);
      && (forall rev :: rev in w.puts ==> rev in v.puts && v.puts[rev] == w.puts[rev])
      && w.fires <= v.fires
      && forall k, rev :: |w.fires| <= k < |v.fires| && rev in w.puts ==>
           v.fires[k].rev in v.puts && (v.puts[v.fires[k].rev].key == w.puts[rev].key ==> rev <= v.fires[k].rev)
  {
    if n == |steps| {
      assert steps[..n] == steps;
    } else {
      hide Enabled, Apply, LatestIsLive;
      var init, last := steps[..|steps| - 1], steps[|steps| - 1];
      assert init[..n] == steps[..n];
      OnlyLiveRevisionsFire(cfg, init, n);
      RunLatest(cfg, init);
      var m := Run(cfg, init);
      if Enabled(m, last) {
        StepFires(cfg, m, last);
        LiveIsLast(m);
      }
    }
  }

  lemma LiveIsLast(w: World)
    requires LatestIsLive(w)
    ensures forall live: nat, rev: nat :: IsCurrent(w, live) && rev in w.puts && w.puts[rev].key == w.puts[live].key ==> rev <= live
  {
  }

  /** The release of a hold changes a key only while the held revision is live, and then it brings back
      exactly the original entry; it never overwrites a later Add, Hold or Clear. */
  lemma RestoreKeepsLaterWrites(cfg: Config, steps: seq<Step>, step: Step, key: string)
    requires cfg.checkInterval >= 0 && (step.ReleaseRead? || step.ReleaseUpdate?) && Enabled(Run(cfg, steps), step)
    ensures var w, t := Run(cfg, steps), Apply(cfg, Run(cfg, steps), step);
      var h := w.holders[step.holder];
      (key in t.current) == (key in w.current)
      && (key in w.current && t.current[key] != w.current[key] ==>
            && w.current[key] == h.held && t.current[key] in t.puts
            && h.original in w.puts && t.puts[t.current[key]] == w.puts[h.original])
  {
    RunKept(cfg, steps);
    var w := Run(cfg, steps);
    var h := w.holders[step.holder];
    assert h.original in w.puts && h.held in w.puts;
    SameLineage(w, h.original, h.held);
  }

  lemma HoldWrites(cfg: Config, w: World, step: Step)
    requires step.HoldUpdate? && Enabled(w, step) && IsCurrent(w, w.holders[step.holder].original)
    ensures var t, put := Apply(cfg, w, step), w.puts[w.holders[step.holder].original];
      t.puts == w.puts[w.last + 1 := put.(expiresAt := HoldDeadline(put.expiresAt, w.now, cfg.maxHold))]
      && t.fires == w.fires
  {
  }

  /** A held timer keeps quiet. After a hold that succeeded in step n, no revision of the key from before fires
      any more, and the held one, which keeps metadata and lineage, fires only after the hold deadline and not
      before the original expiry. */
  lemma HoldMovesExpiry(cfg: Config, steps: seq<Step>, n: nat)
    requires cfg.checkInterval >= 0 && n < |steps| && steps[n].HoldUpdate? && Enabled(Run(cfg, steps[..n]), steps[n])
    requires IsCurrent(Run(cfg, steps[..n]), Run(cfg, steps[..n]).holders[steps[n].holder].original)
    ensures var w, v := Run(cfg, steps[..n]), Run(cfg, steps);
      var put, held := w.puts[w.holders[steps[n].holder].original], w.last + 1;
      && held in v.puts && v.puts[held].meta == put.meta && v.puts[held].lineage == put.lineage && v.puts[held].key == put.key
      && forall k :: |w.fires| <= k < |v.fires| && v.fires[k].rev in v.puts && v.puts[v.fires[k].rev].key == put.key ==>
           && v.fires[k].rev >= held
           && (v.fires[k].rev == held ==> v.fires[k].at >= w.now + cfg.maxHold && v.fires[k].at >= put.expiresAt)
  {
    hide Enabled, Apply, Kept, HoldDeadline, IsCurrent;
    var w := Run(cfg, steps[..n]);
    assert steps[..n + 1][..n] == steps[..n];
    HoldWrites(cfg, w, steps[n]);
    OnlyLiveRevisionsFire(cfg, steps, n + 1);
    RunKept(cfg, steps);
    FiredAfterExpiry(Run(cfg, steps));
  }

  lemma FiredAfterExpiry(w: World)
    requires Kept(w)
    ensures forall k :: 0 <= k < |w.fires| ==> w.fires[k].rev in w.puts && w.puts[w.fires[k].rev].expiresAt <= w.fires[k].at
  {
  }
}
