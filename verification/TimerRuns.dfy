/** What becomes of one added timer over a whole run: not early, not forgotten, cancelled by a clear, held and restored. */
module TimerRuns {
  import opened BatchTypes
  import opened TimerLineage

  /** No revision of a lineage expires before its Add said. */
  ghost predicate NotEarlier(w: World) {
    forall rev :: rev in w.puts && w.puts[rev].lineage in w.puts ==> w.puts[w.puts[rev].lineage].expiresAt <= w.puts[rev].expiresAt
  }

  lemma StepNotEarlier(cfg: Config, w: World, step: Step)
    requires Kept(w) && NotEarlier(w) && Enabled(w, step)
    ensures NotEarlier(Apply(cfg, w, step))
  {
    hide Apply, Kept, NotEarlier;
    if step.Add? || step.HoldUpdate? || step.ReleaseUpdate? {
      WriteNotEarlier(cfg, w, step);
    } else {
      BucketShrinks(cfg, w, step);
      SamePuts(w, Apply(cfg, w, step));
    }
  }

  lemma SamePuts(w: World, t: World)
    requires NotEarlier(w) && t.puts == w.puts
    ensures NotEarlier(t)
  {
  }

  lemma WriteNotEarlier(cfg: Config, w: World, step: Step)
    requires Kept(w) && NotEarlier(w) && Enabled(w, step) && (step.Add? || step.HoldUpdate? || step.ReleaseUpdate?)
    ensures NotEarlier(Apply(cfg, w, step))
  {
    hide TimersKept, FiresKept, LiveKept, HoldDeadline;
    assert w.last + 1 !in w.puts;
  }

  lemma {:induction false} RunNotEarlier(cfg: Config, steps: seq<Step>)
    requires cfg.checkInterval >= 0
    ensures NotEarlier(Run(cfg, steps))
  {
    if steps != [] {
      hide NotEarlier, Enabled, Apply, Kept;
      var init, last := steps[..|steps| - 1], steps[|steps| - 1];
      RunNotEarlier(cfg, init);
      RunKept(cfg, init);
      if Enabled(Run(cfg, init), last) {
        StepNotEarlier(cfg, Run(cfg, init), last);
      }
    }
  }

  lemma AddWrites(cfg: Config, w: World, step: Step)
    requires step.Add?
    ensures var t := Apply(cfg, w, step);
      && t.fires == w.fires && t.last == w.last + 1 && t.current == w.current[step.key := t.last]
      && t.puts.Keys == w.puts.Keys + {t.last} && t.puts[t.last].key == step.key && t.puts[t.last].meta == step.meta
      && t.puts[t.last].lineage == t.last && t.puts[t.last].expiresAt == w.now + step.timeout
  {
  }

  /** An added timer is never early. After an Add in step n nothing older of the key fires, and whatever fires for the
      Add, be it held and restored in between, has its metadata and fires no earlier than the timeout after the Add. */
  lemma AddFiresAfterTimeout(cfg: Config, steps: seq<Step>, n: nat)
    requires cfg.checkInterval >= 0 && n < |steps| && steps[n].Add?
    ensures var w, v := Run(cfg, steps[..n]), Run(cfg, steps);
      var added := w.last + 1;
      && added in v.puts && v.puts[added].key == steps[n].key && v.puts[added].meta == steps[n].meta
      && v.puts[added].expiresAt == w.now + steps[n].timeout
      && (forall k :: 0 <= k < |v.fires| && v.fires[k].lineage == added ==>
            v.fires[k].at >= w.now + steps[n].timeout && v.fires[k].meta == steps[n].meta)
      && forall k :: |w.fires| <= k < |v.fires| && v.fires[k].rev in v.puts && v.puts[v.fires[k].rev].key == steps[n].key ==>
           v.fires[k].rev >= added
  {
    hide Enabled, Apply, Kept;
    var w := Run(cfg, steps[..n]);
    assert steps[..n + 1][..n] == steps[..n];
    AddIsEnabled(w, steps[n]);
    AddWrites(cfg, w, steps[n]);
    OnlyLiveRevisionsFire(cfg, steps, n + 1);
    LineageFiresAtMostOnce(cfg, steps);
    RunNotEarlier(cfg, steps);
  }

  lemma AddIsEnabled(w: World, step: Step)
    requires step.Add? || step.Clear?
    ensures Enabled(w, step)
  {
  }

  /** A step that sets, stops or takes the timer of the key on the replica. */
  ghost predicate Touches(w: World, step: Step, replica: nat, key: string) {
    match step
    case WatchPut(r, rev) => r == replica && rev in w.puts && w.puts[rev].key == key
    case Rescan(r, rev) => r == replica && rev in w.puts && w.puts[rev].key == key
    case WatchDelete(r, k) => r == replica && k == key
    case TimerFires(r, k) => r == replica && k == key
    case Crash(r) => r == replica
    case _ => false
  }

  lemma StepKeepsTimer(cfg: Config, w: World, step: Step, replica: nat, key: string)
    requires Enabled(w, step) && !Touches(w, step, replica, key) && (replica, key) in w.timers
    ensures var t := Apply(cfg, w, step);
      && (replica, key) in t.timers && t.timers[(replica, key)] == w.timers[(replica, key)] && w.now <= t.now
  {
    hide Others, IsCurrent, Max, HoldDeadline;
    if step.TryDelete? {
      TryKeepsTimer(cfg, w, step, replica, key);
    }
  }

  lemma TryKeepsTimer(cfg: Config, w: World, step: Step, replica: nat, key: string)
    requires Enabled(w, step) && step.TryDelete? && (replica, key) in w.timers
    ensures var t := Apply(cfg, w, step);
      && (replica, key) in t.timers && t.timers[(replica, key)] == w.timers[(replica, key)] && w.now <= t.now
  {
    hide IsCurrent;
  }

  /** No step from the n-th on touches the timer. */
  ghost predicate LeftAlone(cfg: Config, steps: seq<Step>, n: nat, replica: nat, key: string) {
    forall m :: n <= m < |steps| ==> !Touches(Run(cfg, steps[..m]), steps[m], replica, key)
  }

  lemma LeftAloneBefore(cfg: Config, steps: seq<Step>, n: nat, replica: nat, key: string)
    requires n < |steps| && LeftAlone(cfg, steps, n, replica, key)
    ensures var init, last := steps[..|steps| - 1], steps[|steps| - 1];
      LeftAlone(cfg, init, n, replica, key) && !Touches(Run(cfg, init), last, replica, key)
  {
    hide Run, Touches;
    var init := steps[..|steps| - 1];
    forall m | n <= m < |init| ensures !Touches(Run(cfg, init[..m]), init[m], replica, key) {
      assert init[..m] == steps[..m] && init[m] == steps[m];
    }
  }

  lemma {:induction false} TimerStays(cfg: Config, steps: seq<Step>, n: nat, replica: nat, key: string)
    requires n <= |steps| && (replica, key) in Run(cfg, steps[..n]).timers && LeftAlone(cfg, steps, n, replica, key)
    ensures var w, v := Run(cfg, steps[..n]), Run(cfg, steps);
      (replica, key) in v.timers && v.timers[(replica, key)] == w.timers[(replica, key)] && w.now <= v.now
  {
    if n == |steps| {
      assert steps[..n] == steps;
    } else {
      hide Enabled, Apply, Touches, LeftAlone;
      var init := steps[..|steps| - 1];
      assert init[..n] == steps[..n];
      LeftAloneBefore(cfg, steps, n, replica, key);
      TimerStays(cfg, init, n, replica, key);
      if Enabled(Run(cfg, init), steps[|init|]) {
        StepKeepsTimer(cfg, Run(cfg, init), steps[|init|], replica, key);
      }
    }
  }

  lemma WatchSchedules(cfg: Config, w: World, replica: nat, rev: nat)
    requires rev in w.puts
    ensures var t := Apply(cfg, w, WatchPut(replica, rev));
      && Enabled(w, WatchPut(replica, rev)) && t.puts == w.puts && t.now == w.now
      && (replica, w.puts[rev].key) in t.timers
      && t.timers[(replica, w.puts[rev].key)] == Timer(rev, if w.puts[rev].expiresAt > w.now then w.puts[rev].expiresAt else w.now)
  {
  }

  /** A due timer for the live revision runs its callbacks, once the delete is confirmed. */
  lemma DueTimerFires(cfg: Config, w: World, replica: nat, key: string)
    requires Kept(w) && (replica, key) in w.timers && w.timers[(replica, key)].due <= w.now
        && IsCurrent(w, w.timers[(replica, key)].rev)
    ensures var rev := w.timers[(replica, key)].rev;
      && Enabled(w, TimerFires(replica, key)) && rev in w.puts
      && var t := Apply(cfg, w, TimerFires(replica, key));
      && Enabled(t, TryDelete(|w.attempts|, Confirmed))
      && var u := Apply(cfg, t, TryDelete(|w.attempts|, Confirmed));
      && |u.fires| == |w.fires| + 1 && u.fires[..|w.fires|] == w.fires && key !in u.current
      && var f := u.fires[|w.fires|];
         f.rev == rev && f.meta == w.puts[rev].meta && f.lineage == w.puts[rev].lineage && f.at == w.now
  {
    hide PutsKept, HoldersKept, FiresKept, LiveKept;
  }

  /** An added timer is not forgotten. A replica that has seen the Add of step n in step m, and whose timer of the key
      nothing touched since, holds a timer for it that is due as soon as the timeout is over, and while nothing else was
      written to the key the callbacks then run with the metadata of the Add. */
  lemma WatchedAddIsDue(cfg: Config, steps: seq<Step>, n: nat, m: nat, replica: nat)
    requires cfg.checkInterval >= 0 && n < m < |steps| && steps[n].Add?
    requires steps[m] == WatchPut(replica, Run(cfg, steps[..n]).last + 1)
    requires LeftAlone(cfg, steps, m + 1, replica, steps[n].key)
    ensures var w, v := Run(cfg, steps[..n]), Run(cfg, steps);
      var added, key := w.last + 1, steps[n].key;
      && (replica, key) in v.timers && v.timers[(replica, key)].rev == added && added in v.puts
          && v.puts[added].meta == steps[n].meta
      && (v.now >= w.now + steps[n].timeout ==> Enabled(v, TimerFires(replica, key)))
      && (v.now >= w.now + steps[n].timeout && IsCurrent(v, added) ==>
            var u := Apply(cfg, Apply(cfg, v, TimerFires(replica, key)), TryDelete(|v.attempts|, Confirmed));
            |u.fires| == |v.fires| + 1 && u.fires[|v.fires|].rev == added && u.fires[|v.fires|].meta == steps[n].meta)
  {
    hide Enabled, Apply, Kept, Touches, IsCurrent, LeftAlone;
    var key := steps[n].key;
    var w, x, v := Run(cfg, steps[..n]), Run(cfg, steps[..m]), Run(cfg, steps);
    assert steps[..m][..n] == steps[..n];
    assert steps[..m + 1][..m] == steps[..m];
    AddFiresAfterTimeout(cfg, steps[..m], n);
    AddFiresAfterTimeout(cfg, steps, n);
    WatchSchedules(cfg, x, replica, w.last + 1);
    TimerStays(cfg, steps, m + 1, replica, key);
    RunKept(cfg, steps);
    if v.now >= w.now + steps[n].timeout {
      DueIsEnabled(v, replica, key);
      if IsCurrent(v, w.last + 1) {
        DueTimerFires(cfg, v, replica, key);
      }
    }
  }

  lemma DueIsEnabled(w: World, replica: nat, key: string)
    requires (replica, key) in w.timers && w.timers[(replica, key)].due <= w.now
    ensures Enabled(w, TimerFires(replica, key))
  {
  }

  /** A try without an answer. */
  ghost predicate Unanswered(w: World, step: Step) {
    step.TryDelete? && Enabled(w, step) && w.attempts[step.k].rev in w.puts
    && (step.answer.NeverSent? || (step.answer.AnswerLost? && IsCurrent(w, w.attempts[step.k].rev)))
  }

  lemma UnansweredSchedules(cfg: Config, w: World, step: Step)
    requires Unanswered(w, step) && cfg.rescan
    ensures var t, a := Apply(cfg, w, step), w.attempts[step.k];
      var key := w.puts[a.rev].key;
      && t.fires == w.fires && (a.replica, key) in t.timers
      && ((a.replica, key) !in w.timers ==> t.timers[(a.replica, key)] == Timer(a.rev, w.now + cfg.checkInterval))
      && ((a.replica, key) in w.timers ==> t.timers[(a.replica, key)] == w.timers[(a.replica, key)])
  {
  }

  /** A try without an answer is repeated for the same revision when the check interval is over, and not before,
      unless the key has another timer by then. */
  lemma UnansweredIsRetried(cfg: Config, steps: seq<Step>, n: nat)
    requires n < |steps| && cfg.rescan && Unanswered(Run(cfg, steps[..n]), steps[n])
    requires var w := Run(cfg, steps[..n]);
      var a := w.attempts[steps[n].k];
      (a.replica, w.puts[a.rev].key) !in w.timers && LeftAlone(cfg, steps, n + 1, a.replica, w.puts[a.rev].key)
    ensures var w, v := Run(cfg, steps[..n]), Run(cfg, steps);
      var a := w.attempts[steps[n].k];
      var key := w.puts[a.rev].key;
      && (Enabled(v, TimerFires(a.replica, key)) <==> v.now >= w.now + cfg.checkInterval)
      && (a.replica, key) in v.timers && v.timers[(a.replica, key)].rev == a.rev
  {
    hide Apply, Touches, IsCurrent, LeftAlone;
    var w := Run(cfg, steps[..n]);
    var a := w.attempts[steps[n].k];
    assert steps[..n + 1][..n] == steps[..n];
    UnansweredSchedules(cfg, w, steps[n]);
    TimerStays(cfg, steps, n + 1, a.replica, w.puts[a.rev].key);
  }

  /** The key has no live revision that is older than last. */
  ghost predicate NewerOnly(w: World, key: string, last: nat) {
    last <= w.last && (key in w.current ==> w.current[key] > last)
  }

  lemma StepNewer(cfg: Config, w: World, step: Step, key: string, last: nat)
    requires Enabled(w, step) && NewerOnly(w, key, last) && LatestIsLive(w)
    ensures NewerOnly(Apply(cfg, w, step), key, last)
  {
    hide Apply, Enabled, LatestIsLive;
    if step.Add? || step.HoldUpdate? || step.ReleaseUpdate? {
      WriteNewer(cfg, w, step, key, last);
    } else {
      BucketShrinks(cfg, w, step);
    }
  }

  lemma WriteNewer(cfg: Config, w: World, step: Step, key: string, last: nat)
    requires Enabled(w, step) && NewerOnly(w, key, last) && (step.Add? || step.HoldUpdate? || step.ReleaseUpdate?)
    ensures NewerOnly(Apply(cfg, w, step), key, last)
  {
    hide HoldDeadline;
  }

  lemma {:induction false} RunNewer(cfg: Config, steps: seq<Step>, n: nat, key: string)
    requires n <= |steps| && key !in Run(cfg, steps[..n]).current
    ensures var w, v := Run(cfg, steps[..n]), Run(cfg, steps);
      && NewerOnly(v, key, w.last) && w.fires <= v.fires
      && forall k :: |w.fires| <= k < |v.fires| ==>
           v.fires[k].rev in v.puts && (v.puts[v.fires[k].rev].key == key ==> v.fires[k].rev > w.last)
  {
    if n == |steps| {
      assert steps[..n] == steps;
    } else {
      hide Enabled, Apply, LatestIsLive;
      var init, step := steps[..|steps| - 1], steps[|steps| - 1];
      assert init[..n] == steps[..n];
      RunNewer(cfg, init, n, key);
      RunLatest(cfg, init);
      var w := Run(cfg, init);
      if Enabled(w, step) {
        StepNewer(cfg, w, step, key, Run(cfg, steps[..n]).last);
        StepFires(cfg, w, step);
      }
    }
  }

  /** A cleared timer is cancelled: after a Clear in step n, or once its callbacks ran, no revision of the key that was
      written before fires, whatever timers the replicas still have for it. */
  lemma ClearCancels(cfg: Config, steps: seq<Step>, n: nat)
    requires n < |steps| && (steps[n].Clear? || steps[n].Expire?)
    ensures var w, v := Run(cfg, steps[..n]), Run(cfg, steps);
      && w.fires <= v.fires
      && forall k :: |w.fires| <= k < |v.fires| ==>
           v.fires[k].rev in v.puts && (v.puts[v.fires[k].rev].key == steps[n].key ==> v.fires[k].rev > w.last)
  {
    hide Enabled, NewerOnly;
    var w := Run(cfg, steps[..n]);
    assert steps[..n + 1][..n] == steps[..n];
    Cleared(cfg, w, steps[n]);
    RunNewer(cfg, steps, n + 1, steps[n].key);
  }

  lemma Cleared(cfg: Config, w: World, step: Step)
    requires step.Clear? || step.Expire?
    ensures Enabled(w, step)
    ensures var t := Apply(cfg, w, step); step.key !in t.current && t.last >= w.last && t.fires == w.fires
  {
  }

  /** A step of the hold call itself. */
  ghost predicate StepOf(step: Step, holder: nat) {
    (step.HoldRead? || step.HoldUpdate? || step.ReleaseRead? || step.ReleaseUpdate?) && step.holder == holder
  }

  lemma StepKeepsHolder(cfg: Config, w: World, step: Step, holder: nat, h: Holder)
    requires Enabled(w, step) && !StepOf(step, holder) && HeldBy(w, holder, h)
    ensures HeldBy(Apply(cfg, w, step), holder, h)
  {
    hide Others, IsCurrent, Max, HoldDeadline;
    if step.TryDelete? {
      TryKeepsHolders(cfg, w, step);
    }
  }

  lemma TryKeepsHolders(cfg: Config, w: World, step: Step)
    requires Enabled(w, step) && step.TryDelete?
    ensures Apply(cfg, w, step).holders == w.holders
  {
    hide IsCurrent;
  }

  /** No step from the n-th on belongs to the hold call. */
  ghost predicate Idle(steps: seq<Step>, n: nat, holder: nat) {
    forall m :: n <= m < |steps| ==> !StepOf(steps[m], holder)
  }

  lemma IdleInit(steps: seq<Step>, n: nat, holder: nat)
    requires n < |steps| && Idle(steps, n, holder)
    ensures Idle(steps[..|steps| - 1], n, holder) && !StepOf(steps[|steps| - 1], holder)
  {
  }

  ghost predicate HeldBy(w: World, holder: nat, h: Holder) {
    holder in w.holders && w.holders[holder] == h
  }

  lemma {:induction false} HolderStays(cfg: Config, steps: seq<Step>, n: nat, holder: nat, h: Holder)
    requires n <= |steps| && HeldBy(Run(cfg, steps[..n]), holder, h) && Idle(steps, n, holder)
    ensures HeldBy(Run(cfg, steps), holder, h)
  {
    hide Enabled, Apply, Idle, HeldBy;
    if n == |steps| {
      assert steps[..n] == steps;
    } else {
      var init := steps[..|steps| - 1];
      assert init[..n] == steps[..n];
      IdleInit(steps, n, holder);
      HolderStays(cfg, init, n, holder, h);
      if Enabled(Run(cfg, init), steps[|init|]) {
        StepKeepsHolder(cfg, Run(cfg, init), steps[|init|], holder, h);
      }
    }
  }

  lemma HoldRemembers(cfg: Config, w: World, step: Step)
    requires step.HoldUpdate? && step.answered && Enabled(w, step) && IsCurrent(w, w.holders[step.holder].original)
    ensures step.holder in w.holders
    ensures var t := Apply(cfg, w, step);
      step.holder in t.holders && t.holders[step.holder] == Holding(w.holders[step.holder].original, w.last + 1)
  {
  }

  lemma ReleaseBringsBack(cfg: Config, w: World, holder: nat)
    requires holder in w.holders && w.holders[holder].Holding? && w.holders[holder].original in w.puts
    requires IsCurrent(w, w.holders[holder].held)
    requires w.puts[w.holders[holder].original].key == w.puts[w.holders[holder].held].key
    ensures Enabled(w, ReleaseRead(holder))
    ensures var t := Apply(cfg, w, ReleaseRead(holder));
      && Enabled(t, ReleaseUpdate(holder))
      && var u := Apply(cfg, t, ReleaseUpdate(holder));
      var put := w.puts[w.holders[holder].original];
      && put.key in u.current && u.current[put.key] == w.last + 1 && w.last + 1 in u.puts && u.puts[w.last + 1] == put
      && u.timers == w.timers && u.fires == w.fires && holder !in u.holders
  {
  }

  /** A hold that ends without a new Add, Clear or Hold of the key gives the timer back as it was: after a hold in step
      n the release of a live held revision makes the original expiry, metadata and lineage live again. */
  lemma HoldGivesBack(cfg: Config, steps: seq<Step>, n: nat)
    requires cfg.checkInterval >= 0 && n < |steps| && steps[n].HoldUpdate? && steps[n].answered
        && Enabled(Run(cfg, steps[..n]), steps[n])
    requires var w := Run(cfg, steps[..n]); IsCurrent(w, w.holders[steps[n].holder].original)
    requires Idle(steps, n + 1, steps[n].holder)
    requires IsCurrent(Run(cfg, steps), Run(cfg, steps[..n]).last + 1)
    ensures var w, v, holder := Run(cfg, steps[..n]), Run(cfg, steps), steps[n].holder;
      var put := w.puts[w.holders[holder].original];
      && Enabled(v, ReleaseRead(holder)) && Enabled(Apply(cfg, v, ReleaseRead(holder)), ReleaseUpdate(holder))
      && var u := Apply(cfg, Apply(cfg, v, ReleaseRead(holder)), ReleaseUpdate(holder));
      put.key in u.current && u.current[put.key] in u.puts && u.puts[u.current[put.key]] == put
  {
    hide Enabled, Apply, Idle, HoldDeadline, IsCurrent, Kept;
    var w, v, holder := Run(cfg, steps[..n]), Run(cfg, steps), steps[n].holder;
    assert steps[..n + 1][..n] == steps[..n];
    HoldRemembers(cfg, w, steps[n]);
    HolderStays(cfg, steps, n + 1, holder, Holding(w.holders[holder].original, w.last + 1));
    HoldMovesExpiry(cfg, steps, n);
    OnlyLiveRevisionsFire(cfg, steps, n);
    RunKept(cfg, steps[..n]);
    OriginalIsPut(w, holder);
    ReleaseBringsBack(cfg, v, holder);
  }

  lemma OriginalIsPut(w: World, holder: nat)
    requires Kept(w) && holder in w.holders
    ensures w.holders[holder].original in w.puts
  {
  }

  /** A delete marker stops the timer of its key on the replica that sees it, and a crash loses the timers and the tries of its
      replica; those of the others go on. */
  lemma StopsOwnTimers(cfg: Config, w: World, step: Step, replica: nat, key: string)
    requires step.WatchDelete? || step.Crash?
    ensures Enabled(w, step)
    ensures var t := Apply(cfg, w, step);
      var stops := step.replica == replica && (step.Crash? || step.key == key);
      && ((replica, key) in t.timers <==> (replica, key) in w.timers && !stops)
      && ((replica, key) in t.timers ==> t.timers[(replica, key)] == w.timers[(replica, key)])
      && (forall a: Attempt :: a in t.attempts <==> a in w.attempts && (step.Crash? ==> a.replica != step.replica))
      && t.puts == w.puts && t.current == w.current && t.fires == w.fires
  {
  }
}
