// How long a leader flag can stay up after the leader key is lost. The leader loop compares
// only the value of the key with its own id, so a put left over from an earlier campaign
// that lands while the same process leads keeps the flag up, although its lease is dead.
module StaleFlags {
  import opened Options
  import opened Election
  import opened ElectionTiming

  /** How much time an elected process may still take to notice that its key is gone. */
  function Left(t: Timing, stage: Stage): real {
    match stage
    case Won | Publish => t.publish + t.get
    case ServeHead | ReadKey => t.get
    case Refresh => t.refresh + t.wait + t.get
    case Pause => t.wait + t.get
    case _ => 0.0
  }

  /** The longest that noticing can take: the key is lost just after a get has read it, or
      just after the put that won it. */
  function Lag(t: Timing): real {
    var served, won := t.get + t.refresh + t.wait + t.get, t.put + t.publish + t.get;
    if served >= won then served else won
  }

  /** One turn of the leader loop. */
  function Cycle(t: Timing): real {
    t.wait + t.get + t.refresh
  }

  lemma LeftFits(t: Timing, p: Process)
    requires Sensible(t)
    ensures Elected(p) ==> Ahead(t, p.stage) + Left(t, p.stage) <= Lag(t)
    ensures Elected(p) && (p.isLeader ==> MayLead(p)) ==> Limit(t, p.stage) <= Left(t, p.stage)
  {
  }

  /** A step of an elected process spends what is left, unless it reads its own id under the
      key and the loop takes time. */
  lemma OwnStepSpendsLeft(t: Timing, s: Store, id: Id, p: Process, reply: Reply)
    requires Sensible(t) && Elected(p) && (p.isLeader ==> MayLead(p))
    requires (s.leader.Held? ==> s.leader.value != id) || Cycle(t) == 0.0
    ensures var p' := Becomes(s, id, p, reply);
      Elected(p') ==> p'.lease == p.lease && Limit(t, p.stage) + Left(t, p'.stage) <= Left(t, p.stage)
  {
  }

  lemma FreshlyElected(s: Store, id: Id, p: Process, reply: Reply)
    requires Elected(Becomes(s, id, p, reply)) && !Elected(p)
    ensures Becomes(s, id, p, reply).lease == p.lease && p.lease.Some? && p.lease.value in s.live
    ensures Limited(p) && p.stage == Contend && reply == Replied && s.leader.Vacant?
  {
  }

  // ------------------------------------------------- a flag without the leader key

  /** Without the key, a flag has been up no longer since the key was lost than the process
      needs to notice. */
  ghost predicate NoticesLoss(t: Timing, c: Timed, id: Id, p: Process) {
    Elected(p) && id in c.since && !HoldsKey(c.cluster, id) ==>
      id in c.dropped && c.since[id] + Left(t, p.stage) <= c.dropped[id] + Lag(t)
  }

  /** The moment at which a process stops holding the key is recorded, and kept. */
  lemma DroppedIsRecorded(t: Timing, c: Timed, e: Event, answer: real, id: Id)
    requires Enabled(c.cluster, e) && !HoldsKey(TimedNext(t, c, Do(e, answer)).cluster, id)
    ensures var c' := TimedNext(t, c, Do(e, answer));
      if HoldsKey(c.cluster, id) then id in c'.dropped && c'.dropped[id] == c.now
      else (id in c.dropped ==> id in c'.dropped && c'.dropped[id] == c.dropped[id])
  {
  }

  lemma BystanderNoticesLoss(t: Timing, c: Timed, e: Event, answer: real, id: Id)
    requires Sensible(t) && TimedInv(t, c) && TimedEnabled(t, c, Do(e, answer))
    requires id in c.cluster.processes && NoticesLoss(t, c, id, c.cluster.processes[id])
    requires !(e.Run? && e.id == id) && !(e.Crash? && e.id == id)
    ensures NoticesLoss(t, TimedNext(t, c, Do(e, answer)), id, Next(c.cluster, e).processes[id])
  {
    var p := c.cluster.processes[id];
    assert OnSchedule(t, c, id, p);
    if Elected(p) && !HoldsKey(Next(c.cluster, e), id) {
      LeftFits(t, p);
      DroppedIsRecorded(t, c, e, answer, id);
    }
  }

  lemma ActorNoticesLoss(t: Timing, c: Timed, id: Id, reply: Reply, answer: real)
    requires Sensible(t) && TimedInv(t, c) && TimedEnabled(t, c, Do(Run(id, reply), answer))
    requires NoticesLoss(t, c, id, c.cluster.processes[id])
    ensures NoticesLoss(t, TimedNext(t, c, Do(Run(id, reply), answer)), id, Act(c.cluster, id, reply).processes[id])
  {
    var p := c.cluster.processes[id];
    var p' := Becomes(c.cluster.store, id, p, reply);
    assert ProcessInv(c.cluster.store, c.cluster.inFlight, id, p) && OnSchedule(t, c, id, p);
    if Elected(p') && !HoldsKey(Act(c.cluster, id, reply), id) {
      DroppedIsRecorded(t, c, Run(id, reply), answer, id);
      OwnStepKeepsSchedule(t, c, id, reply, answer);
      LeftFits(t, p');
      if !Elected(p) {
        FreshlyElected(c.cluster.store, id, p, reply);
      } else if !HoldsKey(c.cluster, id) {
        OwnStepSpendsLeft(t, c.cluster.store, id, p, reply);
      }
    }
  }

  ghost predicate AllNoticeLoss(t: Timing, c: Timed) {
    forall id <- c.cluster.processes :: NoticesLoss(t, c, id, c.cluster.processes[id])
  }

  lemma StepKeepsNoticingLoss(t: Timing, c: Timed, e: TimedEvent)
    requires Sensible(t) && TimedInv(t, c) && AllNoticeLoss(t, c) && TimedEnabled(t, c, e)
    ensures AllNoticeLoss(t, TimedNext(t, c, e))
  {
    var c' := TimedNext(t, c, e);
    forall id <- c'.cluster.processes ensures NoticesLoss(t, c', id, c'.cluster.processes[id]) {
      if e.Do? && id in c.cluster.processes {
        if e.event.Run? && e.event.id == id {
          ActorNoticesLoss(t, c, id, e.event.reply, e.answer);
        } else if !(e.event.Crash? && e.event.id == id) {
          BystanderNoticesLoss(t, c, e.event, e.answer, id);
        }
      }
    }
  }

  lemma {:induction false} NoticingLossRun(t: Timing, trace: seq<Timed>, i: nat)
    requires Sensible(t) && TimedBehavior(t, trace) && i < |trace|
    ensures AllNoticeLoss(t, trace[i])
  {
    if i > 0 {
      NoticingLossRun(t, trace, i - 1);
      TimedRun(t, trace, i - 1);
      assert TimedStep(t, trace[i - 1], trace[i - 1 + 1]);
      var e :| TimedEnabled(t, trace[i - 1], e) && trace[i] == TimedNext(t, trace[i - 1], e);
      StepKeepsNoticingLoss(t, trace[i - 1], e);
    }
  }

  /** Every timed run, timely or not: a flag is up either while its process holds the leader
      key, under whatever lease, or for no longer than the lag after it last held it. */
  lemma FlagOutlivesKeyByLag(t: Timing, c: Timed, id: Id)
    requires Sensible(t) && TimedReachable(t, c) && Flag(c, id) && !HoldsKey(c.cluster, id)
    ensures id in c.dropped && c.now <= c.dropped[id] + Lag(t)
  {
    var trace: seq<Timed> :| TimedBehavior(t, trace) && trace[|trace| - 1] == c;
    TimedRun(t, trace, |trace| - 1);
    NoticingLossRun(t, trace, |trace| - 1);
    var p := c.cluster.processes[id];
    assert OnSchedule(t, c, id, p) && NoticesLoss(t, c, id, p);
    assert ProcessInv(c.cluster.store, c.cluster.inFlight, id, p);
    LeftFits(t, p);
  }

  // ------------------------------------------------- a flag without a live lease

  /** A put left over from a failed campaign lands while its process leads. */
  predicate Haunts(c: Cluster, e: TimedEvent) {
    && e.Do? && e.event.Deliver? && e.event.request.PutKeyIfVacant?
    && e.event.request.id in c.processes && Elected(c.processes[e.event.request.id])
  }

  ghost predicate CleanStep(t: Timing, c: Timed, c': Timed) {
    exists e :: TimedEnabled(t, c, e) && !Haunts(c.cluster, e) && c' == TimedNext(t, c, e)
  }

  ghost predicate CleanBehavior(t: Timing, trace: seq<Timed>) {
    && trace != [] && TimedInit(trace[0])
    && forall i | 0 <= i < |trace| - 1 :: CleanStep(t, trace[i], trace[i + 1])
  }

  ghost predicate CleanReachable(t: Timing, c: Timed) {
    exists trace: seq<Timed> :: CleanBehavior(t, trace) && trace[|trace| - 1] == c
  }

  lemma CleanIsTimed(t: Timing, trace: seq<Timed>)
    requires CleanBehavior(t, trace)
    ensures TimedBehavior(t, trace)
  {
    forall i | 0 <= i < |trace| - 1 ensures TimedStep(t, trace[i], trace[i + 1]) {
      assert CleanStep(t, trace[i], trace[i + 1]);
    }
  }

  ghost predicate NoticesDeath(t: Timing, c: Timed, id: Id, p: Process) {
    Elected(p) && p.lease.Some? && p.lease.value !in c.cluster.store.live && id in c.since ==>
      && p.lease.value in c.died
      && c.since[id] + Left(t, p.stage) <= c.died[p.lease.value] + Lag(t)
      && (Cycle(t) == 0.0 || !HoldsKey(c.cluster, id))
  }

  /** Unless a put is left over, the key of an elected process that lost it does not come
      back to it. */
  lemma LostKeyStaysLost(t: Timing, c: Timed, e: Event, answer: real, id: Id)
    requires TimedEnabled(t, c, Do(e, answer)) && id in c.cluster.processes && Elected(c.cluster.processes[id])
    requires c.cluster.processes[id].isLeader ==> MayLead(c.cluster.processes[id])
    requires !Haunts(c.cluster, Do(e, answer)) && !HoldsKey(c.cluster, id)
    ensures !HoldsKey(Next(c.cluster, e), id)
  {
  }

  /** A lease, once gone, is never alive again. */
  lemma DeadStaysDead(c: Cluster, e: Event, lease: LeaseId)
    requires Enabled(c, e) && lease < c.store.nextLease && lease !in c.store.live
    ensures lease !in Next(c, e).store.live
  {
  }

  lemma DeathIsRecorded(t: Timing, c: Timed, e: Event, answer: real, lease: LeaseId)
    requires Enabled(c.cluster, e) && lease !in TimedNext(t, c, Do(e, answer)).cluster.store.live
    ensures var c' := TimedNext(t, c, Do(e, answer));
      if lease in c.cluster.store.live then lease in c'.died && c'.died[lease] == c.now
      else (lease in c.died ==> lease in c'.died && c'.died[lease] == c.died[lease])
  {
  }

  lemma BystanderNoticesDeath(t: Timing, c: Timed, e: Event, answer: real, id: Id)
    requires Sensible(t) && TimedInv(t, c) && TimedEnabled(t, c, Do(e, answer))
    requires Cycle(t) == 0.0 || !Haunts(c.cluster, Do(e, answer))
    requires id in c.cluster.processes && NoticesDeath(t, c, id, c.cluster.processes[id])
    requires !(e.Run? && e.id == id) && !(e.Crash? && e.id == id)
    ensures NoticesDeath(t, TimedNext(t, c, Do(e, answer)), id, Next(c.cluster, e).processes[id])
  {
    var p := c.cluster.processes[id];
    assert ProcessInv(c.cluster.store, c.cluster.inFlight, id, p) && OnSchedule(t, c, id, p);
    if Elected(p) && p.lease.Some? && p.lease.value !in Next(c.cluster, e).store.live {
      LeftFits(t, p);
      DeathIsRecorded(t, c, e, answer, p.lease.value);
      if p.lease.value in c.cluster.store.live {
        if e != Expire(p.lease.value) {
          LeaseSurvives(c.cluster, e, id);
        }
      } else if Cycle(t) != 0.0 {
        LostKeyStaysLost(t, c, e, answer, id);
      }
    }
  }

  lemma KeepsLease(s: Store, id: Id, p: Process, reply: Reply)
    requires Elected(p) && Elected(Becomes(s, id, p, reply)) && (p.isLeader ==> MayLead(p))
    ensures Becomes(s, id, p, reply).lease == p.lease
  {
  }

  lemma ActorNoticesDeath(t: Timing, c: Timed, id: Id, reply: Reply, answer: real)
    requires Sensible(t) && TimedInv(t, c) && TimedEnabled(t, c, Do(Run(id, reply), answer))
    requires NoticesDeath(t, c, id, c.cluster.processes[id])
    ensures NoticesDeath(t, TimedNext(t, c, Do(Run(id, reply), answer)), id, Act(c.cluster, id, reply).processes[id])
  {
    var p := c.cluster.processes[id];
    var p' := Becomes(c.cluster.store, id, p, reply);
    assert ProcessInv(c.cluster.store, c.cluster.inFlight, id, p) && OnSchedule(t, c, id, p);
    if Elected(p') {
      OwnStepKeepsSchedule(t, c, id, reply, answer);
      LeftFits(t, p');
      if !Elected(p) {
        FreshlyElected(c.cluster.store, id, p, reply);
        LeaseSurvives(c.cluster, Run(id, reply), id);
      } else if p.lease.value in c.cluster.store.live {
        LeaseSurvives(c.cluster, Run(id, reply), id);
        KeepsLease(c.cluster.store, id, p, reply);
      } else {
        OwnStepSpendsLeft(t, c.cluster.store, id, p, reply);
        DeadStaysDead(c.cluster, Run(id, reply), p.lease.value);
        DeathIsRecorded(t, c, Run(id, reply), answer, p.lease.value);
        if Cycle(t) != 0.0 {
          LostKeyStaysLost(t, c, Run(id, reply), answer, id);
        }
      }
    }
  }

  ghost predicate AllNoticeDeath(t: Timing, c: Timed) {
    forall id <- c.cluster.processes :: NoticesDeath(t, c, id, c.cluster.processes[id])
  }

  lemma StepKeepsNoticingDeath(t: Timing, c: Timed, e: TimedEvent)
    requires Sensible(t) && TimedInv(t, c) && AllNoticeDeath(t, c) && TimedEnabled(t, c, e)
    requires Cycle(t) == 0.0 || !Haunts(c.cluster, e)
    ensures AllNoticeDeath(t, TimedNext(t, c, e))
  {
    var c' := TimedNext(t, c, e);
    forall id <- c'.cluster.processes ensures NoticesDeath(t, c', id, c'.cluster.processes[id]) {
      if e.Do? && id in c.cluster.processes {
        if e.event.Run? && e.event.id == id {
          ActorNoticesDeath(t, c, id, e.event.reply, e.answer);
        } else if !(e.event.Crash? && e.event.id == id) {
          BystanderNoticesDeath(t, c, e.event, e.answer, id);
        }
      }
    }
  }

  lemma NoticingDeathStep(t: Timing, c: Timed, c': Timed)
    requires Sensible(t) && TimedInv(t, c) && AllNoticeDeath(t, c)
    requires if Cycle(t) == 0.0 then TimedStep(t, c, c') else CleanStep(t, c, c')
    ensures AllNoticeDeath(t, c')
  {
    var e :| TimedEnabled(t, c, e) && c' == TimedNext(t, c, e) && (Cycle(t) == 0.0 || !Haunts(c.cluster, e));
    StepKeepsNoticingDeath(t, c, e);
  }

  lemma StepAt(t: Timing, trace: seq<Timed>, i: nat)
    requires TimedBehavior(t, trace) && i + 1 < |trace| && (Cycle(t) == 0.0 || CleanBehavior(t, trace))
    ensures if Cycle(t) == 0.0 then TimedStep(t, trace[i], trace[i + 1]) else CleanStep(t, trace[i], trace[i + 1])
  {
  }

  lemma {:induction false} NoticingDeathRun(t: Timing, trace: seq<Timed>, i: nat)
    requires Sensible(t) && TimedBehavior(t, trace) && i < |trace|
    requires Cycle(t) == 0.0 || CleanBehavior(t, trace)
    ensures AllNoticeDeath(t, trace[i])
  {
    if i > 0 {
      NoticingDeathRun(t, trace, i - 1);
      TimedRun(t, trace, i - 1);
      StepAt(t, trace, i - 1);
      NoticingDeathStep(t, trace[i - 1], trace[i]);
    }
  }

  /** A flag that is up without a live lease has been so for at most `lag`. */
  ghost predicate DeadForAtMost(c: Timed, id: Id, lag: real) {
    id in c.cluster.processes && var p := c.cluster.processes[id];
    p.isLeader && !Leads(c.cluster, id) ==>
      p.lease.Some? && p.lease.value in c.died && c.now <= c.died[p.lease.value] + lag
  }

  lemma NoticedInTime(t: Timing, c: Timed, id: Id)
    requires Sensible(t) && TimedInv(t, c) && AllNoticeDeath(t, c) && id in c.cluster.processes
    ensures DeadForAtMost(c, id, Lag(t))
  {
    var p := c.cluster.processes[id];
    assert OnSchedule(t, c, id, p) && NoticesDeath(t, c, id, p);
    assert ProcessInv(c.cluster.store, c.cluster.inFlight, id, p);
    LeftFits(t, p);
  }

  /** Timely or not, a flag outlives its lease by no more than that lag, in every run in
      which no put left over from a failed campaign lands while its process leads. */
  lemma StaleFlagIsShort(t: Timing, c: Timed, id: Id)
    requires Sensible(t) && CleanReachable(t, c) && id in c.cluster.processes
    ensures DeadForAtMost(c, id, Lag(t))
  {
    var trace: seq<Timed> :| CleanBehavior(t, trace) && trace[|trace| - 1] == c;
    CleanIsTimed(t, trace);
    TimedRun(t, trace, |trace| - 1);
    NoticingDeathRun(t, trace, |trace| - 1);
    NoticedInTime(t, c, id);
  }

  // ---------------------------------------------- a put left over keeps a flag up

  /** A first campaign whose compare-and-swap raises, still in flight; a second one that has
      been granted lease 1. */
  lemma SecondCampaign(t: Timing, granting: real) returns (c: Timed)
    requires Sensible(t) && 0.0 <= granting <= t.grant
    ensures TimedReachable(t, c) && c.now == 0.0 && 0 in c.since && c.since[0] == granting
    ensures c.cluster == Cluster(Store(Vacant, Vacant, {0, 1}, 2), map[0 := Process(Contend, Some(1), false, false)],
                                 {PutKeyIfVacant(0, 0)})
    ensures 1 in c.deadline && c.deadline[1] == t.ttl
  {
    var c0 := Timed(Cluster(Store(Vacant, Vacant, {}, 0), map[], {}), 0.0, map[], map[], map[], map[]);
    assert TimedBehavior(t, [c0]) && [c0][|[c0]| - 1] == c0;
    var c1 := NewcomerContends(t, c0, 0, 0.0);
    var c2 := RunNow(t, c1, 0, Raised);
    assert c2.cluster == Cluster(Store(Vacant, Vacant, {0}, 1), map[0 := Process(AwaitRelease, None, false, false)],
                                 {PutKeyIfVacant(0, 0)});
    c := CampaignAgain(t, c2, granting);
  }

  /** A step outside a lease, at once. */
  lemma NextAtOnce(t: Timing, c: Timed, stage: Stage, next: Stage) returns (c': Timed)
    requires Sensible(t) && TimedReachable(t, c) && 0 in c.since && c.since[0] == c.now
    requires c.cluster.processes == map[0 := Process(stage, None, false, false)] && c.cluster.store.leader.Vacant?
    requires (stage, next) in {(AwaitRelease, LoopHead), (LoopHead, RevokeOld), (RevokeOld, Grant)}
    ensures TimedReachable(t, c') && c'.now == c.now && 0 in c'.since && c'.since[0] == c.now
    ensures c'.cluster == c.cluster.(processes := map[0 := Process(next, None, false, false)])
  {
    c' := RunNow(t, c, 0, Replied);
  }

  lemma AskAgain(t: Timing, c: Timed) returns (c': Timed)
    requires Sensible(t) && TimedReachable(t, c) && 0 in c.since && c.since[0] == c.now
    requires c.cluster.processes == map[0 := Process(AwaitRelease, None, false, false)] && c.cluster.store.leader.Vacant?
    ensures TimedReachable(t, c') && c'.now == c.now && 0 in c'.since && c'.since[0] == c.now
    ensures c'.cluster == c.cluster.(processes := map[0 := Process(Grant, None, false, false)])
  {
    var c1 := NextAtOnce(t, c, AwaitRelease, LoopHead);
    var c2 := NextAtOnce(t, c1, LoopHead, RevokeOld);
    c' := NextAtOnce(t, c2, RevokeOld, Grant);
  }

  lemma CampaignAgain(t: Timing, c: Timed, granting: real) returns (c': Timed)
    requires Sensible(t) && TimedReachable(t, c) && c.now == 0.0 && 0.0 <= granting <= t.grant
    requires 0 in c.since && c.since[0] == 0.0
    requires c.cluster == Cluster(Store(Vacant, Vacant, {0}, 1), map[0 := Process(AwaitRelease, None, false, false)],
                                  {PutKeyIfVacant(0, 0)})
    ensures TimedReachable(t, c') && c'.now == 0.0 && 0 in c'.since && c'.since[0] == granting
    ensures c'.cluster == Cluster(Store(Vacant, Vacant, {0, 1}, 2), map[0 := Process(Contend, Some(1), false, false)],
                                  {PutKeyIfVacant(0, 0)})
    ensures 1 in c'.deadline && c'.deadline[1] == t.ttl
  {
    var c3 := AskAgain(t, c);
    c' := TimedNext(t, c3, Do(Run(0, Replied), granting));
    TimedStepReachable(t, c3, Do(Run(0, Replied), granting));
    assert c'.cluster.processes == map[0 := Process(Contend, Some(1), false, false)];
    assert {0} + {1} == {0, 1};
  }

  /** The second election, with the first put still to come. */
  lemma SecondWins(t: Timing, granting: real, putting: real) returns (c: Timed)
    requires Sensible(t) && 0.0 <= granting <= t.grant && 0.0 <= putting <= t.put
    ensures TimedReachable(t, c) && LeadsAlone(c, 1, Publish, granting + putting, t.ttl)
    ensures 0 in c.cluster.store.live && PutKeyIfVacant(0, 0) in c.cluster.inFlight
  {
    var c1 := SecondCampaign(t, granting);
    c := ContenderWins(t, c1, 1, putting);
  }

  /** Process 0 serves on a dead lease, because the key shows its id. */
  ghost predicate Haunted(c: Timed, lease: LeaseId, stage: Stage, since: real, died: real) {
    && c.cluster.processes == map[0 := Process(stage, Some(lease), true, false)]
    && lease !in c.cluster.store.live && HoldsKey(c.cluster, 0)
    && lease in c.died && c.died[lease] == died
    && 0 in c.since && c.since[0] == since == c.now
  }

  /** After the lease has lapsed the left-over put lands, and the flag stays up. */
  lemma LeftOverLands(t: Timing, c: Timed, lease: LeaseId, since: real, older: LeaseId) returns (c': Timed)
    requires Sensible(t) && TimedReachable(t, c) && Lapsed(c, lease, since) && c.now == since + t.refresh
    requires older in c.cluster.store.live && PutKeyIfVacant(0, older) in c.cluster.inFlight
    ensures TimedReachable(t, c') && Haunted(c', lease, Pause, c.now, c.now)
  {
    var landing := Do(Deliver(PutKeyIfVacant(0, older)), c.now);
    TimedStepReachable(t, c, landing);
    var c1 := TimedNext(t, c, landing);
    assert c1.died == c.died by {
      assert c.cluster.store.live - c1.cluster.store.live == {};
    }
    c' := RunNow(t, c1, 0, Replied);
  }

  lemma HauntedOn(t: Timing, c: Timed, lease: LeaseId, stage: Stage, since: real, died: real, delay: real)
    returns (c': Timed)
    requires TimedReachable(t, c) && Haunted(c, lease, stage, since, died) && 0.0 <= delay <= Limit(t, stage)
    requires stage in {ServeHead, ReadKey, Refresh, Pause}
    ensures TimedReachable(t, c')
    ensures Haunted(c', lease, match stage case ServeHead => ReadKey case ReadKey => Refresh
                                           case Refresh => Pause case _ => ServeHead, since + delay, died)
  {
    c' := PassAndRun(t, c, 0, since + delay, since + delay);
  }

  lemma HauntedCycle(t: Timing, c: Timed, lease: LeaseId, since: real, died: real) returns (c': Timed)
    requires Sensible(t) && TimedReachable(t, c) && Haunted(c, lease, Pause, since, died)
    ensures TimedReachable(t, c') && Haunted(c', lease, Pause, since + Cycle(t), died)
  {
    var c1 := HauntedOn(t, c, lease, Pause, since, died, t.wait);
    var c2 := HauntedOn(t, c1, lease, ServeHead, since + t.wait, died, 0.0);
    var c3 := HauntedOn(t, c2, lease, ReadKey, since + t.wait, died, t.get);
    c' := HauntedOn(t, c3, lease, Refresh, since + t.wait + t.get, died, t.refresh);
  }

  lemma {:induction false} HauntedCycles(t: Timing, c: Timed, lease: LeaseId, since: real, died: real, n: nat)
    returns (c': Timed)
    requires Sensible(t) && TimedReachable(t, c) && Haunted(c, lease, Pause, since, died)
    ensures TimedReachable(t, c') && Haunted(c', lease, Pause, since + n as real * Cycle(t), died)
  {
    if n == 0 {
      c' := c;
    } else {
      var before := HauntedCycles(t, c, lease, since, died, n - 1);
      c' := HauntedCycle(t, before, lease, since + (n - 1) as real * Cycle(t), died);
    }
  }

  /** Every flag that is up without a live lease has been so for at most the lag. */
  ghost predicate LeaseBoundsFlag(t: Timing) {
    forall c: Timed, id: Id | TimedReachable(t, c) && id in c.cluster.processes :: DeadForAtMost(c, id, Lag(t))
  }

  lemma EnoughCycles(cycle: real, lag: real) returns (n: nat)
    requires cycle > 0.0 && lag >= 0.0
    ensures n as real * cycle > lag
  {
    var q := lag / cycle;
    assert q * cycle == lag;
    if q < 0.0 {
      assert -q * cycle > 0.0;
    }
    n := q.Floor + 1;
    assert (n as real - q) * cycle > 0.0;
  }

  lemma HauntedForLong(t: Timing, c: Timed, lease: LeaseId, died: real)
    requires Sensible(t) && Cycle(t) > 0.0 && TimedReachable(t, c) && Haunted(c, lease, Pause, died, died)
    ensures !LeaseBoundsFlag(t)
  {
    var n := EnoughCycles(Cycle(t), Lag(t));
    var c' := HauntedCycles(t, c, lease, died, died, n);
    assert !DeadForAtMost(c', 0, Lag(t));
  }

  lemma UntimelyIsHaunted(t: Timing)
    requires Sensible(t) && !Timely(t) && Cycle(t) > 0.0
    ensures !LeaseBoundsFlag(t)
  {
    if t.refresh + Cycle(t) >= t.ttl {
      var c := SecondWins(t, 0.0, 0.0);
      var c1, pending := SlowServiceLapses(t, c, 1, 0.0, t.ttl);
      var c2 := LeftOverLands(t, c1, 1, pending, 0);
      HauntedForLong(t, c2, 1, c1.now);
    } else {
      var c := SecondWins(t, t.grant, t.put);
      var c1, pending := SlowCampaignLapses(t, c, 1, t.grant + t.put, t.ttl);
      var c2 := LeftOverLands(t, c1, 1, pending, 0);
      HauntedForLong(t, c2, 1, c1.now);
    }
  }

  /** Over all timed runs, left-over puts included, the lease bounds its flag by the lag if
      and only if refreshes are timely, so that no flag outlives its lease at all, or the
      leader loop takes no time. */
  lemma LeaseBoundsFlagIff(t: Timing)
    requires Sensible(t)
    ensures LeaseBoundsFlag(t) <==> Timely(t) || Cycle(t) == 0.0
  {
    if Timely(t) || Cycle(t) == 0.0 {
      forall c: Timed, id: Id | TimedReachable(t, c) && id in c.cluster.processes
        ensures DeadForAtMost(c, id, Lag(t))
      {
        if Timely(t) {
          if Flag(c, id) {
            TimelyFlagIsUnique(t, c, id, id);
          }
        } else {
          var trace: seq<Timed> :| TimedBehavior(t, trace) && trace[|trace| - 1] == c;
          TimedRun(t, trace, |trace| - 1);
          NoticingDeathRun(t, trace, |trace| - 1);
          NoticedInTime(t, c, id);
        }
      }
    } else {
      UntimelyIsHaunted(t);
    }
  }
}
