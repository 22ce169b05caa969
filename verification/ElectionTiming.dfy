// The election with a clock. A call takes effect at any moment between its sending and its
// answer; a lease stays alive for at least `ttl` after its grant or latest refresh took
// effect; and a process that has the flag, or may soon have it, gets its answers within
// limits. Its local steps take no time; only calls and the pause do.
module ElectionTiming {
  import opened Options
  import opened Election

  /** `grant`, `put`, `publish`, `get` and `refresh` bound the etcd calls, from sending to
      answer, and `wait` bounds the pause between refreshes. */
  datatype Timing = Timing(ttl: real, wait: real, grant: real, put: real, publish: real, get: real, refresh: real)

  predicate Sensible(t: Timing) {
    && t.ttl > 0.0 && t.wait >= 0.0
    && t.grant >= 0.0 && t.put >= 0.0 && t.publish >= 0.0 && t.get >= 0.0 && t.refresh >= 0.0
  }

  /** From the sending of a refresh to the answer of the next one, and from the sending of the
      grant to the answer of the first refresh, it is less than `ttl`. */
  predicate Timely(t: Timing) {
    && t.refresh + t.wait + t.get + t.refresh < t.ttl
    && t.grant + t.put + t.publish + t.get + t.refresh < t.ttl
  }

  /** How long a process may stay in a stage. */
  function Limit(t: Timing, stage: Stage): real {
    match stage
    case Grant => t.grant
    case Contend => t.put
    case Publish => t.publish
    case ReadKey => t.get
    case Refresh => t.refresh
    case Pause => t.wait
    case _ => 0.0
  }

  predicate Limited(p: Process) {
    Elected(p) || p.stage == Grant || p.stage == Contend
  }

  /** `deadline` is when a lease may expire; `since` when a process enters its stage, which
      is yet to come as long as the answer to the call before is under way; `died` when a lease was lost, `dropped` when a process last lost the leader key. */
  datatype Timed = Timed(cluster: Cluster, now: real, deadline: map<LeaseId, real>, since: map<Id, real>,
                         died: map<LeaseId, real>, dropped: map<Id, real>)

  /** For a step of a process, `answer` is when it goes on to its next stage. */
  datatype TimedEvent = Pass(until: real) | Do(event: Event, answer: real)

  ghost predicate TimedEnabled(t: Timing, c: Timed, e: TimedEvent) {
    match e
    case Pass(until) =>
      && c.now <= until
      && forall id <- c.cluster.processes :: var p := c.cluster.processes[id];
           Limited(p) ==> id in c.since && until <= c.since[id] + Limit(t, p.stage)
    case Do(event, answer) =>
      && Enabled(c.cluster, event)
      && (event.Expire? ==> event.lease in c.deadline && c.deadline[event.lease] <= c.now)
      && (event.Run? ==> InTime(t, c, event.id, answer))
  }

  /** The process has entered its stage; its call takes effect now and is answered then. */
  ghost predicate InTime(t: Timing, c: Timed, id: Id, answer: real)
    requires id in c.cluster.processes
  {
    var p := c.cluster.processes[id];
    && id in c.since && c.since[id] <= c.now <= answer
    && (Limited(p) ==> answer <= c.since[id] + Limit(t, p.stage))
  }

  /** The request an event applies to the store. */
  function Applied(c: Cluster, e: Event): Option<Request>
    requires Enabled(c, e)
  {
    match e
    case Run(id, reply) => if reply == Replied then Sends(id, c.processes[id]) else None
    case Deliver(r) => Some(r)
    case _ => None
  }

  function Extended(t: Timing, c: Timed, r: Option<Request>): map<LeaseId, real> {
    match r
    case Some(GrantLease) => c.deadline[c.cluster.store.nextLease := c.now + t.ttl]
    case Some(RefreshLease(l)) => c.deadline[l := c.now + t.ttl]
    case _ => c.deadline
  }

  function Moved(c: Timed, e: Event, answer: real): map<Id, real> {
    match e
    case Run(id, _) => c.since[id := answer]
    case Start(id) => c.since[id := c.now]
    case _ => c.since
  }

  predicate HoldsKey(c: Cluster, id: Id) {
    c.store.leader.Held? && c.store.leader.value == id
  }

  function Dropped(c: Timed, after: Cluster): map<Id, real> {
    var leader := c.cluster.store.leader;
    if leader.Held? && !HoldsKey(after, leader.value) then c.dropped[leader.value := c.now] else c.dropped
  }

  function TimedNext(t: Timing, c: Timed, e: TimedEvent): Timed
    requires e.Do? ==> Enabled(c.cluster, e.event)
  {
    match e
    case Pass(until) => c.(now := until)
    case Do(event, answer) =>
      var after := Next(c.cluster, event);
      Timed(after, c.now, Extended(t, c, Applied(c.cluster, event)), Moved(c, event, answer),
            c.died + (map l | l in c.cluster.store.live - after.store.live :: c.now), Dropped(c, after))
  }

  ghost predicate TimedInit(c: Timed) {
    Init(c.cluster) && c.deadline == map[] && c.since == map[] && c.died == map[] && c.dropped == map[]
  }

  ghost predicate TimedStep(t: Timing, c: Timed, c': Timed) {
    exists e :: TimedEnabled(t, c, e) && c' == TimedNext(t, c, e)
  }

  ghost predicate TimedBehavior(t: Timing, trace: seq<Timed>) {
    && trace != [] && TimedInit(trace[0])
    && forall i | 0 <= i < |trace| - 1 :: TimedStep(t, trace[i], trace[i + 1])
  }

  ghost predicate TimedReachable(t: Timing, c: Timed) {
    exists trace: seq<Timed> :: TimedBehavior(t, trace) && trace[|trace| - 1] == c
  }

  // ------------------------------------------------- a timely leader never lapses

  /** How much time can go by before the next refresh takes effect. */
  function Budget(t: Timing, stage: Stage): real {
    match stage
    case Contend => t.put + t.publish + t.get + t.refresh
    case Won | Publish => t.publish + t.get + t.refresh
    case ServeHead | ReadKey => t.get + t.refresh
    case Refresh => t.refresh
    case Pause => t.wait + t.get + t.refresh
    case _ => 0.0
  }

  /** How long the answer that leads to a stage may still be under way. */
  function Ahead(t: Timing, stage: Stage): real {
    match stage
    case Won => t.put
    case ServeHead => if t.publish >= t.wait then t.publish else t.wait
    case Refresh => t.get
    case Pause => t.refresh
    case Depose => if t.get >= t.refresh then t.get else t.refresh
    case _ => 0.0
  }

  ghost predicate OnSchedule(t: Timing, c: Timed, id: Id, p: Process) {
    Limited(p) ==>
      && (p.stage == Grant || p.lease.Some?)
      && id in c.since && c.now <= c.since[id] + Limit(t, p.stage)
      && (Elected(p) ==> c.since[id] <= c.now + Ahead(t, p.stage))
  }

  ghost predicate Covered(t: Timing, c: Timed, id: Id, p: Process) {
    Limited(p) && p.stage != Grant && p.lease.Some? && id in c.since ==>
      && p.lease.value in c.cluster.store.live && p.lease.value in c.deadline
      && c.since[id] + Budget(t, p.stage) < c.deadline[p.lease.value]
  }

  ghost predicate TimedInv(t: Timing, c: Timed) {
    && Reachable(c.cluster) && Inv(c.cluster)
    && (forall l <- c.deadline :: c.deadline[l] <= c.now + t.ttl)
    && forall id <- c.cluster.processes :: OnSchedule(t, c, id, c.cluster.processes[id])
  }

  lemma BudgetFits(t: Timing, stage: Stage)
    requires Sensible(t)
    ensures 0.0 <= Limit(t, stage) && 0.0 <= Budget(t, stage) && 0.0 <= Ahead(t, stage)
    ensures stage in {Contend, Won, Publish, ServeHead, ReadKey, Refresh, Pause} ==> Limit(t, stage) <= Budget(t, stage)
    ensures stage !in {Grant, Contend, Won, Publish, ServeHead, ReadKey, Refresh, Pause} ==> Limit(t, stage) == 0.0
  {
  }

  /** What a process's own step does to the schedule. */
  lemma OwnStepOnSchedule(t: Timing, s: Store, inFlight: set<Request>, id: Id, p: Process, reply: Reply)
    requires Sensible(t) && ProcessInv(s, inFlight, id, p) && (Limited(p) ==> p.stage == Grant || p.lease.Some?)
    ensures var p' := Becomes(s, id, p, reply);
      && (Limited(p') ==> p'.stage == Grant || p'.lease.Some?)
      && (Elected(p') ==> Limited(p) && Limit(t, p.stage) <= Ahead(t, p'.stage))
  {
  }

  lemma OwnStepKeepsSchedule(t: Timing, c: Timed, id: Id, reply: Reply, answer: real)
    requires Sensible(t) && TimedInv(t, c) && TimedEnabled(t, c, Do(Run(id, reply), answer))
    ensures OnSchedule(t, TimedNext(t, c, Do(Run(id, reply), answer)), id, Act(c.cluster, id, reply).processes[id])
  {
    var p := c.cluster.processes[id];
    assert OnSchedule(t, c, id, p) && ProcessInv(c.cluster.store, c.cluster.inFlight, id, p);
    OwnStepOnSchedule(t, c.cluster.store, c.cluster.inFlight, id, p, reply);
    BudgetFits(t, Becomes(c.cluster.store, id, p, reply).stage);
  }

  /** Events other than a process's own steps leave its stage and lease, or end it. */
  lemma UntouchedByOthers(c: Cluster, e: Event, id: Id)
    requires Enabled(c, e) && id in Next(c, e).processes && !(e.Run? && e.id == id)
    ensures Limited(Next(c, e).processes[id]) ==>
              && id in c.processes
              && Next(c, e).processes[id].(stopping := c.processes[id].stopping) == c.processes[id]
              && !(e.Start? && e.id == id)
  {
  }

  lemma StepKeepsSchedule(t: Timing, c: Timed, e: TimedEvent, id: Id)
    requires Sensible(t) && TimedInv(t, c) && TimedEnabled(t, c, e) && id in TimedNext(t, c, e).cluster.processes
    ensures OnSchedule(t, TimedNext(t, c, e), id, TimedNext(t, c, e).cluster.processes[id])
  {
    if e.Do? {
      if e.event.Run? && e.event.id == id {
        OwnStepKeepsSchedule(t, c, id, e.event.reply, e.answer);
      } else {
        UntouchedByOthers(c.cluster, e.event, id);
        assert id in c.cluster.processes ==> OnSchedule(t, c, id, c.cluster.processes[id]);
      }
    } else {
      assert OnSchedule(t, c, id, c.cluster.processes[id]);
    }
  }

  lemma StepKeepsDeadlines(t: Timing, c: Timed, e: TimedEvent)
    requires Sensible(t) && TimedEnabled(t, c, e) && forall l <- c.deadline :: c.deadline[l] <= c.now + t.ttl
    ensures var c' := TimedNext(t, c, e); forall l <- c'.deadline :: c'.deadline[l] <= c'.now + t.ttl
  {
  }

  lemma StepKeepsTimedInv(t: Timing, c: Timed, e: TimedEvent)
    requires Sensible(t) && TimedInv(t, c) && TimedEnabled(t, c, e)
    ensures TimedInv(t, TimedNext(t, c, e))
  {
    if e.Do? {
      ReachableStep(c.cluster, e.event);
      StepKeepsInv(c.cluster, e.event);
    }
    StepKeepsDeadlines(t, c, e);
    forall id <- TimedNext(t, c, e).cluster.processes
      ensures OnSchedule(t, TimedNext(t, c, e), id, TimedNext(t, c, e).cluster.processes[id])
    {
      StepKeepsSchedule(t, c, e, id);
    }
  }

  /** No event but an expiry or the owner's own revoke ends a held lease. */
  lemma LeaseSurvives(c: Cluster, e: Event, id: Id)
    requires Inv(c) && Enabled(c, e) && id in c.processes
    requires c.processes[id].lease.Some? && c.processes[id].lease.value in c.store.live
    requires e != Expire(c.processes[id].lease.value)
    requires e.Run? && e.id == id ==> Limited(c.processes[id])
    ensures c.processes[id].lease.value in Next(c, e).store.live
  {
    var p := c.processes[id];
    assert ProcessInv(c.store, c.inFlight, id, p);
    if e.Run? && Sends(e.id, c.processes[e.id]).Some? {
      SendsOwn(e.id, c.processes[e.id], Sends(e.id, c.processes[e.id]).value);
    }
  }

  /** A held lease's deadline is never brought forward. */
  lemma DeadlineMoves(t: Timing, c: Timed, e: Event, lease: LeaseId)
    requires Enabled(c.cluster, e) && lease in c.deadline && lease < c.cluster.store.nextLease
    requires c.deadline[lease] <= c.now + t.ttl
    ensures var after := Extended(t, c, Applied(c.cluster, e));
            lease in after && after[lease] >= c.deadline[lease]
  {
  }

  lemma BystanderStaysCovered(t: Timing, c: Timed, e: Event, answer: real, id: Id)
    requires Sensible(t) && Timely(t) && TimedInv(t, c) && TimedEnabled(t, c, Do(e, answer))
    requires id in c.cluster.processes && Covered(t, c, id, c.cluster.processes[id])
    requires !(e.Run? && e.id == id) && !(e.Crash? && e.id == id)
    ensures Covered(t, TimedNext(t, c, Do(e, answer)), id, Next(c.cluster, e).processes[id])
  {
    var p := c.cluster.processes[id];
    assert ProcessInv(c.cluster.store, c.cluster.inFlight, id, p) && OnSchedule(t, c, id, p);
    if Limited(p) && p.stage != Grant {
      BudgetFits(t, p.stage);
      LeaseSurvives(c.cluster, e, id);
      DeadlineMoves(t, c, e, p.lease.value);
    }
  }

  /** A step of a limited process either keeps its lease and spends part of the budget,
      or has just refreshed or been granted the lease it goes on with; what is left then is
      less than `ttl` if refreshes are timely. */
  lemma OwnStepSpends(t: Timing, s: Store, id: Id, p: Process, reply: Reply)
    requires Sensible(t) && (Limited(p) ==> p.stage == Grant || p.lease.Some?) && (p.isLeader ==> MayLead(p))
    ensures var p' := Becomes(s, id, p, reply);
      Limited(p') && p'.stage != Grant ==>
        || (p.stage == Grant && reply == Replied && p'.lease == Some(s.nextLease)
            && (Timely(t) ==> Limit(t, p.stage) + Budget(t, p'.stage) < t.ttl))
        || (p.stage == Refresh && reply == Replied && p'.lease == p.lease && p.lease.Some? && Limited(p)
            && (Timely(t) ==> Limit(t, p.stage) + Budget(t, p'.stage) < t.ttl))
        || (Limited(p) && p.stage != Grant && p'.lease == p.lease
            && Limit(t, p.stage) + Budget(t, p'.stage) <= Budget(t, p.stage))
  {
  }

  lemma ActorKeepsLease(t: Timing, c: Timed, id: Id, reply: Reply, answer: real)
    requires Sensible(t) && TimedInv(t, c) && TimedEnabled(t, c, Do(Run(id, reply), answer))
    requires Covered(t, c, id, c.cluster.processes[id]) && Limited(c.cluster.processes[id])
    requires var p, p' := c.cluster.processes[id], Act(c.cluster, id, reply).processes[id];
      && p.stage != Grant && p.lease.Some? && p'.lease == p.lease
      && (Limit(t, p.stage) + Budget(t, p'.stage) <= Budget(t, p.stage)
          || (p.stage == Refresh && reply == Replied && Limit(t, p.stage) + Budget(t, p'.stage) < t.ttl))
    ensures Covered(t, TimedNext(t, c, Do(Run(id, reply), answer)), id, Act(c.cluster, id, reply).processes[id])
  {
    var p := c.cluster.processes[id];
    assert ProcessInv(c.cluster.store, c.cluster.inFlight, id, p) && OnSchedule(t, c, id, p);
    LeaseSurvives(c.cluster, Run(id, reply), id);
    DeadlineMoves(t, c, Run(id, reply), p.lease.value);
  }

  lemma ActorStaysCovered(t: Timing, c: Timed, id: Id, reply: Reply, answer: real)
    requires Sensible(t) && Timely(t) && TimedInv(t, c) && TimedEnabled(t, c, Do(Run(id, reply), answer))
    requires Covered(t, c, id, c.cluster.processes[id])
    ensures Covered(t, TimedNext(t, c, Do(Run(id, reply), answer)), id, Act(c.cluster, id, reply).processes[id])
  {
    var p := c.cluster.processes[id];
    var p' := Becomes(c.cluster.store, id, p, reply);
    assert ProcessInv(c.cluster.store, c.cluster.inFlight, id, p) && OnSchedule(t, c, id, p);
    OwnStepSpends(t, c.cluster.store, id, p, reply);
    if Limited(p') && p'.stage != Grant {
      if p.stage == Grant {
        assert Covered(t, TimedNext(t, c, Do(Run(id, reply), answer)), id, p');
      } else {
        ActorKeepsLease(t, c, id, reply, answer);
      }
    }
  }

  ghost predicate AllCovered(t: Timing, c: Timed) {
    forall id <- c.cluster.processes :: Covered(t, c, id, c.cluster.processes[id])
  }

  lemma StepKeepsCover(t: Timing, c: Timed, e: TimedEvent)
    requires Sensible(t) && Timely(t) && TimedInv(t, c) && AllCovered(t, c) && TimedEnabled(t, c, e)
    ensures AllCovered(t, TimedNext(t, c, e))
  {
    var c' := TimedNext(t, c, e);
    forall id <- c'.cluster.processes ensures Covered(t, c', id, c'.cluster.processes[id]) {
      if e.Do? && id in c.cluster.processes {
        if e.event.Run? && e.event.id == id {
          ActorStaysCovered(t, c, id, e.event.reply, e.answer);
        } else if !(e.event.Crash? && e.event.id == id) {
          BystanderStaysCovered(t, c, e.event, e.answer, id);
        }
      }
    }
  }

  lemma {:induction false} TimedRun(t: Timing, trace: seq<Timed>, i: nat)
    requires Sensible(t) && TimedBehavior(t, trace) && i < |trace|
    ensures TimedInv(t, trace[i])
    ensures Timely(t) ==> AllCovered(t, trace[i])
  {
    if i == 0 {
      assert Behavior([trace[0].cluster]) && [trace[0].cluster][|[trace[0].cluster]| - 1] == trace[0].cluster;
    } else {
      TimedRun(t, trace, i - 1);
      assert TimedStep(t, trace[i - 1], trace[i - 1 + 1]);
      var e :| TimedEnabled(t, trace[i - 1], e) && trace[i] == TimedNext(t, trace[i - 1], e);
      StepKeepsTimedInv(t, trace[i - 1], e);
      if Timely(t) {
        StepKeepsCover(t, trace[i - 1], e);
      }
    }
  }

  /** When refreshes are timely, every flag in the cluster is backed by a live lease,
      so there is at most one. */
  lemma TimelyFlagIsUnique(t: Timing, c: Timed, i: Id, j: Id)
    requires Sensible(t) && Timely(t) && TimedReachable(t, c)
    requires i in c.cluster.processes && c.cluster.processes[i].isLeader
    requires j in c.cluster.processes && c.cluster.processes[j].isLeader
    ensures i == j && Leads(c.cluster, i)
  {
    var trace: seq<Timed> :| TimedBehavior(t, trace) && trace[|trace| - 1] == c;
    TimedRun(t, trace, |trace| - 1);
    forall id | id in {i, j} ensures Leads(c.cluster, id) {
      assert OnSchedule(t, c, id, c.cluster.processes[id]) && Covered(t, c, id, c.cluster.processes[id]);
    }
    LeaderOwnsKey(c.cluster, i, j);
  }

  // --------------------------------------- without timeliness two flags are possible

  lemma TimedStepReachable(t: Timing, c: Timed, e: TimedEvent)
    requires TimedReachable(t, c) && TimedEnabled(t, c, e)
    ensures TimedReachable(t, TimedNext(t, c, e))
  {
    var trace: seq<Timed> :| TimedBehavior(t, trace) && trace[|trace| - 1] == c;
    var longer := trace + [TimedNext(t, c, e)];
    forall i | 0 <= i < |longer| - 1 ensures TimedStep(t, longer[i], longer[i + 1]) {
      if i < |trace| - 1 {
        assert TimedStep(t, trace[i], trace[i + 1]);
      } else {
        assert longer[i] == c;
      }
    }
    assert longer[|longer| - 1] == TimedNext(t, c, e);
  }

  /** A lone process lets time pass, then its call takes effect, with the answer later. */
  lemma PassAndRun(t: Timing, c: Timed, id: Id, effect: real, answer: real) returns (c': Timed)
    requires TimedReachable(t, c) && c.cluster.processes.Keys == {id} && id in c.since
    requires c.now <= effect && c.since[id] <= effect <= answer
    requires answer <= c.since[id] + Limit(t, c.cluster.processes[id].stage)
    ensures TimedReachable(t, c') && c' == TimedNext(t, c.(now := effect), Do(Run(id, Replied), answer))
  {
    TimedStepReachable(t, c, Pass(effect));
    c' := TimedNext(t, c.(now := effect), Do(Run(id, Replied), answer));
    TimedStepReachable(t, c.(now := effect), Do(Run(id, Replied), answer));
  }

  /** A step that takes no time. */
  lemma RunNow(t: Timing, c: Timed, id: Id, reply: Reply) returns (c': Timed)
    requires TimedReachable(t, c) && id in c.cluster.processes && InTime(t, c, id, c.now)
    ensures TimedReachable(t, c') && c' == TimedNext(t, c, Do(Run(id, reply), c.now))
  {
    c' := TimedNext(t, c, Do(Run(id, reply), c.now));
    TimedStepReachable(t, c, Do(Run(id, reply), c.now));
  }

  lemma NewcomerAsks(t: Timing, c: Timed, id: Id) returns (c': Timed)
    requires Sensible(t) && TimedReachable(t, c) && id !in c.cluster.processes
    ensures TimedReachable(t, c') && c'.now == c.now && id in c'.since && c'.since[id] == c.now
    ensures c'.cluster == c.cluster.(processes := c.cluster.processes[id := Process(Grant, None, false, false)])
    ensures c'.deadline == c.deadline
  {
    var c0 := TimedNext(t, c, Do(Start(id), c.now));
    TimedStepReachable(t, c, Do(Start(id), c.now));
    var c1 := RunNow(t, c0, id, Replied);
    c' := RunNow(t, c1, id, Replied);
    assert c'.cluster.processes == c.cluster.processes[id := Process(Grant, None, false, false)];
  }

  /** A new process is granted a lease at once, with the answer `delay` later. */
  lemma NewcomerContends(t: Timing, c: Timed, id: Id, delay: real) returns (c': Timed)
    requires Sensible(t) && TimedReachable(t, c) && id !in c.cluster.processes && 0.0 <= delay <= t.grant
    ensures TimedReachable(t, c') && c'.now == c.now && id in c'.since && c'.since[id] == c.now + delay
    ensures var s := c.cluster.store;
            && c'.cluster == Cluster(s.(live := s.live + {s.nextLease}, nextLease := s.nextLease + 1),
                                     c.cluster.processes[id := Process(Contend, Some(s.nextLease), false, false)],
                                     c.cluster.inFlight)
            && s.nextLease in c'.deadline && c'.deadline[s.nextLease] == c.now + t.ttl
  {
    var c1 := NewcomerAsks(t, c, id);
    c' := TimedNext(t, c1, Do(Run(id, Replied), c.now + delay));
    TimedStepReachable(t, c1, Do(Run(id, Replied), c.now + delay));
    var s := c.cluster.store;
    assert c'.cluster.processes == c.cluster.processes[id := Process(Contend, Some(s.nextLease), false, false)];
  }

  /** Process 0 leads under `lease`, is alone, and enters its stage at `since`. */
  ghost predicate LeadsAlone(c: Timed, lease: LeaseId, stage: Stage, since: real, deadline: real) {
    && c.cluster.processes == map[0 := Process(stage, Some(lease), true, false)]
    && lease in c.cluster.store.live && c.cluster.store.leader == Held(0, lease)
    && 0 in c.since && c.since[0] == since >= c.now
    && lease in c.deadline && c.deadline[lease] == deadline
  }

  /** The first election, with the grant and the compare-and-swap taking this long. */
  lemma FirstWins(t: Timing, granting: real, putting: real) returns (c: Timed)
    requires Sensible(t) && 0.0 <= granting <= t.grant && 0.0 <= putting <= t.put
    ensures TimedReachable(t, c) && LeadsAlone(c, 0, Publish, granting + putting, t.ttl)
  {
    var c0 := Timed(Cluster(Store(Vacant, Vacant, {}, 0), map[], {}), 0.0, map[], map[], map[], map[]);
    assert TimedBehavior(t, [c0]) && [c0][|[c0]| - 1] == c0;
    var c1 := NewcomerContends(t, c0, 0, granting);
    c := ContenderWins(t, c1, 0, putting);
  }

  /** The only process wins the vacant key, with the compare-and-swap taking `delay`. */
  lemma ContenderWins(t: Timing, c: Timed, lease: LeaseId, delay: real) returns (c': Timed)
    requires TimedReachable(t, c) && 0.0 <= delay <= t.put && 0 in c.since && c.since[0] >= c.now
    requires c.cluster.processes == map[0 := Process(Contend, Some(lease), false, false)]
    requires c.cluster.store.leader.Vacant? && lease in c.cluster.store.live && lease in c.deadline
    ensures TimedReachable(t, c') && LeadsAlone(c', lease, Publish, c.since[0] + delay, c.deadline[lease])
    ensures c'.cluster.store.live == c.cluster.store.live && c'.cluster.inFlight == c.cluster.inFlight
  {
    var won := c.since[0] + delay;
    var c1 := PassAndRun(t, c, 0, won, won);
    c' := RunNow(t, c1, 0, Replied);
  }

  /** Leases and requests in flight that outlast what happens. */
  ghost predicate Outlasts(c: Timed, c': Timed, lease: LeaseId) {
    && (forall l <- c.cluster.store.live :: l != lease ==> l in c'.cluster.store.live)
    && c.cluster.inFlight <= c'.cluster.inFlight
  }

  function StageAfter(stage: Stage): Stage {
    match stage
    case Publish => ServeHead
    case ServeHead => ReadKey
    case ReadKey => Refresh
    case Refresh => Pause
    case _ => ServeHead
  }

  /** One leading stage, its call taking effect and being answered at these times. */
  lemma LeadOn(t: Timing, c: Timed, lease: LeaseId, stage: Stage, since: real, deadline: real, effect: real, answer: real)
    returns (c': Timed)
    requires TimedReachable(t, c) && LeadsAlone(c, lease, stage, since, deadline)
    requires since <= effect <= answer <= since + Limit(t, stage)
    requires stage in {Publish, ServeHead, ReadKey, Refresh, Pause}
    ensures TimedReachable(t, c') && Outlasts(c, c', lease)
    ensures LeadsAlone(c', lease, StageAfter(stage), answer, if stage == Refresh then effect + t.ttl else deadline)
  {
    c' := PassAndRun(t, c, 0, effect, answer);
  }

  /** Process 0 waits for its refresh past its lease's deadline, and the lease expires. */
  ghost predicate Lapsed(c: Timed, lease: LeaseId, since: real) {
    && c.cluster.processes == map[0 := Process(Refresh, Some(lease), true, false)]
    && lease !in c.cluster.store.live && c.cluster.store.leader.Vacant?
    && lease in c.died && c.died[lease] == c.now
    && 0 in c.since && c.since[0] == since <= c.now
  }

  lemma Lapse(t: Timing, c: Timed, lease: LeaseId, since: real, deadline: real) returns (c': Timed)
    requires Sensible(t) && TimedReachable(t, c) && LeadsAlone(c, lease, Refresh, since, deadline)
    requires deadline <= since + t.refresh
    ensures TimedReachable(t, c') && Lapsed(c', lease, since) && c'.now == since + t.refresh && Outlasts(c, c', lease)
  {
    var until := since + t.refresh;
    TimedStepReachable(t, c, Pass(until));
    c' := TimedNext(t, c.(now := until), Do(Expire(lease), until));
    TimedStepReachable(t, c.(now := until), Do(Expire(lease), until));
  }

  /** The first refresh takes effect as soon as it can, and its answer takes its time. */
  lemma RefreshAtOnce(t: Timing, c: Timed, lease: LeaseId, since: real, deadline: real) returns (c': Timed)
    requires Sensible(t) && TimedReachable(t, c) && LeadsAlone(c, lease, Publish, since, deadline)
    ensures TimedReachable(t, c') && Outlasts(c, c', lease)
    ensures LeadsAlone(c', lease, Pause, since + t.refresh, since + t.ttl)
  {
    var c1 := LeadOn(t, c, lease, Publish, since, deadline, since, since);
    var c2 := LeadOn(t, c1, lease, ServeHead, since, deadline, since, since);
    var c3 := LeadOn(t, c2, lease, ReadKey, since, deadline, since, since);
    c' := LeadOn(t, c3, lease, Refresh, since, deadline, since, since + t.refresh);
  }

  /** From one refresh to the next it takes longer than the lease lives. */
  lemma SlowServiceLapses(t: Timing, c: Timed, lease: LeaseId, since: real, deadline: real)
    returns (c': Timed, pending: real)
    requires Sensible(t) && t.refresh + t.wait + t.get + t.refresh >= t.ttl
    requires TimedReachable(t, c) && LeadsAlone(c, lease, Publish, since, deadline)
    ensures TimedReachable(t, c') && Lapsed(c', lease, pending)
    ensures c'.now == pending + t.refresh && Outlasts(c, c', lease)
  {
    var c4 := RefreshAtOnce(t, c, lease, since, deadline);
    var paused := since + t.refresh + t.wait;
    pending := paused + t.get;
    var c5 := LeadOn(t, c4, lease, Pause, since + t.refresh, since + t.ttl, paused, paused);
    var c6 := LeadOn(t, c5, lease, ServeHead, paused, since + t.ttl, paused, paused);
    var c7 := LeadOn(t, c6, lease, ReadKey, paused, since + t.ttl, pending, pending);
    c' := Lapse(t, c7, lease, pending, since + t.ttl);
  }

  /** The calls from the grant to the first refresh take longer than that. */
  lemma SlowCampaignLapses(t: Timing, c: Timed, lease: LeaseId, since: real, deadline: real)
    returns (c': Timed, pending: real)
    requires Sensible(t) && since + t.publish + t.get + t.refresh >= deadline
    requires TimedReachable(t, c) && LeadsAlone(c, lease, Publish, since, deadline)
    ensures TimedReachable(t, c') && Lapsed(c', lease, pending)
    ensures c'.now == pending + t.refresh && Outlasts(c, c', lease)
  {
    var published := since + t.publish;
    pending := published + t.get;
    var c1 := LeadOn(t, c, lease, Publish, since, deadline, published, published);
    var c2 := LeadOn(t, c1, lease, ServeHead, published, deadline, published, published);
    var c3 := LeadOn(t, c2, lease, ReadKey, published, deadline, pending, pending);
    c' := Lapse(t, c3, lease, pending, deadline);
  }

  predicate Flag(c: Timed, id: Id) {
    id in c.cluster.processes && c.cluster.processes[id].isLeader
  }

  /** A successor is elected while process 0 still has its flag up. */
  lemma SuccessorWins(t: Timing, c: Timed)
    requires Sensible(t) && TimedReachable(t, c) && Flag(c, 0) && 1 !in c.cluster.processes
    requires c.cluster.store.leader.Vacant?
    ensures !FlagsUnique(t)
  {
    var c1 := NewcomerContends(t, c, 1, 0.0);
    var c2 := RunNow(t, c1, 1, Replied);
    var c3 := RunNow(t, c2, 1, Replied);
    assert Flag(c3, 0) && Flag(c3, 1);
  }

  ghost predicate FlagsUnique(t: Timing) {
    forall c: Timed, i: Id, j: Id | TimedReachable(t, c) && Flag(c, i) && Flag(c, j) :: i == j
  }

  /** At most one flag in every run if and only if refreshes are timely. */
  lemma FlagsUniqueIffTimely(t: Timing)
    requires Sensible(t)
    ensures FlagsUnique(t) <==> Timely(t)
  {
    if Timely(t) {
      forall c: Timed, i: Id, j: Id | TimedReachable(t, c) && Flag(c, i) && Flag(c, j) ensures i == j {
        TimelyFlagIsUnique(t, c, i, j);
      }
    } else if t.refresh + t.wait + t.get + t.refresh >= t.ttl {
      var c := FirstWins(t, 0.0, 0.0);
      var c', pending := SlowServiceLapses(t, c, 0, 0.0, t.ttl);
      SuccessorWins(t, c');
    } else {
      var c := FirstWins(t, t.grant, t.put);
      var c', pending := SlowCampaignLapses(t, c, 0, t.grant + t.put, t.ttl);
      SuccessorWins(t, c');
    }
  }

  /** The default lease of five seconds with its pause of a third of that, every call taking
      up to `call`. */
  function DefaultTiming(call: real): Timing {
    Timing(5.0, 5.0 / 3.0, call, call, call, call, call)
  }

  /** With these the flag is unique if and only if every call is answered within less than
      one second. */
  lemma DefaultsNeedFastCalls(call: real)
    requires call >= 0.0
    ensures FlagsUnique(DefaultTiming(call)) <==> call < 1.0
  {
    FlagsUniqueIffTimely(DefaultTiming(call));
  }
}
