// The election thread itself: the loops and helper methods of one process, run against
// an environment that interferes before every step. Every execution is proved to be a
// run of the protocol machine in module Election, so its safety results apply.
module ElectionThread {
  import opened Options
  import opened Election

  /** What happens before one step of the thread, and how its call, if any, ends. */
  datatype Turn = Turn(others: seq<Event>, reply: Reply)

  /** Events that are not steps, starts or crashes of process `id`. */
  predicate Foreign(id: Id, e: Event) {
    match e
    case Run(i, _) => i != id
    case Crash(i) => i != id
    case Start(i) => i != id
    case _ => true
  }

  /** The environment's events in order; one that is not possible is skipped. */
  function Disturb(c: Cluster, id: Id, others: seq<Event>): (c': Cluster)
    requires id in c.processes
    ensures id in c'.processes
    ensures c'.processes[id].(stopping := c.processes[id].stopping) == c.processes[id]
    ensures c.processes[id].stopping ==> c'.processes[id].stopping
    decreases |others|
  {
    if others == [] then c
    else
      var last := others[|others| - 1];
      var before := Disturb(c, id, others[..|others| - 1]);
      if Foreign(id, last) && Enabled(before, last) then Next(before, last) else before
  }

  function RunTurns(c: Cluster, id: Id, turns: seq<Turn>): (c': Cluster)
    requires id in c.processes
    ensures id in c'.processes
  {
    if turns == [] then c
    else
      var last := turns[|turns| - 1];
      Act(Disturb(RunTurns(c, id, turns[..|turns| - 1]), id, last.others), id, last.reply)
  }

  lemma OneMoreTurn(c: Cluster, id: Id, turns: seq<Turn>, t: Turn)
    requires id in c.processes
    ensures RunTurns(c, id, turns + [t]) == Act(Disturb(RunTurns(c, id, turns), id, t.others), id, t.reply)
  {
  }

  lemma {:induction false} DisturbReachable(c: Cluster, id: Id, others: seq<Event>)
    requires Reachable(c) && id in c.processes
    ensures Reachable(Disturb(c, id, others))
    decreases |others|
  {
    if others != [] {
      var last := others[|others| - 1];
      DisturbReachable(c, id, others[..|others| - 1]);
      var before := Disturb(c, id, others[..|others| - 1]);
      if Foreign(id, last) && Enabled(before, last) {
        ReachableStep(before, last);
      }
    }
  }

  lemma {:induction false} RunTurnsReachable(c: Cluster, id: Id, turns: seq<Turn>)
    requires Reachable(c) && id in c.processes
    ensures Reachable(RunTurns(c, id, turns))
    decreases |turns|
  {
    if turns != [] {
      var last := turns[|turns| - 1];
      RunTurnsReachable(c, id, turns[..|turns| - 1]);
      var mid := Disturb(RunTurns(c, id, turns[..|turns| - 1]), id, last.others);
      DisturbReachable(RunTurns(c, id, turns[..|turns| - 1]), id, last.others);
      ReachableStep(mid, Run(id, last.reply));
    }
  }

  /** The cluster before turn k of an execution. */
  function BeforeTurn(c: Cluster, id: Id, turns: seq<Turn>, k: nat): (b: Cluster)
    requires id in c.processes && k <= |turns|
    ensures id in b.processes
  {
    RunTurns(c, id, turns[..k])
  }

  /** What the thread finds in turn k, once the others have moved. */
  function FoundInTurn(c: Cluster, id: Id, turns: seq<Turn>, k: nat): Cluster
    requires id in c.processes && k < |turns|
  {
    Disturb(BeforeTurn(c, id, turns, k), id, turns[k].others)
  }

  /** Later turns change nothing about an earlier one. */
  lemma EarlierTurn(c: Cluster, id: Id, earlier: seq<Turn>, turns: seq<Turn>, k: nat)
    requires id in c.processes && k <= |earlier| <= |turns| && turns[..|earlier|] == earlier
    ensures BeforeTurn(c, id, turns, k) == BeforeTurn(c, id, earlier, k)
    ensures k < |earlier| ==>
      turns[k] == earlier[k] && FoundInTurn(c, id, turns, k) == FoundInTurn(c, id, earlier, k)
  {
    assert turns[..|earlier|][..k] == turns[..k];
  }

  /** What a call to delete the leader key, if it is this process's own, makes of the store. */
  ghost predicate KeyDeleted(found: Store, after: Store, id: Id, reply: Reply) {
    after == if reply == Replied && found.leader.Held? && found.leader.value == id then found.(leader := Vacant) else found
  }

  ghost predicate AddressDeleted(found: Store, after: Store, id: Id, reply: Reply) {
    after == if reply == Replied && found.address.Held? && found.address.value == id then found.(address := Vacant) else found
  }

  /** The keys held under a lease go with it. */
  ghost predicate LeaseRevoked(found: Store, after: Store, lease: Option<LeaseId>, reply: Reply) {
    if lease.None? || reply == Raised then after == found
    else
      && after.live == found.live - {lease.value} && after.nextLease == found.nextLease
      && after.leader == (if found.leader.Held? && found.leader.lease == lease.value then Vacant else found.leader)
      && after.address == (if found.address.Held? && found.address.lease == lease.value then Vacant else found.address)
  }

  predicate HeldBy(c: Cell, id: Id) {
    c.Held? && c.value == id
  }

  /** Turn k only lowers the flag; turn k + 1 revokes the lease and forgets it. */
  ghost predicate StepsDown(c: Cluster, id: Id, turns: seq<Turn>, k: nat, lease: Option<LeaseId>)
    requires id in c.processes && k + 2 <= |turns|
  {
    var lowered, revoked := BeforeTurn(c, id, turns, k + 1), BeforeTurn(c, id, turns, k + 2);
    && !lowered.processes[id].isLeader && lowered.processes[id].lease == lease
    && lowered.store == FoundInTurn(c, id, turns, k).store
    && revoked.processes[id].lease == None
    && LeaseRevoked(FoundInTurn(c, id, turns, k + 1).store, revoked.store, lease, turns[k + 1].reply)
  }

  /** Turn k deletes the leader key and turn k + 1 the address, each only if it is the own one,
      leaving the store `second`; after a delete that replied, that key is not held by this
      process. */
  ghost predicate KeysDeleted(c: Cluster, id: Id, turns: seq<Turn>, k: nat, second: Store)
    requires id in c.processes && k + 2 <= |turns|
  {
    var first := BeforeTurn(c, id, turns, k + 1).store;
    && KeyDeleted(FoundInTurn(c, id, turns, k).store, first, id, turns[k].reply)
    && AddressDeleted(FoundInTurn(c, id, turns, k + 1).store, second, id, turns[k + 1].reply)
    && (turns[k].reply == Replied ==> !HeldBy(first.leader, id))
    && (turns[k + 1].reply == Replied ==> !HeldBy(second.address, id))
  }

  lemma StillStepsDown(c: Cluster, id: Id, earlier: seq<Turn>, turns: seq<Turn>, k: nat, lease: Option<LeaseId>)
    requires id in c.processes && k + 2 <= |earlier| <= |turns| && turns[..|earlier|] == earlier
    requires StepsDown(c, id, earlier, k, lease)
    ensures StepsDown(c, id, turns, k, lease)
  {
    EarlierTurn(c, id, earlier, turns, k);
    EarlierTurn(c, id, earlier, turns, k + 1);
    EarlierTurn(c, id, earlier, turns, k + 2);
  }

  /** Turn k finds the leader key released, or a stop requested. */
  ghost predicate EndsWait(c: Cluster, id: Id, turns: seq<Turn>, k: nat)
    requires id in c.processes && k < |turns|
  {
    var found := FoundInTurn(c, id, turns, k);
    found.processes[id].stopping || (turns[k].reply == Replied && found.store.leader.Vacant?)
  }

  ghost predicate StillWaiting(c: Cluster, id: Id, turns: seq<Turn>, from: nat)
    requires id in c.processes
  {
    forall k :: from <= k < |turns| ==> !EndsWait(c, id, turns, k)
  }

  /** The wait that began at turn `from` ends with the last turn. */
  ghost predicate WaitedUntilNow(c: Cluster, id: Id, turns: seq<Turn>, from: nat)
    requires id in c.processes
  {
    && from < |turns| && EndsWait(c, id, turns, |turns| - 1)
    && StillWaiting(c, id, turns[..|turns| - 1], from)
  }

  lemma WaitsOnceMore(c: Cluster, id: Id, earlier: seq<Turn>, turns: seq<Turn>, from: nat)
    requires id in c.processes && |turns| == |earlier| + 1 && turns[..|earlier|] == earlier
    requires StillWaiting(c, id, earlier, from) && !EndsWait(c, id, turns, |earlier|)
    ensures StillWaiting(c, id, turns, from)
  {
    forall k | from <= k < |turns| ensures !EndsWait(c, id, turns, k) {
      if k < |earlier| {
        assert !EndsWait(c, id, earlier, k);
        EarlierTurn(c, id, earlier, turns, k);
      }
    }
  }

  predicate Revoking(stage: Stage) {
    stage in {RevokeOld, LoseLease, StopLease}
  }

  function AfterRevoke(stage: Stage): Stage {
    if stage == RevokeOld then Grant else if stage == LoseLease then LoseAddress else StopKey
  }

  lemma RevokeStep(s: Store, id: Id, p: Process, reply: Reply)
    requires Revoking(p.stage)
    ensures Sends(id, p) == if p.lease.Some? then Some(RevokeLease(p.lease.value)) else None
    ensures Becomes(s, id, p, reply) == p.(lease := None, stage := AfterRevoke(p.stage))
  {
  }

  lemma LowerStep(s: Store, id: Id, p: Process, reply: Reply, next: Stage)
    requires (p.stage, next) in {(Depose, LoseLease), (StopFlag, StopLease)}
    ensures Sends(id, p) == None && Becomes(s, id, p, reply) == p.(isLeader := false, stage := next)
  {
  }

  class LeaderElection {
    const id: Id
    var lease: Option<LeaseId>
    var isLeader: bool
    var cluster: Cluster        // etcd and the other processes
    var script: seq<Turn>       // what the environment will do; then this process is asked to stop
    ghost const start: Cluster
    ghost var played: seq<Turn>
    ghost var turn: Turn

    /** Between two steps: the fields are the machine's process, and the execution so
        far is a run of the machine. */
    ghost predicate Valid()
      reads this
    {
      && id in start.processes
      && cluster == RunTurns(start, id, played)
      && cluster.processes[id].lease == lease
      && cluster.processes[id].isLeader == isLeader
    }

    ghost predicate AtStage(stage: Stage)
      reads this
    {
      Valid() && cluster.processes[id].stage == stage
    }

    /** The cluster before turn k of this execution. */
    ghost function Before(k: nat): Cluster
      requires id in start.processes && k <= |played|
      reads this
    {
      BeforeTurn(start, id, played, k)
    }

    /** What the thread finds in turn k, once the others have moved. */
    ghost function Found(k: nat): Cluster
      requires id in start.processes && k < |played|
      reads this
    {
      FoundInTurn(start, id, played, k)
    }

    /** The thread has taken n more turns. */
    ghost predicate Took(before: seq<Turn>, n: nat)
      reads this
    {
      |played| == |before| + n && played[..|before|] == before
    }

    constructor (id: Id, cluster: Cluster, script: seq<Turn>)
      requires id !in cluster.processes
      ensures AtStage(LoopHead) && played == []
      ensures this.id == id && start == Next(cluster, Start(id)) && this.script == script
    {
      this.id := id;
      lease, isLeader := None, false;
      this.script := script;
      this.cluster := Next(cluster, Start(id));
      start := Next(cluster, Start(id));
      played := [];
    }

    function Stopping(): bool
      requires id in cluster.processes
      reads this
    {
      cluster.processes[id].stopping
    }

    /** The environment moves; `reply` is how the call about to be made will end. */
    method Wait() returns (reply: Reply)
      requires Valid()
      modifies this`cluster, this`script, this`turn
      ensures cluster == Disturb(old(cluster), id, turn.others) && reply == turn.reply
      ensures |script| < |old(script)| || (|script| == |old(script)| && Stopping())
    {
      if script == [] {
        assert [RequestStop(id)][..0] == [];
        turn := Turn([RequestStop(id)], Raised);
        cluster := Disturb(cluster, id, [RequestStop(id)]);
        reply := Raised;
      } else {
        turn := script[0];
        cluster := Disturb(cluster, id, script[0].others);
        reply := script[0].reply;
        script := script[1..];
      }
    }

    /** One etcd request that changes the store. */
    method Send(request: Request, reply: Reply)
      modifies this`cluster
      ensures cluster == Cluster(StoreAfter(old(cluster).store, Some(request), reply), old(cluster).processes,
                                 FlightAfter(old(cluster).inFlight, Some(request), reply))
    {
      if reply == Replied {
        cluster := cluster.(store := Apply(cluster.store, request));
      } else {
        cluster := cluster.(inFlight := cluster.inFlight + {request});
      }
    }

    /** The step is complete: what the code did must be what the machine does. */
    method Arrive(ghost mid: Cluster, stage: Stage)
      requires id in start.processes && mid == Disturb(RunTurns(start, id, played), id, turn.others)
      requires id in cluster.processes
      requires cluster.(processes := cluster.processes[id := Process(stage, lease, isLeader, Stopping())])
               == Act(mid, id, turn.reply)
      modifies this`cluster, this`played
      ensures AtStage(stage) && Stopping() == old(Stopping()) && cluster.store == old(cluster).store
      ensures cluster.inFlight == old(cluster).inFlight
      ensures Took(old(played), 1) && played[|old(played)|] == turn && Found(|old(played)|) == mid
      ensures Before(|old(played)|) == RunTurns(start, id, old(played)) && Before(|played|) == cluster
    {
      cluster := cluster.(processes := cluster.processes[id := Process(stage, lease, isLeader, Stopping())]);
      OneMoreTurn(start, id, played, turn);
      played := played + [turn];
      assert played[..|old(played)|] == old(played) && played[..|played|] == played;
    }

    /** Revoke the lease, if there is one, and forget it whether or not that worked. */
    method RevokeLease(from: Stage)
      requires AtStage(from) && Revoking(from)
      modifies this
      ensures AtStage(AfterRevoke(from)) && lease == None && isLeader == old(isLeader)
      ensures Took(old(played), 1)
      ensures LeaseRevoked(Found(|old(played)|).store, cluster.store, old(lease), played[|old(played)|].reply)
      ensures Shorter(old(script), old(Stopping()))
    {
      var reply := Wait();
      ghost var mid := cluster;
      RevokeStep(mid.store, id, mid.processes[id], reply);
      if lease.Some? {
        Send(Request.RevokeLease(lease.value), reply);
        lease := None;
      }
      Arrive(mid, AfterRevoke(from));
    }

    /** Removes a key if its value is this process's; a failure is ignored. */
    method DeleteIfOwned(request: Request, from: Stage, next: Stage)
      requires AtStage(from)
      requires (from, request, next) in {(LoseAddress, DeleteAddressOf(id), LoopHead),
                                         (StopKey, DeleteKeyOf(id), StopAddress),
                                         (StopAddress, DeleteAddressOf(id), Ended)}
      modifies this
      ensures AtStage(next) && lease == old(lease) && isLeader == old(isLeader)
      ensures Took(old(played), 1)
      ensures var found, reply := Found(|old(played)|).store, played[|old(played)|].reply;
        if request.DeleteKeyOf? then KeyDeleted(found, cluster.store, id, reply)
        else AddressDeleted(found, cluster.store, id, reply)
      ensures Shorter(old(script), old(Stopping()))
    {
      var reply := Wait();
      ghost var mid := cluster;
      Send(request, reply);
      Arrive(mid, next);
    }

    method LowerFlag(from: Stage, next: Stage)
      requires AtStage(from) && (from, next) in {(Depose, LoseLease), (StopFlag, StopLease)}
      modifies this
      ensures AtStage(next) && !isLeader && lease == old(lease)
      ensures Took(old(played), 1) && cluster.store == Found(|old(played)|).store
      ensures Shorter(old(script), old(Stopping()))
    {
      var reply := Wait();
      LowerStep(cluster.store, id, cluster.processes[id], reply, next);
      isLeader := false;
      Arrive(cluster, next);
    }

    /** Each step uses up script, and a stop request is never taken back. */
    ghost predicate Shorter(before: seq<Turn>, wasStopping: bool)
      requires id in cluster.processes
      reads this
    {
      && (|script| < |before| || (|script| == |before| && Stopping()))
      && (wasStopping ==> Stopping())
    }

    method Campaign() returns (elected: bool)
      requires AtStage(RevokeOld)
      modifies this
      ensures elected ==> AtStage(ServeHead) && isLeader
      ensures !elected ==> AtStage(AwaitRelease) && isLeader == old(isLeader)
      ensures Shorter(old(script), old(Stopping()))
    {
      RevokeLease(RevokeOld);
      elected := AcquireLease();
      if elected {
        elected := Contest();
      }
      if elected {
        Announce();
      }
    }

    method AcquireLease() returns (granted: bool)
      requires AtStage(Grant)
      modifies this
      ensures granted ==> AtStage(Contend) && lease.Some?
      ensures !granted ==> AtStage(AwaitRelease)
      ensures isLeader == old(isLeader) && Took(old(played), 1)
      ensures var found := Found(|old(played)|).store;
        && (granted <==> played[|old(played)|].reply == Replied)
        && lease == (if granted then Some(found.nextLease) else None)
        && cluster.store == if granted then found.(live := found.live + {found.nextLease}, nextLease := found.nextLease + 1)
                            else found
      ensures Shorter(old(script), old(Stopping()))
    {
      var reply := Wait();
      ghost var mid := cluster;
      var next := cluster.store.nextLease;
      Send(GrantLease, reply);
      granted := reply == Replied;
      lease := if granted then Some(next) else None;
      Arrive(mid, if granted then Contend else AwaitRelease);
    }

    /** The compare-and-swap on the leader key, one atomic step on the store it finds; a put
        under a dead lease raises, and a call that raises may still land later. */
    method Contest() returns (success: bool)
      requires AtStage(Contend) && lease.Some?
      modifies this
      ensures AtStage(if success then Won else AwaitRelease) && isLeader == old(isLeader)
      ensures Took(old(played), 1)
      ensures var found, reply := Found(|old(played)|), played[|old(played)|].reply;
        var l := old(lease).value;
        && (success <==> reply == Replied && found.store.leader.Vacant? && l in found.store.live)
        && cluster.store == (if success then found.store.(leader := Held(id, l)) else found.store)
        && lease == (if success || (reply == Replied && found.store.leader.Held?) then Some(l) else None)
        && (reply == Raised ==> PutKeyIfVacant(id, l) in cluster.inFlight)
      ensures Shorter(old(script), old(Stopping()))
    {
      var reply := Wait();
      ghost var mid := cluster;
      var vacant, alive := cluster.store.leader.Vacant?, lease.value in cluster.store.live;
      Send(PutKeyIfVacant(id, lease.value), reply);
      if reply == Raised || (vacant && !alive) {
        lease := None;
        success := false;
      } else {
        success := vacant;
      }
      Arrive(mid, if success then Won else AwaitRelease);
    }

    /** First the flag goes up, with nothing published yet; then the address is published
        under the lease, and whether that worked is ignored. */
    method Announce()
      requires AtStage(Won)
      modifies this
      ensures AtStage(ServeHead) && isLeader && lease == old(lease) && Took(old(played), 2)
      ensures var k := |old(played)|;
        && Before(k + 1).processes[id].isLeader && Before(k + 1).store == Found(k).store
        && var found := Found(k + 1).store;
           cluster.store == if lease.Some? && played[k + 1].reply == Replied && lease.value in found.live
                            then found.(address := Held(id, lease.value)) else found
      ensures Shorter(old(script), old(Stopping()))
    {
      RaiseFlag();
      ghost var raised := played;
      assert raised[..|raised|] == raised;
      PublishAddress();
      EarlierTurn(start, id, raised, played, |old(played)|);
      EarlierTurn(start, id, raised, played, |old(played)| + 1);
    }

    method RaiseFlag()
      requires AtStage(Won)
      modifies this
      ensures AtStage(Publish) && isLeader && lease == old(lease)
      ensures Took(old(played), 1) && cluster.store == Found(|old(played)|).store
      ensures Shorter(old(script), old(Stopping()))
    {
      var _ := Wait();
      isLeader := true;
      Arrive(cluster, Publish);
    }

    method PublishAddress()
      requires AtStage(Publish)
      modifies this
      ensures AtStage(ServeHead) && isLeader == old(isLeader) && lease == old(lease) && Took(old(played), 1)
      ensures var found := Found(|old(played)|).store;
        cluster.store == if lease.Some? && played[|old(played)|].reply == Replied && lease.value in found.live
                         then found.(address := Held(id, lease.value)) else found
      ensures Shorter(old(script), old(Stopping()))
    {
      var reply := Wait();
      ghost var mid := cluster;
      if lease.Some? {
        Send(PutAddress(id, lease.value), reply);
      }
      Arrive(mid, ServeHead);
    }

    method ServeAsLeader()
      requires AtStage(ServeHead)
      modifies this
      ensures AtStage(LoopHead) && (isLeader ==> Stopping())
      ensures Shorter(old(script), old(Stopping()))
    {
      var leading := true;
      while leading
        invariant AtStage(if leading then ServeHead else LoopHead)
        invariant !leading && isLeader ==> Stopping()
        invariant if leading then |script| <= |old(script)| && (old(Stopping()) ==> Stopping())
                  else Shorter(old(script), old(Stopping()))
        decreases leading, |script|
      {
        leading := ServeOnce();
      }
    }

    /** One turn of the serving loop. */
    method ServeOnce() returns (leading: bool)
      requires AtStage(ServeHead)
      modifies this
      ensures AtStage(if leading then ServeHead else LoopHead)
      ensures !leading && isLeader ==> Stopping()
      ensures leading ==> |script| < |old(script)|
      ensures Shorter(old(script), old(Stopping()))
    {
      leading := StillServing();
      if leading {
        leading := KeepAlive();
        if leading {
          PauseBetweenRefreshes();
        } else {
          LoseLeadership();
        }
      }
    }

    method PauseBetweenRefreshes()
      requires AtStage(Pause)
      modifies this
      ensures AtStage(ServeHead)
      ensures Shorter(old(script), old(Stopping()))
    {
      var _ := Wait();
      Arrive(cluster, ServeHead);
    }

    method StillServing() returns (serving: bool)
      requires AtStage(ServeHead)
      modifies this
      ensures AtStage(if serving then ReadKey else LoopHead)
      ensures !serving && isLeader ==> Stopping()
      ensures serving ==> |script| < |old(script)|
      ensures Shorter(old(script), old(Stopping()))
    {
      var _ := Wait();
      serving := !Stopping() && isLeader;
      Arrive(cluster, if serving then ReadKey else LoopHead);
    }

    /** Turn k read this process's own id under the leader key. */
    ghost predicate ReadsOwnId(k: nat)
      requires id in start.processes && k < |played|
      reads this
    {
      var leader := Found(k).store.leader;
      played[k].reply == Replied && leader.Held? && leader.value == id
    }

    /** Check the key, then, if it is the own one, refresh the lease; leadership is kept if
        and only if both work. */
    method KeepAlive() returns (kept: bool)
      requires AtStage(ReadKey)
      modifies this
      ensures AtStage(if kept then Pause else Depose) && lease == old(lease) && isLeader == old(isLeader)
      ensures |played| > |old(played)| && Took(old(played), if ReadsOwnId(|old(played)|) then 2 else 1)
      ensures kept <==> ReadsOwnId(|old(played)|) && played[|played| - 1].reply == Replied && lease.Some?
      ensures cluster.store == Found(|played| - 1).store
      ensures Shorter(old(script), old(Stopping()))
    {
      kept := ReadLeaderKey();
      if kept {
        ghost var earlier := played;
        kept := RefreshLease();
        EarlierTurn(start, id, earlier, played, |old(played)|);
      }
    }

    method ReadLeaderKey() returns (mine: bool)
      requires AtStage(ReadKey)
      modifies this
      ensures AtStage(if mine then Refresh else Depose) && lease == old(lease) && isLeader == old(isLeader)
      ensures Took(old(played), 1) && mine == ReadsOwnId(|old(played)|)
      ensures cluster.store == Found(|old(played)|).store
      ensures Shorter(old(script), old(Stopping()))
    {
      var reply := Wait();
      var leader := cluster.store.leader;
      mine := reply == Replied && leader.Held? && leader.value == id;
      Arrive(cluster, if mine then Refresh else Depose);
    }

    method RefreshLease() returns (refreshed: bool)
      requires AtStage(Refresh)
      modifies this
      ensures AtStage(if refreshed then Pause else Depose) && lease == old(lease) && isLeader == old(isLeader)
      ensures Took(old(played), 1) && refreshed == (played[|old(played)|].reply == Replied && lease.Some?)
      ensures cluster.store == Found(|old(played)|).store
      ensures Shorter(old(script), old(Stopping()))
    {
      var reply := Wait();
      ghost var mid := cluster;
      if lease.Some? {
        Send(Request.RefreshLease(lease.value), reply);
      }
      refreshed := reply == Replied && lease.Some?;
      Arrive(mid, if refreshed then Pause else Depose);
    }

    /** The flag, then the lease. */
    method StepDown(from: Stage, revoking: Stage)
      requires AtStage(from) && (from, revoking) in {(Depose, LoseLease), (StopFlag, StopLease)}
      modifies this
      ensures AtStage(AfterRevoke(revoking)) && !isLeader && lease == None && Took(old(played), 2)
      ensures StepsDown(start, id, played, |old(played)|, old(lease))
      ensures Shorter(old(script), old(Stopping()))
    {
      LowerFlag(from, revoking);
      ghost var lowered := played;
      assert lowered[..|lowered|] == lowered;
      RevokeLease(revoking);
      EarlierTurn(start, id, lowered, played, |old(played)|);
      EarlierTurn(start, id, lowered, played, |old(played)| + 1);
      assert played[..|played|] == played;
    }

    /** The flag goes down, then the lease is revoked and forgotten, then the address is
        deleted if it is the own one. */
    method LoseLeadership()
      requires AtStage(Depose)
      modifies this
      ensures AtStage(LoopHead) && !isLeader && lease == None && Took(old(played), 3)
      ensures StepsDown(start, id, played, |old(played)|, old(lease))
      ensures var k := |old(played)| + 2;
        && AddressDeleted(Found(k).store, cluster.store, id, played[k].reply)
        && (played[k].reply == Replied ==> !HeldBy(cluster.store.address, id))
      ensures Shorter(old(script), old(Stopping()))
    {
      StepDown(Depose, LoseLease);
      ghost var earlier := played;
      DeleteIfOwned(DeleteAddressOf(id), LoseAddress, LoopHead);
      StillStepsDown(start, id, earlier, played, |old(played)|, old(lease));
    }

    method PollKey() returns (released: bool)
      requires AtStage(AwaitRelease)
      modifies this
      ensures AtStage(if released then LoopHead else AwaitRelease)
      ensures isLeader == old(isLeader) && lease == old(lease)
      ensures Took(old(played), 1) && released == EndsWait(start, id, played, |old(played)|)
      ensures cluster.store == Found(|old(played)|).store
      ensures !released ==> |script| < |old(script)|
      ensures Shorter(old(script), old(Stopping()))
    {
      var reply := Wait();
      released := Stopping() || (reply == Replied && cluster.store.leader.Vacant?);
      Arrive(cluster, if released then LoopHead else AwaitRelease);
    }

    /** One more turn of the wait that began at turn `from`. */
    method PollAgain(ghost from: nat) returns (released: bool)
      requires AtStage(AwaitRelease) && from <= |played| && StillWaiting(start, id, played, from)
      modifies this
      ensures AtStage(if released then LoopHead else AwaitRelease)
      ensures isLeader == old(isLeader) && lease == old(lease) && Took(old(played), 1)
      ensures if released then WaitedUntilNow(start, id, played, from) else StillWaiting(start, id, played, from)
      ensures cluster.store == Found(|old(played)|).store
      ensures !released ==> |script| < |old(script)|
      ensures Shorter(old(script), old(Stopping()))
    {
      released := PollKey();
      if released {
        assert played[..|played| - 1] == old(played);
      } else {
        WaitsOnceMore(start, id, old(played), played, from);
      }
    }

    /** Polls the key until the first turn that finds it released, or a stop requested. */
    method WaitForKeyRelease()
      requires AtStage(AwaitRelease)
      modifies this
      ensures AtStage(LoopHead) && isLeader == old(isLeader) && lease == old(lease)
      ensures |played| > |old(played)| && played[..|old(played)|] == old(played)
      ensures WaitedUntilNow(start, id, played, |old(played)|)
      ensures cluster.store == Found(|played| - 1).store
      ensures Shorter(old(script), old(Stopping()))
    {
      while true
        invariant AtStage(AwaitRelease) && isLeader == old(isLeader) && lease == old(lease)
        invariant |script| <= |old(script)|
        invariant old(Stopping()) ==> Stopping()
        invariant |played| >= |old(played)| && played[..|old(played)|] == old(played)
        invariant StillWaiting(start, id, played, |old(played)|)
        decreases |script|
      {
        var released := PollAgain(|old(played)|);
        if released {
          return;
        }
      }
    }

    /** The leader key, then the address. */
    method DeleteOwnKeys(ghost k: nat)
      requires AtStage(StopKey) && k == |played|
      modifies this
      ensures AtStage(Ended) && isLeader == old(isLeader) && lease == old(lease) && Took(old(played), 2)
      ensures KeysDeleted(start, id, played, k, cluster.store)
    {
      DeleteIfOwned(DeleteKeyOf(id), StopKey, StopAddress);
      ghost var deleted := played;
      assert deleted[..|deleted|] == deleted;
      DeleteIfOwned(DeleteAddressOf(id), StopAddress, Ended);
      EarlierTurn(start, id, deleted, played, k);
      EarlierTurn(start, id, deleted, played, k + 1);
    }

    /** The flag, the lease, then the leader key and the address, each deleted only if it is
        the own one. */
    method Cleanup()
      requires AtStage(StopFlag)
      modifies this
      ensures AtStage(Ended) && !isLeader && lease == None && Took(old(played), 4)
      ensures StepsDown(start, id, played, |old(played)|, old(lease))
      ensures KeysDeleted(start, id, played, |old(played)| + 2, cluster.store)
    {
      StepDown(StopFlag, StopLease);
      ghost var stepped := played;
      DeleteOwnKeys(|old(played)| + 2);
      StillStepsDown(start, id, stepped, played, |old(played)|, old(lease));
    }

    /** One turn of the outer loop. */
    method Round() returns (stopped: bool)
      requires AtStage(LoopHead) && (isLeader ==> Stopping())
      modifies this
      ensures AtStage(if stopped then StopFlag else LoopHead)
      ensures !stopped && isLeader ==> Stopping()
      ensures !stopped ==> |script| < |old(script)|
    {
      stopped := CheckStop();
      if !stopped {
        var elected := Campaign();
        if elected {
          ServeAsLeader();
        } else {
          WaitForKeyRelease();
        }
      }
    }

    method CheckStop() returns (stopped: bool)
      requires AtStage(LoopHead)
      modifies this
      ensures AtStage(if stopped then StopFlag else RevokeOld) && isLeader == old(isLeader)
      ensures !stopped ==> |script| < |old(script)| && !old(Stopping())
    {
      var _ := Wait();
      stopped := Stopping();
      Arrive(cluster, if stopped then StopFlag else RevokeOld);
    }

    /** The whole thread, from its start until it has been stopped and cleaned up. */
    method RunThread()
      requires AtStage(LoopHead) && !isLeader
      modifies this
      ensures AtStage(Ended) && !isLeader && lease == None
      ensures Reachable(start) ==> Reachable(cluster)
    {
      var stopped := false;
      while !stopped
        invariant AtStage(if stopped then StopFlag else LoopHead)
        invariant !stopped && isLeader ==> Stopping()
        decreases !stopped, |script|
      {
        stopped := Round();
      }
      Cleanup();
      if Reachable(start) {
        RunTurnsReachable(start, id, played);
      }
    }
  }
}
