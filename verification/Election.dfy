// Leader election over leased etcd keys: every process as a program counter, a lease
// handle and the is_leader flag, one atomic etcd call at a time, against a store where
// leases may expire at any moment and a failed call may still take effect, at any later
// time, any number of times.
module Election {
  import opened Options

  /** One id for each process incarnation. */
  type Id = nat
  type LeaseId = nat

  // ---------------------------------------------------------------------- etcd

  datatype Cell = Vacant | Held(value: Id, lease: LeaseId)

  /** The leader key, the leader-address key, and the leases. */
  datatype Store = Store(leader: Cell, address: Cell, live: set<LeaseId>, nextLease: LeaseId)

  datatype Request =
    | GrantLease
    | PutKeyIfVacant(id: Id, lease: LeaseId)
    | PutAddress(id: Id, lease: LeaseId)
    | RefreshLease(lease: LeaseId)
    | RevokeLease(lease: LeaseId)
    | DeleteKeyOf(id: Id)
    | DeleteAddressOf(id: Id)

  function Without(c: Cell, lease: LeaseId): Cell {
    if c.Held? && c.lease == lease then Vacant else c
  }

  function Unowned(c: Cell, id: Id): Cell {
    if c.Held? && c.value == id then Vacant else c
  }

  function DropLease(s: Store, lease: LeaseId): Store {
    s.(leader := Without(s.leader, lease), address := Without(s.address, lease), live := s.live - {lease})
  }

  /** The effect of a request on the store; a put under a dead lease is refused. */
  function Apply(s: Store, r: Request): Store {
    match r
    case GrantLease => s.(live := s.live + {s.nextLease}, nextLease := s.nextLease + 1)
    case PutKeyIfVacant(id, l) => if s.leader.Vacant? && l in s.live then s.(leader := Held(id, l)) else s
    case PutAddress(id, l) => if l in s.live then s.(address := Held(id, l)) else s
    case RefreshLease(_) => s
    case RevokeLease(l) => DropLease(s, l)
    case DeleteKeyOf(id) => s.(leader := Unowned(s.leader, id))
    case DeleteAddressOf(id) => s.(address := Unowned(s.address, id))
  }

  // ------------------------------------------------------------------ processes

  /** Where the election thread is; each stage makes at most one etcd call. */
  datatype Stage =
    | LoopHead
    | RevokeOld
    | Grant
    | Contend
    | Won
    | Publish
    | ServeHead
    | ReadKey
    | Refresh
    | Pause
    | Depose
    | LoseLease
    | LoseAddress
    | AwaitRelease
    | StopFlag
    | StopLease
    | StopKey
    | StopAddress
    | Ended

  datatype Process = Process(stage: Stage, lease: Option<LeaseId>, isLeader: bool, stopping: bool)

  const BORN := Process(LoopHead, None, false, false)

  /** Whether the call came back, or raised. */
  datatype Reply = Replied | Raised

  datatype Cluster = Cluster(store: Store, processes: map<Id, Process>, inFlight: set<Request>)

  /** The etcd call a process makes in its current stage, if any changes the store. */
  function Sends(id: Id, p: Process): Option<Request> {
    match p.stage
    case RevokeOld | LoseLease | StopLease => if p.lease.Some? then Some(RevokeLease(p.lease.value)) else None
    case Grant => Some(GrantLease)
    case Contend => if p.lease.Some? then Some(PutKeyIfVacant(id, p.lease.value)) else None
    case Publish => if p.lease.Some? then Some(PutAddress(id, p.lease.value)) else None
    case Refresh => if p.lease.Some? then Some(RefreshLease(p.lease.value)) else None
    case StopKey => Some(DeleteKeyOf(id))
    case LoseAddress | StopAddress => Some(DeleteAddressOf(id))
    case _ => None
  }

  /** What the process is after its stage, given the store its call finds and the reply. */
  function Becomes(s: Store, id: Id, p: Process, reply: Reply): Process {
    match p.stage
    case LoopHead => p.(stage := if p.stopping then StopFlag else RevokeOld)
    // _campaign
    case RevokeOld => p.(lease := None, stage := Grant)
    case Grant =>
      if reply == Replied then p.(lease := Some(s.nextLease), stage := Contend) else p.(lease := None, stage := AwaitRelease)
    case Contend =>
      if reply == Replied && s.leader.Held? then p.(stage := AwaitRelease)
      else if reply == Replied && p.lease.Some? && p.lease.value in s.live then p.(stage := Won)
      else p.(lease := None, stage := AwaitRelease)
    case Won => p.(isLeader := true, stage := Publish)
    case Publish => p.(stage := ServeHead)
    // _serve_as_leader
    case ServeHead => p.(stage := if p.stopping || !p.isLeader then LoopHead else ReadKey)
    case ReadKey => p.(stage := if reply == Replied && s.leader.Held? && s.leader.value == id then Refresh else Depose)
    case Refresh => p.(stage := if reply == Replied && p.lease.Some? then Pause else Depose)
    case Pause => p.(stage := ServeHead)
    // _lose_leadership
    case Depose => p.(isLeader := false, stage := LoseLease)
    case LoseLease => p.(lease := None, stage := LoseAddress)
    case LoseAddress => p.(stage := LoopHead)
    // _wait_for_key_release
    case AwaitRelease => p.(stage := if p.stopping || (reply == Replied && s.leader.Vacant?) then LoopHead else AwaitRelease)
    // _cleanup
    case StopFlag => p.(isLeader := false, stage := StopLease)
    case StopLease => p.(lease := None, stage := StopKey)
    case StopKey => p.(stage := StopAddress)
    case StopAddress => p.(stage := Ended)
    case Ended => p
  }

  function StoreAfter(s: Store, r: Option<Request>, reply: Reply): Store {
    if r.Some? && reply == Replied then Apply(s, r.value) else s
  }

  /** A call that raises leaves its request in flight: it may take effect later, or never. */
  function FlightAfter(inFlight: set<Request>, r: Option<Request>, reply: Reply): set<Request> {
    if r.Some? && reply == Raised then inFlight + {r.value} else inFlight
  }

  /** One step of the election thread of process `id`. */
  function Act(c: Cluster, id: Id, reply: Reply): Cluster
    requires id in c.processes
  {
    var p := c.processes[id];
    var r := Sends(id, p);
    Cluster(StoreAfter(c.store, r, reply), c.processes[id := Becomes(c.store, id, p, reply)],
            FlightAfter(c.inFlight, r, reply))
  }

  datatype Event =
    | Start(id: Id)
    | RequestStop(id: Id)
    | Crash(id: Id)
    | Expire(lease: LeaseId)
    | Deliver(request: Request)
    | Run(id: Id, reply: Reply)

  predicate Enabled(c: Cluster, e: Event) {
    match e
    case Start(id) => id !in c.processes
    case RequestStop(id) => id in c.processes
    case Crash(id) => id in c.processes
    case Expire(_) => true
    case Deliver(r) => r in c.inFlight
    case Run(id, _) => id in c.processes
  }

  function Next(c: Cluster, e: Event): Cluster
    requires Enabled(c, e)
  {
    match e
    case Start(id) => c.(processes := c.processes[id := BORN])
    case RequestStop(id) => c.(processes := c.processes[id := c.processes[id].(stopping := true)])
    case Crash(id) => c.(processes := c.processes[id := Process(Ended, None, false, true)])
    case Expire(l) => c.(store := DropLease(c.store, l))
    case Deliver(r) => c.(store := Apply(c.store, r))
    case Run(id, reply) => Act(c, id, reply)
  }

  ghost predicate Init(c: Cluster) {
    c.processes == map[] && c.inFlight == {} && c.store == Store(Vacant, Vacant, {}, 0)
  }

  ghost predicate Step(c: Cluster, c': Cluster) {
    exists e :: Enabled(c, e) && c' == Next(c, e)
  }

  ghost predicate Behavior(trace: seq<Cluster>) {
    && trace != [] && Init(trace[0])
    && forall i | 0 <= i < |trace| - 1 :: Step(trace[i], trace[i + 1])
  }

  // ------------------------------------------------------------------ invariant

  predicate Elected(p: Process) {
    p.isLeader || p.stage == Won
  }

  /** An elected process whose own lease is alive owns the leader key under that lease. */
  ghost predicate OwnsKey(s: Store, id: Id, p: Process) {
    Elected(p) && p.lease.Some? && p.lease.value in s.live ==> s.leader == Held(id, p.lease.value)
  }

  /** A stage that may be reached with the is_leader flag still up. */
  ghost predicate MayLead(p: Process) {
    p.stage in {Publish, ServeHead, ReadKey, Refresh, Pause, Depose, StopFlag} || (p.stage == LoopHead && p.stopping)
  }

  /** Past the conditional delete of its own key, or gone. */
  predicate ShutDown(p: Process) {
    p.stage in {StopAddress, Ended}
  }

  /** A put of the address that can still land comes from the owner of the leader key,
      or from a process that has shut down. */
  ghost predicate AnnouncesAsOwner(s: Store, inFlight: set<Request>, id: Id, p: Process) {
    forall lease: LeaseId :: PutAddress(id, lease) in inFlight && lease in s.live ==> s.leader == Held(id, lease) || ShutDown(p)
  }

  ghost predicate ProcessInv(s: Store, inFlight: set<Request>, id: Id, p: Process) {
    && OwnsKey(s, id, p)
    && AnnouncesAsOwner(s, inFlight, id, p)
    && (p.lease.Some? ==> p.lease.value < s.nextLease && RevokeLease(p.lease.value) !in inFlight)
    && (p.isLeader ==> MayLead(p))
    && (p.stage == Publish ==> p.isLeader)
    && (DeleteKeyOf(id) in inFlight ==> ShutDown(p))
  }

  ghost predicate LeasesApart(processes: map<Id, Process>) {
    forall i, j :: i in processes && j in processes && i != j && processes[i].lease.Some?
      ==> processes[i].lease != processes[j].lease
  }

  ghost predicate StoreInv(s: Store) {
    && (forall l <- s.live :: l < s.nextLease)
    && (s.leader.Held? ==> s.leader.lease in s.live)
    && (s.address.Held? ==> s.address.lease in s.live)
  }

  ghost predicate LeasesBounded(s: Store, inFlight: set<Request>) {
    forall r <- inFlight :: r.RevokeLease? || r.PutAddress? ==> r.lease < s.nextLease
  }

  /** What may be in flight: nothing under a lease yet to come, nothing of a stranger. */
  ghost predicate FlightInv(c: Cluster) {
    && LeasesBounded(c.store, c.inFlight)
    && (forall r <- c.inFlight :: r.DeleteKeyOf? || r.PutAddress? ==> r.id in c.processes)
  }

  /** The published address is the key holder's, unless its publisher has shut down. */
  ghost predicate AddressInv(s: Store, processes: map<Id, Process>) {
    s.address.Held? ==> s.leader == s.address || (s.address.value in processes && ShutDown(processes[s.address.value]))
  }

  ghost predicate Inv(c: Cluster) {
    && StoreInv(c.store) && FlightInv(c) && LeasesApart(c.processes) && AddressInv(c.store, c.processes)
    && forall id <- c.processes :: ProcessInv(c.store, c.inFlight, id, c.processes[id])
  }

  lemma ApplyKeepsStoreInv(s: Store, r: Request)
    requires StoreInv(s)
    ensures StoreInv(Apply(s, r)) && Apply(s, r).nextLease >= s.nextLease
  {
  }

  lemma SendsOwn(id: Id, p: Process, r: Request)
    requires Sends(id, p) == Some(r)
    ensures r.RevokeLease? || r.PutAddress? || r.PutKeyIfVacant? ==> p.lease == Some(r.lease)
    ensures r.DeleteKeyOf? || r.PutAddress? || r.PutKeyIfVacant? ==> r.id == id
    ensures r.DeleteKeyOf? ==> p.stage == StopKey
    ensures r.PutAddress? ==> p.stage == Publish
  {
  }

  /** Another process's step. */
  lemma ActKeepsBystander(c: Cluster, id: Id, reply: Reply, other: Id)
    requires Inv(c) && id in c.processes && other in c.processes && other != id
    ensures ProcessInv(Act(c, id, reply).store, Act(c, id, reply).inFlight, other, c.processes[other])
  {
  }

  ghost predicate ActorKeeps(s: Store, inFlight: set<Request>, id: Id, p: Process, reply: Reply) {
    var r := Sends(id, p);
    ProcessInv(StoreAfter(s, r, reply), FlightAfter(inFlight, r, reply), id, Becomes(s, id, p, reply))
  }

  /** A process's own step: while campaigning, ... */
  lemma CampaignKeepsActor(s: Store, inFlight: set<Request>, id: Id, p: Process, reply: Reply)
    requires StoreInv(s) && LeasesBounded(s, inFlight) && ProcessInv(s, inFlight, id, p)
    requires p.stage in {LoopHead, RevokeOld, Grant, Contend, Won, Publish}
    ensures ActorKeeps(s, inFlight, id, p, reply)
  {
  }

  /** ... while leading or waiting, ... */
  lemma ServiceKeepsActor(s: Store, inFlight: set<Request>, id: Id, p: Process, reply: Reply)
    requires StoreInv(s) && LeasesBounded(s, inFlight) && ProcessInv(s, inFlight, id, p)
    requires p.stage in {ServeHead, ReadKey, Refresh, Pause, Depose, LoseLease, LoseAddress, AwaitRelease}
    ensures ActorKeeps(s, inFlight, id, p, reply)
  {
  }

  /** ... and while stopping. */
  lemma CleanupKeepsActor(s: Store, inFlight: set<Request>, id: Id, p: Process, reply: Reply)
    requires StoreInv(s) && LeasesBounded(s, inFlight) && ProcessInv(s, inFlight, id, p)
    requires p.stage in {StopFlag, StopLease, StopKey, StopAddress, Ended}
    ensures ActorKeeps(s, inFlight, id, p, reply)
  {
  }

  lemma ActKeepsActor(c: Cluster, id: Id, reply: Reply)
    requires Inv(c) && id in c.processes
    ensures ActorKeeps(c.store, c.inFlight, id, c.processes[id], reply)
  {
    var p := c.processes[id];
    assert ProcessInv(c.store, c.inFlight, id, p);
    if p.stage in {LoopHead, RevokeOld, Grant, Contend, Won, Publish} {
      CampaignKeepsActor(c.store, c.inFlight, id, p, reply);
    } else if p.stage in {StopFlag, StopLease, StopKey, StopAddress, Ended} {
      CleanupKeepsActor(c.store, c.inFlight, id, p, reply);
    } else {
      ServiceKeepsActor(c.store, c.inFlight, id, p, reply);
    }
  }

  lemma BecomesLease(s: Store, id: Id, p: Process, reply: Reply)
    ensures var p' := Becomes(s, id, p, reply);
            && (p'.lease.Some? ==> p'.lease == p.lease || p'.lease == Some(s.nextLease))
            && (ShutDown(p) ==> ShutDown(p'))
            && (p.stage == StopKey ==> ShutDown(p'))
  {
  }

  lemma ActKeepsLeasesApart(c: Cluster, id: Id, reply: Reply)
    requires Inv(c) && id in c.processes
    ensures LeasesApart(Act(c, id, reply).processes)
  {
    BecomesLease(c.store, id, c.processes[id], reply);
    forall i | i in c.processes && i != id && c.processes[i].lease.Some?
      ensures c.processes[i].lease != Becomes(c.store, id, c.processes[id], reply).lease
    {
      assert ProcessInv(c.store, c.inFlight, i, c.processes[i]);
    }
  }

  lemma ActKeepsFlight(c: Cluster, id: Id, reply: Reply)
    requires Inv(c) && id in c.processes
    ensures FlightInv(Act(c, id, reply))
  {
  }

  lemma ActKeepsAddress(c: Cluster, id: Id, reply: Reply)
    requires Inv(c) && id in c.processes
    ensures AddressInv(Act(c, id, reply).store, Act(c, id, reply).processes)
  {
  }

  lemma ActKeepsInv(c: Cluster, id: Id, reply: Reply)
    requires Inv(c) && id in c.processes
    ensures Inv(Act(c, id, reply))
  {
    var c' := Act(c, id, reply);
    var r := Sends(id, c.processes[id]);
    if r.Some? {
      ApplyKeepsStoreInv(c.store, r.value);
    }
    ActKeepsFlight(c, id, reply);
    ActKeepsLeasesApart(c, id, reply);
    ActKeepsAddress(c, id, reply);
    forall j <- c'.processes ensures ProcessInv(c'.store, c'.inFlight, j, c'.processes[j]) {
      if j == id {
        ActKeepsActor(c, id, reply);
      } else {
        ActKeepsBystander(c, id, reply, j);
      }
    }
  }

  lemma DeliverKeepsInv(c: Cluster, r: Request)
    requires Inv(c) && r in c.inFlight
    ensures Inv(Next(c, Deliver(r)))
  {
  }

  lemma ExpireKeepsInv(c: Cluster, lease: LeaseId)
    requires Inv(c)
    ensures Inv(Next(c, Expire(lease)))
  {
  }

  lemma LifeCycleKeepsInv(c: Cluster, e: Event)
    requires Inv(c) && Enabled(c, e) && (e.Start? || e.RequestStop? || e.Crash?)
    ensures Inv(Next(c, e))
  {
    forall j <- c.processes ensures ProcessInv(c.store, c.inFlight, j, Next(c, e).processes[j]) {
      assert ProcessInv(c.store, c.inFlight, j, c.processes[j]);
    }
  }

  lemma StepKeepsInv(c: Cluster, e: Event)
    requires Inv(c) && Enabled(c, e)
    ensures Inv(Next(c, e))
  {
    match e
    case Run(id, reply) => ActKeepsInv(c, id, reply);
    case Deliver(r) => DeliverKeepsInv(c, r);
    case Expire(l) => ExpireKeepsInv(c, l);
    case _ => LifeCycleKeepsInv(c, e);
  }

  lemma {:induction false} BehaviorKeepsInv(trace: seq<Cluster>, i: nat)
    requires Behavior(trace) && i < |trace|
    ensures Inv(trace[i])
  {
    if i > 0 {
      BehaviorKeepsInv(trace, i - 1);
      assert Step(trace[i - 1], trace[i - 1 + 1]);
      var e :| Enabled(trace[i - 1], e) && trace[i] == Next(trace[i - 1], e);
      StepKeepsInv(trace[i - 1], e);
    }
  }

  // -------------------------------------------------------------- main theorems

  /** The flag is up and the lease behind it is alive. */
  ghost predicate Leads(c: Cluster, id: Id) {
    id in c.processes && var p := c.processes[id];
    p.isLeader && p.lease.Some? && p.lease.value in c.store.live
  }

  ghost predicate Reachable(c: Cluster) {
    exists trace: seq<Cluster> :: Behavior(trace) && trace[|trace| - 1] == c
  }

  lemma ReachableInv(c: Cluster)
    requires Reachable(c)
    ensures Inv(c)
  {
    var trace: seq<Cluster> :| Behavior(trace) && trace[|trace| - 1] == c;
    BehaviorKeepsInv(trace, |trace| - 1);
  }

  /** A flag backed by a live lease owns the leader key under that lease, so there is
      at most one such flag: no timing assumption. */
  lemma LeaderOwnsKey(c: Cluster, i: Id, j: Id)
    requires Reachable(c) && Leads(c, i)
    ensures c.store.leader == Held(i, c.processes[i].lease.value)
    ensures Leads(c, j) ==> i == j
  {
    ReachableInv(c);
    assert ProcessInv(c.store, c.inFlight, i, c.processes[i]);
    if Leads(c, j) {
      assert ProcessInv(c.store, c.inFlight, j, c.processes[j]);
    }
  }

  /** The leader key never passes from one holder straight to another, and a holder
      loses it only when its lease is gone or when that holder itself has shut down:
      no conditional delete, however late, removes a successor's key. */
  lemma KeyLossHasItsCause(c: Cluster, e: Event)
    requires Reachable(c) && Enabled(c, e) && c.store.leader.Held?
    ensures var c' := Next(c, e);
            c'.store.leader != c.store.leader ==>
              && c'.store.leader.Vacant?
              && (c.store.leader.lease !in c'.store.live
                  || (c.store.leader.value in c'.processes && ShutDown(c'.processes[c.store.leader.value])))
  {
    ReachableInv(c);
    var owner := c.store.leader.value;
    match e
    case Run(id, reply) => {
      var p := c.processes[id];
      BecomesLease(c.store, id, p, reply);
      if Sends(id, p).Some? {
        SendsOwn(id, p, Sends(id, p).value);
      }
    }
    case Deliver(r) => {
      if r.DeleteKeyOf? {
        assert ProcessInv(c.store, c.inFlight, r.id, c.processes[r.id]);
      }
    }
    case _ => {}
  }

  /** Whoever gets its address published holds the leader key under the same live lease,
      or has shut down: a deposed instance cannot overwrite its successor's address. */
  lemma AddressIsTheHolders(c: Cluster, e: Event)
    requires Reachable(c) && Enabled(c, e)
    ensures var s' := Next(c, e).store;
            s'.address.Held? ==>
              && s'.address.lease in s'.live
              && (s'.leader == s'.address
                  || (s'.address.value in Next(c, e).processes && ShutDown(Next(c, e).processes[s'.address.value])))
  {
    ReachableInv(c);
    StepKeepsInv(c, e);
  }

  // ------------------------------------------------- what happens without timing

  lemma ReachableStep(c: Cluster, e: Event)
    requires Reachable(c) && Enabled(c, e)
    ensures Reachable(Next(c, e))
  {
    var trace: seq<Cluster> :| Behavior(trace) && trace[|trace| - 1] == c;
    var longer := trace + [Next(c, e)];
    forall i | 0 <= i < |longer| - 1 ensures Step(longer[i], longer[i + 1]) {
      if i < |trace| - 1 {
        assert Step(trace[i], trace[i + 1]);
      } else {
        assert longer[i] == c;
      }
    }
    assert longer[|longer| - 1] == Next(c, e);
  }

  /** The cluster after a new process wins the vacant key. */
  function AfterWin(c: Cluster, id: Id): Cluster {
    var n := c.store.nextLease;
    Cluster(c.store.(leader := Held(id, n), live := c.store.live + {n}, nextLease := n + 1),
            c.processes[id := Process(Publish, Some(n), true, false)], c.inFlight)
  }

  lemma NewcomerWins(c: Cluster, id: Id)
    requires Reachable(c) && id !in c.processes && c.store.leader.Vacant?
    ensures Reachable(AfterWin(c, id))
  {
    var c0 := Next(c, Start(id));
    ReachableStep(c, Start(id));
    var c1 := Next(c0, Run(id, Replied));
    ReachableStep(c0, Run(id, Replied));
    var c2 := Next(c1, Run(id, Replied));
    ReachableStep(c1, Run(id, Replied));
    var c3 := Next(c2, Run(id, Replied));
    ReachableStep(c2, Run(id, Replied));
    var c4 := Next(c3, Run(id, Replied));
    ReachableStep(c3, Run(id, Replied));
    var c5 := Next(c4, Run(id, Replied));
    ReachableStep(c4, Run(id, Replied));
    assert c5.processes == AfterWin(c, id).processes;
    assert c5 == AfterWin(c, id);
  }

  /** Without timing a deposed process may keep its flag while a successor raises its own. */
  lemma StaleFlagIsPossible()
    ensures exists c: Cluster ::
      && Reachable(c) && 0 in c.processes && 1 in c.processes
      && c.processes[0].isLeader && c.processes[1].isLeader && !Leads(c, 0) && Leads(c, 1)
  {
    var c0 := Cluster(Store(Vacant, Vacant, {}, 0), map[], {});
    assert Behavior([c0]) && [c0][|[c0]| - 1] == c0;
    NewcomerWins(c0, 0);
    var c1 := AfterWin(c0, 0);
    ReachableStep(c1, Expire(0));
    var c2 := Next(c1, Expire(0));
    NewcomerWins(c2, 1);
    var c3 := AfterWin(c2, 1);
    assert c3.processes[0].isLeader && !Leads(c3, 0) && Leads(c3, 1);
  }
}
