// The leaderboard's Kafka consumers: at-least-once delivery, five attempts per
// message, offsets committed after the transaction. Any number of workers, each
// with its own partition, share the tables with registration, which adds players.
module LeaderboardConsumer {
  import opened Options
  import Elo
  import opened Leaderboard

  const MAX_UPDATE_ATTEMPTS: nat := 5

  /** A lifecycle message: undecodable, some other event, or a usable match.end. */
  datatype Message = Undecodable | OtherEvent | Ended(event: MatchEnd)

  /** How one attempt at a transaction ends. A failed attempt may still have committed. */
  datatype Attempt = Succeeds | FailsUncommitted | FailsCommitted

  function Commits(a: Attempt): bool { a != FailsUncommitted }

  // --------------------------------------------------------- one message, in code

  ghost predicate AnyCommits(outcomes: seq<Attempt>, n: nat)
    requires n <= |outcomes|
  {
    exists i :: 0 <= i < n && outcomes[i] != FailsUncommitted
  }

  /** The attempt loop; `outcomes` says how each transaction would end. */
  method ProcessEvent(db: Database, msg: Message, outcomes: seq<Attempt>) returns (safeToCommit: bool, tried: nat)
    requires Elo.PowerLaw(db.P) && |outcomes| >= MAX_UPDATE_ATTEMPTS
    modifies db
    ensures safeToCommit && tried <= 5
    ensures !msg.Ended? ==> tried == 0 && db.Contents() == old(db.Contents())
    ensures msg.Ended? ==>
      db.Contents() == if exists i :: 0 <= i < tried && outcomes[i] != FailsUncommitted
                       then TablesAfter(db.P, old(db.Contents()), msg.event) else old(db.Contents())
    ensures msg.Ended? ==> forall i | 0 <= i < tried - 1 :: outcomes[i] != Succeeds
    ensures msg.Ended? ==> tried > 0 && (outcomes[tried - 1] == Succeeds || tried == 5)
  {
    if !msg.Ended? {
      return true, 0;
    }
    for attempt := 1 to MAX_UPDATE_ATTEMPTS + 1
      invariant db.Contents() == if AnyCommits(outcomes, attempt - 1)
                                 then TablesAfter(db.P, old(db.Contents()), msg.event) else old(db.Contents())
      invariant forall i | 0 <= i < attempt - 1 :: outcomes[i] != Succeeds
    {
      assert AnyCommits(outcomes, attempt) <==> AnyCommits(outcomes, attempt - 1) || Commits(outcomes[attempt - 1]);
      if Commits(outcomes[attempt - 1]) {
        var _ := db.ApplyMatch(msg.event);
      }
      if outcomes[attempt - 1] == Succeeds {
        return true, attempt;
      }
    }
    return true, MAX_UPDATE_ATTEMPTS;
  }

  // ------------------------------------------------------- all workers, interleaved

  datatype Phase =
    | Polling
    | Handling(offset: nat, failures: nat)
    | Committing(offset: nat)

  datatype Worker = Worker(log: seq<Message>, committed: nat, position: nat, phase: Phase)

  /** What a transaction on the players table was for. */
  datatype Effect = Registration(id: PlayerId) | Result(event: MatchEnd)

  /** Besides the running system: every transaction that took effect, in order, and
      every failed attempt and dropped message, by worker and offset. */
  datatype System = System(
    tables: Tables,
    workers: seq<Worker>,
    transactions: seq<Effect>,
    failedAttempts: multiset<(nat, nat)>,
    dropped: set<(nat, nat)>)

  datatype Action =
    | Produce(msg: Message)
    | Poll
    | Try(attempt: Attempt)
    | CommitOffset(tookEffect: bool, acknowledged: bool)
    | Restart
    | Register(id: PlayerId)   // by another service; no worker takes part

  ghost predicate Init(s: System) {
    && s.transactions == [] && s.failedAttempts == multiset{} && s.dropped == {}
    && forall w | 0 <= w < |s.workers| :: s.workers[w] == Worker([], 0, 0, Polling)
  }

  function Transact(s: System, e: MatchEnd, t': Tables, committed: bool): System {
    if committed then s.(tables := t', transactions := s.transactions + [Result(e)]) else s
  }

  /** A player whose id is taken is not inserted again. */
  function Registered(s: System, id: PlayerId): System {
    if id in s.tables.players then s
    else s.(tables := s.tables.(players := s.tables.players[id := NEW_PLAYER]),
            transactions := s.transactions + [Registration(id)])
  }

  ghost predicate Enabled(s: System, w: nat, a: Action) {
    a.Register? || (w < |s.workers| && WorkerCan(s, s.workers[w], a))
  }

  ghost predicate WorkerCan(s: System, k: Worker, a: Action) {
    && !a.Register?
    && match a
       case Produce(_) => true
       case Poll => k.phase.Polling? && k.position < |k.log|
       case Try(_) => k.phase.Handling? && k.phase.offset < |k.log| && k.log[k.phase.offset].Ended?
       case CommitOffset(_, _) => k.phase.Committing?
       case _ => true
  }

  ghost function Next(P: real -> real, s: System, w: nat, a: Action): System
    requires Elo.PowerLaw(P) && Enabled(s, w, a)
  {
    if a.Register? then Registered(s, a.id) else WorkerNext(P, s, w, a)
  }

  ghost function WorkerNext(P: real -> real, s: System, w: nat, a: Action): System
    requires Elo.PowerLaw(P) && w < |s.workers| && WorkerCan(s, s.workers[w], a)
  {
    var k := s.workers[w];
    match a
    case Produce(msg) => s.(workers := s.workers[w := k.(log := k.log + [msg])])
    case Poll =>
      var phase := if k.log[k.position].Ended? then Handling(k.position, 0) else Committing(k.position);
      s.(workers := s.workers[w := k.(position := k.position + 1, phase := phase)])
    case Try(attempt) =>
      var at := k.phase.offset;
      var e := k.log[at].event;
      var t := Transact(s, e, TablesAfter(P, s.tables, e), Commits(attempt));
      if attempt == Succeeds then t.(workers := s.workers[w := k.(phase := Committing(at))])
      else
        var f := t.(failedAttempts := s.failedAttempts + multiset{(w, at)});
        if k.phase.failures + 1 < MAX_UPDATE_ATTEMPTS then
          f.(workers := s.workers[w := k.(phase := Handling(at, k.phase.failures + 1))])
        else
          f.(workers := s.workers[w := k.(phase := Committing(at))], dropped := s.dropped + {(w, at)})
    case CommitOffset(tookEffect, acknowledged) =>
      // An unacknowledged commit raises, which ends the consumer thread.
      var k' := if tookEffect || acknowledged then k.(committed := k.phase.offset + 1) else k;
      var k'' := if acknowledged then k' else k'.(position := k'.committed);
      s.(workers := s.workers[w := k''.(phase := Polling)])
    case Restart =>
      s.(workers := s.workers[w := k.(position := k.committed, phase := Polling)])
  }

  ghost predicate Run(P: real -> real, trace: seq<System>)
    requires Elo.PowerLaw(P)
  {
    && trace != [] && Init(trace[0])
    && forall i | 0 <= i < |trace| - 1 :: Step(P, trace[i], trace[i + 1])
  }

  ghost predicate Step(P: real -> real, s: System, s': System)
    requires Elo.PowerLaw(P)
  {
    exists w: nat, a: Action :: Enabled(s, w, a) && s' == Next(P, s, w, a)
  }

  // ------------------------------------------------------------- reference effect

  function KeysOf(effects: seq<Effect>): set<MatchKey> {
    set i | 0 <= i < |effects| && effects[i].Result? :: effects[i].event.Key()
  }

  /** Every registration, and of each match the first result, unless it was already
      processed before the run. */
  function FirstPerMatch(effects: seq<Effect>, before: set<MatchKey>): seq<Effect> {
    if effects == [] then []
    else
      var init, e := effects[..|effects| - 1], effects[|effects| - 1];
      FirstPerMatch(init, before) + if Repeats(e, before + KeysOf(init)) then [] else [e]
  }

  predicate Repeats(e: Effect, seen: set<MatchKey>) {
    e.Result? && e.event.Key() in seen
  }

  /** One effect, with no check for duplicates at all. */
  ghost function Affected(P: real -> real, table: map<PlayerId, Row>, e: Effect): map<PlayerId, Row>
    requires Elo.PowerLaw(P)
  {
    if e.Result? then PlayersAfter(P, table, e.event) else table[e.id := NEW_PLAYER]
  }

  /** Each effect applied exactly once, in order. */
  ghost function ApplyEach(P: real -> real, table: map<PlayerId, Row>, effects: seq<Effect>): map<PlayerId, Row>
    requires Elo.PowerLaw(P)
  {
    if effects == [] then table
    else Affected(P, ApplyEach(P, table, effects[..|effects| - 1]), effects[|effects| - 1])
  }

  /** Nothing more is owed for this message: processed, irrelevant, or given up. */
  ghost predicate Settled(s: System, w: nat, offset: nat)
    requires w < |s.workers| && offset < |s.workers[w].log|
  {
    var msg := s.workers[w].log[offset];
    msg.Ended? ==> msg.event.Key() in s.tables.processed || (w, offset) in s.dropped
  }

  ghost predicate CommittedIsSettled(s: System, w: nat)
    requires w < |s.workers|
  {
    && s.workers[w].committed <= |s.workers[w].log|
    && forall o: nat | o < s.workers[w].committed :: Settled(s, w, o)
  }

  // -------------------------------------------------------------------- invariant

  ghost predicate WorkerInv(s: System, w: nat)
    requires w < |s.workers|
  {
    var k := s.workers[w];
    && k.committed <= k.position <= |k.log|
    && (k.phase.Handling? ==>
          && k.phase.offset + 1 == k.position && k.phase.offset >= k.committed
          && k.log[k.phase.offset].Ended?
          && k.phase.failures < MAX_UPDATE_ATTEMPTS
          && k.phase.failures <= s.failedAttempts[(w, k.phase.offset)])
    && (k.phase.Committing? ==> k.phase.offset + 1 == k.position && k.phase.offset >= k.committed)
    && forall o: nat | o < SettledUpTo(k) :: Settled(s, w, o)
  }

  ghost predicate WorkersInv(s: System) {
    forall w: nat | w < |s.workers| :: WorkerInv(s, w)
  }

  ghost predicate LoggedEvent(s: System, e: MatchEnd) {
    exists w: nat, o: nat :: w < |s.workers| && o < |s.workers[w].log| && s.workers[w].log[o] == Ended(e)
  }

  ghost predicate IsReference(P: real -> real, initial: Tables, players: map<PlayerId, Row>, effects: seq<Effect>)
    requires Elo.PowerLaw(P)
  {
    players == ApplyEach(P, initial.players, FirstPerMatch(effects, initial.processed))
  }

  /** The tables are the reference effect of the transactions that took place. */
  ghost predicate TablesInv(P: real -> real, initial: Tables, s: System)
    requires Elo.PowerLaw(P)
  {
    && IsReference(P, initial, s.tables.players, s.transactions)
    && s.tables.processed == initial.processed + KeysOf(s.transactions)
    && RegisteredOnce(initial.players.Keys, s.tables.players.Keys, s.transactions)
  }

  /** Who has a row had one at the start or registered since, and nobody registers twice. */
  ghost predicate RegisteredOnce(before: set<PlayerId>, now: set<PlayerId>, effects: seq<Effect>) {
    && (forall p :: p in now <==> p in before || Registration(p) in effects)
    && (forall i :: 0 <= i < |effects| && effects[i].Registration? ==>
          effects[i].id !in before && Registration(effects[i].id) !in effects[..i])
  }

  ghost predicate HistoryInv(s: System) {
    && (forall e <- s.transactions :: e.Result? ==> LoggedEvent(s, e.event))
    && (forall d <- s.dropped :: s.failedAttempts[d] >= MAX_UPDATE_ATTEMPTS)
  }

  ghost predicate Inv(P: real -> real, initial: Tables, s: System)
    requires Elo.PowerLaw(P)
  {
    TablesInv(P, initial, s) && HistoryInv(s) && WorkersInv(s)
  }

  lemma KeysOfSnoc(effects: seq<Effect>, e: Effect)
    ensures KeysOf(effects + [e]) == KeysOf(effects) + if e.Result? then {e.event.Key()} else {}
  {
    var all := effects + [e];
    assert all[|effects|] == e && forall i | 0 <= i < |effects| :: all[i] == effects[i];
    forall k | k in KeysOf(effects) ensures k in KeysOf(all) {
      var i :| 0 <= i < |effects| && effects[i].Result? && effects[i].event.Key() == k;
      assert all[i].event.Key() == k;
    }
  }

  lemma FirstPerMatchSnoc(effects: seq<Effect>, e: Effect, before: set<MatchKey>)
    ensures FirstPerMatch(effects + [e], before)
            == FirstPerMatch(effects, before) + if Repeats(e, before + KeysOf(effects)) then [] else [e]
  {
    assert (effects + [e])[..|effects|] == effects;
  }

  lemma ApplyEachSnoc(P: real -> real, table: map<PlayerId, Row>, effects: seq<Effect>, e: Effect)
    requires Elo.PowerLaw(P)
    ensures ApplyEach(P, table, effects + [e]) == Affected(P, ApplyEach(P, table, effects), e)
  {
    assert (effects + [e])[..|effects|] == effects;
  }

  /** One more effect keeps the table equal to its reference. */
  lemma EffectKeepsReference(P: real -> real, initial: Tables, players: map<PlayerId, Row>, ts: seq<Effect>, e: Effect)
    requires Elo.PowerLaw(P) && IsReference(P, initial, players, ts)
    ensures IsReference(P, initial, if Repeats(e, initial.processed + KeysOf(ts)) then players else Affected(P, players, e),
                        ts + [e])
  {
    var firsts := FirstPerMatch(ts, initial.processed);
    FirstPerMatchSnoc(ts, e, initial.processed);
    if Repeats(e, initial.processed + KeysOf(ts)) {
      assert firsts + [] == firsts;
    } else {
      ApplyEachSnoc(P, initial.players, firsts, e);
    }
  }

  lemma RegisteredOnceSnoc(before: set<PlayerId>, now: set<PlayerId>, effects: seq<Effect>, e: Effect)
    requires RegisteredOnce(before, now, effects) && (e.Registration? ==> e.id !in now)
    ensures RegisteredOnce(before, now + if e.Registration? then {e.id} else {}, effects + [e])
  {
    var all := effects + [e];
    forall i | 0 <= i < |all| && all[i].Registration?
      ensures all[i].id !in before && Registration(all[i].id) !in all[..i]
    {
      assert all[..i] == if i < |effects| then effects[..i] else effects;
    }
    forall p ensures Registration(p) in all <==> Registration(p) in effects || e == Registration(p) {
      assert all[|effects|] == e;
    }
  }

  /** One more effect keeps all of the tables equal to their reference. */
  lemma EffectKeepsTables(P: real -> real, initial: Tables, s: System, e: Effect, s': System)
    requires Elo.PowerLaw(P) && TablesInv(P, initial, s) && s'.transactions == s.transactions + [e]
    requires s'.tables.players == if Repeats(e, s.tables.processed) then s.tables.players else Affected(P, s.tables.players, e)
    requires s'.tables.players.Keys == s.tables.players.Keys + if e.Registration? then {e.id} else {}
    requires s'.tables.processed == s.tables.processed + if e.Result? then {e.event.Key()} else {}
    requires e.Registration? ==> e.id !in s.tables.players
    ensures TablesInv(P, initial, s')
  {
    KeysOfSnoc(s.transactions, e);
    EffectKeepsReference(P, initial, s.tables.players, s.transactions, e);
    RegisteredOnceSnoc(initial.players.Keys, s.tables.players.Keys, s.transactions, e);
  }

  lemma TransactionKeepsTables(P: real -> real, initial: Tables, s: System, e: MatchEnd)
    requires Elo.PowerLaw(P) && TablesInv(P, initial, s)
    ensures TablesInv(P, initial, Transact(s, e, TablesAfter(P, s.tables, e), true))
  {
    var s' := Transact(s, e, TablesAfter(P, s.tables, e), true);
    assert s'.tables.players.Keys == s.tables.players.Keys + {};
    EffectKeepsTables(P, initial, s, Result(e), s');
  }

  lemma RegisteringAddsKey(s: System, id: PlayerId)
    requires id !in s.tables.players
    ensures Registered(s, id).tables.players.Keys == s.tables.players.Keys + {id}
  {
  }

  lemma RegisteringKeepsTables(P: real -> real, initial: Tables, s: System, id: PlayerId)
    requires Elo.PowerLaw(P) && TablesInv(P, initial, s)
    ensures TablesInv(P, initial, Registered(s, id))
  {
    if id !in s.tables.players {
      RegisteringAddsKey(s, id);
      EffectKeepsTables(P, initial, s, Registration(id), Registered(s, id));
    }
  }

  lemma LoggedStays(s: System, s': System, e: MatchEnd)
    requires LoggedEvent(s, e) && |s'.workers| == |s.workers|
    requires forall w: nat | w < |s.workers| :: s.workers[w].log <= s'.workers[w].log
    ensures LoggedEvent(s', e)
  {
  }

  lemma StepKeepsTables(P: real -> real, initial: Tables, s: System, w: nat, a: Action)
    requires Elo.PowerLaw(P) && TablesInv(P, initial, s) && Enabled(s, w, a)
    ensures TablesInv(P, initial, Next(P, s, w, a))
    ensures s.tables.processed <= Next(P, s, w, a).tables.processed
  {
    var s' := Next(P, s, w, a);
    if a.Register? {
      RegisteringKeepsTables(P, initial, s, a.id);
    } else if a.Try? && Commits(a.attempt) {
      var e := s.workers[w].log[s.workers[w].phase.offset].event;
      TransactionKeepsTables(P, initial, s, e);
      assert s'.tables == TablesAfter(P, s.tables, e) && s'.transactions == s.transactions + [Result(e)];
    } else {
      assert s'.tables == s.tables && s'.transactions == s.transactions;
    }
  }

  lemma StepKeepsLogs(P: real -> real, s: System, w: nat, a: Action)
    requires Elo.PowerLaw(P) && Enabled(s, w, a)
    ensures var s' := Next(P, s, w, a);
      && |s'.workers| == |s.workers|
      && (forall v: nat | v < |s.workers| && (v != w || a.Register?) :: s'.workers[v] == s.workers[v])
      && (forall v: nat | v < |s.workers| :: s.workers[v].log <= s'.workers[v].log)
  {
  }

  lemma StepKeepsHistory(P: real -> real, s: System, w: nat, a: Action)
    requires Elo.PowerLaw(P) && HistoryInv(s) && Enabled(s, w, a)
    requires w < |s.workers| ==> WorkerInv(s, w)
    ensures HistoryInv(Next(P, s, w, a))
  {
    var s' := Next(P, s, w, a);
    StepKeepsLogs(P, s, w, a);
    forall e <- s'.transactions ensures e.Result? ==> LoggedEvent(s', e.event) {
      if e.Result? {
        if e in s.transactions {
          LoggedStays(s, s', e.event);
        } else {
          assert s'.workers[w].log[s.workers[w].phase.offset] == Ended(e.event);
        }
      }
    }
  }

  /** Nothing settled becomes unsettled, and no count of failed attempts goes down. */
  ghost predicate Onward(s: System, s': System) {
    && |s'.workers| == |s.workers| && s.tables.processed <= s'.tables.processed
    && s.dropped <= s'.dropped && s.failedAttempts <= s'.failedAttempts
    && forall w: nat | w < |s.workers| :: s.workers[w].log <= s'.workers[w].log
  }

  lemma StepGoesOnward(P: real -> real, s: System, w: nat, a: Action)
    requires Elo.PowerLaw(P) && Enabled(s, w, a)
    requires s.tables.processed <= Next(P, s, w, a).tables.processed
    ensures Onward(s, Next(P, s, w, a))
    ensures forall v: nat | v < |s.workers| && (v != w || a.Register?) :: Next(P, s, w, a).workers[v] == s.workers[v]
  {
    StepKeepsLogs(P, s, w, a);
  }

  lemma SettledStays(s: System, s': System, w: nat, offset: nat)
    requires Onward(s, s') && w < |s.workers| && offset < |s.workers[w].log| && Settled(s, w, offset)
    ensures Settled(s', w, offset)
  {
  }

  function SettledUpTo(k: Worker): nat {
    if k.phase.Handling? then k.phase.offset else k.position
  }

  /** A worker that others have not touched, or that only got another message. */
  lemma WaitingWorkerKeeps(s: System, s': System, v: nat)
    requires Onward(s, s') && v < |s.workers| && WorkerInv(s, v)
    requires s'.workers[v] == s.workers[v].(log := s'.workers[v].log)
    ensures WorkerInv(s', v)
  {
    forall o: nat | o < SettledUpTo(s'.workers[v]) ensures Settled(s', v, o) {
      SettledStays(s, s', v, o);
    }
  }

  /** The acting worker's message is settled before its offset can be committed. */
  lemma ActingWorkerKeeps(P: real -> real, s: System, w: nat, a: Action)
    requires Elo.PowerLaw(P) && w < |s.workers| && WorkerCan(s, s.workers[w], a) && !a.Produce?
    requires WorkerInv(s, w) && Onward(s, Next(P, s, w, a))
    ensures WorkerInv(Next(P, s, w, a), w)
  {
    var s' := Next(P, s, w, a);
    forall o: nat | o < SettledUpTo(s'.workers[w]) ensures Settled(s', w, o) {
      if o < SettledUpTo(s.workers[w]) {
        SettledStays(s, s', w, o);
      }
    }
  }

  lemma StepKeepsWorker(P: real -> real, s: System, w: nat, a: Action, v: nat)
    requires Elo.PowerLaw(P) && Enabled(s, w, a) && v < |s.workers| && WorkerInv(s, v)
    requires s.tables.processed <= Next(P, s, w, a).tables.processed
    ensures v < |Next(P, s, w, a).workers| && WorkerInv(Next(P, s, w, a), v)
  {
    StepGoesOnward(P, s, w, a);
    if v != w || a.Register? || a.Produce? {
      WaitingWorkerKeeps(s, Next(P, s, w, a), v);
    } else {
      ActingWorkerKeeps(P, s, w, a);
    }
  }

  lemma StepKeepsWorkers(P: real -> real, s: System, w: nat, a: Action)
    requires Elo.PowerLaw(P) && Enabled(s, w, a) && WorkersInv(s)
    requires s.tables.processed <= Next(P, s, w, a).tables.processed
    ensures WorkersInv(Next(P, s, w, a))
  {
    StepKeepsLogs(P, s, w, a);
    forall v: nat | v < |s.workers| ensures WorkerInv(Next(P, s, w, a), v) {
      StepKeepsWorker(P, s, w, a, v);
    }
  }

  lemma StepKeepsInv(P: real -> real, initial: Tables, s: System, w: nat, a: Action)
    requires Elo.PowerLaw(P) && Inv(P, initial, s) && Enabled(s, w, a)
    ensures Inv(P, initial, Next(P, s, w, a))
  {
    StepKeepsTables(P, initial, s, w, a);
    StepKeepsHistory(P, s, w, a);
    StepKeepsWorkers(P, s, w, a);
  }

  lemma {:induction false} RunKeepsInv(P: real -> real, trace: seq<System>, i: nat)
    requires Elo.PowerLaw(P) && Run(P, trace) && i < |trace|
    ensures Inv(P, trace[0].tables, trace[i])
  {
    if i > 0 {
      RunKeepsInv(P, trace, i - 1);
      assert Step(P, trace[i - 1], trace[i - 1 + 1]);
      var w: nat, a: Action :| Enabled(trace[i - 1], w, a) && trace[i] == Next(P, trace[i - 1], w, a);
      StepKeepsInv(P, trace[0].tables, trace[i - 1], w, a);
    }
  }

  // ------------------------------------------------------------------ main results

  /** In every run, with crashes, redelivery, failed or ambiguous transactions and players
      registering at any moment: ratings and statistics are those of one application per
      match, after the registrations that preceded it; and a committed
      offset never passes a match.end that is neither processed nor dropped after
      five failed attempts. */
  lemma ExactlyOnceEffect(P: real -> real, trace: seq<System>, i: nat)
    requires Elo.PowerLaw(P) && Run(P, trace) && i < |trace|
    ensures var initial, s := trace[0].tables, trace[i];
            && s.tables.players == ApplyEach(P, initial.players, FirstPerMatch(s.transactions, initial.processed))
            && s.tables.processed == initial.processed + KeysOf(s.transactions)
            && RegisteredOnce(initial.players.Keys, s.tables.players.Keys, s.transactions)
            && (forall e <- s.transactions :: e.Result? ==> LoggedEvent(s, e.event))
            && (forall w: nat | w < |s.workers| :: CommittedIsSettled(s, w))
            && (forall d <- s.dropped :: s.failedAttempts[d] >= 5)
  {
    RunKeepsInv(P, trace, i);
    var s := trace[i];
    forall w: nat | w < |s.workers| ensures CommittedIsSettled(s, w) {
      assert WorkerInv(s, w);
    }
  }

  /** Results listing `p`, since its registration if it registered. */
  function Count(effects: seq<Effect>, p: PlayerId): nat {
    if effects == [] then 0
    else
      var before, e := Count(effects[..|effects| - 1], p), effects[|effects| - 1];
      if e == Registration(p) then 0
      else if e.Result? && p in e.event.players then before + 1
      else before
  }

  /** The row that `p` started with. */
  function FirstRow(table: map<PlayerId, Row>, effects: seq<Effect>, p: PlayerId): Row
    requires p in table || Registration(p) in effects
  {
    if Registration(p) in effects then NEW_PLAYER else table[p]
  }

  ghost predicate Grown(first: Row, row: Row, matches: nat) {
    && row.totalMatches == first.totalMatches + matches
    && row.wins + row.losses - row.totalMatches == first.wins + first.losses - first.totalMatches
  }

  lemma EffectGrows(P: real -> real, table: map<PlayerId, Row>, e: Effect, p: PlayerId)
    requires Elo.PowerLaw(P) && p in table && e != Registration(p)
    ensures p in Affected(P, table, e)
    ensures Grown(table[p], Affected(P, table, e)[p], if e.Result? && p in e.event.players then 1 else 0)
  {
    if e.Result? {
      MatchCountsOncePerPlayer(P, table, e.event, p);
    }
  }

  lemma {:induction false} ApplyEachCounts(P: real -> real, table: map<PlayerId, Row>, effects: seq<Effect>, p: PlayerId)
    requires Elo.PowerLaw(P) && (p in table || Registration(p) in effects)
    ensures p in ApplyEach(P, table, effects)
    ensures Grown(FirstRow(table, effects, p), ApplyEach(P, table, effects)[p], Count(effects, p))
  {
    if effects != [] {
      var init, e := effects[..|effects| - 1], effects[|effects| - 1];
      assert effects == init + [e];
      if e != Registration(p) {
        ApplyEachCounts(P, table, init, p);
        EffectGrows(P, ApplyEach(P, table, init), e, p);
      }
    }
  }

  lemma {:induction false} FirstPerMatchRegisters(effects: seq<Effect>, before: set<MatchKey>, p: PlayerId)
    ensures Registration(p) in FirstPerMatch(effects, before) <==> Registration(p) in effects
  {
    if effects != [] {
      var init, e := effects[..|effects| - 1], effects[|effects| - 1];
      FirstPerMatchRegisters(init, before, p);
      assert effects == init + [e];
      FirstPerMatchSnoc(init, e, before);
    }
  }

  /** In every run the totals of every player with a row are those of its first row plus one
      for each distinct match listing the player since then: the first row is the one at the
      start of the run, or that of a new player for whoever registered during the run. */
  lemma TotalsCountDistinctMatches(P: real -> real, trace: seq<System>, i: nat, p: PlayerId)
    requires Elo.PowerLaw(P) && Run(P, trace) && i < |trace|
    ensures p in trace[i].tables.players <==>
              p in trace[0].tables.players || Registration(p) in trace[i].transactions
    ensures p in trace[0].tables.players ==> Registration(p) !in trace[i].transactions
    ensures p in trace[i].tables.players ==>
      var first := if p in trace[0].tables.players then trace[0].tables.players[p] else Row(1200, 0, 0, 0, 0.0);
      var row := trace[i].tables.players[p];
      && row.totalMatches
         == first.totalMatches + Count(FirstPerMatch(trace[i].transactions, trace[0].tables.processed), p)
      && (first.wins + first.losses == first.totalMatches ==> row.wins + row.losses == row.totalMatches)
  {
    RunKeepsInv(P, trace, i);
    FirstPerMatchRegisters(trace[i].transactions, trace[0].tables.processed, p);
    if p in trace[i].tables.players {
      ApplyEachCounts(P, trace[0].tables.players,
                      FirstPerMatch(trace[i].transactions, trace[0].tables.processed), p);
    }
  }

  /** When every log is fully committed and nothing was dropped, exactly the logged
      matches have been processed: none lost, none invented. */
  lemma QuiescentRunProcessedEverything(P: real -> real, trace: seq<System>, i: nat, key: MatchKey)
    requires Elo.PowerLaw(P) && Run(P, trace) && i < |trace|
    requires trace[i].dropped == {}
    requires forall w: nat | w < |trace[i].workers| :: trace[i].workers[w].committed == |trace[i].workers[w].log|
    ensures key in trace[i].tables.processed <==>
              key in trace[0].tables.processed || exists e: MatchEnd :: e.Key() == key && LoggedEvent(trace[i], e)
  {
    RunKeepsInv(P, trace, i);
    var s := trace[i];
    forall e | LoggedEvent(s, e) ensures e.Key() in s.tables.processed {
      var w: nat, o: nat :| w < |s.workers| && o < |s.workers[w].log| && s.workers[w].log[o] == Ended(e);
      assert WorkerInv(s, w);
      assert Settled(s, w, o);
    }
    if key in KeysOf(s.transactions) {
      var j :| 0 <= j < |s.transactions| && s.transactions[j].Result? && s.transactions[j].event.Key() == key;
      assert s.transactions[j] in s.transactions;
    }
  }

  // ------------------------------------------------------------------- progress

  function Last(trace: seq<System>): System
    requires trace != []
  {
    trace[|trace| - 1]
  }

  ghost predicate Continues(P: real -> real, trace: seq<System>, longer: seq<System>)
    requires Elo.PowerLaw(P)
  {
    trace <= longer && Run(P, longer)
  }

  /** Every log as it was, and no message dropped. */
  ghost predicate SameLogs(s: System, s': System) {
    && |s'.workers| == |s.workers| && s'.dropped == s.dropped
    && forall v :: 0 <= v < |s.workers| ==> s'.workers[v].log == s.workers[v].log
  }

  ghost predicate OnlyWorker(s: System, s': System, w: nat) {
    SameLogs(s, s') && forall v :: 0 <= v < |s.workers| && v != w ==> s'.workers[v] == s.workers[v]
  }

  ghost predicate UpToDate(k: Worker) {
    k.phase.Polling? && k.position == k.committed <= |k.log|
  }

  lemma OneMoreStep(P: real -> real, trace: seq<System>, w: nat, a: Action) returns (longer: seq<System>)
    requires Elo.PowerLaw(P) && Run(P, trace) && Enabled(Last(trace), w, a)
    ensures Continues(P, trace, longer) && Last(longer) == Next(P, Last(trace), w, a)
  {
    var s' := Next(P, Last(trace), w, a);
    longer := trace + [s'];
    assert Step(P, Last(trace), s');
    forall i | 0 <= i < |longer| - 1 ensures Step(P, longer[i], longer[i + 1]) {
      if i < |trace| - 1 {
        assert Step(P, trace[i], trace[i + 1]);
      }
    }
  }

  /** The next message of a worker's log: read, its transaction made if it is a match.end,
      its offset committed. */
  lemma NextMessage(P: real -> real, trace: seq<System>, w: nat) returns (longer: seq<System>)
    requires Elo.PowerLaw(P) && Run(P, trace) && w < |Last(trace).workers|
    requires var k := Last(trace).workers[w]; UpToDate(k) && k.committed < |k.log|
    ensures Continues(P, trace, longer) && OnlyWorker(Last(trace), Last(longer), w)
    ensures var k := Last(longer).workers[w]; UpToDate(k) && k.committed == Last(trace).workers[w].committed + 1
  {
    var k := Last(trace).workers[w];
    longer := OneMoreStep(P, trace, w, Poll);
    if k.log[k.position].Ended? {
      longer := OneMoreStep(P, longer, w, Try(Succeeds));
    }
    longer := OneMoreStep(P, longer, w, CommitOffset(true, true));
  }

  lemma {:induction false} WorkOff(P: real -> real, trace: seq<System>, w: nat) returns (longer: seq<System>)
    requires Elo.PowerLaw(P) && Run(P, trace) && w < |Last(trace).workers| && UpToDate(Last(trace).workers[w])
    ensures Continues(P, trace, longer) && OnlyWorker(Last(trace), Last(longer), w)
    ensures var k := Last(longer).workers[w]; k.committed == |k.log|
    decreases |Last(trace).workers[w].log| - Last(trace).workers[w].committed
  {
    var k := Last(trace).workers[w];
    if k.committed == |k.log| {
      longer := trace;
    } else {
      longer := NextMessage(P, trace, w);
      longer := WorkOff(P, longer, w);
    }
  }

  /** A worker that restarts can work off its log. */
  lemma RestartAndWorkOff(P: real -> real, trace: seq<System>, w: nat) returns (longer: seq<System>)
    requires Elo.PowerLaw(P) && Run(P, trace) && w < |Last(trace).workers|
    ensures Continues(P, trace, longer) && OnlyWorker(Last(trace), Last(longer), w)
    ensures var k := Last(longer).workers[w]; k.committed == |k.log|
  {
    RunKeepsInv(P, trace, |trace| - 1);
    assert WorkerInv(Last(trace), w);
    longer := OneMoreStep(P, trace, w, Restart);
    longer := WorkOff(P, longer, w);
  }

  lemma {:induction false} WorkersWorkOff(P: real -> real, trace: seq<System>, n: nat) returns (longer: seq<System>)
    requires Elo.PowerLaw(P) && Run(P, trace) && n <= |Last(trace).workers|
    ensures Continues(P, trace, longer) && SameLogs(Last(trace), Last(longer))
    ensures forall w: nat | w < n :: Last(longer).workers[w].committed == |Last(longer).workers[w].log|
  {
    if n == 0 {
      longer := trace;
    } else {
      longer := WorkersWorkOff(P, trace, n - 1);
      longer := RestartAndWorkOff(P, longer, n - 1);
    }
  }

  /** Whatever has happened, the workers can still commit all of their logs and drop
      nothing more; every match logged by then and not dropped before is then processed. */
  lemma EveryRunCanFinish(P: real -> real, trace: seq<System>) returns (longer: seq<System>)
    requires Elo.PowerLaw(P) && Run(P, trace)
    ensures Continues(P, trace, longer) && SameLogs(Last(trace), Last(longer))
    ensures forall w: nat | w < |Last(trace).workers| ::
      Last(longer).workers[w].committed == |Last(trace).workers[w].log| && CommittedIsSettled(Last(longer), w)
  {
    longer := WorkersWorkOff(P, trace, |Last(trace).workers|);
    RunKeepsInv(P, longer, |longer| - 1);
    forall w: nat | w < |Last(trace).workers| ensures CommittedIsSettled(Last(longer), w) {
      assert WorkerInv(Last(longer), w);
    }
  }
}
