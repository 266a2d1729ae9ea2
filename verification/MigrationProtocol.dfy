/** Many API instances running `Apply` against one database.
    Each runner is the client side of one call; its session is the server side of its connection.
    A step moves one runner or one session, so every interleaving, crash, server-side rollback and lost reply is a run. */
module MigrationProtocol {
  import opened Basics

  const LATEST: nat := 57

  /** The versions 1..k in order. */
  function UpTo(k: nat): (s: seq<nat>)
    ensures |s| == k
    ensures forall i :: 0 <= i < k ==> s[i] == i + 1
  {
    if k == 0 then [] else UpTo(k - 1) + [k]
  }

  function Max(s: seq<nat>): nat {
    if s == [] then 0 else
      var m := Max(s[..|s| - 1]);
      if s[|s| - 1] > m then s[|s| - 1] else m
  }

  lemma {:induction false} MaxUpTo(k: nat)
    ensures Max(UpTo(k)) == k
  {
    if k > 0 {
      assert UpTo(k)[..k - 1] == UpTo(k - 1);
      MaxUpTo(k - 1);
    }
  }

  // ----- server side -----

  /** What an open transaction would add: the migrations it has executed and the ledger rows it has inserted. */
  datatype Transaction = Transaction(ran: seq<nat>, rows: seq<nat>)

  /** The server's half of one connection. `committing`: a COMMIT has arrived and is not yet decided.
      `reply`: the answer to that COMMIT, not yet read by the client. */
  datatype Session = Session(tx: Option<Transaction>, committing: bool, reply: Option<bool>)

  /** `schema` is the list of migrations whose effects the schema carries, in the order they took effect. */
  datatype Database = Database(ledgerExists: bool, ledger: seq<nat>, schema: seq<nat>, lock: Option<nat>)

  // ----- client side -----

  /** The operation a runner performs next. */
  datatype Pc =
    | Connect | TakeLock | CreateLedger | ReadCurrent | LoadFiles
    | Loop(next: nat) | Execute(next: nat) | Record(next: nat) | Commit(next: nat) | AwaitCommit(next: nat)
    | RollBack | CheckLatest | Repair
    | Unlock(ok: bool) | Release(ok: bool) | Returned(ok: bool) | Crashed

  datatype Runner = Runner(pc: Pc, current: nat, session: Option<Session>)

  datatype System = System(db: Database, runners: seq<Runner>)

  /** Succeed: the operation works and its reply arrives. Refuse: it has no effect and reports an error.
      LoseReply: it takes effect, but the runner sees an error. Die: the process stops.
      CommitLands / CommitAborts: the server decides a pending COMMIT. EndSession: the server drops the connection. */
  datatype Action = Succeed | Refuse | LoseReply | Die | CommitLands | CommitAborts | EndSession

  datatype Event = Event(runner: nat, action: Action)

  const OPEN := Session(None, false, None)

  function Free(db: Database, i: nat): Database {
    if db.lock == Some(i) then db.(lock := None) else db
  }

  /** Where the runner goes when its pending operation reports an error. */
  function AfterError(r: Runner): Option<Runner> {
    match r.pc
    case Connect => Some(r.(pc := Returned(false)))
    case TakeLock => Some(r.(pc := Release(false)))
    case Execute(_) => Some(r.(pc := RollBack))
    case Record(_) => Some(r.(pc := RollBack))
    case Unlock(ok) => Some(r.(pc := Release(ok)))
    case Release(ok) => Some(r.(pc := Returned(ok)))
    case Returned(_) => None
    case Crashed => None
    case CheckLatest => None
    case _ => Some(r.(pc := Unlock(false)))
  }

  /** The effect of the pending operation when the server carries it out; None when it cannot happen now. */
  function Perform(db: Database, r: Runner, i: nat): Option<(Database, Runner)> {
    match r.pc
    case Connect => Some((db, r.(pc := TakeLock, session := Some(OPEN))))
    case LoadFiles => Some((db, r.(pc := Loop(0))))
    case Loop(n) =>
      if n >= LATEST then Some((db, r.(pc := CheckLatest)))
      else if n + 1 <= r.current then Some((db, r.(pc := Loop(n + 1))))
      else if r.session.None? then None
      else Some((db, r.(pc := Execute(n), session := Some(OPEN.(tx := Some(Transaction([], [])))))))
    case CheckLatest => Some((db, r.(pc := if r.current == LATEST then Repair else Unlock(false))))
    case Repair => Some((db, r.(pc := Unlock(true))))
    case Release(ok) => Some((db, r.(pc := Returned(ok))))
    case Returned(_) => None
    case Crashed => None
    case _ => if r.session.None? then None else PerformOnSession(db, r, i)
  }

  function PerformOnSession(db: Database, r: Runner, i: nat): Option<(Database, Runner)>
    requires r.session.Some?
  {
    var session := r.session.value;
    match r.pc
    case TakeLock => if db.lock != None then None else Some((db.(lock := Some(i)), r.(pc := CreateLedger)))
    case CreateLedger => Some((db.(ledgerExists := true), r.(pc := ReadCurrent)))
    case ReadCurrent =>
      if !db.ledgerExists then None else Some((db, r.(pc := LoadFiles, current := Max(db.ledger))))
    case Execute(n) =>
      if session.tx.None? then None else
      var tx := session.tx.value;
      Some((db, r.(pc := Record(n), session := Some(session.(tx := Some(tx.(ran := tx.ran + [n + 1])))))))
    case Record(n) =>
      if session.tx.None? || n + 1 in db.ledger then None else
      var tx := session.tx.value;
      Some((db, r.(pc := Commit(n), session := Some(session.(tx := Some(tx.(rows := tx.rows + [n + 1])))))))
    case Commit(n) => Some((db, r.(pc := AwaitCommit(n), session := Some(session.(committing := true)))))
    case AwaitCommit(n) =>
      if session.reply.None? then None
      else if session.reply.value then Some((db, r.(pc := Loop(n + 1), current := n + 1, session := Some(OPEN))))
      else Some((db, r.(pc := Unlock(false), session := Some(OPEN))))
    case RollBack => Some((db, r.(pc := Unlock(false), session := Some(OPEN))))
    case Unlock(ok) => if session.committing then None else Some((Free(db, i), r.(pc := Release(ok))))
    case _ => None
  }

  /** The server decides a pending COMMIT, whether or not the client is still there to hear of it. */
  function Decide(db: Database, r: Runner, lands: bool): Option<(Database, Runner)> {
    if r.session.None? || !r.session.value.committing || r.session.value.tx.None? then None else
    var tx := r.session.value.tx.value;
    Some((if lands then db.(schema := db.schema + tx.ran, ledger := db.ledger + tx.rows) else db,
          r.(session := Some(Session(None, false, Some(lands))))))
  }

  function Act(db: Database, r: Runner, i: nat, action: Action): Option<(Database, Runner)> {
    match action
    case Succeed => Perform(db, r, i)
    case Refuse => (match AfterError(r) case None => None case Some(r') => Some((db, r')))
    case LoseReply =>
      (match Perform(db, r, i)
       case None => None
       case Some((db', r')) =>
         if r.pc.AwaitCommit? || r.pc.Repair? then None else
         match AfterError(r)
         case None => None
         case Some(failed) => Some((db', failed.(session := r'.session))))
    case Die => if r.pc.Returned? || r.pc.Crashed? then None else Some((db, r.(pc := Crashed)))
    case CommitLands => Decide(db, r, true)
    case CommitAborts => Decide(db, r, false)
    case EndSession => if r.session.None? then None else Some((Free(db, i), r.(session := None)))
  }

  function Step(s: System, e: Event): Option<System> {
    if e.runner >= |s.runners| then None else
    match Act(s.db, s.runners[e.runner], e.runner, e.action)
    case None => None
    case Some((db, r)) => Some(System(db, s.runners[e.runner := r]))
  }

  /** A run: events that cannot happen are skipped, so every list of events is a run. */
  function Run(s: System, events: seq<Event>): (t: System)
    decreases |events|
  {
    if events == [] then s else
    match Step(s, events[0])
    case None => Run(s, events[1..])
    case Some(t) => Run(t, events[1..])
  }

  /** Any number of runners about to call `Apply` on a database whose ledger and schema stand at version k. */
  ghost predicate Initial(s: System, k: nat) {
    && s.db.ledger == UpTo(k) && s.db.schema == UpTo(k) && s.db.lock == None
    && (!s.db.ledgerExists ==> k == 0)
    && forall i :: 0 <= i < |s.runners| ==> s.runners[i].pc == Connect && s.runners[i].session == None
  }

  /** `count` instances starting up against a database at version k. */
  function StartingUp(k: nat, count: nat): System {
    System(Database(k > 0, UpTo(k), UpTo(k), None), seq(count, i => Runner(Connect, 0, None)))
  }

  /** Runs begin from any version and with any number of runners. */
  lemma StartsAnywhere(k: nat, count: nat)
    ensures Initial(StartingUp(k, count), k) && |StartingUp(k, count).runners| == count
  {
  }

  /** Where the promises below are made against: a live process may stop anywhere and a connection end anywhere, giving its lock
      back; any call may be refused without effect, and any but the reading of a decided COMMIT and the repair may take effect and
      lose its reply; a COMMIT under way may land, with everything of its transaction, or abort, with nothing. */
  lemma FaultsStrike(db: Database, r: Runner, i: nat)
    ensures var over := r.pc.Returned? || r.pc.Crashed?;
            && (!over ==> Act(db, r, i, Die) == Some((db, r.(pc := Crashed))))
            && (!over && !r.pc.CheckLatest? ==>
                 var refused := Act(db, r, i, Refuse); var lost := Act(db, r, i, LoseReply);
                 && refused.Some? && refused.value.0 == db && refused.value.1 == r.(pc := refused.value.1.pc)
                 && ErrorPath(r.pc, refused.value.1.pc)
                 && (lost.None? <==> r.pc.AwaitCommit? || r.pc.Repair? || Perform(db, r, i).None?)
                 && (lost.Some? ==> lost.value.0 == Perform(db, r, i).value.0 && lost.value.1.pc == refused.value.1.pc))
    ensures r.session.Some? ==>
              var db' := if db.lock == Some(i) then db.(lock := None) else db;
              Act(db, r, i, EndSession) == Some((db', r.(session := None)))
    ensures r.session.Some? && r.session.value.committing && r.session.value.tx.Some? ==>
              var tx := r.session.value.tx.value; var landed, aborted := Act(db, r, i, CommitLands), Act(db, r, i, CommitAborts);
              && landed.Some? && landed.value.0 == db.(schema := db.schema + tx.ran, ledger := db.ledger + tx.rows)
              && aborted.Some? && aborted.value.0 == db
              && landed.value.1 == r.(session := Some(Session(None, false, Some(true))))
              && aborted.value.1 == r.(session := Some(Session(None, false, Some(false))))
  {
  }

  /** After an error: a statement of an open transaction leads to a rollback, anything else inside the lock to its release without
      success; nothing that failed before is made good. */
  predicate ErrorPath(pc: Pc, next: Pc) {
    if pc.Execute? || pc.Record? then next.RollBack?
    else if Critical(pc) && !pc.Unlock? then next == Unlock(false)
    else if pc.TakeLock? then next == Release(false)
    else if pc.Connect? then next == Returned(false)
    else if pc.Unlock? then next == Release(pc.ok)
    else pc.Release? && next == Returned(pc.ok)
  }

  // ----- what every step keeps -----

  predicate Critical(pc: Pc) {
    pc.CreateLedger? || pc.ReadCurrent? || pc.LoadFiles? || pc.Loop? || pc.Execute? || pc.Record? || pc.Commit?
    || pc.AwaitCommit? || pc.RollBack? || pc.CheckLatest? || pc.Repair? || pc.Unlock?
  }

  /** Operations that come after the highest ledger version has been read. */
  predicate HasRead(pc: Pc) {
    pc.LoadFiles? || pc.Loop? || pc.Execute? || pc.Record? || pc.Commit? || pc.AwaitCommit? || pc.CheckLatest? || pc.Repair?
  }

  predicate ReportsSuccess(pc: Pc) {
    pc.Repair? || (pc.Unlock? && pc.ok) || (pc.Release? && pc.ok) || (pc.Returned? && pc.ok)
  }

  function NextTx(k: nat): Transaction { Transaction([k + 1], [k + 1]) }

  /** What is known of runner i, whatever the others do. */
  ghost predicate RunnerInv(db: Database, r: Runner, i: nat) {
    var k := |db.ledger|;
    && (HasRead(r.pc) ==> r.current <= k)
    && (ReportsSuccess(r.pc) ==> r.current == LATEST <= k)
    && (r.pc.Connect? ==> r.session.None?)
    && (r.session.None? ==> db.lock != Some(i))
    && (r.session.Some? ==> SessionInv(db, r, i))
  }

  ghost predicate SessionInv(db: Database, r: Runner, i: nat)
    requires r.session.Some?
  {
    var k := |db.ledger|;
    var session := r.session.value;
    && (Critical(r.pc) ==> db.lock == Some(i))
    && (HasRead(r.pc) || session.committing ==> db.ledgerExists)
    && (HasRead(r.pc) && !r.pc.AwaitCommit? ==> r.current == k)
    && (session.committing ==> db.lock == Some(i) && session.tx == Some(NextTx(k)) && k < LATEST && session.reply.None?
                               && (r.pc.AwaitCommit? || r.pc.Unlock? || r.pc.Release? || r.pc.Returned? || r.pc.Crashed?))
    && (match r.pc
        case Loop(n) => n <= r.current && n <= LATEST
        case Execute(n) => n == k < LATEST && session.tx == Some(Transaction([], [])) && session.reply.None?
        case Record(n) => n == k < LATEST && session.tx == Some(Transaction([k + 1], [])) && session.reply.None?
        case Commit(n) => n == k < LATEST && session.tx == Some(NextTx(k)) && session.reply.None?
        case AwaitCommit(n) =>
          && n < LATEST
          && (session.committing ==> n == k)
          && (session.reply == Some(true) ==> k == n + 1)
        case _ => true)
  }

  ghost predicate Inv(s: System) {
    && LedgerInv(s.db)
    && forall i :: 0 <= i < |s.runners| ==> RunnerInv(s.db, s.runners[i], i)
  }

  /** The lock changes hands only through its owner, so nobody else can move what a lock holder relies on. */
  lemma OthersKeep(db: Database, db': Database, r: Runner, i: nat, j: nat)
    requires i != j && RunnerInv(db, r, i)
    requires db'.lock == db.lock || db'.lock == Some(j) || (db.lock == Some(j) && db'.lock == None)
    requires db.lock != None && db'.lock != db.lock ==> db.lock == Some(j)
    requires |db.ledger| <= |db'.ledger| && (db.ledgerExists ==> db'.ledgerExists)
    requires |db'.ledger| != |db.ledger| ==> db.lock == Some(j)
    ensures RunnerInv(db', r, i)
  {
  }

  ghost predicate LedgerInv(db: Database) {
    db.schema == db.ledger == UpTo(|db.ledger|) && (!db.ledgerExists ==> db.ledger == [])
  }

  /** What an action of runner i may do to the database, with its own invariant kept. */
  ghost predicate Kept(db: Database, i: nat, db': Database, r': Runner) {
    && LedgerInv(db')
    && RunnerInv(db', r', i)
    && (db.ledgerExists ==> db'.ledgerExists)
    && (db'.ledger == db.ledger || (db.lock == Some(i) && |db'.ledger| == |db.ledger| + 1 <= LATEST))
    && (db'.lock == db.lock || (db.lock == None && db'.lock == Some(i)) || (db.lock == Some(i) && db'.lock == None))
  }

  lemma TransactionKeeps(db: Database, r: Runner, i: nat)
    requires LedgerInv(db) && RunnerInv(db, r, i) && r.session.Some?
    requires r.pc.Execute? || r.pc.Record? || r.pc.Commit? || r.pc.AwaitCommit?
    requires PerformOnSession(db, r, i).Some?
    ensures Kept(db, i, PerformOnSession(db, r, i).value.0, PerformOnSession(db, r, i).value.1)
  {
    hide LedgerInv;
    var k := |db.ledger|;
    assert [] + [k + 1] == [k + 1];
  }

  /** The steps that change the lock. */
  lemma LockStepsKeep(db: Database, r: Runner, i: nat)
    requires LedgerInv(db) && RunnerInv(db, r, i) && r.session.Some? && (r.pc.TakeLock? || r.pc.Unlock?)
    requires PerformOnSession(db, r, i).Some?
    ensures Kept(db, i, PerformOnSession(db, r, i).value.0, PerformOnSession(db, r, i).value.1)
  {
    hide UpTo;
  }

  /** The other steps around the transactions: creating and reading the ledger, and rolling back. */
  lemma LedgerStepsKeep(db: Database, r: Runner, i: nat)
    requires LedgerInv(db) && RunnerInv(db, r, i) && r.session.Some?
    requires r.pc.CreateLedger? || r.pc.ReadCurrent? || r.pc.RollBack?
    requires PerformOnSession(db, r, i).Some?
    ensures Kept(db, i, PerformOnSession(db, r, i).value.0, PerformOnSession(db, r, i).value.1)
  {
    if r.pc.ReadCurrent? { MaxUpTo(|db.ledger|); }
  }

  lemma OtherPcsWait(db: Database, r: Runner, i: nat)
    requires r.session.Some? && PerformOnSession(db, r, i).Some?
    ensures r.pc.TakeLock? || r.pc.CreateLedger? || r.pc.ReadCurrent? || r.pc.Execute? || r.pc.Record? || r.pc.Commit?
            || r.pc.AwaitCommit? || r.pc.RollBack? || r.pc.Unlock?
  {
  }

  lemma PerformOnSessionKeeps(db: Database, r: Runner, i: nat)
    requires LedgerInv(db) && RunnerInv(db, r, i) && r.session.Some?
    requires PerformOnSession(db, r, i).Some?
    ensures Kept(db, i, PerformOnSession(db, r, i).value.0, PerformOnSession(db, r, i).value.1)
  {
    hide LedgerInv, RunnerInv, PerformOnSession, Kept;
    if r.pc.Execute? || r.pc.Record? || r.pc.Commit? || r.pc.AwaitCommit? {
      TransactionKeeps(db, r, i);
    } else if r.pc.TakeLock? || r.pc.Unlock? {
      LockStepsKeep(db, r, i);
    } else {
      assert r.pc.CreateLedger? || r.pc.ReadCurrent? || r.pc.RollBack? by { OtherPcsWait(db, r, i); }
      LedgerStepsKeep(db, r, i);
    }
  }

  lemma PerformKeeps(db: Database, r: Runner, i: nat)
    requires LedgerInv(db) && RunnerInv(db, r, i) && Perform(db, r, i).Some?
    ensures Kept(db, i, Perform(db, r, i).value.0, Perform(db, r, i).value.1)
  {
    if r.session.Some? && PerformOnSession(db, r, i).Some? { PerformOnSessionKeeps(db, r, i); }
  }

  /** The only step that grows the ledger: the server lets a pending COMMIT of the lock holder land. */
  lemma DecideKeeps(db: Database, r: Runner, i: nat, lands: bool)
    requires LedgerInv(db) && RunnerInv(db, r, i) && Decide(db, r, lands).Some?
    ensures Kept(db, i, Decide(db, r, lands).value.0, Decide(db, r, lands).value.1)
  {
    assert UpTo(|db.ledger| + 1) == UpTo(|db.ledger|) + [|db.ledger| + 1];
  }

  lemma ErrorKeeps(db: Database, r: Runner, i: nat)
    requires LedgerInv(db) && RunnerInv(db, r, i) && AfterError(r).Some?
    ensures Kept(db, i, db, AfterError(r).value)
  {
  }

  lemma LostReplyKeeps(db: Database, r: Runner, i: nat)
    requires LedgerInv(db) && RunnerInv(db, r, i) && Act(db, r, i, LoseReply).Some?
    ensures Kept(db, i, Act(db, r, i, LoseReply).value.0, Act(db, r, i, LoseReply).value.1)
  {
    PerformKeeps(db, r, i);
    ErrorKeeps(db, r, i);
  }

  lemma ActKeeps(db: Database, r: Runner, i: nat, action: Action)
    requires LedgerInv(db) && RunnerInv(db, r, i) && Act(db, r, i, action).Some?
    ensures Kept(db, i, Act(db, r, i, action).value.0, Act(db, r, i, action).value.1)
  {
    match action
    case Succeed => PerformKeeps(db, r, i);
    case Refuse => ErrorKeeps(db, r, i);
    case LoseReply => LostReplyKeeps(db, r, i);
    case CommitLands => DecideKeeps(db, r, i, true);
    case CommitAborts => DecideKeeps(db, r, i, false);
    case Die =>
    case EndSession =>
  }

  /** One step of any runner or session keeps the invariant, and the ledger only grows, one version at a time. */
  lemma StepKeepsInv(s: System, e: Event)
    requires Inv(s) && Step(s, e).Some?
    ensures Inv(Step(s, e).value)
    ensures |s.db.ledger| <= |Step(s, e).value.db.ledger| <= |s.db.ledger| + 1
    ensures |s.db.ledger| <= LATEST ==> |Step(s, e).value.db.ledger| <= LATEST
    ensures |Step(s, e).value.runners| == |s.runners|
  {
    var t := Step(s, e).value;
    var i := e.runner;
    ActKeeps(s.db, s.runners[i], i, e.action);
    forall j | 0 <= j < |t.runners| ensures RunnerInv(t.db, t.runners[j], j) {
      if j != i { OthersKeep(s.db, t.db, s.runners[j], j, i); }
    }
  }

  lemma {:induction false} RunKeepsInv(s: System, events: seq<Event>)
    requires Inv(s)
    ensures Inv(Run(s, events))
    ensures |s.db.ledger| <= |Run(s, events).db.ledger|
    ensures |s.db.ledger| <= LATEST ==> |Run(s, events).db.ledger| <= LATEST
    ensures |Run(s, events).runners| == |s.runners|
    decreases |events|
  {
    if events != [] {
      match Step(s, events[0])
      case None => RunKeepsInv(s, events[1..]);
      case Some(t) =>
        StepKeepsInv(s, events[0]);
        RunKeepsInv(t, events[1..]);
    }
  }

  // ----- the promises -----

  /** After any run of any number of concurrent runners the ledger is exactly 1..k and the schema is migrations 1..k,
      each applied once and in order; k never falls below where it started. */
  lemma LedgerAndSchemaAgree(s: System, k0: nat, events: seq<Event>)
    requires Initial(s, k0)
    ensures var db := Run(s, events).db;
            exists k :: k0 <= k && db.ledger == UpTo(k) && db.schema == UpTo(k) && (k0 <= LATEST ==> k <= LATEST)
  {
    assert Inv(s);
    RunKeepsInv(s, events);
    var db := Run(s, events).db;
    assert db.ledger == UpTo(|db.ledger|);
  }

  /** A runner whose call returned nil read or wrote version 57, and the database holds migrations 1..57 from then on. */
  lemma {:induction false} NilMeansLatest(s: System, k0: nat, events: seq<Event>, more: seq<Event>, i: nat)
    requires Initial(s, k0) && k0 <= LATEST
    requires i < |Run(s, events).runners| && Run(s, events).runners[i].pc == Returned(true)
    ensures Run(s, events).runners[i].current == LATEST
    ensures Run(Run(s, events), more).db.ledger == UpTo(LATEST) == Run(Run(s, events), more).db.schema
  {
    assert Inv(s);
    RunKeepsInv(s, events);
    var t := Run(s, events);
    assert RunnerInv(t.db, t.runners[i], i);
    RunKeepsInv(t, more);
  }

  /** A database already ahead of this build is never touched, and nobody reports success on it. */
  lemma NewerDatabaseRefused(s: System, k0: nat, events: seq<Event>)
    requires Initial(s, k0) && LATEST < k0
    ensures Run(s, events).db.ledger == UpTo(k0) == Run(s, events).db.schema
    ensures forall i :: 0 <= i < |Run(s, events).runners| ==> Run(s, events).runners[i].pc != Returned(true)
  {
    assert AheadInv(s, k0);
    AheadKept(s, k0, events);
  }

  ghost predicate AheadInv(s: System, k0: nat) {
    && Inv(s) && |s.db.ledger| == k0
    && forall i :: 0 <= i < |s.runners| ==>
         var r := s.runners[i];
         && !ReportsSuccess(r.pc)
         && (HasRead(r.pc) ==> r.current == k0)
  }

  lemma AheadPerform(db: Database, r: Runner, i: nat)
    requires LedgerInv(db) && RunnerInv(db, r, i) && LATEST < |db.ledger|
    requires !ReportsSuccess(r.pc) && (HasRead(r.pc) ==> r.current == |db.ledger|)
    requires Perform(db, r, i).Some?
    ensures var (db', r') := Perform(db, r, i).value;
            |db'.ledger| == |db.ledger| && !ReportsSuccess(r'.pc) && (HasRead(r'.pc) ==> r'.current == |db.ledger|)
  {
    PerformKeeps(db, r, i);
    MaxUpTo(|db.ledger|);
  }

  lemma AheadAct(db: Database, r: Runner, i: nat, action: Action)
    requires LedgerInv(db) && RunnerInv(db, r, i) && LATEST < |db.ledger|
    requires !ReportsSuccess(r.pc) && (HasRead(r.pc) ==> r.current == |db.ledger|)
    requires Act(db, r, i, action).Some?
    ensures var (db', r') := Act(db, r, i, action).value;
            |db'.ledger| == |db.ledger| && !ReportsSuccess(r'.pc) && (HasRead(r'.pc) ==> r'.current == |db.ledger|)
  {
    hide Perform, LedgerInv, RunnerInv;
    ActKeeps(db, r, i, action);
    if Perform(db, r, i).Some? { AheadPerform(db, r, i); }
  }

  lemma {:induction false} AheadKept(s: System, k0: nat, events: seq<Event>)
    requires AheadInv(s, k0) && LATEST < k0
    ensures AheadInv(Run(s, events), k0)
    decreases |events|
  {
    if events != [] {
      match Step(s, events[0])
      case None => AheadKept(s, k0, events[1..]);
      case Some(t) =>
        StepKeepsInv(s, events[0]);
        var i := events[0].runner;
        AheadAct(s.db, s.runners[i], i, events[0].action);
        assert AheadInv(t, k0);
        AheadKept(t, k0, events[1..]);
    }
  }

  /** Two live connections are never inside the locked part together. */
  lemma OneRunnerInside(s: System, k0: nat, events: seq<Event>, i: nat, j: nat)
    requires Initial(s, k0)
    requires i < |Run(s, events).runners| && j < |Run(s, events).runners|
    requires Critical(Run(s, events).runners[i].pc) && Run(s, events).runners[i].session.Some?
    requires Critical(Run(s, events).runners[j].pc) && Run(s, events).runners[j].session.Some?
    ensures i == j
  {
    assert Inv(s);
    RunKeepsInv(s, events);
    var t := Run(s, events);
    assert RunnerInv(t.db, t.runners[i], i) && RunnerInv(t.db, t.runners[j], j);
  }

  // ----- a retry always gets through once the lock is free -----

  lemma {:induction false} RunConcat(s: System, a: seq<Event>, b: seq<Event>)
    ensures Run(s, a + b) == Run(Run(s, a), b)
    decreases |a|
  {
    if a == [] {
      assert a + b == b;
    } else {
      assert (a + b)[1..] == a[1..] + b;
      match Step(s, a[0])
      case None => RunConcat(s, a[1..], b);
      case Some(t) => RunConcat(t, a[1..], b);
    }
  }

  /** The state after the listed actions of runner i, all of which must be possible. */
  function Drive(s: System, i: nat, actions: seq<Action>): Option<System>
    decreases |actions|
  {
    if actions == [] then Some(s) else
    match Step(s, Event(i, actions[0]))
    case None => None
    case Some(t) => Drive(t, i, actions[1..])
  }

  function EventsOf(i: nat, actions: seq<Action>): (events: seq<Event>)
    ensures |events| == |actions|
  {
    if actions == [] then [] else [Event(i, actions[0])] + EventsOf(i, actions[1..])
  }

  lemma {:induction false} DriveIsRun(s: System, i: nat, actions: seq<Action>)
    requires Inv(s) && Drive(s, i, actions).Some?
    ensures Run(s, EventsOf(i, actions)) == Drive(s, i, actions).value
    ensures Inv(Drive(s, i, actions).value)
    decreases |actions|
  {
    if actions != [] {
      StepKeepsInv(s, Event(i, actions[0]));
      DriveIsRun(Step(s, Event(i, actions[0])).value, i, actions[1..]);
      assert EventsOf(i, actions)[1..] == EventsOf(i, actions[1..]);
    }
  }

  const PREPARE := [Succeed, Succeed, Succeed]
  const SETTLE := [Succeed, CommitLands, Succeed]
  const CLOSE := [Succeed, Succeed]

  lemma Prepare(s: System, i: nat, n: nat)
    requires Inv(s) && i < |s.runners| && s.runners[i].pc == Loop(n) && s.runners[i].session.Some?
    requires n == |s.db.ledger| < LATEST
    ensures Drive(s, i, PREPARE).Some?
    ensures var t := Drive(s, i, PREPARE).value;
            t.db == s.db && |t.runners| == |s.runners| && t.runners[i].pc == Commit(n) && t.runners[i].session.Some?
  {
    assert RunnerInv(s.db, s.runners[i], i);
    assert n + 1 !in s.db.ledger;
    var s1 := Step(s, Event(i, Succeed)).value;
    var s2 := Step(s1, Event(i, Succeed)).value;
    var s3 := Step(s2, Event(i, Succeed)).value;
    assert Drive(s2, i, [Succeed]) == Some(s3);
    assert Drive(s1, i, [Succeed, Succeed]) == Some(s3);
  }

  lemma Settle(s: System, i: nat, n: nat)
    requires Inv(s) && i < |s.runners| && s.runners[i].pc == Commit(n) && s.runners[i].session.Some?
    ensures Drive(s, i, SETTLE).Some?
    ensures var t := Drive(s, i, SETTLE).value;
            && |t.runners| == |s.runners| && t.runners[i].pc == Loop(n + 1) && t.runners[i].session.Some?
            && |t.db.ledger| == |s.db.ledger| + 1
  {
    assert RunnerInv(s.db, s.runners[i], i);
    var s1 := Step(s, Event(i, Succeed)).value;
    var s2 := Step(s1, Event(i, CommitLands)).value;
    var s3 := Step(s2, Event(i, Succeed)).value;
    assert Drive(s2, i, [Succeed]) == Some(s3);
    assert Drive(s1, i, [CommitLands, Succeed]) == Some(s3);
  }

  /** From the version check to the point where only the unlock is left, and from there to the caller. */
  lemma Close(s: System, i: nat)
    requires Inv(s) && i < |s.runners| && s.runners[i].session.Some?
    requires (s.runners[i].pc == CheckLatest && |s.db.ledger| == LATEST) || s.runners[i].pc == Unlock(true)
    requires !s.runners[i].session.value.committing
    ensures Drive(s, i, CLOSE).Some?
    ensures var t := Drive(s, i, CLOSE).value;
            && |t.runners| == |s.runners| && t.db.ledger == s.db.ledger
            && t.runners[i].pc == (if s.runners[i].pc == CheckLatest then Unlock(true) else Returned(true))
            && t.runners[i].session == s.runners[i].session
  {
    assert RunnerInv(s.db, s.runners[i], i);
    var s1 := Step(s, Event(i, Succeed)).value;
    var s2 := Step(s1, Event(i, Succeed)).value;
    assert Drive(s1, i, [Succeed]) == Some(s2);
  }

  lemma WrapUp(s: System, i: nat) returns (events: seq<Event>)
    requires Inv(s) && i < |s.runners| && s.runners[i].pc == Loop(LATEST) && s.runners[i].session.Some?
    requires |s.db.ledger| == LATEST
    ensures |Run(s, events).runners| == |s.runners| && Run(s, events).runners[i].pc == Returned(true)
  {
    StepKeepsInv(s, Event(i, Succeed));
    var t := Step(s, Event(i, Succeed)).value;
    Close(t, i);
    DriveIsRun(t, i, CLOSE);
    var u := Drive(t, i, CLOSE).value;
    Close(u, i);
    DriveIsRun(u, i, CLOSE);
    RunConcat(t, EventsOf(i, CLOSE), EventsOf(i, CLOSE));
    events := [Event(i, Succeed)] + (EventsOf(i, CLOSE) + EventsOf(i, CLOSE));
  }

  lemma OneMigration(s: System, i: nat, n: nat) returns (events: seq<Event>)
    requires Inv(s) && i < |s.runners| && s.runners[i].pc == Loop(n) && s.runners[i].session.Some?
    requires n == |s.db.ledger| < LATEST
    ensures var t := Run(s, events);
            && Inv(t) && |t.runners| == |s.runners| && t.runners[i].pc == Loop(n + 1) && t.runners[i].session.Some?
            && |t.db.ledger| == n + 1
  {
    Prepare(s, i, n);
    DriveIsRun(s, i, PREPARE);
    var t := Drive(s, i, PREPARE).value;
    Settle(t, i, n);
    DriveIsRun(t, i, SETTLE);
    RunConcat(s, EventsOf(i, PREPARE), EventsOf(i, SETTLE));
    events := EventsOf(i, PREPARE) + EventsOf(i, SETTLE);
  }

  lemma {:induction false} LoopFinishes(s: System, i: nat) returns (events: seq<Event>)
    requires Inv(s) && i < |s.runners| && s.runners[i].pc.Loop? && s.runners[i].session.Some?
    requires |s.db.ledger| <= LATEST
    ensures |Run(s, events).runners| == |s.runners| && Run(s, events).runners[i].pc == Returned(true)
    decreases LATEST - s.runners[i].pc.next
  {
    var n := s.runners[i].pc.next;
    assert RunnerInv(s.db, s.runners[i], i);
    if n == LATEST {
      events := WrapUp(s, i);
    } else if n + 1 <= s.runners[i].current {
      StepKeepsInv(s, Event(i, Succeed));
      var rest := LoopFinishes(Step(s, Event(i, Succeed)).value, i);
      events := [Event(i, Succeed)] + rest;
    } else {
      var one := OneMigration(s, i, n);
      var rest := LoopFinishes(Run(s, one), i);
      RunConcat(s, one, rest);
      events := one + rest;
    }
  }

  const START_UP := [Succeed, Succeed, Succeed, Succeed, Succeed]

  lemma StartUp(s: System, i: nat)
    requires Inv(s) && i < |s.runners| && s.runners[i].pc == Connect && s.db.lock == None
    ensures Drive(s, i, START_UP).Some?
    ensures var t := Drive(s, i, START_UP).value;
            && |t.runners| == |s.runners| && t.runners[i].pc == Loop(0) && t.runners[i].session.Some?
            && |t.db.ledger| == |s.db.ledger|
  {
    var s1 := Step(s, Event(i, Succeed)).value;
    var s2 := Step(s1, Event(i, Succeed)).value;
    var s3 := Step(s2, Event(i, Succeed)).value;
    var s4 := Step(s3, Event(i, Succeed)).value;
    var s5 := Step(s4, Event(i, Succeed)).value;
    assert Drive(s4, i, [Succeed]) == Some(s5);
    assert Drive(s3, i, [Succeed, Succeed]) == Some(s5);
    assert Drive(s2, i, [Succeed, Succeed, Succeed]) == Some(s5);
    assert Drive(s1, i, [Succeed, Succeed, Succeed, Succeed]) == Some(s5);
  }

  lemma FreshRunnerFinishes(s: System, i: nat) returns (events: seq<Event>)
    requires Inv(s) && i < |s.runners| && s.runners[i].pc == Connect && s.db.lock == None
    requires |s.db.ledger| <= LATEST
    ensures |Run(s, events).runners| == |s.runners| && Run(s, events).runners[i].pc == Returned(true)
  {
    StartUp(s, i);
    DriveIsRun(s, i, START_UP);
    var rest := LoopFinishes(Drive(s, i, START_UP).value, i);
    RunConcat(s, EventsOf(i, START_UP), rest);
    events := EventsOf(i, START_UP) + rest;
  }

  /** However earlier runners failed, once the lock is free some schedule takes a waiting runner to nil with 1..57 in place. */
  lemma RetryCanFinish(s: System, k0: nat, before: seq<Event>, i: nat) returns (events: seq<Event>)
    requires Initial(s, k0) && k0 <= LATEST
    requires i < |Run(s, before).runners|
    requires Run(s, before).db.lock == None && Run(s, before).runners[i].pc == Connect
    ensures i < |Run(s, before + events).runners|
    ensures Run(s, before + events).runners[i].pc == Returned(true)
    ensures Run(s, before + events).db.ledger == UpTo(LATEST) == Run(s, before + events).db.schema
  {
    assert Inv(s);
    RunKeepsInv(s, before);
    events := FreshRunnerFinishes(Run(s, before), i);
    RunConcat(s, before, events);
    assert [] + events == events;
    NilMeansLatest(s, k0, before + events, [], i);
  }
}
