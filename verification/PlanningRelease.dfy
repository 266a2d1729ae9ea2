/** From an approved planning item to a scheduled audit: the preparation steps of many items, in any order, and the records
    that making an item's audit creates. */
module PlanningRelease {
  import opened Basics
  import opened Decimals
  import opened Texts
  import opened ApprovalChain

  // ----- data -----

  datatype PrepStatus = NotReleased | ReleasedToDepartment | AcceptedByDepartment | LeadAssigned | TeamProposed | ReadyForExecution

  /** What the preparation's history records: the status each action set, and who acted in which role. */
  datatype PrepEntry = PrepEntry(actor: string, role: Role, action: PrepStatus)

  datatype Package = Package(lead: string, leadUserId: string, team: seq<string>, start: string, end: string, auditId: string)

  datatype Prep = Prep(status: PrepStatus, lead: string, leadUserId: string, team: seq<string>, start: string, end: string,
    resources: string, package: Option<Package>, history: seq<PrepEntry>)

  datatype Category = Announced | Unannounced | OtherCategory(name: string)
  datatype Notice = Advance | Withheld

  datatype Item = Item(id: string, approval: Outcome, category: Category, plannedDate: string, prep: Prep, auditId: string)

  datatype User = User(id: string, name: string, role: Role, active: bool)
  datatype Audit = Audit(id: string, planningItemId: Option<string>, date: string, endDate: string, notice: Notice, lead: string,
    team: seq<string>)
  datatype Team = Team(id: string, auditId: string, start: string, end: string, leadUserId: string, memberIds: seq<string>)
  datatype Coordination = Coordination(auditId: string, planningItemId: Option<string>, notice: Notice, proposedDate: string,
    confirmedDate: string)

  datatype World = World(users: seq<User>, items: seq<Item>, audits: seq<Audit>, teams: seq<Team>, workspaces: set<string>,
    coordinations: seq<Coordination>, auditSeq: nat)

  datatype PrepActor = PrepActor(name: string, role: Role, userId: string)

  datatype PrepRefusal = NotApprovedYet | WrongRole | NotReleasedYet | NotAcceptedYet | LeadRequired | NotAssignedYet | NotTheLead
    | TeamAndDatesRequired | NotProposedYet | NotReady | CategoryRequired

  // ----- the preparation of one item -----

  function Recorded(p: Prep, actor: PrepActor): Prep {
    p.(history := p.history + [PrepEntry(if actor.name != "" then actor.name else "Unknown actor", actor.role, p.status)])
  }

  /** No look at the preparation's status: releasing again is legal. */
  function Release(item: Item, actor: PrepActor): Result<Item, PrepRefusal> {
    if !item.approval.Approved? then Err(NotApprovedYet)
    else if actor.role != Gm then Err(WrongRole)
    else Ok(item.(prep := Recorded(item.prep.(status := ReleasedToDepartment), actor)))
  }

  function Accept(item: Item, actor: PrepActor): Result<Item, PrepRefusal> {
    if actor.role != Manager then Err(WrongRole)
    else if !item.prep.status.ReleasedToDepartment? then Err(NotReleasedYet)
    else Ok(item.(prep := Recorded(item.prep.(status := AcceptedByDepartment), actor)))
  }

  function LeadsNamed(users: seq<User>, name: string): seq<User> {
    if users == [] then []
    else (if users[0].name == name && users[0].role.Lead? && users[0].active then [users[0]] else []) + LeadsNamed(users[1..], name)
  }

  function LeadUserId(users: seq<User>, lead: string, given: string): string {
    if given != "" then given
    else if |LeadsNamed(users, lead)| == 1 then LeadsNamed(users, lead)[0].id
    else if lead == "Caner Yildiz" then "USR-CANER" else ""
  }

  function Assign(users: seq<User>, item: Item, actor: PrepActor, lead: string, leadUserId: string): Result<Item, PrepRefusal> {
    if actor.role != Manager then Err(WrongRole)
    else if !item.prep.status.AcceptedByDepartment? then Err(NotAcceptedYet)
    else if Blank(lead) then Err(LeadRequired)
    else Ok(item.(prep := Recorded(item.prep.(status := LeadAssigned, lead := lead,
      leadUserId := LeadUserId(users, lead, leadUserId)), actor)))
  }

  function Propose(item: Item, actor: PrepActor, team: seq<string>, start: string, end: string, resources: string)
    : Result<Item, PrepRefusal>
  {
    if !actor.role.Lead? then Err(WrongRole)
    else if !item.prep.status.LeadAssigned? then Err(NotAssignedYet)
    else if item.prep.leadUserId != "" &&
      (if actor.userId != "" then actor.userId != item.prep.leadUserId else actor.name != item.prep.lead) then Err(NotTheLead)
    else if team == [] || start == "" || end == "" then Err(TeamAndDatesRequired)
    else Ok(item.(prep := Recorded(item.prep.(status := TeamProposed, team := team, start := start, end := end,
      resources := if resources != "" then resources else "Mock resources to be confirmed by Department Manager."), actor)))
  }

  /** Confirming an item that is ready with its package changes nothing. */
  function Confirm(item: Item, actor: PrepActor): Result<Item, PrepRefusal> {
    var p := item.prep;
    if actor.role != Manager then Err(WrongRole)
    else if p.status.ReadyForExecution? && p.package.Some? then Ok(item)
    else if !p.status.TeamProposed? then Err(NotProposedYet)
    else Ok(item.(prep := Recorded(p.(status := ReadyForExecution,
      package := Some(Package(p.lead, p.leadUserId, p.team, p.start, p.end, ""))), actor)))
  }

  // ----- making the audit -----

  function AuditId(n: nat): string { "AUD-2026-" + PadStart(Dec(n), 3) }

  function NoticeOf(c: Category): Option<Notice> {
    match c
    case Announced => Some(Advance)
    case Unannounced => Some(Withheld)
    case OtherCategory(_) => None
  }

  predicate AuditKnown(audits: seq<Audit>, id: string) { exists i :: 0 <= i < |audits| && audits[i].id == id }

  function OrElse(s: string, t: string): string { if s != "" then s else t }

  /** The last user of a name wins. */
  function UserIdOf(users: seq<User>, name: string): string {
    if users == [] then ""
    else if users[|users| - 1].name == name then users[|users| - 1].id
    else UserIdOf(users[..|users| - 1], name)
  }

  function MemberIds(users: seq<User>, team: seq<string>): seq<string> {
    if team == [] then []
    else (if UserIdOf(users, team[0]) == "" then [] else [UserIdOf(users, team[0])]) + MemberIds(users, team[1..])
  }

  function AuditOf(item: Item, seqNo: nat, notice: Notice): Audit {
    var p := item.prep;
    Audit(AuditId(seqNo), Some(item.id), OrElse(p.start, item.plannedDate), OrElse(p.end, item.plannedDate), notice, p.lead,
      if p.lead in p.team then p.team else [p.lead] + p.team)
  }

  function TeamOf(users: seq<User>, a: Audit): Team {
    Team("TEAM-" + a.id, a.id, a.date, a.endDate, UserIdOf(users, a.lead), MemberIds(users, a.team))
  }

  function CoordinationOf(a: Audit): Coordination {
    Coordination(a.id, a.planningItemId, a.notice, a.date, if a.notice.Withheld? then a.date else "")
  }

  /** The item with its audit's id, noted in its package too. */
  function WithAudit(item: Item, id: string): Item {
    var package := if item.prep.package.None? then None else Some(item.prep.package.value.(auditId := id));
    item.(auditId := id, prep := item.prep.(package := package))
  }

  function Materialize(w: World, i: nat): Result<World, PrepRefusal>
    requires i < |w.items|
  {
    var item := w.items[i];
    if !item.prep.status.ReadyForExecution? then Err(NotReady)
    else if item.auditId != "" && AuditKnown(w.audits, item.auditId) then Ok(w)
    else match NoticeOf(item.category)
      case None => Err(CategoryRequired)
      case Some(notice) =>
        var a := AuditOf(item, w.auditSeq, notice);
        Ok(w.(items := w.items[i := WithAudit(item, a.id)],
              audits := w.audits + [a], auditSeq := w.auditSeq + 1, teams := w.teams + [TeamOf(w.users, a)],
              workspaces := w.workspaces + {a.id}, coordinations := w.coordinations + [CoordinationOf(a)]))
  }

  // ----- runs -----

  datatype Event =
    | ReleaseIt(i: nat, actor: PrepActor)
    | AcceptIt(i: nat, actor: PrepActor)
    | AssignIt(i: nat, actor: PrepActor, lead: string, leadUserId: string)
    | ProposeIt(i: nat, actor: PrepActor, team: seq<string>, start: string, end: string, resources: string)
    | ConfirmIt(i: nat, actor: PrepActor)
    | MakeAudit(i: nat)
    | ApprovalChanges(i: nat, outcome: Outcome)

  function PreparedItem(users: seq<User>, item: Item, e: Event): Result<Item, PrepRefusal> {
    match e
    case ReleaseIt(_, actor) => Release(item, actor)
    case AcceptIt(_, actor) => Accept(item, actor)
    case AssignIt(_, actor, lead, userId) => Assign(users, item, actor, lead, userId)
    case ProposeIt(_, actor, team, start, end, resources) => Propose(item, actor, team, start, end, resources)
    case ConfirmIt(_, actor) => Confirm(item, actor)
    case ApprovalChanges(_, outcome) => Ok(item.(approval := outcome))
    case MakeAudit(_) => Ok(item)
  }

  function Prepared(w: World, e: Event): Result<Item, PrepRefusal>
    requires e.i < |w.items|
  {
    PreparedItem(w.users, w.items[e.i], e)
  }

  /** An event on no item, or one that is refused, changes nothing. */
  function Step(w: World, e: Event): World {
    if e.i >= |w.items| then w
    else if e.MakeAudit? then (match Materialize(w, e.i) case Ok(w') => w' case Err(_) => w)
    else match Prepared(w, e)
      case Ok(item) => w.(items := w.items[e.i := item])
      case Err(_) => w
  }

  function Run(w: World, events: seq<Event>): World
    decreases |events|
  {
    if events == [] then w else Run(Step(w, events[0]), events[1..])
  }

  // ----- what the preparation history proves -----

  const STEPS := [ReleasedToDepartment, AcceptedByDepartment, LeadAssigned, TeamProposed, ReadyForExecution]
  const ACTORS := [Gm, Manager, Manager, Lead, Manager]

  function StepNumber(s: PrepStatus): nat {
    match s
    case NotReleased => 0
    case ReleasedToDepartment => 1
    case AcceptedByDepartment => 2
    case LeadAssigned => 3
    case TeamProposed => 4
    case ReadyForExecution => 5
  }

  /** The last n entries are the first n steps, each by the role that may take it. */
  predicate EndsWithSteps(h: seq<PrepEntry>, n: nat)
    requires n <= 5
  {
    n <= |h| && forall k :: 0 <= k < n ==> h[|h| - n + k].action == STEPS[k] && h[|h| - n + k].role == ACTORS[k]
  }

  /** The status is the last recorded action, the steps up to it are the latest entries, and a ready item has its package. */
  predicate PrepSound(p: Prep) {
    && p.status == (if p.history == [] then NotReleased else p.history[|p.history| - 1].action)
    && EndsWithSteps(p.history, StepNumber(p.status))
    && (p.status.ReadyForExecution? ==> p.package.Some?)
  }

  lemma RecordedSound(p: Prep, before: Prep, actor: PrepActor)
    requires p.history == before.history && StepNumber(p.status) > 0
    requires EndsWithSteps(before.history, StepNumber(p.status) - 1) && actor.role == ACTORS[StepNumber(p.status) - 1]
    requires p.status.ReadyForExecution? ==> p.package.Some?
    ensures PrepSound(Recorded(p, actor))
  {
  }

  lemma SoundEnds(p: Prep)
    requires PrepSound(p)
    ensures EndsWithSteps(p.history, StepNumber(p.status)) && EndsWithSteps(p.history, 0)
  {
  }

  lemma PreparedSound(w: World, e: Event)
    requires e.i < |w.items| && PrepSound(w.items[e.i].prep) && Prepared(w, e).Ok?
    ensures PrepSound(Prepared(w, e).value.prep)
    ensures Prepared(w, e).value.id == w.items[e.i].id && Prepared(w, e).value.auditId == w.items[e.i].auditId
  {
    hide Recorded, PrepSound, LeadUserId, Blank, EndsWithSteps;
    var item := w.items[e.i];
    var p := item.prep;
    SoundEnds(p);
    match e
    case ReleaseIt(_, actor) => RecordedSound(p.(status := ReleasedToDepartment), p, actor);
    case AcceptIt(_, actor) => RecordedSound(p.(status := AcceptedByDepartment), p, actor);
    case AssignIt(_, actor, lead, userId) =>
      RecordedSound(p.(status := LeadAssigned, lead := lead, leadUserId := LeadUserId(w.users, lead, userId)), p, actor);
    case ProposeIt(_, actor, team, start, end, resources) =>
      RecordedSound(p.(status := TeamProposed, team := team, start := start, end := end,
        resources := if resources != "" then resources else "Mock resources to be confirmed by Department Manager."), p, actor);
    case ConfirmIt(_, actor) =>
      if !(p.status.ReadyForExecution? && p.package.Some?) {
        RecordedSound(p.(status := ReadyForExecution,
          package := Some(Package(p.lead, p.leadUserId, p.team, p.start, p.end, ""))), p, actor);
      }
    case MakeAudit(_) =>
    case ApprovalChanges(_, _) =>
  }

  predicate AllSound(w: World) { forall i :: 0 <= i < |w.items| ==> PrepSound(w.items[i].prep) }

  /** Making the audit touches nothing of the preparation but the package's audit id. */
  lemma MaterializeSound(w: World, i: nat)
    requires i < |w.items| && PrepSound(w.items[i].prep) && Materialize(w, i).Ok?
    ensures var w' := Materialize(w, i).value;
            && |w'.items| == |w.items| && PrepSound(w'.items[i].prep)
            && forall j :: 0 <= j < |w.items| && j != i ==> w'.items[j] == w.items[j]
  {
    hide AuditOf, TeamOf, CoordinationOf, AuditKnown;
  }

  lemma StepSound(w: World, e: Event)
    requires AllSound(w)
    ensures AllSound(Step(w, e)) && |Step(w, e).items| == |w.items|
  {
    hide Prepared, PrepSound, Materialize;
    if e.i < |w.items| {
      if e.MakeAudit? {
        if Materialize(w, e.i).Ok? { MaterializeSound(w, e.i); }
      } else if Prepared(w, e).Ok? {
        PreparedSound(w, e);
      }
    }
  }

  /** Over any interleaving of steps on many items: preparation status is the last preparation action, and a ready item's last
      five entries are release by the GM, acceptance and assignment by the manager, proposal by the lead, confirmation by the
      manager. */
  lemma {:induction false} PreparationIsSound(w: World, events: seq<Event>)
    requires AllSound(w)
    ensures AllSound(Run(w, events))
    decreases |events|
  {
    hide Step, AllSound;
    if events != [] {
      StepSound(w, events[0]);
      PreparationIsSound(Step(w, events[0]), events[1..]);
    }
  }

  lemma ReadyMeansAllFiveSteps(w: World, events: seq<Event>, i: nat)
    requires AllSound(w) && i < |Run(w, events).items| && Run(w, events).items[i].prep.status.ReadyForExecution?
    ensures var h := Run(w, events).items[i].prep.history;
            && |h| >= 5
            && h[|h| - 5].action.ReleasedToDepartment? && h[|h| - 5].role.Gm?
            && h[|h| - 4].action.AcceptedByDepartment? && h[|h| - 4].role.Manager?
            && h[|h| - 3].action.LeadAssigned? && h[|h| - 3].role.Manager?
            && h[|h| - 2].action.TeamProposed? && h[|h| - 2].role.Lead?
            && h[|h| - 1].action.ReadyForExecution? && h[|h| - 1].role.Manager?
  {
    hide Run;
    PreparationIsSound(w, events);
    var h := Run(w, events).items[i].prep.history;
    assert EndsWithSteps(h, 5);
    assert h[|h| - 5 + 0].action == STEPS[0] && h[|h| - 5 + 1].action == STEPS[1] && h[|h| - 5 + 2].action == STEPS[2];
    assert h[|h| - 5 + 3].action == STEPS[3] && h[|h| - 5 + 4].action == STEPS[4];
  }

  // ----- one audit per item -----

  /** The world a run starts from: how many records it already had, and its next audit number. */
  datatype Base = Base(audits: nat, teams: nat, coordinations: nat, seqNo: nat)

  function BaseOf(w: World): Base { Base(|w.audits|, |w.teams|, |w.coordinations|, w.auditSeq) }

  predicate Grown(w: World, b: Base) {
    && b.seqNo <= w.auditSeq
    && |w.audits| == b.audits + (w.auditSeq - b.seqNo)
    && |w.teams| == b.teams + (w.auditSeq - b.seqNo)
    && |w.coordinations| == b.coordinations + (w.auditSeq - b.seqNo)
  }

  function Made(w: World, b: Base): nat
    requires Grown(w, b)
  {
    w.auditSeq - b.seqNo
  }

  predicate DistinctItems(w: World) { forall i, j :: 0 <= i < j < |w.items| ==> w.items[i].id != w.items[j].id }

  predicate ForSomeItem(w: World, a: Audit) { exists i :: 0 <= i < |w.items| && a.planningItemId == Some(w.items[i].id) }

  /** The k-th audit made belongs to an item, has its own team, workspace and coordination record, and they agree with it. */
  predicate Bundle(w: World, b: Base, k: nat)
    requires Grown(w, b) && k < Made(w, b)
  {
    var a := w.audits[b.audits + k];
    && a.id == AuditId(b.seqNo + k) && a.id in w.workspaces && ForSomeItem(w, a)
    && w.teams[b.teams + k] == TeamOf(w.users, a)
    && w.coordinations[b.coordinations + k] == CoordinationOf(a)
  }

  predicate NamesIt(w: World, b: Base, k: nat, i: nat)
    requires Grown(w, b) && k < Made(w, b) && i < |w.items|
  {
    w.audits[b.audits + k].planningItemId == Some(w.items[i].id) ==> w.items[i].auditId == w.audits[b.audits + k].id
  }

  predicate Booked(w: World, b: Base) {
    && Grown(w, b) && DistinctItems(w)
    && (forall k: nat :: k < Made(w, b) ==> Bundle(w, b, k))
    && (forall k: nat, i: nat :: k < Made(w, b) && i < |w.items| ==> NamesIt(w, b, k, i))
    && forall i :: 0 <= i < |w.items| && w.items[i].auditId != "" ==> AuditKnown(w.audits, w.items[i].auditId)
  }

  lemma AuditIdInjective(m: nat, n: nat)
    ensures AuditId(m) == AuditId(n) ==> m == n
  {
    if AuditId(m) == AuditId(n) {
      assert AuditId(m)[9..] == PadStart(Dec(m), 3) && AuditId(n)[9..] == PadStart(Dec(n), 3);
      PaddedInjective(m, n, 3);
    }
  }

  lemma KnownGrows(audits: seq<Audit>, a: Audit, id: string)
    ensures AuditKnown(audits, id) || id == a.id ==> AuditKnown(audits + [a], id)
  {
    if AuditKnown(audits, id) {
      var i :| 0 <= i < |audits| && audits[i].id == id;
      assert (audits + [a])[i].id == id;
    }
    assert (audits + [a])[|audits|] == a;
  }

  /** An event that only changes an item's preparation or approval keeps the books. */
  lemma ItemChangeBooked(w: World, b: Base, i: nat, item: Item)
    requires Booked(w, b) && i < |w.items| && item.id == w.items[i].id && item.auditId == w.items[i].auditId
    ensures Booked(w.(items := w.items[i := item]), b)
  {
    hide TeamOf, CoordinationOf, AuditId, AuditKnown;
    var w' := w.(items := w.items[i := item]);
    assert forall j :: 0 <= j < |w.items| ==> w'.items[j].id == w.items[j].id && w'.items[j].auditId == w.items[j].auditId;
    forall k: nat | k < Made(w', b) ensures Bundle(w', b, k) {
      assert Bundle(w, b, k);
      var j :| 0 <= j < |w.items| && w.audits[b.audits + k].planningItemId == Some(w.items[j].id);
      assert w'.audits[b.audits + k].planningItemId == Some(w'.items[j].id);
    }
    forall k: nat, j: nat | k < Made(w', b) && j < |w'.items| ensures NamesIt(w', b, k, j) {
      assert NamesIt(w, b, k, j);
    }
  }

  lemma NewBundle(w: World, b: Base, i: nat)
    requires Booked(w, b) && i < |w.items| && Materialize(w, i).Ok? && Materialize(w, i).value != w
    ensures var w' := Materialize(w, i).value;
            Grown(w', b) && Made(w', b) == Made(w, b) + 1 && forall k: nat :: k < Made(w', b) ==> Bundle(w', b, k)
  {
    hide TeamOf, CoordinationOf, AuditId, AuditKnown;
    var w' := Materialize(w, i).value;
    forall k: nat | k < Made(w', b) ensures Bundle(w', b, k) {
      if k < Made(w, b) {
        assert Bundle(w, b, k);
        var j :| 0 <= j < |w.items| && w.audits[b.audits + k].planningItemId == Some(w.items[j].id);
        assert w'.audits[b.audits + k].planningItemId == Some(w'.items[j].id);
      } else {
        assert w'.audits[b.audits + k].planningItemId == Some(w'.items[i].id);
      }
    }
  }

  /** The item had no audit yet: otherwise the books would name it. */
  lemma NewNames(w: World, b: Base, i: nat)
    requires Booked(w, b) && i < |w.items| && Materialize(w, i).Ok? && Materialize(w, i).value != w
    requires Grown(Materialize(w, i).value, b)
    ensures var w' := Materialize(w, i).value;
            forall k: nat, j: nat :: k < Made(w', b) && j < |w'.items| ==> NamesIt(w', b, k, j)
  {
    hide TeamOf, CoordinationOf, AuditKnown, PadStart;
    var w' := Materialize(w, i).value;
    assert w.items[i].auditId == "";
    forall k: nat, j: nat | k < Made(w', b) && j < |w'.items| ensures NamesIt(w', b, k, j) {
      assert w'.items[j].id == w.items[j].id;
      if k < Made(w, b) {
        assert NamesIt(w, b, k, j);
        assert Bundle(w, b, k);
        assert w'.audits[b.audits + k] == w.audits[b.audits + k];
      }
    }
  }

  lemma MaterializeBooked(w: World, b: Base, i: nat)
    requires Booked(w, b) && i < |w.items| && Materialize(w, i).Ok?
    ensures Booked(Materialize(w, i).value, b)
  {
    hide TeamOf, CoordinationOf, AuditId, Bundle, NamesIt, AuditKnown;
    var w' := Materialize(w, i).value;
    if w' != w {
      NewBundle(w, b, i);
      NewNames(w, b, i);
      forall j | 0 <= j < |w'.items| && w'.items[j].auditId != "" ensures AuditKnown(w'.audits, w'.items[j].auditId) {
        KnownGrows(w.audits, w'.audits[|w.audits|], w'.items[j].auditId);
      }
    }
  }

  lemma {:induction false} RunBooked(w: World, b: Base, events: seq<Event>)
    requires Booked(w, b) && AllSound(w)
    ensures Booked(Run(w, events), b)
    decreases |events|
  {
    hide Booked, AllSound, Prepared, Materialize;
    if events != [] {
      var e := events[0];
      StepSound(w, e);
      if e.i < |w.items| && e.MakeAudit? && Materialize(w, e.i).Ok? { MaterializeBooked(w, b, e.i); }
      if e.i < |w.items| && !e.MakeAudit? && Prepared(w, e).Ok? {
        assert PrepSound(w.items[e.i].prep) by { OneSound(w, e.i); }
        PreparedSound(w, e);
        ItemChangeBooked(w, b, e.i, Prepared(w, e).value);
      }
      RunBooked(Step(w, e), b, events[1..]);
    }
  }

  lemma OneSound(w: World, i: nat)
    requires AllSound(w) && i < |w.items|
    ensures PrepSound(w.items[i].prep)
  {
  }

  /** Audit numbers from `auditSeq` on are unused, items are distinct, and an audit id an item carries exists. */
  ghost predicate Start(w: World) {
    && DistinctItems(w) && AllSound(w)
    && (forall i :: 0 <= i < |w.items| && w.items[i].auditId != "" ==> AuditKnown(w.audits, w.items[i].auditId))
    && forall j, n: nat :: 0 <= j < |w.audits| && n >= w.auditSeq ==> w.audits[j].id != AuditId(n)
  }

  lemma StepGrows(w: World, e: Event)
    ensures w.audits <= Step(w, e).audits
  {
    hide AuditOf, TeamOf, CoordinationOf, AuditKnown, Prepared;
  }

  lemma {:induction false} RunGrows(w: World, events: seq<Event>)
    ensures w.audits <= Run(w, events).audits
    decreases |events|
  {
    hide Step;
    if events != [] {
      StepGrows(w, events[0]);
      RunGrows(Step(w, events[0]), events[1..]);
    }
  }

  /** What agreeing means: the same audit, the same dates, the same notice policy; a withheld notice is confirmed at once. */
  predicate Agree(w: World, a: Audit, t: Team, c: Coordination) {
    && a.id in w.workspaces && t.auditId == a.id && c.auditId == a.id && c.planningItemId == a.planningItemId
    && t.start == a.date && t.end == a.endDate && c.proposedDate == a.date && c.notice == a.notice
    && c.confirmedDate == (if a.notice.Withheld? then a.date else "")
  }

  lemma NoTwoForOneItem(w: World, b: Base, j: nat, k: nat)
    requires Booked(w, b) && j < Made(w, b) && k < Made(w, b)
    requires w.audits[b.audits + j].planningItemId == w.audits[b.audits + k].planningItemId
      || w.audits[b.audits + j].id == w.audits[b.audits + k].id
    ensures j == k
  {
    hide TeamOf, CoordinationOf, AuditId, AuditKnown;
    assert Bundle(w, b, j) && Bundle(w, b, k);
    var i :| 0 <= i < |w.items| && w.audits[b.audits + j].planningItemId == Some(w.items[i].id);
    assert NamesIt(w, b, j, i) && NamesIt(w, b, k, i);
    AuditIdInjective(b.seqNo + j, b.seqNo + k);
  }

  /** For every run over any number of items, re-releases included: the audits made are all for different items and have
      different ids, new ones too, and each has one team, one workspace and one coordination record that agree with it. */
  lemma OneAuditEach(w: World, events: seq<Event>)
    requires Start(w)
    ensures var w' := Run(w, events);
            && w.audits <= w'.audits && |w.teams| <= |w'.teams| && |w.coordinations| <= |w'.coordinations|
            && var audits := w'.audits[|w.audits|..];
               var teams, coordinations := w'.teams[|w.teams|..], w'.coordinations[|w.coordinations|..];
               && |audits| == |teams| == |coordinations|
               && (forall k :: 0 <= k < |audits| ==> Agree(w', audits[k], teams[k], coordinations[k]))
               && (forall j, k :: 0 <= j < k < |audits| ==>
                    audits[j].planningItemId != audits[k].planningItemId && audits[j].id != audits[k].id)
               && forall j, k :: 0 <= j < |w.audits| && 0 <= k < |audits| ==> w.audits[j].id != audits[k].id
  {
    hide Run, AllSound, AuditId, AuditKnown;
    var b := BaseOf(w);
    RunBooked(w, b, events);
    RunGrows(w, events);
    var w' := Run(w, events);
    var audits := w'.audits[|w.audits|..];
    var teams, coordinations := w'.teams[|w.teams|..], w'.coordinations[|w.coordinations|..];
    forall k | 0 <= k < |audits|
      ensures Agree(w', audits[k], teams[k], coordinations[k]) && audits[k].id == AuditId(w.auditSeq + k)
    {
      assert Bundle(w', b, k);
    }
    forall j, k | 0 <= j < k < |audits|
      ensures audits[j].planningItemId != audits[k].planningItemId && audits[j].id != audits[k].id
    {
      if audits[j].planningItemId == audits[k].planningItemId || audits[j].id == audits[k].id {
        NoTwoForOneItem(w', b, j, k);
      }
    }
  }

  // ----- numbering planning items -----

  const PREFIX := "PLAN-2026-INS-"

  /** `/^PLAN-2026-INS-(\d{3})$/`: the number, when the id has exactly three digits. */
  function UsedNumber(id: string): Option<nat> {
    if |id| == |PREFIX| + 3 && PREFIX <= id && AllDigits(id[|PREFIX|..]) then Some(Value(id[|PREFIX|..])) else None
  }

  function MaxUsed(ids: seq<string>): (m: nat)
    ensures forall i :: 0 <= i < |ids| && UsedNumber(ids[i]).Some? ==> UsedNumber(ids[i]).value <= m
  {
    if ids == [] then 0
    else
      var m := MaxUsed(ids[..|ids| - 1]);
      match UsedNumber(ids[|ids| - 1])
      case Some(n) => if n > m then n else m
      case None => m
  }

  function NextId(ids: seq<string>): string { PREFIX + PadStart(Dec(MaxUsed(ids) + 1), 3) }

  lemma ThreeDigits(n: nat)
    requires n <= 999
    ensures UsedNumber(PREFIX + PadStart(Dec(n), 3)) == Some(n)
  {
    hide PREFIX;
    assert Pow10(3) == 1000;
    DecWidth(n, 3);
    ValueOfPadded(n, 3);
    var d := PadStart(Dec(n), 3);
    assert (PREFIX + d)[|PREFIX|..] == d;
  }

  lemma {:induction false} ThreeDigitsAtMost(s: string)
    requires AllDigits(s)
    ensures Value(s) < Pow10(|s|)
  {
    if s != "" { ThreeDigitsAtMost(s[..|s| - 1]); }
  }

  lemma {:induction false} MaxUsedSmall(ids: seq<string>)
    ensures MaxUsed(ids) <= 999
  {
    hide UsedNumber;
    if ids != [] {
      MaxUsedSmall(ids[..|ids| - 1]);
      UsedSmall(ids[|ids| - 1]);
    }
  }

  lemma UsedSmall(id: string)
    ensures UsedNumber(id).Some? ==> UsedNumber(id).value <= 999
  {
    if UsedNumber(id).Some? {
      ThreeDigitsAtMost(id[|PREFIX|..]);
      assert Pow10(3) == 1000;
    }
  }

  /** The number the fold finds is one some id uses, or 0. */
  lemma {:induction false} MaxUsedMeans(ids: seq<string>)
    ensures MaxUsed(ids) == 0 || exists i :: 0 <= i < |ids| && UsedNumber(ids[i]) == Some(MaxUsed(ids))
  {
    hide UsedNumber;
    if ids != [] {
      var front := ids[..|ids| - 1];
      MaxUsedMeans(front);
      if MaxUsed(ids) == MaxUsed(front) && MaxUsed(front) != 0 {
        var i :| 0 <= i < |front| && UsedNumber(front[i]) == Some(MaxUsed(front));
        assert ids[i] == front[i];
      }
    }
  }

  /** The next planning id is new exactly while the largest three-digit number is at most 998, or the four-digit id that
      follows it has not been handed out yet. */
  lemma {:induction false} NextIdIsNew(ids: seq<string>)
    ensures NextId(ids) !in ids <==> MaxUsed(ids) <= 998 || PREFIX + "1000" !in ids
  {
    hide UsedNumber, MaxUsed, PREFIX;
    MaxUsedSmall(ids);
    var m := MaxUsed(ids);
    if m <= 998 {
      ThreeDigits(m + 1);
    } else {
      assert Dec(10) == "10" && Dec(100) == "100" && Dec(1000) == "1000";
      assert NextId(ids) == PREFIX + "1000";
    }
  }

  /** The fold that finds the next number, item by item. */
  method NextPlanningInspectionId(ids: seq<string>) returns (id: string)
    ensures id == NextId(ids)
  {
    var max := 0;
    for i := 0 to |ids|
      invariant max == MaxUsed(ids[..i])
    {
      assert ids[..i + 1][..i] == ids[..i];
      var used := UsedNumber(ids[i]);
      if used.Some? && used.value > max { max := used.value; }
    }
    assert ids[..|ids|] == ids;
    id := PREFIX + PadStart(Dec(max + 1), 3);
  }

  // ----- the planning state as the program keeps it -----

  /** A planning item whose fields each step overwrites; every check throws before the first change. */
  class PlanningItem {
    const id: string
    const category: Category
    const plannedDate: string
    var approvalOutcome: Outcome
    var status: PrepStatus
    var lead: string
    var leadUserId: string
    var proposedTeam: seq<string>
    var startDate: string
    var endDate: string
    var resources: string
    var package: Option<Package>
    var history: seq<PrepEntry>
    var auditId: string

    function Preparation(): Prep
      reads this
    {
      Prep(status, lead, leadUserId, proposedTeam, startDate, endDate, resources, package, history)
    }

    function View(): Item
      reads this
    {
      Item(id, approvalOutcome, category, plannedDate, Preparation(), auditId)
    }

    constructor (item: Item)
      ensures View() == item
    {
      id, category, plannedDate, approvalOutcome, auditId := item.id, item.category, item.plannedDate, item.approval, item.auditId;
      status, lead, leadUserId, proposedTeam := item.prep.status, item.prep.lead, item.prep.leadUserId, item.prep.team;
      startDate, endDate, resources := item.prep.start, item.prep.end, item.prep.resources;
      package, history := item.prep.package, item.prep.history;
    }

    /** Appends the action just taken, under the name the actor gave. */
    method AppendHistory(actor: PrepActor)
      modifies this`history
      ensures Preparation() == Recorded(old(Preparation()), actor)
    {
      history := history + [PrepEntry(if actor.name != "" then actor.name else "Unknown actor", actor.role, status)];
    }

    method ReleaseItem(actor: PrepActor) returns (refused: Option<PrepRefusal>)
      modifies this
      ensures Follows(Release(old(View()), actor), old(View()), View(), refused)
    {
      hide Recorded;
      if approvalOutcome != Approved { return Some(NotApprovedYet); }
      if actor.role != Gm { return Some(WrongRole); }
      status := ReleasedToDepartment;
      AppendHistory(actor);
      refused := None;
    }

    method AcceptItem(actor: PrepActor) returns (refused: Option<PrepRefusal>)
      modifies this
      ensures Follows(Accept(old(View()), actor), old(View()), View(), refused)
    {
      hide Recorded;
      if actor.role != Manager { return Some(WrongRole); }
      if status != ReleasedToDepartment { return Some(NotReleasedYet); }
      status := AcceptedByDepartment;
      AppendHistory(actor);
      refused := None;
    }

    method AssignLead(users: seq<User>, actor: PrepActor, name: string, userId: string) returns (refused: Option<PrepRefusal>)
      modifies this
      ensures Follows(Assign(users, old(View()), actor, name, userId), old(View()), View(), refused)
    {
      hide Recorded, LeadUserId, Blank;
      if actor.role != Manager { return Some(WrongRole); }
      if status != AcceptedByDepartment { return Some(NotAcceptedYet); }
      if Blank(name) { return Some(LeadRequired); }
      status := LeadAssigned;
      lead := name;
      leadUserId := LeadUserId(users, name, userId);
      AppendHistory(actor);
      refused := None;
    }

    method ProposeTeam(actor: PrepActor, team: seq<string>, start: string, end: string, needs: string)
      returns (refused: Option<PrepRefusal>)
      modifies this
      ensures Follows(Propose(old(View()), actor, team, start, end, needs), old(View()), View(), refused)
    {
      hide Recorded;
      if !actor.role.Lead? { return Some(WrongRole); }
      if status != LeadAssigned { return Some(NotAssignedYet); }
      if leadUserId != "" {
        if actor.userId != "" && actor.userId != leadUserId { return Some(NotTheLead); }
        if actor.userId == "" && actor.name != lead { return Some(NotTheLead); }
      }
      if team == [] || start == "" || end == "" { return Some(TeamAndDatesRequired); }
      status := TeamProposed;
      proposedTeam := team;
      startDate := start;
      endDate := end;
      resources := if needs != "" then needs else "Mock resources to be confirmed by Department Manager.";
      AppendHistory(actor);
      refused := None;
    }

    method RecordAudit(newId: string)
      modifies this`auditId, this`package
      ensures View() == WithAudit(old(View()), newId)
    {
      auditId := newId;
      if package.Some? { package := Some(package.value.(auditId := newId)); }
    }

    method ConfirmPreparation(actor: PrepActor) returns (refused: Option<PrepRefusal>)
      modifies this
      ensures Follows(Confirm(old(View()), actor), old(View()), View(), refused)
    {
      hide Recorded;
      if actor.role != Manager { return Some(WrongRole); }
      if status == ReadyForExecution && package.Some? { return None; }
      if status != TeamProposed { return Some(NotProposedYet); }
      status := ReadyForExecution;
      package := Some(Package(lead, leadUserId, proposedTeam, startDate, endDate, ""));
      AppendHistory(actor);
      refused := None;
    }
  }

  /** A step in place did what its specification says: the new value, or a refusal and no change. */
  predicate Follows(expected: Result<Item, PrepRefusal>, before: Item, after: Item, refused: Option<PrepRefusal>) {
    match expected
    case Ok(item) => refused.None? && after == item
    case Err(why) => refused == Some(why) && after == before
  }

  class PlanningTarget {
    var users: seq<User>
    var items: seq<PlanningItem>
    var audits: seq<Audit>
    var teams: seq<Team>
    var workspaces: set<string>
    var coordinations: seq<Coordination>
    var auditSeq: nat

    ghost predicate Valid()
      reads this
    {
      forall i, j :: 0 <= i < j < |items| ==> items[i] != items[j]
    }

    function ItemViews(): (views: seq<Item>)
      reads this, items
      ensures |views| == |items| && forall i :: 0 <= i < |items| ==> views[i] == items[i].View()
    {
      seq(|items|, i requires 0 <= i < |items| reads this, items => items[i].View())
    }

    function View(): World
      reads this, items
    {
      World(users, ItemViews(), audits, teams, workspaces, coordinations, auditSeq)
    }

    /** One preparation step on one item object; the other items and the audit records are untouched. */
    method Prepare(e: Event) returns (refused: Option<PrepRefusal>)
      requires Valid() && !e.MakeAudit? && e.i < |items|
      modifies items[e.i]
      ensures Valid() && View() == Step(old(View()), e)
    {
      hide PreparedItem, Materialize;
      ghost var before := ItemViews();
      refused := PrepareItem(items[e.i], e);
      assert ItemViews() == before[e.i := items[e.i].View()];
      assert before == before[e.i := before[e.i]];
    }

    method PrepareItem(item: PlanningItem, e: Event) returns (refused: Option<PrepRefusal>)
      requires !e.MakeAudit?
      modifies item
      ensures Follows(PreparedItem(users, old(item.View()), e), old(item.View()), item.View(), refused)
    {
      hide Release, Accept, Assign, Propose, Confirm, Materialize;
      match e {
        case ReleaseIt(_, actor) => refused := item.ReleaseItem(actor);
        case AcceptIt(_, actor) => refused := item.AcceptItem(actor);
        case AssignIt(_, actor, lead, userId) => refused := item.AssignLead(users, actor, lead, userId);
        case ProposeIt(_, actor, team, start, end, resources) => refused := item.ProposeTeam(actor, team, start, end, resources);
        case ConfirmIt(_, actor) => refused := item.ConfirmPreparation(actor);
        case ApprovalChanges(_, outcome) =>
          item.approvalOutcome := outcome;
          refused := None;
      }
    }

    /** Makes the audit of a ready item, once, with its team, workspace and coordination record. */
    method MaterializeReady(i: nat) returns (r: Result<bool, PrepRefusal>)
      requires Valid() && i < |items|
      modifies this, items[i]
      ensures Valid() && View() == Step(old(View()), MakeAudit(i))
      ensures items == old(items) && (r.Err? || !r.value ==> View() == old(View()))
    {
      hide AuditOf, TeamOf, CoordinationOf, AuditKnown, WithAudit;
      var item := items[i];
      if item.status != ReadyForExecution { return Err(NotReady); }
      if item.auditId != "" && AuditKnown(audits, item.auditId) { return Ok(false); }
      var notice := NoticeOf(item.category);
      if notice.None? { return Err(CategoryRequired); }
      ghost var before := ItemViews();
      var audit := AuditOf(item.View(), auditSeq, notice.value);
      audits := audits + [audit];
      auditSeq := auditSeq + 1;
      item.RecordAudit(audit.id);
      teams := teams + [TeamOf(users, audit)];
      workspaces := workspaces + {audit.id};
      coordinations := coordinations + [CoordinationOf(audit)];
      assert ItemViews() == before[i := item.View()];
      r := Ok(true);
    }
  }
}
