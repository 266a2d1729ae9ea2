/** How a report travels from the Lead Inspector over the Department Manager, the General Manager and the Executive Director
    to the Service Provider, and who sees it on the way. */
module ReportPipeline {
  import opened Basics
  import opened Texts

  // ----- data -----

  datatype ReportType = Preliminary | Final | OtherType(name: string)

  datatype Status = PendingManager | RevisionRequested | ReturnedToLead | SubmittedToGm | SubmittedToExecutive
    | ReleasedToServiceProvider | Issued | ReturnedToManager | Rejected | EnforcementReferred | Closed | OtherStatus(name: string)

  datatype Owner = LeadOwner | ManagerOwner | GmOwner | ExecutiveOwner | ProviderOwner | EnforcementOwner | NoOwner

  datatype Act = LeadSubmitted | ManagerApproved | RevisionAsked | ManagerReturned | GmForwarded | GmReturned | EdIssued
    | EdReturned | EdRejected | EdReferred

  /** A report object's own fields; None is a property the object does not have. */
  datatype Fields = Fields(status: Status, owner: Option<Owner>, locked: Option<bool>, issued: Option<bool>,
    sharedAt: Option<string>, history: seq<Act>)

  /** The artifact of an audit and the manager's projection of it; a report may lack the artifact. */
  datatype Report = Report(kind: ReportType, artifact: Option<Fields>, projection: Fields)

  // ----- what readers see -----

  function Merged<T>(projection: Option<T>, artifact: Option<T>): Option<T> { if artifact.Some? then artifact else projection }

  /** `Object.assign({}, projection, artifact)`. */
  function ReadModel(r: Report): Fields {
    match r.artifact
    case None => r.projection
    case Some(a) =>
      var p := r.projection;
      Fields(a.status, Merged(p.owner, a.owner), Merged(p.locked, a.locked), Merged(p.issued, a.issued),
        Merged(p.sharedAt, a.sharedAt), a.history)
  }

  predicate Truthy(s: Option<string>) { s.Some? && s.value != "" }

  predicate VisibleToProvider(kind: ReportType, f: Fields) {
    match kind
    case Preliminary => f.status.ReleasedToServiceProvider? || f.status.Closed? || Truthy(f.sharedAt)
    case Final => f.status.Issued? && f.issued == Some(true) && f.locked == Some(true)
    case OtherType(_) => false
  }

  predicate InManagerQueue(kind: ReportType, f: Fields) { f.status.PendingManager? }

  predicate InGmQueue(kind: ReportType, f: Fields) {
    !kind.OtherType? && f.status.SubmittedToGm? && f.owner == Some(GmOwner) && f.locked != Some(true)
  }

  predicate InExecutiveQueue(kind: ReportType, f: Fields) { !kind.OtherType? && f.status.SubmittedToExecutive? }

  // ----- decisions -----

  datatype ManagerChoice = ApproveReport | AskRevision | ReturnToLead | NoManagerChoice
  datatype GmChoice = ForwardToExecutive | ReturnToDepartment | NoGmChoice
  datatype ExecutiveChoice = IssueReport | ReturnReport | RejectReport | ReferForEnforcement | NoExecutiveChoice

  datatype Refusal = WrongActor | NotEligible | ChooseDecision | CommentRequired | NoTransition | CategoryRequired

  function ManagerDecision(kind: ReportType, f: Fields, choice: ManagerChoice, comment: string): Result<Fields, Refusal> {
    if !f.status.PendingManager? then Err(NotEligible)
    else match choice
      case NoManagerChoice => Err(ChooseDecision)
      case AskRevision =>
        if Blank(comment) then Err(CommentRequired)
        else Ok(f.(status := RevisionRequested, owner := Some(LeadOwner), history := f.history + [RevisionAsked]))
      case ReturnToLead =>
        if Blank(comment) then Err(CommentRequired)
        else Ok(f.(status := ReturnedToLead, owner := Some(LeadOwner), history := f.history + [ManagerReturned]))
      case ApproveReport =>
        if kind.OtherType? then Err(NoTransition)
        else Ok(f.(status := SubmittedToGm, owner := Some(GmOwner), history := f.history + [ManagerApproved]))
  }

  function GmDecision(kind: ReportType, f: Fields, byGm: bool, choice: GmChoice, comment: string): Result<Fields, Refusal> {
    if !byGm then Err(WrongActor)
    else if kind.OtherType? || !f.status.SubmittedToGm? || f.owner != Some(GmOwner) || f.locked == Some(true) then Err(NotEligible)
    else match choice
      case NoGmChoice => Err(ChooseDecision)
      case ForwardToExecutive =>
        Ok(f.(status := SubmittedToExecutive, owner := Some(ExecutiveOwner), locked := Some(false), issued := Some(false),
          history := f.history + [GmForwarded]))
      case ReturnToDepartment =>
        if Blank(comment) then Err(CommentRequired)
        else Ok(f.(status := PendingManager, owner := Some(ManagerOwner), locked := Some(false),
          history := f.history + [GmReturned]))
  }

  /** `at` is the time of the decision, never empty. */
  function ExecutiveDecision(kind: ReportType, f: Fields, byExecutive: bool, choice: ExecutiveChoice, rationale: string,
    category: string, at: string): Result<Fields, Refusal>
  {
    if !byExecutive then Err(WrongActor)
    else if kind.OtherType? || !f.status.SubmittedToExecutive? || f.owner != Some(ExecutiveOwner) || f.locked == Some(true)
    then Err(NotEligible)
    else if choice.NoExecutiveChoice? || (choice.ReferForEnforcement? && !kind.Final?) then Err(ChooseDecision)
    else if choice.ReferForEnforcement? && Blank(category) then Err(CategoryRequired)
    else if !choice.IssueReport? && Blank(rationale) then Err(CommentRequired)
    else match choice
      case IssueReport =>
        if kind.Preliminary? then
          Ok(f.(status := ReleasedToServiceProvider, owner := Some(ProviderOwner), locked := Some(true), sharedAt := Some(at),
            history := f.history + [EdIssued]))
        else
          Ok(f.(status := Issued, owner := Some(ProviderOwner), locked := Some(true), issued := Some(true),
            history := f.history + [EdIssued]))
      case ReturnReport =>
        if kind.Preliminary? then
          Ok(f.(status := SubmittedToGm, owner := Some(GmOwner), locked := Some(false), history := f.history + [EdReturned]))
        else Ok(f.(status := ReturnedToManager, owner := Some(ManagerOwner), history := f.history + [EdReturned]))
      case ReferForEnforcement =>
        Ok(f.(status := EnforcementReferred, owner := Some(EnforcementOwner), history := f.history + [EdReferred]))
      case _ =>
        if kind.Preliminary? then
          Ok(f.(status := Rejected, owner := Some(NoOwner), locked := Some(false), history := f.history + [EdRejected]))
        else Ok(f.(status := Rejected, owner := Some(NoOwner), history := f.history + [EdRejected]))
  }

  // ----- events -----

  datatype Event =
    | ByManager(managerChoice: ManagerChoice, comment: string)
    | ByGm(byGm: bool, gmChoice: GmChoice, comment: string)
    | ByExecutive(byExecutive: bool, executiveChoice: ExecutiveChoice, rationale: string, category: string, at: string)
    | LeadSubmits

  predicate WellTimed(e: Event) { e.ByExecutive? ==> e.at != "" }

  /** The object `managerReportById` finds: the artifact, or the projection when there is none. */
  function Held(r: Report): Fields { if r.artifact.Some? then r.artifact.value else r.projection }

  function WithHeld(r: Report, f: Fields): Report {
    if r.artifact.Some? then r.(artifact := Some(f)) else r.(projection := f)
  }

  function Decided(r: Report, e: Event): Result<Fields, Refusal>
    requires !e.LeadSubmits?
  {
    match e
    case ByManager(choice, comment) => ManagerDecision(r.kind, Held(r), choice, comment)
    case ByGm(byGm, choice, comment) => GmDecision(r.kind, Held(r), byGm, choice, comment)
    case ByExecutive(byExecutive, choice, rationale, category, at) =>
      ExecutiveDecision(r.kind, Held(r), byExecutive, choice, rationale, category, at)
  }

  /** The Lead's submit handlers look at no lock. The preliminary one writes the projection's status and owner and the
      artifact's status only; the final one writes the artifact and its history, and needs an artifact. */
  function LeadSubmission(r: Report): Report {
    match r.kind
    case Preliminary =>
      var p := r.projection.(status := PendingManager, owner := Some(ManagerOwner));
      r.(projection := p, artifact := if r.artifact.Some? then Some(r.artifact.value.(status := PendingManager)) else None)
    case Final =>
      if r.artifact.None? then r
      else
        var a := r.artifact.value;
        r.(artifact := Some(a.(status := PendingManager, owner := Some(ManagerOwner), history := a.history + [LeadSubmitted])))
    case OtherType(_) => r
  }

  function Step(r: Report, e: Event): Report {
    if e.LeadSubmits? then LeadSubmission(r)
    else match Decided(r, e)
      case Ok(f) => WithHeld(r, f)
      case Err(_) => r
  }

  function Run(r: Report, events: seq<Event>): Report
    decreases |events|
  {
    if events == [] then r else Run(Step(r, events[0]), events[1..])
  }

  // ----- what a visible report's history shows -----

  function Last(h: seq<Act>): Act
    requires h != []
  {
    h[|h| - 1]
  }

  /** The history of a report before the GM: just approved by the manager, or sent back by the Executive Director. */
  predicate AtGm(kind: ReportType, h: seq<Act>) {
    h != [] && (Last(h).ManagerApproved? || (kind.Preliminary? && Last(h).EdReturned? && AtExecutive(kind, h[..|h| - 1])))
  }

  /** Before the Executive Director: just forwarded by the GM. */
  predicate AtExecutive(kind: ReportType, h: seq<Act>) { h != [] && Last(h).GmForwarded? && AtGm(kind, h[..|h| - 1]) }

  /** Approved by the manager, then the GM, then the Executive Director, in that order and last. */
  predicate ApprovedInOrder(kind: ReportType, h: seq<Act>) { h != [] && Last(h).EdIssued? && AtExecutive(kind, h[..|h| - 1]) }

  predicate Delivered(f: Fields) { f.status.ReleasedToServiceProvider? || f.status.Issued? }

  predicate Sound(r: Report) {
    var f := Held(r);
    && (f.status.SubmittedToGm? ==> AtGm(r.kind, f.history) && f.owner == Some(GmOwner))
    && (f.status.SubmittedToExecutive? ==> AtExecutive(r.kind, f.history) && f.owner == Some(ExecutiveOwner))
    && (Delivered(f) ==> ApprovedInOrder(r.kind, f.history) && f.owner == Some(ProviderOwner))
    && (f.status.ReleasedToServiceProvider? ==> r.kind.Preliminary?)
    && (f.status.Issued? ==> r.kind.Final? && f.issued == Some(true))
    && (f.locked == Some(true) <==> Delivered(f))
    && (Truthy(f.sharedAt) ==> f.status.ReleasedToServiceProvider?)
    && (r.artifact.Some? ==> !Truthy(r.projection.sharedAt))
    && !f.status.Closed?
  }

  /** A report that starts unlocked and unshared, before the GM's desk. */
  predicate Fresh(r: Report) {
    var f := Held(r);
    && f.locked != Some(true) && !Truthy(f.sharedAt) && !Truthy(r.projection.sharedAt)
    && !(f.status.SubmittedToGm? || f.status.SubmittedToExecutive? || Delivered(f) || f.status.Closed?)
  }

  lemma DecisionSound(r: Report, e: Event)
    requires Sound(r) && WellTimed(e) && !e.LeadSubmits? && Decided(r, e).Ok?
    ensures Sound(WithHeld(r, Decided(r, e).value))
  {
    hide Blank, AtGm, AtExecutive, ApprovedInOrder;
    var h := Held(r).history;
    var h' := Decided(r, e).value.history;
    assert h' == h + [Last(h')];
    assert (AtGm(r.kind, h') <==> Last(h').ManagerApproved? || (r.kind.Preliminary? && Last(h').EdReturned? && AtExecutive(r.kind, h)))
      && (AtExecutive(r.kind, h') <==> Last(h').GmForwarded? && AtGm(r.kind, h))
      && (ApprovedInOrder(r.kind, h') <==> Last(h').EdIssued? && AtExecutive(r.kind, h)) by { HistoryGrows(r.kind, h, Last(h')); }
  }

  lemma HistoryGrows(kind: ReportType, h: seq<Act>, act: Act)
    ensures var h' := h + [act];
            && (AtGm(kind, h') <==> act.ManagerApproved? || (kind.Preliminary? && act.EdReturned? && AtExecutive(kind, h)))
            && (AtExecutive(kind, h') <==> act.GmForwarded? && AtGm(kind, h))
            && (ApprovedInOrder(kind, h') <==> act.EdIssued? && AtExecutive(kind, h))
  {
  }

  /** A submission by the Lead keeps the pipeline sound exactly while the report is not delivered. */
  lemma SubmissionSound(r: Report)
    requires Sound(r) && !r.kind.OtherType? && (r.kind.Final? ==> r.artifact.Some?)
    ensures Sound(LeadSubmission(r)) <==> Held(r).locked != Some(true)
  {
    hide AtGm, AtExecutive, ApprovedInOrder;
  }

  // ----- whole runs -----

  /** The Lead submits only while the report is unlocked. */
  predicate LegalRun(r: Report, events: seq<Event>)
    decreases |events|
  {
    events == [] ||
    (WellTimed(events[0]) && (events[0].LeadSubmits? ==> Held(r).locked != Some(true)) && LegalRun(Step(r, events[0]), events[1..]))
  }

  /** Owning the report is enough: what the Lead owns is never locked. */
  lemma LeadOwnsUnlocked(r: Report)
    requires Sound(r) && Held(r).owner == Some(LeadOwner)
    ensures Held(r).locked != Some(true)
  {
  }

  lemma StepSound(r: Report, e: Event)
    requires Sound(r) && WellTimed(e) && (e.LeadSubmits? ==> Held(r).locked != Some(true))
    ensures Sound(Step(r, e)) && Step(r, e).kind == r.kind
  {
    hide Sound, Decided;
    if e.LeadSubmits? {
      if r.kind.Preliminary? || (r.kind.Final? && r.artifact.Some?) { SubmissionSound(r); }
    } else if Decided(r, e).Ok? {
      DecisionSound(r, e);
    }
  }

  lemma {:induction false} RunSound(r: Report, events: seq<Event>)
    requires Sound(r) && LegalRun(r, events)
    ensures Sound(Run(r, events)) && Run(r, events).kind == r.kind
    decreases |events|
  {
    hide Sound, Step;
    if events != [] {
      StepSound(r, events[0]);
      RunSound(Step(r, events[0]), events[1..]);
    }
  }

  lemma VisibleMeansDelivered(r: Report)
    requires Sound(r)
    ensures VisibleToProvider(r.kind, ReadModel(r)) <==> Delivered(Held(r))
  {
    hide AtGm, AtExecutive, ApprovedInOrder;
  }

  /** In every legal run from a fresh report, the Service Provider sees it only when its history ends with the approvals of
      the manager, the GM and the Executive Director, in that order. */
  lemma VisibleMeansApprovedInOrder(r: Report, events: seq<Event>)
    requires Fresh(r) && LegalRun(r, events)
    ensures var r' := Run(r, events);
            VisibleToProvider(r'.kind, ReadModel(r')) ==> ApprovedInOrder(r'.kind, Held(r').history)
  {
    hide Run, ReadModel, VisibleToProvider, ApprovedInOrder;
    RunSound(r, events);
    VisibleMeansDelivered(Run(r, events));
  }

  lemma VisibleStep(r: Report, e: Event)
    requires Sound(r) && VisibleToProvider(r.kind, ReadModel(r)) && (e.LeadSubmits? ==> Held(r).locked != Some(true))
    ensures Step(r, e) == r
  {
    hide AtGm, AtExecutive, ApprovedInOrder, Blank;
    VisibleMeansDelivered(r);
  }

  /** Once the Service Provider sees a report, nothing in a legal run changes it. */
  lemma {:induction false} VisibleIsFinal(r: Report, events: seq<Event>)
    requires Sound(r) && VisibleToProvider(r.kind, ReadModel(r)) && LegalRun(r, events)
    ensures Run(r, events) == r
    decreases |events|
  {
    hide Sound, Step, VisibleToProvider, ReadModel;
    if events != [] {
      VisibleStep(r, events[0]);
      VisibleIsFinal(r, events[1..]);
    }
  }

  // ----- queues -----

  lemma AtMostOneQueue(kind: ReportType, f: Fields)
    ensures !(InManagerQueue(kind, f) && InGmQueue(kind, f))
    ensures !(InManagerQueue(kind, f) && InExecutiveQueue(kind, f))
    ensures !(InGmQueue(kind, f) && InExecutiveQueue(kind, f))
  {
  }

  predicate OwnsItsFields(r: Report) { r.artifact.Some? && r.artifact.value.owner.Some? && r.artifact.value.locked.Some? }

  /** Where an artifact has its own owner and lock, a queue takes it up exactly when that desk would accept a decision on it,
      whatever the projection says. */
  lemma QueueIsWhoMayDecide(r: Report, comment: string, at: string)
    requires Sound(r) && OwnsItsFields(r) && !Blank(comment)
    ensures InManagerQueue(r.kind, ReadModel(r)) <==> ManagerDecision(r.kind, Held(r), AskRevision, comment).Ok?
    ensures InGmQueue(r.kind, ReadModel(r)) <==> GmDecision(r.kind, Held(r), true, ReturnToDepartment, comment).Ok?
    ensures InExecutiveQueue(r.kind, ReadModel(r)) <==> ExecutiveDecision(r.kind, Held(r), true, RejectReport, comment, "", at).Ok?
  {
    hide AtGm, AtExecutive, ApprovedInOrder, Blank;
  }

  lemma QueueIgnoresProjection(r: Report, stale: Fields)
    requires OwnsItsFields(r)
    ensures var f, g := ReadModel(r), ReadModel(r.(projection := stale));
            && (InManagerQueue(r.kind, f) <==> InManagerQueue(r.kind, g)) && (InGmQueue(r.kind, f) <==> InGmQueue(r.kind, g))
            && (InExecutiveQueue(r.kind, f) <==> InExecutiveQueue(r.kind, g))
  {
  }

  /** Without an own lock the projection shows through: a report the GM may decide is missing from the GM's queue exactly when
      its projection says it is locked. */
  lemma StaleLockHidesReport(r: Report)
    requires r.artifact.Some? && r.artifact.value.locked.None?
    requires GmDecision(r.kind, Held(r), true, ForwardToExecutive, "").Ok?
    ensures InGmQueue(r.kind, ReadModel(r)) <==> r.projection.locked != Some(true)
  {
  }

  /** A Final Report the Executive Director returned stands in no queue, and every decision on it is refused. */
  lemma ReturnedFinalIsStuck(r: Report, e: Event)
    requires Held(r).status.ReturnedToManager? && !e.LeadSubmits?
    ensures Step(r, e) == r
    ensures !InManagerQueue(r.kind, ReadModel(r)) && !InGmQueue(r.kind, ReadModel(r)) && !InExecutiveQueue(r.kind, ReadModel(r))
  {
    hide Blank;
  }

  /** The statuses a report has while one of the three desks has it. */
  predicate AtDesk(f: Fields) {
    f.status.PendingManager? || f.status.SubmittedToGm? || f.status.SubmittedToExecutive? || f.status.ReturnedToManager?
  }

  predicate InSomeQueue(kind: ReportType, f: Fields) {
    InManagerQueue(kind, f) || InGmQueue(kind, f) || InExecutiveQueue(kind, f)
  }

  /** No decision of anyone changes the report. */
  ghost predicate NobodyMayDecide(r: Report) { forall e: Event :: !e.LeadSubmits? ==> Step(r, e) == r }

  /** Of the reports at a desk exactly those the Executive Director returned to the manager are in no queue, and exactly on
      those every decision is refused. */
  lemma StuckExactly(r: Report)
    requires Sound(r) && OwnsItsFields(r) && !r.kind.OtherType? && AtDesk(Held(r))
    ensures InSomeQueue(r.kind, ReadModel(r)) <==> !Held(r).status.ReturnedToManager?
    ensures NobodyMayDecide(r) <==> Held(r).status.ReturnedToManager?
  {
    hide AtGm, AtExecutive, ApprovedInOrder, Blank, Decided, NobodyMayDecide;
    if Held(r).status.ReturnedToManager? {
      forall e: Event | !e.LeadSubmits? ensures Step(r, e) == r { ReturnedFinalIsStuck(r, e); }
      assert NobodyMayDecide(r) by { NobodyMeans(r); }
    } else {
      var e := DeskDecision(r);
    }
  }

  lemma NobodyMeans(r: Report)
    requires forall e: Event :: !e.LeadSubmits? ==> Step(r, e) == r
    ensures NobodyMayDecide(r)
  {
    hide Step;
  }

  /** A decision the report's desk may take. */
  lemma DeskDecision(r: Report) returns (e: Event)
    requires Sound(r) && !r.kind.OtherType? && AtDesk(Held(r)) && !Held(r).status.ReturnedToManager?
    ensures !e.LeadSubmits? && Step(r, e) != r && !NobodyMayDecide(r)
  {
    hide AtGm, AtExecutive, ApprovedInOrder, Blank;
    e := if Held(r).status.PendingManager? then ByManager(ApproveReport, "")
         else if Held(r).status.SubmittedToGm? then ByGm(true, ForwardToExecutive, "")
         else ByExecutive(true, IssueReport, "", "", "");
    assert Decided(r, e).Ok?;
    assert Decided(r, e).value.history != Held(r).history;
  }

  /** That status is reached in one way: the Executive Director returned a Final Report, and nothing happened since. */
  predicate ReturnIsLast(r: Report) {
    var h := Held(r).history;
    Held(r).status.ReturnedToManager? <==> r.kind.Final? && h != [] && Last(h).EdReturned?
  }

  lemma StepReturns(r: Report, e: Event)
    requires ReturnIsLast(r)
    ensures ReturnIsLast(Step(r, e)) && Step(r, e).kind == r.kind
  {
    hide Blank;
  }

  /** In every run, legal or not, from a report of which this is true (such as one with no history yet): it is stuck at the
      manager's desk exactly when it is a Final Report and its last entry is a return by the Executive Director; so a
      Preliminary Report never is. */
  lemma {:induction false} ReturnedExactly(r: Report, events: seq<Event>)
    requires ReturnIsLast(r)
    ensures ReturnIsLast(Run(r, events)) && Run(r, events).kind == r.kind
    ensures r.kind.Preliminary? ==> !Held(Run(r, events)).status.ReturnedToManager?
    decreases |events|
  {
    hide Step, Last;
    if events != [] {
      StepReturns(r, events[0]);
      ReturnedExactly(Step(r, events[0]), events[1..]);
    }
  }

  lemma FieldsStayOwn(r: Report, e: Event)
    requires OwnsItsFields(r)
    ensures OwnsItsFields(Step(r, e))
  {
    hide Blank;
  }

  lemma {:induction false} RunOwnsFields(r: Report, events: seq<Event>)
    requires OwnsItsFields(r)
    ensures OwnsItsFields(Run(r, events))
    decreases |events|
  {
    hide Step, OwnsItsFields;
    if events != [] {
      FieldsStayOwn(r, events[0]);
      RunOwnsFields(Step(r, events[0]), events[1..]);
    }
  }

  /** In every legal run from a fresh report with its own fields: a report at a desk is in a queue, and open to a decision,
      unless it is a Final Report the Executive Director just returned. */
  lemma {:induction false} AtDeskMeansQueued(r: Report, events: seq<Event>)
    requires Fresh(r) && LegalRun(r, events) && OwnsItsFields(r) && !r.kind.OtherType?
    requires ReturnIsLast(r)
    ensures var r' := Run(r, events); var h := Held(r').history;
            AtDesk(Held(r')) ==>
              (InSomeQueue(r'.kind, ReadModel(r')) <==> !(r.kind.Final? && h != [] && Last(h).EdReturned?))
              && (NobodyMayDecide(r') <==> r.kind.Final? && h != [] && Last(h).EdReturned?)
  {
    hide Run, LegalRun, Last, AtDesk, InSomeQueue, ReadModel, NobodyMayDecide, OwnsItsFields, AtGm, AtExecutive, ApprovedInOrder;
    RunSound(r, events);
    RunOwnsFields(r, events);
    ReturnedExactly(r, events);
    if AtDesk(Held(Run(r, events))) { StuckExactly(Run(r, events)); }
  }

  /** Why the Lead must not submit a delivered report: the provider still sees a preliminary one that is back in the manager's
      queue. */
  lemma SubmittingDeliveredPreliminary(r: Report)
    requires Sound(r) && r.kind.Preliminary? && r.artifact.Some?
    requires Held(r).status.ReleasedToServiceProvider? && Truthy(Held(r).sharedAt)
    ensures var r' := LeadSubmission(r); VisibleToProvider(r'.kind, ReadModel(r')) && InManagerQueue(r'.kind, ReadModel(r'))
  {
    hide AtGm, AtExecutive, ApprovedInOrder;
  }

  // ----- the objects the handlers write -----

  class ReportObject {
    var status: Status
    var ownerRole: Option<Owner>
    var locked: Option<bool>
    var issued: Option<bool>
    var sharedAt: Option<string>
    var history: seq<Act>

    function View(): Fields
      reads this
    {
      Fields(status, ownerRole, locked, issued, sharedAt, history)
    }

    constructor (f: Fields)
      ensures View() == f
    {
      status, ownerRole, locked, issued, sharedAt, history := f.status, f.owner, f.locked, f.issued, f.sharedAt, f.history;
    }

    method ApplyManagerDecision(kind: ReportType, choice: ManagerChoice, comment: string) returns (refused: Option<Refusal>)
      modifies this
      ensures Follows(ManagerDecision(kind, old(View()), choice, comment), old(View()), View(), refused)
    {
      if status != PendingManager { return Some(NotEligible); }
      if choice == NoManagerChoice { return Some(ChooseDecision); }
      if (choice == AskRevision || choice == ReturnToLead) && Blank(comment) { return Some(CommentRequired); }
      var act := RevisionAsked;
      if choice == AskRevision {
        status, ownerRole := RevisionRequested, Some(LeadOwner);
      } else if choice == ReturnToLead {
        status, ownerRole, act := ReturnedToLead, Some(LeadOwner), ManagerReturned;
      } else if kind == Preliminary || kind == Final {
        status, ownerRole, act := SubmittedToGm, Some(GmOwner), ManagerApproved;
      } else {
        return Some(NoTransition);
      }
      history := history + [act];
      refused := None;
    }

    method ApplyGeneralManagerDecision(kind: ReportType, byGm: bool, choice: GmChoice, comment: string)
      returns (refused: Option<Refusal>)
      modifies this
      ensures Follows(GmDecision(kind, old(View()), byGm, choice, comment), old(View()), View(), refused)
    {
      if !byGm { return Some(WrongActor); }
      if kind.OtherType? || status != SubmittedToGm || ownerRole != Some(GmOwner) || locked == Some(true) {
        return Some(NotEligible);
      }
      if choice == NoGmChoice { return Some(ChooseDecision); }
      if choice == ReturnToDepartment && Blank(comment) { return Some(CommentRequired); }
      if choice == ForwardToExecutive {
        status := SubmittedToExecutive;
        ownerRole := Some(ExecutiveOwner);
        locked := Some(false);
        issued := Some(false);
        history := history + [GmForwarded];
      } else {
        status := PendingManager;
        ownerRole := Some(ManagerOwner);
        locked := Some(false);
        history := history + [GmReturned];
      }
      refused := None;
    }

    method ApplyExecutivePreliminaryDecision(byExecutive: bool, choice: ExecutiveChoice, rationale: string, category: string,
        at: string)
      returns (refused: Option<Refusal>)
      modifies this
      ensures Follows(ExecutiveDecision(Preliminary, old(View()), byExecutive, choice, rationale, category, at),
        old(View()), View(), refused)
    {
      if !byExecutive { return Some(WrongActor); }
      if status != SubmittedToExecutive || ownerRole != Some(ExecutiveOwner) || locked == Some(true) { return Some(NotEligible); }
      if choice == NoExecutiveChoice || choice == ReferForEnforcement { return Some(ChooseDecision); }
      if choice != IssueReport && Blank(rationale) { return Some(CommentRequired); }
      if choice == IssueReport {
        status, ownerRole, locked, sharedAt := ReleasedToServiceProvider, Some(ProviderOwner), Some(true), Some(at);
        history := history + [EdIssued];
      } else if choice == ReturnReport {
        status, ownerRole, locked := SubmittedToGm, Some(GmOwner), Some(false);
        history := history + [EdReturned];
      } else {
        status, ownerRole, locked := Rejected, Some(NoOwner), Some(false);
        history := history + [EdRejected];
      }
      refused := None;
    }

    method ApplyExecutiveFinalDecision(byExecutive: bool, choice: ExecutiveChoice, rationale: string, category: string, at: string)
      returns (refused: Option<Refusal>)
      modifies this
      ensures Follows(ExecutiveDecision(Final, old(View()), byExecutive, choice, rationale, category, at),
        old(View()), View(), refused)
    {
      if !byExecutive { return Some(WrongActor); }
      if status != SubmittedToExecutive || ownerRole != Some(ExecutiveOwner) || locked == Some(true) { return Some(NotEligible); }
      if choice == NoExecutiveChoice { return Some(ChooseDecision); }
      if choice == ReferForEnforcement && Blank(category) { return Some(CategoryRequired); }
      if choice != IssueReport && Blank(rationale) { return Some(CommentRequired); }
      if choice == IssueReport {
        status, ownerRole, issued, locked := Issued, Some(ProviderOwner), Some(true), Some(true);
        history := history + [EdIssued];
      } else if choice == ReferForEnforcement {
        status, ownerRole := EnforcementReferred, Some(EnforcementOwner);
        history := history + [EdReferred];
      } else if choice == ReturnReport {
        status, ownerRole := ReturnedToManager, Some(ManagerOwner);
        history := history + [EdReturned];
      } else {
        status, ownerRole := Rejected, Some(NoOwner);
        history := history + [EdRejected];
      }
      refused := None;
    }
  }

  /** A handler in place did what its specification says: the new fields, or a refusal and no change. */
  predicate Follows(expected: Result<Fields, Refusal>, before: Fields, after: Fields, refused: Option<Refusal>) {
    match expected
    case Ok(f) => refused.None? && after == f
    case Err(why) => refused == Some(why) && after == before
  }

  /** A report in the two lists the state keeps; the artifact and the projection are different objects. */
  class ReportTarget {
    const kind: ReportType
    const artifact: ReportObject?
    const projection: ReportObject

    ghost predicate Valid() { artifact != projection }

    function View(): Report
      reads artifact, projection
    {
      Report(kind, if artifact == null then None else Some(artifact.View()), projection.View())
    }

    constructor (kind: ReportType, artifact: ReportObject?, projection: ReportObject)
      requires artifact != projection
      ensures Valid() && this.kind == kind && this.artifact == artifact && this.projection == projection
    {
      this.kind, this.artifact, this.projection := kind, artifact, projection;
    }

    /** `managerReportById`. */
    function HeldObject(): ReportObject { if artifact != null then artifact else projection }

    method Decide(e: Event) returns (refused: Option<Refusal>)
      requires Valid() && !e.LeadSubmits?
      modifies HeldObject()
      ensures View() == Step(old(View()), e)
    {
      hide ManagerDecision, GmDecision, ExecutiveDecision;
      var report := HeldObject();
      match e {
        case ByManager(choice, comment) => refused := report.ApplyManagerDecision(kind, choice, comment);
        case ByGm(byGm, choice, comment) => refused := report.ApplyGeneralManagerDecision(kind, byGm, choice, comment);
        case ByExecutive(byExecutive, choice, rationale, category, at) =>
          if kind == Preliminary {
            refused := report.ApplyExecutivePreliminaryDecision(byExecutive, choice, rationale, category, at);
          } else if kind == Final {
            refused := report.ApplyExecutiveFinalDecision(byExecutive, choice, rationale, category, at);
          } else {
            NoExecutiveForOthers(kind, report.View(), byExecutive, choice, rationale, category, at);
            refused := Some(NotEligible);
          }
      }
    }

    method SubmitByLead()
      requires Valid()
      modifies artifact, projection
      ensures View() == Step(old(View()), LeadSubmits)
    {
      if kind == Preliminary {
        projection.status := PendingManager;
        projection.ownerRole := Some(ManagerOwner);
        if artifact != null { artifact.status := PendingManager; }
      } else if kind == Final && artifact != null {
        artifact.status := PendingManager;
        artifact.ownerRole := Some(ManagerOwner);
        artifact.history := artifact.history + [LeadSubmitted];
      }
    }
  }

  lemma NoExecutiveForOthers(kind: ReportType, f: Fields, byExecutive: bool, choice: ExecutiveChoice, rationale: string,
    category: string, at: string)
    requires kind.OtherType?
    ensures ExecutiveDecision(kind, f, byExecutive, choice, rationale, category, at).Err?
  {
  }
}
