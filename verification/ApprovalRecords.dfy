/** Approval records as the program keeps them: objects whose fields each decision overwrites in place. */
module ApprovalRecords {
  import opened Basics
  import opened Texts
  import opened ApprovalChain

  class ApprovalRecord {
    const kind: Kind
    const budgetRequired: bool
    const chain: seq<Stage>
    const policy: Policy
    var currentIndex: int
    var outcome: Outcome
    var history: seq<Entry>
    var financeReview: Option<Review>
    var status: Status

    /** The record's present value. */
    function View(): Record
      reads this
    {
      Record(kind, budgetRequired, chain, policy, currentIndex, outcome, history, financeReview, status)
    }

    constructor (r: Record)
      ensures View() == r
    {
      kind, budgetRequired, chain, policy := r.kind, r.budgetRequired, r.chain, r.policy;
      currentIndex, outcome, history, financeReview, status := r.index, r.outcome, r.history, r.review, r.status;
    }

    method AppendHistory(actor: Actor, action: Action, comment: string)
      modifies this`history
      ensures history == old(history) + [NewEntry(actor, action, comment)]
    {
      history := history + [NewEntry(actor, action, comment)];
    }

    method SetStatusFromChain(action: Action)
      modifies this`status
      ensures status == StatusFor(old(View()), action)
    {
      status := StatusFor(View(), action);
    }

    method Advance(actor: Actor, comment: string, action: Action)
      requires HasStage(View())
      modifies this
      ensures View() == Advanced(old(View()), actor, comment, action)
    {
      hide StatusFor, NewEntry;
      var nextIndex := currentIndex + 1;
      if nextIndex >= |chain| {
        outcome := Approved;
        AppendHistory(actor, ApprovedStage, comment);
        SetStatusFromChain(ApprovedStage);
        return;
      }
      currentIndex := nextIndex;
      AppendHistory(actor, action, comment);
      SetStatusFromChain(action);
    }

    /** Every check comes before the first change, so a refused decision leaves the record as it was. */
    method ApplyDecision(input: Input) returns (refused: Option<Refusal>)
      modifies this
      ensures match Decide(old(View()), input)
              case Ok(r) => refused.None? && View() == r
              case Err(why) => refused == Some(why) && View() == old(View())
    {
      hide StatusFor, NewEntry, ReturnIndex, StageIndex, NotApprovedRole, Trim;
      var actor, comment, reason := input.actor, input.Comment(), input.Reason();
      if !HasStage(View()) { return Some(NoCurrentStage); }
      var stage := Current(View());
      if actor.role != stage.role { return Some(OwnerRequired(stage.role)); }
      match input.decision {
        case Return(override) =>
          if reason == "" { return Some(ReasonRequired); }
          currentIndex := ReturnIndex(View(), override);
          outcome := Pending;
          AppendHistory(actor, Returned, reason);
          SetStatusFromChain(Returned);
        case Reject =>
          if reason == "" { return Some(ReasonRequired); }
          outcome := Rejected;
          AppendHistory(actor, RejectedStage, reason);
          SetStatusFromChain(RejectedStage);
        case FinanceNotApproved =>
          if reason == "" { return Some(ReasonRequired); }
          if stage.role != Finance { return Some(FinanceOnly); }
          ReviewIgnored(View(), Some(Review(BudgetNotApproved, actor.name, reason)), NotApprovedRole(stage));
          financeReview := Some(Review(BudgetNotApproved, actor.name, reason));
          currentIndex := ReturnIndex(View(), NotApprovedRole(stage));
          outcome := Pending;
          AppendHistory(actor, NotApproved, reason);
          SetStatusFromChain(NotApproved);
        case ForwardEd =>
          if stage.role == Gm && budgetRequired { return Some(FinanceMandatory); }
          var edIndex := StageIndex(chain, Some(Executive));
          if edIndex < 0 { return Some(NoExecutiveStage); }
          currentIndex := edIndex;
          AppendHistory(actor, Forwarded, comment);
          SetStatusFromChain(Forwarded);
        case ApproveWithAdjustment =>
          if stage.role != Finance { return Some(FinanceOnly); }
          financeReview := Some(Review(BudgetAdjusted, actor.name, comment));
          Advance(actor, comment, ApprovedWithAdjustment);
        case Approve =>
          if stage.role == Finance { financeReview := Some(Review(BudgetApproved, actor.name, comment)); }
          Advance(actor, comment, if stage.role == Manager then Submitted else ApprovedStage);
        case Forward =>
          Advance(actor, comment, if stage.role == Manager then Submitted else Forwarded);
        case Unsupported(name) =>
          return Some(UnsupportedDecision(name));
      }
      refused := None;
    }
  }

  lemma ReviewIgnored(r: Record, review: Option<Review>, role: Option<Role>)
    requires HasStage(r)
    ensures ReturnIndex(r.(review := review), role) == ReturnIndex(r, role)
  {
  }

  // ----- the status a record shows -----

  predicate KnownRole(kind: Kind, role: Role) {
    match kind
    case Checklist => role.Manager? || role.Gm?
    case Report => role.Lead? || role.Manager? || role.Gm? || role.Executive?
    case Planning => role.Manager? || role.Finance? || role.Gm? || role.Executive?
  }

  predicate ShowsApproved(s: Status) { s.ChecklistApproved? || s.FinalReportGenerated? || s.PlanApproved? }

  predicate ShowsRejected(s: Status) { s.ChecklistRejected? || s.ReportRejected? || s.PlanRejected? }

  /** Whose desk a status names, by the labels shown for it. */
  function AwaitedRole(s: Status): Option<Role> {
    match s
    case ChecklistReturned => Some(Manager)
    case ChecklistUnderReview => Some(Gm)
    case ReleasedToServiceProvider => Some(Lead)
    case ReturnedToLead => Some(Lead)
    case ReturnedToDm => Some(Manager)
    case SubmittedToDmFinal => Some(Manager)
    case SubmittedToDm => Some(Manager)
    case ReturnedToGm => Some(Gm)
    case SubmittedToGm => Some(Gm)
    case SubmittedToEd => Some(Executive)
    case ReturnedToDepartmentManager => Some(Manager)
    case SentToFinance => Some(Finance)
    case UnderGmReview => Some(Gm)
    case PendingEdApproval => Some(Executive)
    case _ => None
  }

  /** After every accepted decision on a chain of the kind's own roles, the status shows approval or rejection exactly when
      that is the outcome, names the desk of the current stage otherwise, and is one of the kind's own values: a checklist is
      never shown as published. */
  lemma StatusShowsOutcome(r: Record, input: Input)
    requires Decide(r, input).Ok? && forall i :: 0 <= i < |r.chain| ==> KnownRole(r.kind, r.chain[i].role)
    ensures ShowsOutcome(Decide(r, input).value)
  {
    hide Decide, ShowsOutcome, KnownRole, StatusFresh;
    DecideShape(r, input);
    StatusIsFresh(r, input);
    FreshShowsOutcome(Decide(r, input).value);
  }

  predicate ShowsOutcome(r: Record) {
    && HasStage(r)
    && (ShowsApproved(r.status) <==> r.outcome.Approved?) && (ShowsRejected(r.status) <==> r.outcome.Rejected?)
    && (r.outcome.Pending? ==> AwaitedRole(r.status) == Some(Current(r).role))
    && !r.status.OtherStatus?
  }

  lemma FreshShowsOutcome(r: Record)
    requires HasStage(r) && StatusFresh(r) && KnownRole(r.kind, Current(r).role)
    ensures ShowsOutcome(r)
  {
    hide Contains;
  }

  lemma StatusIsFresh(r: Record, input: Input)
    requires Decide(r, input).Ok?
    ensures var r' := Decide(r, input).value; r'.kind == r.kind && StatusFresh(r')
  {
    hide StatusFresh, StatusFor, NewEntry, ReturnIndex, StageIndex, NotApprovedRole, Trim;
  }
}
