/** The approval of planning items: the Finance and Executive screens in front of the chain, and why an item past Finance
    has an approved budget review. */
module PlanningApproval {
  import opened Basics
  import opened Texts
  import opened ApprovalChain

  const PLANNING_CHAIN := [
    Stage(Manager, "Department Manager", None, None),
    Stage(Finance, "Finance Review", Some(Manager), Some(Manager)),
    Stage(Gm, "GM Review", Some(Manager), None),
    Stage(Executive, "Executive Director Approval", Some(Gm), None)]

  /** A planning item as intake files it. */
  function FiledItem(manager: Actor, budgetRequired: bool, comment: string): Record {
    Record(Planning, budgetRequired, PLANNING_CHAIN, ConfiguredRole, 1, Pending,
      [Entry(manager.name, manager.role, Submitted, comment)], None, SentToFinance)
  }

  lemma PlanningChainIsBackward()
    ensures Backward(PLANNING_CHAIN, ConfiguredRole)
  {
    assert StageIndexFrom(PLANNING_CHAIN, Manager, 0) == 0;
    assert StageIndexFrom(PLANNING_CHAIN, Gm, 0) == 2;
  }

  // ----- the screens -----

  datatype FinanceChoice = ApproveBudget | ReturnBudget | NoFinanceChoice
  datatype ExecutiveChoice = ApproveAndSign | RejectPlan | NoExecutiveChoice

  datatype ScreenRefusal = BudgetInvalid | ChooseDecision | CommentRequired | Refused(why: Refusal)

  const FINANCE_DEFAULT := Actor("Finance Review", Finance)
  const EXECUTIVE_DEFAULT := Actor("Executive Director", Executive)

  function FromDecision(r: Result<Record, Refusal>): Result<Record, ScreenRefusal> {
    match r
    case Ok(r') => Ok(r')
    case Err(why) => Err(Refused(why))
  }

  function ActorOr(actor: Option<Actor>, default_: Actor): Actor { if actor.Some? then actor.value else default_ }

  /** `applyFinancePlanningDecision`; `budgetOk` is the verdict of `validatePlanningBudget`. */
  function FinanceDecision(r: Record, budgetOk: bool, choice: FinanceChoice, actor: Option<Actor>, comment: string)
    : Result<Record, ScreenRefusal>
  {
    var decider, text := ActorOr(actor, FINANCE_DEFAULT), Trim(comment);
    if !budgetOk then Err(BudgetInvalid)
    else match choice
      case NoFinanceChoice => Err(ChooseDecision)
      case ReturnBudget =>
        if text == "" then Err(CommentRequired) else FromDecision(Decide(r, Input(decider, FinanceNotApproved, text, text)))
      case ApproveBudget => FromDecision(Decide(r, Input(decider, Approve, text, text)))
  }

  function ExecutiveDecision(r: Record, choice: ExecutiveChoice, actor: Option<Actor>, comment: string)
    : Result<Record, ScreenRefusal>
  {
    var decider, text := ActorOr(actor, EXECUTIVE_DEFAULT), Trim(comment);
    match choice
    case NoExecutiveChoice => Err(ChooseDecision)
    case RejectPlan => if text == "" then Err(CommentRequired) else FromDecision(Decide(r, Input(decider, Reject, text, text)))
    case ApproveAndSign => FromDecision(Decide(r, Input(decider, Approve, text, text)))
  }

  // ----- runs of a planning item -----

  datatype Event =
    | ByFinance(budgetOk: bool, choice: FinanceChoice, financeActor: Option<Actor>, comment: string)
    | ByExecutive(verdict: ExecutiveChoice, executiveActor: Option<Actor>, comment: string)
    | Direct(input: Input)

  function Step(r: Record, e: Event): Result<Record, ScreenRefusal> {
    match e
    case ByFinance(ok, choice, actor, comment) => FinanceDecision(r, ok, choice, actor, comment)
    case ByExecutive(choice, actor, comment) => ExecutiveDecision(r, choice, actor, comment)
    case Direct(input) => FromDecision(Decide(r, input))
  }

  /** A refused event changes nothing. */
  function Next(r: Record, e: Event): Record {
    match Step(r, e)
    case Ok(r') => r'
    case Err(_) => r
  }

  function RunEvents(r: Record, events: seq<Event>): Record
    decreases |events|
  {
    if events == [] then r else RunEvents(Next(r, events[0]), events[1..])
  }

  predicate BudgetReviewed(r: Record) { r.review.Some? && !r.review.value.verdict.BudgetNotApproved? }

  /** Past Finance only with an approved review. */
  predicate Budgeted(r: Record) {
    r.chain == PLANNING_CHAIN && r.policy.ConfiguredRole? && 0 <= r.index < 4 && (r.index >= 2 ==> BudgetReviewed(r))
  }

  /** The decision an event puts to the chain. */
  function DecisionOf(e: Event): Input {
    match e
    case ByFinance(_, choice, actor, comment) =>
      Input(ActorOr(actor, FINANCE_DEFAULT), if choice.ApproveBudget? then Approve else FinanceNotApproved, Trim(comment),
        Trim(comment))
    case ByExecutive(choice, actor, comment) =>
      Input(ActorOr(actor, EXECUTIVE_DEFAULT), if choice.ApproveAndSign? then Approve else Reject, Trim(comment), Trim(comment))
    case Direct(input) => input
  }

  /** An accepted event is that decision, accepted. */
  lemma StepIsDecision(r: Record, e: Event)
    requires Step(r, e).Ok?
    ensures Decide(r, DecisionOf(e)) == Ok(Step(r, e).value)
  {
    hide Trim, Decide;
  }

  /** Finance's own decisions decide what the review says. */
  lemma DecideReviews(r: Record, input: Input)
    requires Decide(r, input).Ok?
    ensures var r' := Decide(r, input).value;
            match input.decision
            case FinanceNotApproved => Current(r).role == Finance && !BudgetReviewed(r')
            case ApproveWithAdjustment => Current(r).role == Finance && BudgetReviewed(r')
            case Approve => if Current(r).role == Finance then BudgetReviewed(r') else r'.review == r.review
            case _ => r'.review == r.review
  {
    hide StatusFor, Trim, StageIndex, ReturnIndex, NotApprovedRole;
  }

  lemma PlanningReturns(r: Record)
    requires r.chain == PLANNING_CHAIN && r.policy.ConfiguredRole? && 0 <= r.index < 4
    ensures ReturnIndex(r, None) == if r.index == 3 then 2 else 0
    ensures r.index == 1 ==> ReturnIndex(r, NotApprovedRole(Current(r))) == 0
    ensures Current(r).role == Finance <==> r.index == 1
    ensures StageIndex(r.chain, Some(Executive)) == 3
  {
    assert StageIndexFrom(PLANNING_CHAIN, Manager, 0) == 0;
    assert StageIndexFrom(PLANNING_CHAIN, Executive, 0) == 3;
    assert StageIndexFrom(PLANNING_CHAIN, Gm, 0) == 2;
  }

  /** A decision that lands behind Finance without an approved review: a plain `forward` at Finance, `forward_ed` before it,
      or a return override that names a later stage. */
  predicate SkipsReview(r: Record, input: Input)
    requires HasStage(r)
  {
    && r.index < 2 && !BudgetReviewed(r)
    && match input.decision
       case Forward => r.index == 1
       case ForwardEd => true
       case Return(override) => ReturnIndex(r, override) >= 2
       case _ => false
  }

  /** An accepted decision keeps the rule exactly when it does not skip the review. */
  lemma DecisionKeepsBudgeted(r: Record, input: Input)
    requires Budgeted(r) && Decide(r, input).Ok?
    ensures Budgeted(Decide(r, input).value) <==> !SkipsReview(r, input)
  {
    hide Decide, ReturnIndex, NotApprovedRole, StageIndex;
    DecideShape(r, input);
    DecideMoves(r, input);
    DecideReviews(r, input);
    PlanningReturns(r);
  }

  /** The item is Budgeted now and after every event. */
  predicate AlwaysBudgeted(r: Record, events: seq<Event>)
    decreases |events|
  {
    Budgeted(r) && (events == [] || AlwaysBudgeted(Next(r, events[0]), events[1..]))
  }

  predicate NeverSkips(r: Record, events: seq<Event>)
    decreases |events|
  {
    events == []
    || ((Step(r, events[0]).Ok? && HasStage(r) ==> !SkipsReview(r, DecisionOf(events[0])))
        && NeverSkips(Next(r, events[0]), events[1..]))
  }

  /** For every run of any events: the item is never past Finance without an approved review exactly when no accepted decision
      skips the review. */
  lemma {:induction false} BudgetedExactly(r: Record, events: seq<Event>)
    requires Budgeted(r)
    ensures AlwaysBudgeted(r, events) <==> NeverSkips(r, events)
    decreases |events|
  {
    hide Step, Budgeted, Decide, SkipsReview, DecisionOf;
    if events != [] {
      assert HasStage(r) by { BudgetedHasStage(r); }
      if Step(r, events[0]).Ok? {
        StepIsDecision(r, events[0]);
        DecisionKeepsBudgeted(r, DecisionOf(events[0]));
      }
      if Budgeted(Next(r, events[0])) {
        BudgetedExactly(Next(r, events[0]), events[1..]);
      }
    }
  }

  lemma BudgetedHasStage(r: Record)
    requires Budgeted(r)
    ensures HasStage(r)
  {
  }

  /** Finance decides on its own screen; nobody uses `forward_ed` or a return override. */
  predicate ThroughScreens(e: Event) { e.Direct? ==> PlainInput(e.input) && e.input.actor.role != Finance }

  lemma ScreensNeverSkip(r: Record, e: Event)
    requires Budgeted(r) && Step(r, e).Ok? && ThroughScreens(e)
    ensures !SkipsReview(r, DecisionOf(e))
  {
    hide Trim, StatusFor;
    StepIsDecision(r, e);
    DecideShape(r, DecisionOf(e));
    PlanningReturns(r);
    if DecisionOf(e).decision.Return? { NoOverride(r, DecisionOf(e).decision.role); }
  }

  lemma NoOverride(r: Record, role: Option<Role>)
    requires HasStage(r) && !Given(role)
    ensures ReturnIndex(r, role) == ReturnIndex(r, None)
  {
  }

  /** In every run where Finance uses its screen, an item at the GM or beyond has an approved (or adjusted) budget review. */
  lemma {:induction false} FinanceReviewComesFirst(r: Record, events: seq<Event>)
    requires Budgeted(r) && forall i :: 0 <= i < |events| ==> ThroughScreens(events[i])
    ensures AlwaysBudgeted(r, events) && Budgeted(RunEvents(r, events))
    decreases |events|
  {
    hide Step, Budgeted, Decide, ThroughScreens, SkipsReview, DecisionOf;
    if events != [] {
      var r' := Next(r, events[0]);
      if Step(r, events[0]).Ok? {
        BudgetedHasStage(r);
        ScreensNeverSkip(r, events[0]);
        StepIsDecision(r, events[0]);
        DecisionKeepsBudgeted(r, DecisionOf(events[0]));
      }
      FinanceReviewComesFirst(r', events[1..]);
    }
  }

  lemma FiledItemIsBudgeted(manager: Actor, budgetRequired: bool, comment: string)
    requires manager.role == Manager
    ensures Budgeted(FiledItem(manager, budgetRequired, comment)) && Filed(FiledItem(manager, budgetRequired, comment))
  {
  }

  // ----- why the screens are needed -----

  /** A plain `forward` at Finance moves on and leaves the review as it was, so it keeps the rule exactly when an approved
      review already stands. */
  lemma PlainForwardAtFinance(r: Record, decider: Actor)
    requires Budgeted(r) && r.index == 1 && decider.role == Finance
    ensures var result := Decide(r, Input(decider, Forward, "", ""));
            && result.Ok? && result.value.index == 2 && (Budgeted(result.value) <==> BudgetReviewed(r))
  {
    hide StatusFor, Trim;
  }

  /** `forward_ed` from the Department Manager is accepted even where the budget is required: two decisions approve an item
      that Finance and the GM never saw. */
  lemma ForwardEdSkipsFinance(r: Record, manager: Actor, director: Actor)
    requires r.chain == PLANNING_CHAIN && r.index == 0 && r.budgetRequired && manager.role == Manager && director.role == Executive
    ensures var r1 := After(r, Input(manager, ForwardEd, "", "")); var r2 := After(r1, Input(director, Approve, "", ""));
            r1.index == 3 && r2.outcome.Approved? && r2.review == r.review && |r2.history| == |r.history| + 2
  {
    hide StatusFor, Trim;
    assert StageIndexFrom(PLANNING_CHAIN, Executive, 0) == 3;
  }

  /** The held-back case: at the GM stage of an item whose budget is required the same decision is refused. */
  lemma ForwardEdHeldAtGm(r: Record, gm: Actor, text: string)
    requires HasStage(r) && Current(r).role == Gm && gm.role == Gm
    ensures Decide(r, Input(gm, ForwardEd, text, text)) == Err(FinanceMandatory) <==> r.budgetRequired
    ensures r.budgetRequired ==> After(r, Input(gm, ForwardEd, text, text)) == r
  {
  }

  // ----- what the screens do, and a way through them -----

  /** Finance on its screen, with a valid budget: approving goes on to the GM under an approved review, returning needs a comment
      and goes back to the manager under a refused one; nothing else is accepted. */
  lemma FinanceScreenMeans(r: Record, budgetOk: bool, choice: FinanceChoice, actor: Option<Actor>, comment: string)
    requires Budgeted(r) && r.index == 1
    ensures var result := FinanceDecision(r, budgetOk, choice, actor, comment); var text := Trim(comment);
            var name := if actor.Some? then actor.value.name else "Finance Review";
            && (result.Ok? <==>
                 && budgetOk && !choice.NoFinanceChoice? && (choice.ReturnBudget? ==> text != "")
                 && (actor.Some? ==> actor.value.role.Finance?))
            && (result.Ok? && choice.ApproveBudget? ==>
                 result.value.index == 2 && result.value.review == Some(Review(BudgetApproved, name, text)))
            && (result.Ok? && choice.ReturnBudget? ==>
                 result.value.index == 0 && result.value.review == Some(Review(BudgetNotApproved, name, text)))
  {
    hide StatusFor, StatusFresh, NewEntry, TrimLeft, TrimRight;
    TrimTwice(comment);
    PlanningReturns(r);
    hide Trim, StageIndex;
  }

  /** The Executive Director on its screen: signing approves the item, rejecting needs a comment. */
  lemma ExecutiveScreenMeans(r: Record, choice: ExecutiveChoice, actor: Option<Actor>, comment: string)
    requires Budgeted(r) && r.index == 3
    ensures var result := ExecutiveDecision(r, choice, actor, comment);
            && (result.Ok? <==>
                 && (choice.ApproveAndSign? || (choice.RejectPlan? && Trim(comment) != ""))
                 && (actor.Some? ==> actor.value.role.Executive?))
            && (choice.RejectPlan? && Trim(comment) == "" ==> result == Err(ScreenRefusal.CommentRequired))
            && (result.Ok? ==>
                 && result.value.index == 3 && result.value.review == r.review
                 && result.value.outcome == if choice.ApproveAndSign? then Outcome.Approved else Outcome.Rejected)
  {
    hide StatusFor, StatusFresh, NewEntry, TrimLeft, TrimRight, StageIndex, ReturnIndex;
    TrimTwice(comment);
    hide Trim;
  }

  lemma GmApproves(r: Record, gm: Actor)
    requires Budgeted(r) && r.index == 2 && gm.role.Gm?
    ensures var result := Decide(r, Input(gm, Approve, "", ""));
            result.Ok? && result.value.index == 3 && result.value.review == r.review && Budgeted(result.value)
  {
    hide StatusFor, StatusFresh, NewEntry, Trim, StageIndex, ReturnIndex;
  }

  lemma PlanShown(r: Record, e: Event)
    requires r.kind.Planning? && Step(r, e).Ok?
    ensures Step(r, e).value.kind.Planning?
    ensures Step(r, e).value.outcome == Outcome.Approved ==> Step(r, e).value.status == PlanApproved
  {
    hide Decide, StatusFor, Trim, DecisionOf;
    StepIsDecision(r, e);
    ApprovedIsShown(r, DecisionOf(e));
  }

  lemma ApprovedIsShown(r: Record, input: Input)
    requires r.kind.Planning? && Decide(r, input).Ok?
    ensures var r' := Decide(r, input).value; r'.kind.Planning? && (r'.outcome == Outcome.Approved ==> r'.status == PlanApproved)
  {
    hide StatusFresh, NewEntry, Trim, StageIndex, ReturnIndex, NotApprovedRole;
    var r' := Decide(r, input).value;
    assert StatusFresh(r') && r'.kind.Planning?;
    hide Decide;
    if StatusFresh(r') && r'.outcome == Outcome.Approved { PlanStatus(r'); }
  }

  lemma PlanStatus(r: Record)
    requires r.kind.Planning? && StatusFresh(r) && r.outcome == Outcome.Approved
    ensures r.status == PlanApproved
  {
  }

  lemma ThreeEvents(r: Record, e1: Event, e2: Event, e3: Event)
    ensures RunEvents(r, [e1, e2, e3]) == Next(Next(Next(r, e1), e2), e3)
  {
    hide Next;
    var r2 := Next(Next(r, e1), e2);
    assert [e1, e2, e3][1..] == [e2, e3] && [e2, e3][1..] == [e3] && [e3][1..] == [];
    assert RunEvents(r2, [e3]) == Next(r2, e3);
    assert RunEvents(Next(r, e1), [e2, e3]) == RunEvents(r2, [e3]);
  }

  /** The way through: a filed item, its budget approved by Finance, approved by the GM, signed by the Executive Director. */
  lemma FiledItemCanBeApproved(manager: Actor, budgetRequired: bool, comment: string, gm: Actor)
    requires manager.role.Manager? && gm.role.Gm?
    ensures var r := FiledItem(manager, budgetRequired, comment);
            var r1 := Next(r, ByFinance(true, ApproveBudget, None, ""));
            var r2 := Next(r1, Direct(Input(gm, Approve, "", "")));
            var r3 := Next(r2, ByExecutive(ApproveAndSign, None, ""));
            && RunEvents(r, [ByFinance(true, ApproveBudget, None, ""), Direct(Input(gm, Approve, "", "")),
                 ByExecutive(ApproveAndSign, None, "")])
               == r3
            && r1.index == 2 && r2.index == 3 && r3.outcome == Outcome.Approved && r3.status == PlanApproved && BudgetReviewed(r3)
  {
    hide Decide, Trim, FinanceDecision, ExecutiveDecision;
    var r := FiledItem(manager, budgetRequired, comment);
    var e1, e2 := ByFinance(true, ApproveBudget, None, ""), Direct(Input(gm, Approve, "", ""));
    var e3 := ByExecutive(ApproveAndSign, None, "");
    ThreeEvents(r, e1, e2, e3);
    FiledItemIsBudgeted(manager, budgetRequired, comment);
    FinanceScreenMeans(r, true, ApproveBudget, None, "");
    ScreensNeverSkip(r, e1);
    StepIsDecision(r, e1);
    DecisionKeepsBudgeted(r, DecisionOf(e1));
    PlanShown(r, e1);
    var r1 := Next(r, e1);
    GmApproves(r1, gm);
    PlanShown(r1, e2);
    var r2 := Next(r1, e2);
    ExecutiveScreenMeans(r2, ApproveAndSign, None, "");
    PlanShown(r2, e3);
  }
}
