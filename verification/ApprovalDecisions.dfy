/** What each decision on an approval chain needs and what it leaves behind, written out on the chain itself. */
module ApprovalDecisions {
  import opened Basics
  import opened Texts
  import opened ApprovalChain

  /** The reason given, or the comment where there is none. */
  function Stated(input: Input): string { if input.rawReason == "" then Trim(input.rawComment) else Trim(input.rawReason) }

  predicate HasRole(chain: seq<Stage>, role: Role) { exists k :: 0 <= k < |chain| && chain[k].role == role }

  predicate FirstWithRole(chain: seq<Stage>, role: Role, k: int) {
    0 <= k < |chain| && chain[k].role == role && forall j :: 0 <= j < k ==> chain[j].role != role
  }

  /** A decision is accepted exactly from the owner of the current stage, with a reason where one is asked for, on the stages and
      items it is meant for. */
  lemma AcceptedExactly(r: Record, input: Input)
    ensures Decide(r, input).Ok?
            <==> && 0 <= r.index < |r.chain| && input.actor.role == r.chain[r.index].role
                 && match input.decision
                    case Return(_) => Stated(input) != ""
                    case Reject => Stated(input) != ""
                    case FinanceNotApproved => Stated(input) != "" && input.actor.role.Finance?
                    case ForwardEd => HasRole(r.chain, Executive) && !(input.actor.role.Gm? && r.budgetRequired)
                    case ApproveWithAdjustment => input.actor.role.Finance?
                    case Approve => true
                    case Forward => true
                    case Unsupported(_) => false
  {
    hide StatusFor, Trim, ReturnIndex, NotApprovedRole, NewEntry, StatusFresh, Advanced;
    assert HasRole(r.chain, Executive) <==> StageIndex(r.chain, Some(Executive)) >= 0 by { RoleFound(r.chain, Executive); }
    hide HasRole, StageIndex;
  }

  lemma RoleFound(chain: seq<Stage>, role: Role)
    ensures HasRole(chain, role) <==> StageIndex(chain, Some(role)) >= 0
    ensures HasRole(chain, role) ==> FirstWithRole(chain, role, StageIndex(chain, Some(role)))
  {
    hide StageIndexFrom;
  }

  function OneBack(index: int): int { if index == 0 then 0 else index - 1 }

  /** Where a return leaves the record: at the first stage of the role named by the decision, or else by the stage; where no role
      is named, one stage back or at the start, as the policy says; and one stage back where no stage has the role. */
  lemma ReturnGoesTo(r: Record, input: Input)
    requires input.decision.Return? && Decide(r, input).Ok?
    ensures var k := Decide(r, input).value.index;
            match input.decision.role
            case Some(role) =>
              role != OtherRole("") ==> if HasRole(r.chain, role) then FirstWithRole(r.chain, role, k) else k == OneBack(r.index)
            case None =>
              match r.chain[r.index].returnToRole
              case Some(role) =>
                role != OtherRole("") ==> if HasRole(r.chain, role) then FirstWithRole(r.chain, role, k) else k == OneBack(r.index)
              case None => k == if r.policy.Origin? then 0 else OneBack(r.index)
  {
    hide StatusFor, Trim, StageIndex, HasRole, FirstWithRole, Decide;
    DecideShape(r, input);
    DecideMoves(r, input);
    match input.decision.role
    case Some(role) => RoleFound(r.chain, role);
    case None =>
      if r.chain[r.index].returnToRole.Some? { RoleFound(r.chain, r.chain[r.index].returnToRole.value); } else { NoRole(r.chain); }
  }

  lemma NoRole(chain: seq<Stage>)
    ensures StageIndex(chain, None) == -1
  {
  }

  /** A budget that is not approved goes back to the role the stage names for it, or else to the manager. */
  lemma NotApprovedGoesTo(r: Record, input: Input)
    requires input.decision.FinanceNotApproved? && Decide(r, input).Ok?
    ensures var k := Decide(r, input).value.index; var named := r.chain[r.index].notApprovedReturnToRole;
            var role := if named.Some? && named.value != OtherRole("") then named.value else Manager;
            if HasRole(r.chain, role) then FirstWithRole(r.chain, role, k) else k == OneBack(r.index)
  {
    hide StatusFor, Trim, StageIndex, HasRole, FirstWithRole, Decide;
    DecideShape(r, input);
    DecideMoves(r, input);
    var named := r.chain[r.index].notApprovedReturnToRole;
    RoleFound(r.chain, if named.Some? && named.value != OtherRole("") then named.value else Manager);
  }

  /** One more entry: the actor in the acting role, the action and the text, trimmed. */
  predicate Adds(r: Record, r': Record, actor: Actor, action: Action, text: string) {
    r'.history == r.history + [Entry(if actor.name == "" then "Unknown actor" else actor.name, actor.role, action, Trim(text))]
  }

  lemma NotedAdds(r: Record, actor: Actor, action: Action, comment: string)
    ensures Adds(r, Noted(r, actor, action, comment), actor, action, comment)
  {
    hide StatusFor, StatusFresh, Trim;
  }

  /** What goes back, is rejected or is not approved is noted with its reason. */
  lemma ReasonNoted(r: Record, input: Input)
    requires Decide(r, input).Ok?
    ensures var r' := Decide(r, input).value;
            match input.decision
            case Return(_) => Adds(r, r', input.actor, Returned, Stated(input))
            case Reject => Adds(r, r', input.actor, RejectedStage, Stated(input))
            case FinanceNotApproved => Adds(r, r', input.actor, NotApproved, Stated(input))
            case _ => true
  {
    hide StatusFor, Trim, Noted, NotApprovedRole, StatusFresh, ReturnIndex, Advanced, StageIndex;
    var actor, text := input.actor, Stated(input);
    assert text == input.Reason();
    match input.decision
    case Return(o) => NotedAdds(r.(index := ReturnIndex(r, o), outcome := Pending), actor, Returned, text);
    case Reject => NotedAdds(r.(outcome := Rejected), actor, RejectedStage, text);
    case FinanceNotApproved =>
      NotedAdds(r.(review := Some(Review(BudgetNotApproved, actor.name, input.Reason())),
        index := ReturnIndex(r, NotApprovedRole(Current(r))), outcome := Pending), actor, NotApproved, text);
    case _ =>
  }

  /** What goes on is noted with its comment: at the last stage as an approval, before it by decision and role. */
  lemma CommentNoted(r: Record, input: Input)
    requires Decide(r, input).Ok? && 0 <= r.index < |r.chain|
    ensures var r' := Decide(r, input).value; var last := r.index == |r.chain| - 1; var text := Trim(input.rawComment);
            match input.decision
            case ForwardEd => Adds(r, r', input.actor, Forwarded, text)
            case ApproveWithAdjustment => Adds(r, r', input.actor, if last then ApprovedStage else ApprovedWithAdjustment, text)
            case Approve => Adds(r, r', input.actor, if last || !input.actor.role.Manager? then ApprovedStage else Submitted, text)
            case Forward =>
              Adds(r, r', input.actor, if last then ApprovedStage else if input.actor.role.Manager? then Submitted else Forwarded, text)
            case _ => true
  {
    hide StatusFor, Trim, Adds, Noted, NotApprovedRole, StatusFresh, ReturnIndex, StageIndex;
    var actor, text := input.actor, input.Comment();
    match input.decision
    case ForwardEd =>
      var r1 := r.(index := StageIndex(r.chain, Some(Executive)));
      NotedAdds(r1, actor, Forwarded, text);
      SameHistory(r, r1, Decide(r, input).value, actor, Forwarded, text);
    case ApproveWithAdjustment =>
      AdvancedAdds(r, r.(review := Some(Review(BudgetAdjusted, actor.name, text))), actor, text, ApprovedWithAdjustment);
    case Approve =>
      var r1 := if actor.role.Finance? then r.(review := Some(Review(BudgetApproved, actor.name, text))) else r;
      AdvancedAdds(r, r1, actor, text, if actor.role.Manager? then Submitted else ApprovedStage);
    case Forward => AdvancedAdds(r, r, actor, text, if actor.role.Manager? then Submitted else Forwarded);
    case _ =>
  }

  lemma SameHistory(r: Record, r1: Record, r': Record, actor: Actor, action: Action, text: string)
    requires r1.history == r.history && Adds(r1, r', actor, action, text)
    ensures Adds(r, r', actor, action, text)
  {
  }

  lemma AdvancedAdds(r: Record, r1: Record, actor: Actor, comment: string, action: Action)
    requires HasStage(r1) && r1.history == r.history && r1.index == r.index && r1.chain == r.chain
    ensures Adds(r, Advanced(r1, actor, comment, action), actor, if r.index == |r.chain| - 1 then ApprovedStage else action, comment)
  {
    hide Noted, StatusFresh, Trim;
    NotedAdds(r1.(outcome := Approved), actor, ApprovedStage, comment);
    NotedAdds(r1.(index := r1.index + 1), actor, action, comment);
  }

  /** The budget review an accepted decision leaves: Finance's verdict with its text and name, and otherwise the one there was. */
  lemma ReviewSays(r: Record, input: Input)
    requires Decide(r, input).Ok?
    ensures var r' := Decide(r, input).value;
            match input.decision
            case FinanceNotApproved => r'.review == Some(Review(BudgetNotApproved, input.actor.name, Stated(input)))
            case ApproveWithAdjustment => r'.review == Some(Review(BudgetAdjusted, input.actor.name, Trim(input.rawComment)))
            case Approve =>
              r'.review == if input.actor.role.Finance? then Some(Review(BudgetApproved, input.actor.name, Trim(input.rawComment)))
                           else r.review
            case _ => r'.review == r.review
  {
    hide StatusFor, Trim, ReturnIndex, NotApprovedRole, StageIndex, StatusFresh, NewEntry;
  }

  /** And nothing else of the record but its status changes. */
  lemma NothingElse(r: Record, input: Input)
    requires Decide(r, input).Ok?
    ensures var r' := Decide(r, input).value;
            r' == r.(index := r'.index, outcome := r'.outcome, history := r'.history, review := r'.review, status := r'.status)
  {
    hide StatusFor, Trim, ReturnIndex, NotApprovedRole, StageIndex, StatusFresh, NewEntry;
  }

  /** The status shown: by kind and outcome, or by whose desk it is and whether it came back. */
  lemma StatusSays(r: Record, input: Input)
    requires Decide(r, input).Ok?
    ensures var r' := Decide(r, input).value; var back := input.decision.Return?;
            && 0 <= r'.index < |r'.chain|
            && var stage := r'.chain[r'.index];
               match (r.kind, r'.outcome)
               case (Planning, Approved) => r'.status == PlanApproved
               case (Planning, Rejected) => r'.status == PlanRejected
               case (Report, Approved) => r'.status == FinalReportGenerated
               case (Report, Rejected) => r'.status == ReportRejected
               case (Checklist, Approved) => r'.status == ChecklistApproved
               case (Checklist, Rejected) => r'.status == ChecklistRejected
               case (Planning, Pending) =>
                 (stage.role == Manager ==> r'.status == ReturnedToDepartmentManager)
                 && (stage.role == Finance ==> r'.status == SentToFinance)
                 && (stage.role == Gm ==> r'.status == UnderGmReview) && (stage.role == Executive ==> r'.status == PendingEdApproval)
               case (Checklist, Pending) =>
                 (stage.role == Manager ==> r'.status == ChecklistReturned) && (stage.role == Gm ==> r'.status == ChecklistUnderReview)
               case (Report, Pending) =>
                 && (stage.role == Lead ==>
                      r'.status == if !back && Contains(stage.title, "finalization") then ReleasedToServiceProvider
                                                         else ReturnedToLead)
                 && (stage.role == Manager ==>
                      r'.status == if back then ReturnedToDm
                                   else if Contains(stage.title, "final approval") then SubmittedToDmFinal else SubmittedToDm)
                 && (stage.role == Gm ==> r'.status == if back then ReturnedToGm else SubmittedToGm)
                 && (stage.role == Executive ==> r'.status == SubmittedToEd)
  {
    hide Decide, Contains;
    DecideShape(r, input);
    DecideMoves(r, input);
    NothingElse(r, input);
    FreshStatus(r, input);
  }

  lemma FreshStatus(r: Record, input: Input)
    requires Decide(r, input).Ok?
    ensures StatusFresh(Decide(r, input).value)
  {
    hide StatusFor, StatusFresh, NewEntry, ReturnIndex, StageIndex, NotApprovedRole, Trim;
  }

  // ----- a chain can be got through -----

  /** From any stage on: every owner approves in turn, and the record is approved. */
  function Approvals(chain: seq<Stage>, from: nat): seq<Input>
    requires from <= |chain|
    decreases |chain| - from
  {
    if from == |chain| then []
    else [Input(Actor("", chain[from].role), Approve, "", "")] + Approvals(chain, from + 1)
  }

  lemma {:induction false} ChainCompletes(r: Record, moves: seq<Move>)
    requires HasStage(r)
    ensures ApprovalChain.Run(r, moves, Approvals(r.chain, r.index)).0.outcome.Approved?
    decreases |r.chain| - r.index
  {
    hide Decide, Trim;
    var input := Input(Actor("", r.chain[r.index].role), Approve, "", "");
    AcceptedExactly(r, input);
    DecideShape(r, input);
    DecideMoves(r, input);
    var r' := Decide(r, input).value;
    var inputs := Approvals(r.chain, r.index);
    assert inputs[0] == input && inputs[1..] == Approvals(r.chain, r.index + 1);
    var moves' := moves + [Moved(r, r')];
    if r.index + 1 < |r.chain| { ChainCompletes(r', moves'); }
  }
}
