/** The approval chain shared by planning items, checklists and reports, and what an approved outcome is worth. */
module ApprovalChain {
  import opened Basics
  import opened Texts

  datatype Role = Manager | Finance | Gm | Executive | Lead | OtherRole(name: string)

  /** What a history entry says was done. */
  datatype Action = Submitted | Forwarded | ApprovedStage | ApprovedWithAdjustment | Returned | RejectedStage | NotApproved
    | DraftCreated | PublishedVersion

  /** The values `setApprovalStatusFromChain` writes, and whatever else a record may carry. */
  datatype Status =
    | ChecklistApproved | ChecklistRejected | ChecklistReturned | ChecklistUnderReview
    | FinalReportGenerated | ReportRejected | ReleasedToServiceProvider | ReturnedToLead | ReturnedToDm | SubmittedToDmFinal
    | SubmittedToDm | ReturnedToGm | SubmittedToGm | SubmittedToEd
    | PlanApproved | PlanRejected | ReturnedToDepartmentManager | SentToFinance | UnderGmReview | PendingEdApproval
    | OtherStatus(name: string)

  datatype Stage = Stage(role: Role, title: string, returnToRole: Option<Role>, notApprovedReturnToRole: Option<Role>)
  datatype Outcome = Pending | Approved | Rejected
  datatype Policy = PreviousStage | Origin | ConfiguredRole
  datatype Kind = Planning | Checklist | Report
  datatype Verdict = BudgetApproved | BudgetAdjusted | BudgetNotApproved
  datatype Review = Review(verdict: Verdict, reviewer: string, text: string)
  datatype Entry = Entry(actor: string, role: Role, action: Action, comment: string)

  datatype Record = Record(kind: Kind, budgetRequired: bool, chain: seq<Stage>, policy: Policy, index: int, outcome: Outcome,
    history: seq<Entry>, review: Option<Review>, status: Status)

  datatype Actor = Actor(name: string, role: Role)

  datatype Decision = Return(role: Option<Role>) | Reject | FinanceNotApproved | ForwardEd | ApproveWithAdjustment | Approve
    | Forward | Unsupported(name: string)

  datatype Input = Input(actor: Actor, decision: Decision, rawComment: string, rawReason: string) {
    function Comment(): string { Trim(rawComment) }
    function Reason(): string { Trim(if rawReason != "" then rawReason else rawComment) }
  }

  datatype Refusal = NoCurrentStage | OwnerRequired(role: Role) | ReasonRequired | FinanceOnly | FinanceMandatory
    | NoExecutiveStage | UnsupportedDecision(name: string)

  // ----- looking up the chain -----

  /** The first stage of a role, or -1. */
  function StageIndexFrom(chain: seq<Stage>, role: Role, i: nat): (k: int)
    requires i <= |chain|
    ensures k == -1 || (i <= k < |chain| && chain[k].role == role)
    ensures forall j :: i <= j < (if k < 0 then |chain| else k) ==> chain[j].role != role
    decreases |chain| - i
  {
    if i == |chain| then -1 else if chain[i].role == role then i else StageIndexFrom(chain, role, i + 1)
  }

  function StageIndex(chain: seq<Stage>, role: Option<Role>): int {
    if role.None? then -1 else StageIndexFrom(chain, role.value, 0)
  }

  predicate HasStage(r: Record) { 0 <= r.index < |r.chain| }

  function Current(r: Record): Stage
    requires HasStage(r)
  {
    r.chain[r.index]
  }

  predicate Given(role: Option<Role>) { role.Some? && role.value != OtherRole("") }

  function Before(index: int): int { if index > 0 then index - 1 else 0 }

  function ReturnIndex(r: Record, override: Option<Role>): (k: int)
    requires HasStage(r)
    ensures 0 <= k < |r.chain|
  {
    var role := if Given(override) then override else Current(r).returnToRole;
    if !Given(role) && r.policy.PreviousStage? then Before(r.index)
    else if !Given(role) && r.policy.Origin? then 0
    else
      var k := StageIndex(r.chain, role);
      if k < 0 then Before(r.index) else k
  }

  function NotApprovedRole(s: Stage): Option<Role> {
    if Given(s.notApprovedReturnToRole) then s.notApprovedReturnToRole else Some(Manager)
  }

  // ----- the displayed status -----

  function StatusFor(r: Record, action: Action): Status {
    match r.kind
    case Checklist =>
      if r.outcome.Approved? then ChecklistApproved else if r.outcome.Rejected? then ChecklistRejected
      else if !HasStage(r) then r.status
      else (match Current(r).role
        case Manager => ChecklistReturned
        case Gm => ChecklistUnderReview
        case _ => r.status)
    case Report =>
      if r.outcome.Approved? then FinalReportGenerated else if r.outcome.Rejected? then ReportRejected
      else if !HasStage(r) then r.status
      else (match Current(r).role
        case Lead =>
          if Contains(Current(r).title, "finalization") && action != Returned then ReleasedToServiceProvider else ReturnedToLead
        case Manager =>
          if action == Returned then ReturnedToDm
          else if Contains(Current(r).title, "final approval") then SubmittedToDmFinal else SubmittedToDm
        case Gm => if action == Returned then ReturnedToGm else SubmittedToGm
        case Executive => SubmittedToEd
        case _ => r.status)
    case Planning =>
      if r.outcome.Approved? then PlanApproved else if r.outcome.Rejected? then PlanRejected
      else if !HasStage(r) then r.status
      else (match Current(r).role
        case Manager => ReturnedToDepartmentManager
        case Finance => SentToFinance
        case Gm => UnderGmReview
        case Executive => PendingEdApproval
        case _ => r.status)
  }

  // ----- decisions -----

  function NewEntry(actor: Actor, action: Action, comment: string): Entry {
    Entry(if actor.name != "" then actor.name else "Unknown actor", actor.role, action, Trim(comment))
  }

  /** The status is the one the newest history entry calls for. */
  predicate StatusFresh(r: Record) { r.history != [] && r.status == StatusFor(r, r.history[|r.history| - 1].action) }

  /** The same record with one more history entry, made by `role`. */
  predicate OneMore(r: Record, n: Record, role: Role) {
    && n.kind == r.kind && n.chain == r.chain && n.policy == r.policy && n.index == r.index
    && |n.history| == |r.history| + 1 && r.history <= n.history && n.history[|r.history|].role == role
  }

  /** Appends to the history and refreshes the status: the last two lines of every accepted decision. */
  function Noted(r: Record, actor: Actor, action: Action, comment: string): (n: Record)
    ensures StatusFresh(n)
    ensures OneMore(r, n, actor.role)
  {
    hide StatusFor, NewEntry;
    var r' := r.(history := r.history + [NewEntry(actor, action, comment)]);
    StatusForTwice(r', action);
    EntryBy(actor, action, comment);
    r'.(status := StatusFor(r', action))
  }

  /** The status written does not depend on the one it replaces, where it names one. */
  lemma StatusForTwice(r: Record, action: Action)
    ensures StatusFor(r.(status := StatusFor(r, action)), action) == StatusFor(r, action)
  {
    hide Contains;
  }

  lemma EntryBy(actor: Actor, action: Action, comment: string)
    ensures NewEntry(actor, action, comment).role == actor.role && NewEntry(actor, action, comment).action == action
  {
  }

  function Advanced(r: Record, actor: Actor, comment: string, action: Action): Record
    requires HasStage(r)
  {
    if r.index + 1 >= |r.chain| then Noted(r.(outcome := Approved), actor, ApprovedStage, comment)
    else Noted(r.(index := r.index + 1), actor, action, comment)
  }

  function Decide(r: Record, input: Input): Result<Record, Refusal> {
    if !HasStage(r) then Err(NoCurrentStage)
    else if input.actor.role != Current(r).role then Err(OwnerRequired(Current(r).role))
    else
      var actor, role := input.actor, Current(r).role;
      match input.decision
      case Return(override) =>
        if input.Reason() == "" then Err(ReasonRequired)
        else Ok(Noted(r.(index := ReturnIndex(r, override), outcome := Pending), actor, Returned, input.Reason()))
      case Reject =>
        if input.Reason() == "" then Err(ReasonRequired)
        else Ok(Noted(r.(outcome := Rejected), actor, RejectedStage, input.Reason()))
      case FinanceNotApproved =>
        if input.Reason() == "" then Err(ReasonRequired)
        else if role != Finance then Err(FinanceOnly)
        else Ok(Noted(r.(review := Some(Review(BudgetNotApproved, actor.name, input.Reason())),
          index := ReturnIndex(r, NotApprovedRole(Current(r))), outcome := Pending), actor, NotApproved, input.Reason()))
      case ForwardEd =>
        var k := StageIndex(r.chain, Some(Executive));
        if role == Gm && r.budgetRequired then Err(FinanceMandatory)
        else if k < 0 then Err(NoExecutiveStage)
        else Ok(Noted(r.(index := k), actor, Forwarded, input.Comment()))
      case ApproveWithAdjustment =>
        if role != Finance then Err(FinanceOnly)
        else Ok(Advanced(r.(review := Some(Review(BudgetAdjusted, actor.name, input.Comment()))), actor, input.Comment(),
          ApprovedWithAdjustment))
      case Approve =>
        var r' := if role == Finance then r.(review := Some(Review(BudgetApproved, actor.name, input.Comment()))) else r;
        Ok(Advanced(r', actor, input.Comment(), if role == Manager then Submitted else ApprovedStage))
      case Forward =>
        Ok(Advanced(r, actor, input.Comment(), if role == Manager then Submitted else Forwarded))
      case Unsupported(name) => Err(UnsupportedDecision(name))
  }

  /** A refused decision throws before anything is changed. */
  function After(r: Record, input: Input): Record {
    match Decide(r, input)
    case Ok(r') => r'
    case Err(_) => r
  }

  // ----- what a record's history proves -----

  /** Where each history entry found the record and where it left it; a final approval leaves it past the last stage. */
  datatype Move = Move(from: int, to: int)

  predicate Advancing(action: Action) {
    action.Submitted? || action.Forwarded? || action.ApprovedStage? || action.ApprovedWithAdjustment?
  }

  /** Entry h is the last decision to leave stage j, an advance by that stage's own role, and the record stayed beyond j. */
  predicate Passed(r: Record, moves: seq<Move>, j: int, h: int)
    requires |moves| == |r.history|
  {
    && 0 <= j < |r.chain| && 0 <= h < |moves|
    && moves[h].from == j && moves[h].to > j
    && r.history[h].role == r.chain[j].role && Advancing(r.history[h].action)
    && forall k :: h < k < |moves| ==> moves[k].from > j && moves[k].to > j
  }

  /** How many stages the record has behind it. */
  function Reached(r: Record): int { if r.outcome.Approved? then |r.chain| else r.index }

  /** Every stage behind the record was passed by its own role. */
  ghost predicate Earned(r: Record, moves: seq<Move>) {
    && HasStage(r) && |moves| == |r.history|
    && (r.outcome.Approved? ==> r.index == |r.chain| - 1)
    && forall j :: 0 <= j < Reached(r) ==> HasPassed(r, moves, j)
  }

  ghost predicate HasPassed(r: Record, moves: seq<Move>, j: int)
    requires |moves| == |r.history|
  {
    exists h :: Passed(r, moves, j, h)
  }

  function Moved(r: Record, r': Record): Move { Move(r.index, Reached(r')) }

  /** A decision that neither jumps over a stage nor carries an approval backwards. */
  predicate Orderly(r: Record, input: Input)
    requires HasStage(r)
  {
    match input.decision
    case Return(override) => ReturnIndex(r, override) <= r.index
    case FinanceNotApproved => ReturnIndex(r, NotApprovedRole(Current(r))) <= r.index
    case ForwardEd =>
      var k := StageIndex(r.chain, Some(Executive));
      if r.outcome.Approved? then k == r.index else k <= r.index + 1
    case _ => true
  }

  lemma Kept(r: Record, moves: seq<Move>, r': Record, move: Move, j: int, h: int)
    requires |moves| == |r.history| && Passed(r, moves, j, h)
    requires r'.chain == r.chain && |r'.history| == |r.history| + 1 && r.history <= r'.history
    requires move.from > j && move.to > j
    ensures Passed(r', moves + [move], j, h)
  {
  }

  lemma DecideHistory(r: Record, input: Input)
    requires Decide(r, input).Ok?
    ensures var r' := Decide(r, input).value;
            && |r'.history| == |r.history| + 1 && r.history <= r'.history
            && r'.history[|r.history|].role == input.actor.role
  {
    hide Noted, StatusFresh, StatusFor, Trim, StageIndex, ReturnIndex, NotApprovedRole;
  }

  /** What every accepted decision does to the chain and the history. */
  lemma DecideShape(r: Record, input: Input)
    requires Decide(r, input).Ok?
    ensures var r' := Decide(r, input).value;
            && HasStage(r) && HasStage(r') && r'.chain == r.chain && r'.policy == r.policy
            && input.actor.role == Current(r).role && !input.decision.Unsupported?
            && |r'.history| == |r.history| + 1 && r.history <= r'.history
            && r'.history[|r.history|].role == Current(r).role
  {
    hide Decide;
    DecideHistory(r, input);
    DecideByOwner(r, input);
    DecideKeepsChain(r, input);
  }

  lemma DecideByOwner(r: Record, input: Input)
    requires Decide(r, input).Ok?
    ensures HasStage(r) && input.actor.role == Current(r).role && !input.decision.Unsupported?
  {
    hide Noted, Advanced, StatusFresh, Trim, StageIndex, ReturnIndex, NotApprovedRole;
  }

  lemma DecideKeepsChain(r: Record, input: Input)
    requires Decide(r, input).Ok?
    ensures var r' := Decide(r, input).value; HasStage(r') && r'.chain == r.chain && r'.policy == r.policy
  {
    hide Noted, StatusFresh, StatusFor, NewEntry, Trim, StageIndexFrom, NotApprovedRole;
  }

  /** Which decisions advance, and where every decision leaves the record. */
  lemma DecideMoves(r: Record, input: Input)
    requires Decide(r, input).Ok?
    ensures var r' := Decide(r, input).value; var last := r'.history[|r'.history| - 1].action;
            match input.decision
            case Return(override) => r'.index == ReturnIndex(r, override) && r'.outcome.Pending? && last.Returned?
            case Reject => r'.index == r.index && r'.outcome.Rejected? && last.RejectedStage?
            case FinanceNotApproved =>
              r'.index == ReturnIndex(r, NotApprovedRole(Current(r))) && r'.outcome.Pending? && last.NotApproved?
            case ForwardEd => r'.index == StageIndex(r.chain, Some(Executive)) && r'.outcome == r.outcome && last.Forwarded?
            case _ =>
              && Advancing(last)
              && if r.index + 1 >= |r.chain| then r'.index == r.index && r'.outcome.Approved?
                 else r'.index == r.index + 1 && r'.outcome == r.outcome
  {
    hide StatusFor, Trim, StageIndexFrom, Before, NotApprovedRole, ReturnIndex, StageIndex;
  }

  lemma CarriedOver(r: Record, moves: seq<Move>, input: Input)
    requires Earned(r, moves) && Decide(r, input).Ok?
    ensures var r' := Decide(r, input).value; var moves' := moves + [Moved(r, r')];
            && |moves'| == |r'.history|
            && forall j :: 0 <= j < r.index && j < Reached(r') ==> HasPassed(r', moves', j)
  {
    hide Decide, Passed;
    DecideShape(r, input);
    var r' := Decide(r, input).value;
    var move := Moved(r, r');
    forall j | 0 <= j < r.index && j < Reached(r') ensures HasPassed(r', moves + [move], j) {
      assert HasPassed(r, moves, j);
      var h :| Passed(r, moves, j, h);
      Kept(r, moves, r', move, j, h);
    }
  }

  /** The new entry itself passes the stage it leaves, when it advances. */
  lemma NewlyPassed(r: Record, moves: seq<Move>, r': Record)
    requires HasStage(r) && |moves| == |r.history| && r'.chain == r.chain
    requires |r'.history| == |r.history| + 1 && r'.history[|r.history|].role == Current(r).role
    requires Reached(r') > r.index && Advancing(r'.history[|r.history|].action)
    ensures HasPassed(r', moves + [Moved(r, r')], r.index)
  {
    assert Passed(r', moves + [Moved(r, r')], r.index, |moves|);
  }

  /** A stage at or beyond the one just left can only have been passed by the newest entry. */
  lemma OnlyNewest(r: Record, moves: seq<Move>, input: Input, j: int)
    requires |moves| == |r.history| && Decide(r, input).Ok? && j >= r.index
    requires |moves| + 1 == |Decide(r, input).value.history|
    ensures var r' := Decide(r, input).value; var moves' := moves + [Moved(r, r')];
            HasPassed(r', moves', j) ==> j == r.index && Advancing(r'.history[|moves|].action)
  {
    hide Decide, Reached;
    var r' := Decide(r, input).value;
    var moves' := moves + [Moved(r, r')];
    if HasPassed(r', moves', j) {
      var h :| Passed(r', moves', j, h);
      assert moves'[|moves|].from == r.index;
    }
  }

  /** An accepted decision keeps every stage behind the record earned exactly when it is orderly. */
  lemma StepEarned(r: Record, moves: seq<Move>, input: Input)
    requires Earned(r, moves) && Decide(r, input).Ok?
    ensures var r' := Decide(r, input).value;
            Earned(r', moves + [Moved(r, r')]) <==> Orderly(r, input)
  {
    hide Decide, HasPassed, ReturnIndex, StageIndex, NotApprovedRole;
    var r' := Decide(r, input).value;
    DecideShape(r, input);
    DecideMoves(r, input);
    CarriedOver(r, moves, input);
    OnlyNewest(r, moves, input, r.index);
    OnlyNewest(r, moves, input, r.index + 1);
    if Reached(r') > r.index && Advancing(r'.history[|r'.history| - 1].action) { NewlyPassed(r, moves, r'); }
  }

  // ----- whole runs -----

  /** The record after a run of decisions, refused ones included, and the moves of the accepted ones. */
  function Run(r: Record, moves: seq<Move>, inputs: seq<Input>): (Record, seq<Move>)
    decreases |inputs|
  {
    if inputs == [] then (r, moves)
    else match Decide(r, inputs[0])
      case Ok(r') => Run(r', moves + [Moved(r, r')], inputs[1..])
      case Err(_) => Run(r, moves, inputs[1..])
  }

  predicate OrderlyRun(r: Record, inputs: seq<Input>)
    decreases |inputs|
  {
    inputs == [] ||
    match Decide(r, inputs[0])
    case Ok(r') => HasStage(r) && Orderly(r, inputs[0]) && OrderlyRun(r', inputs[1..])
    case Err(_) => OrderlyRun(r, inputs[1..])
  }

  lemma {:induction false} RunEarned(r: Record, moves: seq<Move>, inputs: seq<Input>)
    requires Earned(r, moves) && OrderlyRun(r, inputs)
    ensures var (r', moves') := Run(r, moves, inputs); Earned(r', moves')
    decreases |inputs|
  {
    hide Decide, Earned, Orderly;
    if inputs != [] {
      match Decide(r, inputs[0]) {
        case Ok(r') =>
          StepEarned(r, moves, inputs[0]);
          RunEarned(r', moves + [Moved(r, r')], inputs[1..]);
        case Err(_) =>
          RunEarned(r, moves, inputs[1..]);
      }
    }
  }

  lemma EarnedInOrder(r: Record, moves: seq<Move>, j: int, hj: int, k: int, hk: int)
    requires |moves| == |r.history| && Passed(r, moves, j, hj) && Passed(r, moves, k, hk) && j < k
    ensures hj < hk
  {
  }

  /** A record before its first decision, or as planning intake files it: already submitted once by the first stage. */
  predicate Filed(r: Record) {
    && HasStage(r) && r.outcome.Pending?
    && (|| (r.index == 0 && r.history == [])
        || (r.index == 1 && |r.history| == 1 && r.history[0].role == r.chain[0].role && r.history[0].action.Submitted?))
  }

  function FiledMoves(r: Record): seq<Move> { if r.index == 1 then [Move(0, 1)] else [] }

  lemma FiledIsEarned(r: Record)
    requires Filed(r)
    ensures Earned(r, FiledMoves(r))
  {
    if r.index == 1 { assert Passed(r, FiledMoves(r), 0, 0); }
  }

  ghost function Witness(r: Record, moves: seq<Move>, j: int): int
    requires |moves| == |r.history| && HasPassed(r, moves, j)
    ensures Passed(r, moves, j, Witness(r, moves, j))
  {
    var h :| Passed(r, moves, j, h);
    h
  }

  /** For every orderly run: an approved record's history holds, in chain order, one advancing entry by each stage's own role,
      and since that entry the record was never returned to that stage or before it. */
  lemma {:induction false} ApprovedMeansEveryStageSigned(r0: Record, inputs: seq<Input>) returns (signed: seq<int>)
    requires Filed(r0) && OrderlyRun(r0, inputs) && Run(r0, FiledMoves(r0), inputs).0.outcome.Approved?
    ensures var (r, moves) := Run(r0, FiledMoves(r0), inputs);
            && |moves| == |r.history| && |signed| == |r.chain|
            && (forall j :: 0 <= j < |signed| ==>
                 && 0 <= signed[j] < |r.history|
                 && r.history[signed[j]].role == r.chain[j].role && Advancing(r.history[signed[j]].action)
                 && moves[signed[j]].from == j
                 && forall k :: signed[j] < k < |moves| ==> moves[k].to > j)
            && forall j, k :: 0 <= j < k < |signed| ==> signed[j] < signed[k]
  {
    hide Run, OrderlyRun, Filed, HasPassed;
    FiledIsEarned(r0);
    RunEarned(r0, FiledMoves(r0), inputs);
    var (r, moves) := Run(r0, FiledMoves(r0), inputs);
    signed := seq(|r.chain|, j requires 0 <= j < |r.chain| => Witness(r, moves, j));
    forall j, k | 0 <= j < k < |signed| ensures signed[j] < signed[k] {
      EarnedInOrder(r, moves, j, signed[j], k, signed[k]);
    }
  }

  // ----- chains whose return roles point backwards -----

  /** At every stage the configured return targets are that stage or an earlier one. */
  predicate Backward(chain: seq<Stage>, policy: Policy) {
    forall i :: 0 <= i < |chain| ==>
      BackwardRole(chain, policy, i, chain[i].returnToRole) && BackwardRole(chain, policy, i, NotApprovedRole(chain[i]))
  }

  predicate BackwardRole(chain: seq<Stage>, policy: Policy, i: int, role: Option<Role>) {
    (Given(role) || policy.ConfiguredRole?) ==> StageIndex(chain, role) <= i
  }

  predicate PlainInput(input: Input) { !input.decision.ForwardEd? && (input.decision.Return? ==> !Given(input.decision.role)) }

  lemma BackwardIsOrderly(r: Record, input: Input)
    requires HasStage(r) && Backward(r.chain, r.policy) && PlainInput(input)
    ensures Orderly(r, input)
  {
    hide StageIndex;
    assert BackwardRole(r.chain, r.policy, r.index, Current(r).returnToRole);
    assert BackwardRole(r.chain, r.policy, r.index, NotApprovedRole(Current(r)));
  }

  /** On such a chain every run without `forward_ed` and without a return override is orderly, whatever is refused. */
  lemma {:induction false} PlainRunsAreOrderly(r: Record, inputs: seq<Input>)
    requires Backward(r.chain, r.policy) && forall i :: 0 <= i < |inputs| ==> PlainInput(inputs[i])
    ensures OrderlyRun(r, inputs)
    decreases |inputs|
  {
    hide Decide, Backward, Orderly;
    if inputs != [] {
      match Decide(r, inputs[0]) {
        case Ok(r') =>
          DecideShape(r, inputs[0]);
          BackwardIsOrderly(r, inputs[0]);
          PlainRunsAreOrderly(r', inputs[1..]);
        case Err(_) =>
          PlainRunsAreOrderly(r, inputs[1..]);
      }
    }
  }
}
