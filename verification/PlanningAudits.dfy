/** What an audit made from planning says: the item it was made for, the assignment and the proposal of that item, and the
    notice policy of its category. */
module PlanningAudits {
  import opened Basics
  import opened Texts
  import opened PlanningRelease

  // ----- the steps of preparation, written out -----

  /** Which steps go through: each by its role, on an item in the status before it, with what it needs. */
  lemma StepsGoThroughExactly(w: World, e: Event)
    requires e.i < |w.items|
    ensures var item := w.items[e.i]; var s := item.prep.status;
            match e
            case ReleaseIt(_, actor) => Prepared(w, e).Ok? <==> item.approval.Approved? && actor.role.Gm?
            case AcceptIt(_, actor) => Prepared(w, e).Ok? <==> actor.role.Manager? && s == ReleasedToDepartment
            case AssignIt(_, actor, lead, _) =>
              Prepared(w, e).Ok? <==> actor.role.Manager? && s == AcceptedByDepartment && Trim(lead) != ""
            case ProposeIt(_, actor, team, start, end, _) =>
              Prepared(w, e).Ok? <==>
                && actor.role.Lead? && s == LeadAssigned && team != [] && start != "" && end != ""
                && (item.prep.leadUserId == ""
                    || (if actor.userId != "" then actor.userId == item.prep.leadUserId else actor.name == item.prep.lead))
            case ConfirmIt(_, actor) =>
              Prepared(w, e).Ok? <==>
                actor.role.Manager? && (s == TeamProposed || (s == ReadyForExecution && item.prep.package.Some?))
            case _ => true
  {
    hide Recorded, Trim;
  }

  /** What a step that goes through leaves on its item: the fields it names and one entry of its history. */
  lemma StepsWrite(w: World, e: Event)
    requires e.i < |w.items| && Prepared(w, e).Ok?
    ensures var p, p' := w.items[e.i].prep, Prepared(w, e).value.prep;
            match e
            case ReleaseIt(_, actor) => p' == p.(status := ReleasedToDepartment, history := p'.history) && Noted(p, p', actor)
            case AcceptIt(_, actor) => p' == p.(status := AcceptedByDepartment, history := p'.history) && Noted(p, p', actor)
            case AssignIt(_, actor, lead, userId) =>
              && p' == p.(status := LeadAssigned, lead := lead, leadUserId := p'.leadUserId, history := p'.history)
              && Noted(p, p', actor) && (userId != "" ==> p'.leadUserId == userId)
            case ProposeIt(_, actor, team, start, end, resources) =>
              && p' == p.(status := TeamProposed, team := team, start := start, end := end, resources := p'.resources,
                   history := p'.history)
              && Noted(p, p', actor)
              && (if resources != "" then p'.resources == resources
                  else p'.resources == "Mock resources to be confirmed by Department Manager.")
            case ConfirmIt(_, actor) =>
              if p.status == ReadyForExecution then p' == p
              else && p' == p.(status := ReadyForExecution, package := p'.package, history := p'.history)
                   && Noted(p, p', actor) && p'.package == Some(Package(p.lead, p.leadUserId, p.team, p.start, p.end, ""))
            case ApprovalChanges(_, outcome) => Prepared(w, e).value == w.items[e.i].(approval := outcome)
            case MakeAudit(_) => Prepared(w, e).value == w.items[e.i]
    ensures !e.ApprovalChanges? ==> Prepared(w, e).value == w.items[e.i].(prep := Prepared(w, e).value.prep)
  {
    hide LeadsNamed, Blank;
  }

  /** A step works on its own item and on nothing else; one that is refused changes nothing. */
  lemma StepsKeepOthers(w: World, e: Event)
    requires !e.MakeAudit?
    ensures Step(w, e) == if e.i < |w.items| && Prepared(w, e).Ok? then w.(items := w.items[e.i := Prepared(w, e).value]) else w
  {
    hide PreparedItem;
  }

  /** The history gains one entry: the actor, the role and the status reached. */
  predicate Noted(p: Prep, p': Prep, actor: PrepActor) {
    && |p'.history| == |p.history| + 1 && p.history <= p'.history
    && p'.history[|p.history|].role == actor.role && p'.history[|p.history|].action == p'.status
    && p'.history[|p.history|].actor == if actor.name == "" then "Unknown actor" else actor.name
  }

  // ----- users by name -----

  /** The user of that name the program knows: the last one. */
  predicate LastNamed(users: seq<User>, name: string, k: nat) {
    k < |users| && users[k].name == name && forall j :: k < j < |users| ==> users[j].name != name
  }

  predicate Unnamed(users: seq<User>, name: string) { forall k :: 0 <= k < |users| ==> users[k].name != name }

  lemma {:induction false} UserIdMeans(users: seq<User>, name: string) returns (k: nat)
    ensures if Unnamed(users, name) then UserIdOf(users, name) == ""
            else LastNamed(users, name, k) && UserIdOf(users, name) == users[k].id
  {
    k := |users|;
    if users != [] {
      var n := |users| - 1;
      if users[n].name == name {
        k := n;
      } else {
        k := UserIdMeans(users[..n], name);
        assert Unnamed(users[..n], name) <==> Unnamed(users, name);
      }
    }
  }

  predicate ActiveLead(users: seq<User>, name: string, k: nat) {
    k < |users| && users[k].name == name && users[k].role.Lead? && users[k].active
  }

  lemma {:induction false} NoActiveLead(users: seq<User>, name: string)
    ensures LeadsNamed(users, name) == [] <==> forall k: nat :: !ActiveLead(users, name, k)
  {
    if users != [] {
      NoActiveLead(users[1..], name);
      assert ActiveLead(users, name, 0) ==> LeadsNamed(users, name) != [];
      forall k: nat ensures ActiveLead(users[1..], name, k) ==> ActiveLead(users, name, k + 1) {
      }
      forall k: nat ensures ActiveLead(users, name, k) ==> k == 0 || ActiveLead(users[1..], name, k - 1) {
      }
      if forall k: nat :: !ActiveLead(users, name, k) { assert !ActiveLead(users, name, 0); }
    }
  }

  /** An assignment without a user id takes the one active Lead Inspector of that name. */
  lemma {:induction false} OnlyActiveLead(users: seq<User>, name: string, k: nat)
    requires ActiveLead(users, name, k) && forall j: nat :: ActiveLead(users, name, j) ==> j == k
    ensures LeadsNamed(users, name) == [users[k]] && LeadUserId(users, name, "") == users[k].id
  {
    NoActiveLead(users[1..], name);
    assert forall j: nat :: ActiveLead(users[1..], name, j) ==> ActiveLead(users, name, j + 1);
    if k > 0 {
      assert !ActiveLead(users, name, 0) && ActiveLead(users[1..], name, k - 1);
      OnlyActiveLead(users[1..], name, k - 1);
    } else {
      assert forall j: nat :: !ActiveLead(users[1..], name, j);
      assert LeadsNamed(users, name) == [users[0]];
    }
  }

  /** With several or none, it takes the one user id the program knows by heart, or none. */
  lemma NoOneLead(users: seq<User>, name: string)
    requires (forall j: nat :: !ActiveLead(users, name, j))
      || exists i: nat, j: nat :: i < j && ActiveLead(users, name, i) && ActiveLead(users, name, j)
    ensures LeadUserId(users, name, "") == if name == "Caner Yildiz" then "USR-CANER" else ""
  {
    hide LeadsNamed;
    if forall j: nat :: !ActiveLead(users, name, j) {
      NoActiveLead(users, name);
    } else {
      var i: nat, j: nat :| i < j && ActiveLead(users, name, i) && ActiveLead(users, name, j);
      SeveralLeads(users, name, i, j);
    }
  }

  lemma {:induction false} SeveralLeads(users: seq<User>, name: string, i: nat, j: nat)
    requires i < j && ActiveLead(users, name, i) && ActiveLead(users, name, j)
    ensures |LeadsNamed(users, name)| > 1
  {
    if i > 0 {
      SeveralLeads(users[1..], name, i - 1, j - 1);
    } else {
      SomeLead(users[1..], name, j - 1);
    }
  }

  lemma {:induction false} SomeLead(users: seq<User>, name: string, j: nat)
    requires ActiveLead(users, name, j)
    ensures LeadsNamed(users, name) != []
  {
    if j > 0 { SomeLead(users[1..], name, j - 1); }
  }

  lemma {:induction false} MembersMean(users: seq<User>, team: seq<string>, id: string)
    ensures id in MemberIds(users, team) <==> id != "" && exists j :: 0 <= j < |team| && UserIdOf(users, team[j]) == id
  {
    if team != [] {
      MembersMean(users, team[1..], id);
      assert forall j :: 0 <= j < |team[1..]| ==> team[1..][j] == team[j + 1];
      if exists j :: 0 <= j < |team| && UserIdOf(users, team[j]) == id {
        var j :| 0 <= j < |team| && UserIdOf(users, team[j]) == id;
        if j > 0 { assert UserIdOf(users, team[1..][j - 1]) == id; }
      }
    }
  }

  // ----- what an audit says of its item -----

  predicate FirstOf(given: string, planned: string, date: string) { date == if given == "" then planned else given }

  /** The audit, its team and its coordination record, read off the planning item. */
  ghost predicate Describes(item: Item, users: seq<User>, a: Audit, t: Team, c: Coordination) {
    && a.planningItemId == Some(item.id)
    && (a.notice == Advance <==> item.category == Announced) && (a.notice == Withheld <==> item.category == Unannounced)
    && FirstOf(item.prep.start, item.plannedDate, a.date) && FirstOf(item.prep.end, item.plannedDate, a.endDate)
    && a.lead == item.prep.lead && (forall m :: m in a.team <==> m == item.prep.lead || m in item.prep.team)
    && t.id == "TEAM-" + a.id && t.auditId == a.id && t.start == a.date && t.end == a.endDate
    && t.leadUserId == UserIdOf(users, item.prep.lead)
    && (forall id :: id in t.memberIds <==> id != "" && exists j :: 0 <= j < |a.team| && UserIdOf(users, a.team[j]) == id)
    && c.auditId == a.id && c.planningItemId == Some(item.id) && c.notice == a.notice && c.proposedDate == a.date
    && c.confirmedDate == (if item.category == Unannounced then a.date else "")
  }

  /** An audit is made exactly for a ready item of a known category that has none yet. */
  lemma AuditMadeExactly(w: World, i: nat)
    requires i < |w.items|
    ensures |Step(w, MakeAudit(i)).audits| == |w.audits| + 1
            <==> && w.items[i].prep.status == ReadyForExecution
                 && (w.items[i].category == Announced || w.items[i].category == Unannounced)
                 && !(w.items[i].auditId != "" && exists k :: 0 <= k < |w.audits| && w.audits[k].id == w.items[i].auditId)
    ensures |Step(w, MakeAudit(i)).audits| != |w.audits| + 1 ==> Step(w, MakeAudit(i)) == w
  {
    hide AuditOf, TeamOf, CoordinationOf, WithAudit;
  }

  lemma MadeDescribes(w: World, i: nat)
    requires i < |w.items| && Step(w, MakeAudit(i)) != w
    ensures var w' := Step(w, MakeAudit(i));
            && |w'.audits| == |w.audits| + 1 && |w'.teams| == |w.teams| + 1
            && |w'.coordinations| == |w.coordinations| + 1 && w.audits <= w'.audits && w.teams <= w'.teams
            && w.coordinations <= w'.coordinations
            && w'.items[i].auditId == w'.audits[|w.audits|].id
            && (w.items[i].prep.package.Some? ==>
                 w'.items[i].prep.package == Some(w.items[i].prep.package.value.(auditId := w'.items[i].auditId)))
            && Describes(w.items[i], w.users, w'.audits[|w.audits|], w'.teams[|w.teams|], w'.coordinations[|w.coordinations|])
  {
    hide AuditId, MemberIds, UserIdOf, AuditKnown;
    var w' := Step(w, MakeAudit(i));
    var a := w'.audits[|w.audits|];
    forall id
      ensures id in MemberIds(w.users, a.team)
        <==> id != "" && exists j :: 0 <= j < |a.team| && UserIdOf(w.users, a.team[j]) == id
    {
      MembersMean(w.users, a.team, id);
    }
  }

  /** The five steps by their roles, and then an audit of the lead, the dates and the team they named. */
  function WayEvents(i: nat, gm: PrepActor, manager: PrepActor, lead: PrepActor, team: seq<string>, start: string, end: string)
    : seq<Event>
  {
    [ReleaseIt(i, gm), AcceptIt(i, manager), AssignIt(i, manager, lead.name, lead.userId), ProposeIt(i, lead, team, start, end, ""),
     ConfirmIt(i, manager), MakeAudit(i)]
  }

  /** What a preparation step leaves of the world around its item's preparation. */
  predicate OnlyPrepares(w: World, w': World, i: nat) {
    && i < |w.items| && w' == w.(items := w'.items) && |w'.items| == |w.items|
    && w'.items[i] == w.items[i].(prep := w'.items[i].prep)
  }

  lemma Proceeds(w: World, e: Event)
    requires !e.MakeAudit? && !e.ApprovalChanges? && e.i < |w.items| && Prepared(w, e).Ok?
    ensures OnlyPrepares(w, Step(w, e), e.i) && Step(w, e).items[e.i].prep == Prepared(w, e).value.prep
  {
    hide Prepared, Step, Noted;
    StepsKeepOthers(w, e);
    StepsWrite(w, e);
  }

  lemma {:induction false} RunFirst(w: World, e: Event, events: seq<Event>)
    ensures Run(w, [e] + events) == Run(Step(w, e), events)
  {
    hide Step;
    assert ([e] + events)[1..] == events;
  }

  /** Released, accepted, assigned: a Lead with a user id is on the item. */
  lemma WayToLead(w: World, i: nat, gm: PrepActor, manager: PrepActor, lead: PrepActor)
    requires i < |w.items| && w.items[i].approval.Approved? && gm.role.Gm? && manager.role.Manager? && Trim(lead.name) != ""
    requires lead.userId != ""
    ensures var w' := Step(Step(Step(w, ReleaseIt(i, gm)), AcceptIt(i, manager)), AssignIt(i, manager, lead.name, lead.userId));
            && OnlyPrepares(w, w', i) && w'.items[i].prep.status == LeadAssigned
            && w'.items[i].prep.lead == lead.name && w'.items[i].prep.leadUserId == lead.userId
  {
    hide Prepared, Trim, Step;
    var e1, e2, e3 := ReleaseIt(i, gm), AcceptIt(i, manager), AssignIt(i, manager, lead.name, lead.userId);
    StepsGoThroughExactly(w, e1);
    Proceeds(w, e1);
    StepsWrite(w, e1);
    var w1 := Step(w, e1);
    StepsGoThroughExactly(w1, e2);
    Proceeds(w1, e2);
    StepsWrite(w1, e2);
    var w2 := Step(w1, e2);
    StepsGoThroughExactly(w2, e3);
    Proceeds(w2, e3);
    StepsWrite(w2, e3);
  }

  /** Proposed and confirmed: the item is ready with what was proposed. */
  lemma WayToReady(w: World, i: nat, manager: PrepActor, lead: PrepActor, team: seq<string>, start: string, end: string)
    requires i < |w.items| && w.items[i].prep.status == LeadAssigned && w.items[i].prep.leadUserId == lead.userId
    requires lead.role.Lead? && lead.userId != "" && manager.role.Manager? && team != [] && start != "" && end != ""
    ensures var w' := Step(Step(w, ProposeIt(i, lead, team, start, end, "")), ConfirmIt(i, manager));
            && OnlyPrepares(w, w', i) && w'.items[i].prep.status == ReadyForExecution && w'.items[i].prep.lead == w.items[i].prep.lead
            && w'.items[i].prep.team == team && w'.items[i].prep.start == start && w'.items[i].prep.end == end
  {
    hide Prepared, Trim, Step;
    var e1, e2 := ProposeIt(i, lead, team, start, end, ""), ConfirmIt(i, manager);
    StepsGoThroughExactly(w, e1);
    Proceeds(w, e1);
    StepsWrite(w, e1);
    var w1 := Step(w, e1);
    StepsGoThroughExactly(w1, e2);
    Proceeds(w1, e2);
    StepsWrite(w1, e2);
  }

  lemma WayToAudit(w: World, i: nat, gm: PrepActor, manager: PrepActor, lead: PrepActor, team: seq<string>, start: string, end: string)
    requires i < |w.items| && w.items[i].approval.Approved? && w.items[i].auditId == "" && !w.items[i].category.OtherCategory?
    requires gm.role.Gm? && manager.role.Manager? && lead.role.Lead? && Trim(lead.name) != "" && lead.userId != ""
    requires team != [] && start != "" && end != ""
    ensures var w' := Run(w, WayEvents(i, gm, manager, lead, team, start, end)); var n := |w.audits|;
            && i < |w'.items| && |w'.audits| == n + 1 && w'.items[i].auditId == w'.audits[n].id && w'.audits[n].lead == lead.name
            && w'.audits[n].date == start && w'.audits[n].endDate == end
            && (forall m :: m in w'.audits[n].team <==> m == lead.name || m in team)
  {
    hide Trim, Step, Run;
    var way := WayEvents(i, gm, manager, lead, team, start, end);
    var w3 := Step(Step(Step(w, way[0]), way[1]), way[2]);
    var w5 := Step(Step(w3, way[3]), way[4]);
    WayToLead(w, i, gm, manager, lead);
    WayToReady(w3, i, manager, lead, team, start, end);
    AuditMadeExactly(w5, i);
    MadeDescribes(w5, i);
    SameUsers(w, way);
    SixSteps(w, way);
    assert |Run(w, way).items| == |w.items|;
  }

  lemma SixSteps(w: World, es: seq<Event>)
    requires |es| == 6
    ensures Run(w, es) == Step(Step(Step(Step(Step(Step(w, es[0]), es[1]), es[2]), es[3]), es[4]), es[5])
  {
    hide Run, Step;
    var w3 := Step(Step(Step(w, es[0]), es[1]), es[2]);
    ThreeSteps(w, es);
    ThreeSteps(w3, es[3..]);
    RunOfNone(Step(Step(Step(w3, es[3]), es[4]), es[5]));
    assert es[3..][3..] == [];
  }

  lemma ThreeSteps(w: World, es: seq<Event>)
    requires |es| >= 3
    ensures Run(w, es) == Run(Step(Step(Step(w, es[0]), es[1]), es[2]), es[3..])
  {
    hide Run, Step;
    assert es == [es[0]] + es[1..] && es[1..] == [es[1]] + es[2..] && es[2..] == [es[2]] + es[3..];
    RunFirst(w, es[0], es[1..]);
    RunFirst(Step(w, es[0]), es[1], es[2..]);
    RunFirst(Step(Step(w, es[0]), es[1]), es[2], es[3..]);
  }

  lemma OtherStepsMakeNone(w: World, e: Event)
    requires !e.MakeAudit? || e.i >= |w.items| || Step(w, e) == w
    ensures var w' := Step(w, e); w'.audits == w.audits && w'.teams == w.teams && w'.coordinations == w.coordinations
  {
    hide Prepared, Materialize;
  }

  lemma UsersStay(w: World, e: Event)
    ensures Step(w, e).users == w.users && |Step(w, e).items| == |w.items|
  {
    hide Prepared, AuditOf, TeamOf, CoordinationOf, AuditKnown, WithAudit;
  }

  // ----- whole runs -----

  lemma {:induction false} RunSnoc(w: World, events: seq<Event>, e: Event)
    ensures Run(w, events + [e]) == Step(Run(w, events), e)
    decreases |events|
  {
    hide Step;
    if events == [] {
      assert events + [e] == [e] && [e][1..] == [];
    } else {
      assert (events + [e])[1..] == events[1..] + [e];
      RunSnoc(Step(w, events[0]), events[1..], e);
    }
  }

  lemma PrefixStep(w: World, events: seq<Event>, n: nat)
    requires n < |events|
    ensures Run(w, events[..n + 1]) == Step(Run(w, events[..n]), events[n])
  {
    hide Run, Step;
    assert events[..n + 1] == events[..n] + [events[n]];
    RunSnoc(w, events[..n], events[n]);
  }

  lemma {:induction false} SameUsers(w: World, events: seq<Event>)
    ensures Run(w, events).users == w.users && |Run(w, events).items| == |w.items|
    decreases |events|
  {
    hide Step;
    if events != [] {
      UsersStay(w, events[0]);
      SameUsers(Step(w, events[0]), events[1..]);
    }
  }

  /** The m-th event made the k-th new audit of w', for its item as it then was. */
  ghost predicate MadeBy(w: World, events: seq<Event>, m: nat, w': World, k: nat) {
    && m < |events| && events[m].MakeAudit? && events[m].i < |Run(w, events[..m]).items|
    && Run(w, events[..m]).items[events[m].i].prep.status == ReadyForExecution
    && |w.audits| + k < |w'.audits| && |w.teams| + k < |w'.teams| && |w.coordinations| + k < |w'.coordinations|
    && Describes(Run(w, events[..m]).items[events[m].i], w.users, w'.audits[|w.audits| + k], w'.teams[|w.teams| + k],
         w'.coordinations[|w.coordinations| + k])
  }

  ghost predicate HasMaker(w: World, events: seq<Event>, n: nat, w': World, k: nat) {
    exists m: nat :: m < n && MadeBy(w, events, m, w', k)
  }

  /** Every new audit up to the n-th event was made by one of those events. */
  ghost predicate AllMade(w: World, events: seq<Event>, n: nat)
    requires n <= |events|
  {
    var w' := Run(w, events[..n]);
    && w.audits <= w'.audits && w.teams <= w'.teams && w.coordinations <= w'.coordinations
    && |w'.audits| - |w.audits| == |w'.teams| - |w.teams| == |w'.coordinations| - |w.coordinations|
    && forall k: nat :: k < |w'.audits| - |w.audits| ==> HasMaker(w, events, n, w', k)
  }

  lemma StillMade(w: World, events: seq<Event>, n: nat, before: World, w': World, k: nat)
    requires HasMaker(w, events, n, before, k) && before.audits <= w'.audits && before.teams <= w'.teams
    requires before.coordinations <= w'.coordinations
    ensures HasMaker(w, events, n + 1, w', k)
  {
    hide Describes, Run;
    var m: nat :| m < n && MadeBy(w, events, m, before, k);
    assert MadeBy(w, events, m, w', k);
  }

  lemma ReadyWhenMade(w: World, i: nat)
    requires i < |w.items| && Step(w, MakeAudit(i)) != w
    ensures w.items[i].prep.status == ReadyForExecution
  {
    hide AuditOf, TeamOf, CoordinationOf, WithAudit, AuditKnown;
  }

  lemma {:induction false} AuditsMade(w: World, events: seq<Event>, n: nat)
    requires n <= |events|
    ensures AllMade(w, events, n)
  {
    hide Run, Step, Describes;
    if n == 0 {
      assert events[..0] == [] && Run(w, []) == w by { RunOfNone(w); }
    } else {
      AuditsMade(w, events, n - 1);
      PrefixStep(w, events, n - 1);
      SameUsers(w, events[..n - 1]);
      var before, e := Run(w, events[..n - 1]), events[n - 1];
      var w' := Run(w, events[..n]);
      if e.MakeAudit? && e.i < |before.items| && Step(before, e) != before {
        MadeDescribes(before, e.i);
        ReadyWhenMade(before, e.i);
        var k := |before.audits| - |w.audits|;
        assert MadeBy(w, events, n - 1, w', k);
        assert HasMaker(w, events, n, w', k);
      } else {
        OtherStepsMakeNone(before, e);
      }
      hide MadeBy, HasMaker;
      forall k: nat | k < |w'.audits| - |w.audits| ensures HasMaker(w, events, n, w', k) {
        if k < |before.audits| - |w.audits| { StillMade(w, events, n - 1, before, w', k); }
      }
    }
  }

  lemma RunOfNone(w: World)
    ensures Run(w, []) == w
  {
  }

  // ----- back to the assignment and the proposal -----

  /** Up to the n-th event: an item with a lead has the lead of an assignment, an item with a proposal its team and dates. */
  ghost predicate Traced(w: World, events: seq<Event>, n: nat, i: nat)
    requires n <= |events|
  {
    i < |Run(w, events[..n]).items| ==>
      var p := Run(w, events[..n]).items[i].prep;
      && (p.status in {LeadAssigned, TeamProposed, ReadyForExecution} ==> exists m: nat :: m < n && Assigns(events, m, i, p.lead))
      && (p.status in {TeamProposed, ReadyForExecution} ==>
           exists m: nat :: m < n && Proposes(events, m, i, p.team, p.start, p.end))
  }

  predicate Assigns(events: seq<Event>, m: nat, i: nat, lead: string) {
    m < |events| && events[m].AssignIt? && events[m].i == i && events[m].lead == lead && Trim(lead) != ""
  }

  predicate Proposes(events: seq<Event>, m: nat, i: nat, team: seq<string>, start: string, end: string) {
    && m < |events| && events[m].ProposeIt? && events[m].i == i && events[m].team == team && events[m].start == start
    && events[m].end == end && team != [] && start != "" && end != ""
  }

  /** How one event moves an item's preparation on. */
  lemma StepMoves(w: World, e: Event, i: nat)
    requires i < |w.items| && i < |Step(w, e).items|
    ensures var p, p' := w.items[i].prep, Step(w, e).items[i].prep;
            || (p'.status == p.status && p'.lead == p.lead && p'.team == p.team && p'.start == p.start && p'.end == p.end)
            || p'.status in {ReleasedToDepartment, AcceptedByDepartment}
            || (e.AssignIt? && e.i == i && p'.status == LeadAssigned && p'.lead == e.lead && Trim(e.lead) != "")
            || (e.ProposeIt? && e.i == i && p.status == LeadAssigned && p'.status == TeamProposed && p'.lead == p.lead
                && p'.team == e.team && p'.start == e.start && p'.end == e.end && e.team != [] && e.start != "" && e.end != "")
            || (p.status == TeamProposed && p'.status == ReadyForExecution && p'.lead == p.lead && p'.team == p.team
                && p'.start == p.start && p'.end == p.end)
  {
    hide Prepared, Trim, AuditOf, TeamOf, CoordinationOf, AuditKnown, LeadUserId;
    if e.i == i && !e.MakeAudit? {
      StepsGoThroughExactly(w, e);
      if Prepared(w, e).Ok? { StepsWrite(w, e); }
    }
  }

  lemma {:induction false} TracedAlways(w: World, events: seq<Event>, n: nat, i: nat)
    requires n <= |events| && forall j :: 0 <= j < |w.items| ==> w.items[j].prep.status == NotReleased
    ensures Traced(w, events, n, i)
  {
    hide Run, Step, Assigns, Proposes, Trim;
    if n == 0 {
      assert events[..0] == [] && Run(w, []) == w by { RunOfNone(w); }
    } else {
      TracedAlways(w, events, n - 1, i);
      PrefixStep(w, events, n - 1);
      SameUsers(w, events[..n - 1]);
      SameUsers(w, events[..n]);
      var before, e := Run(w, events[..n - 1]), events[n - 1];
      if i < |before.items| {
        StepMoves(before, e, i);
        var p, p' := before.items[i].prep, Run(w, events[..n]).items[i].prep;
        NewestTraced(events, n - 1, i, p');
      }
    }
  }

  lemma NewestTraced(events: seq<Event>, m: nat, i: nat, p: Prep)
    requires m < |events|
    ensures events[m].AssignIt? && events[m].i == i && p.lead == events[m].lead && Trim(events[m].lead) != "" ==>
              Assigns(events, m, i, p.lead)
    ensures events[m].ProposeIt? && events[m].i == i && p.team == events[m].team && p.start == events[m].start
              && p.end == events[m].end && p.team != [] && p.start != "" && p.end != "" ==>
              Proposes(events, m, i, p.team, p.start, p.end)
  {
    hide Trim;
  }

  /** For every run from items that are not released yet: each audit it makes is for one item, with the lead of an assignment of
      that item, and the members and both dates, in that order, of a proposal for it; the notice is given in advance exactly for
      an announced inspection, and only an unannounced one is confirmed at once. */
  lemma AuditFollowsProposal(w: World, events: seq<Event>, k: nat)
      returns (made: nat, named: nat, proposed: nat, i: nat)
    requires forall j :: 0 <= j < |w.items| ==> w.items[j].prep.status == NotReleased
    requires var w' := Run(w, events); |w.audits| + k < |w'.audits|
    ensures var w' := Run(w, events);
            && |w'.teams| == |w.teams| + (|w'.audits| - |w.audits|)
            && |w'.coordinations| == |w.coordinations| + (|w'.audits| - |w.audits|)
            && named < made < |events| && proposed < made && events[made] == MakeAudit(i)
            && i < |Run(w, events[..made]).items|
            && events[named].AssignIt? && events[named].i == i && events[proposed].ProposeIt? && events[proposed].i == i
            && var a, t, c := w'.audits[|w.audits| + k], w'.teams[|w.teams| + k], w'.coordinations[|w.coordinations| + k];
               var item := Run(w, events[..made]).items[i];
               && a.planningItemId == Some(item.id) && t.auditId == a.id && c.auditId == a.id
               && a.lead == events[named].lead
               && a.date == t.start == c.proposedDate == events[proposed].start
               && a.endDate == t.end == events[proposed].end
               && (forall m :: m in a.team <==> m == events[named].lead || m in events[proposed].team)
               && (a.notice == c.notice == Advance <==> item.category == Announced)
               && (a.notice == c.notice == Withheld <==> item.category == Unannounced)
               && c.confirmedDate == (if item.category == Unannounced then events[proposed].start else "")
  {
    hide Run, Trim;
    var n := |events|;
    assert events[..n] == events;
    AuditsMade(w, events, n);
    var w' := Run(w, events);
    assert HasMaker(w, events, n, w', k);
    made :| made < n && MadeBy(w, events, made, w', k);
    i := events[made].i;
    TracedAlways(w, events, made, i);
    SameUsers(w, events[..made]);
    var p := Run(w, events[..made]).items[i].prep;
    named :| named < made && Assigns(events, named, i, p.lead);
    proposed :| proposed < made && Proposes(events, proposed, i, p.team, p.start, p.end);
  }
}
