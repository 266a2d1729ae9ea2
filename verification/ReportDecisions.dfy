/** What each decision on a report needs and leaves behind, and a way from the Lead to the Service Provider. */
module ReportDecisions {
  import opened Basics
  import opened Texts
  import opened ReportPipeline

  /** One more act, another status and owner, and nothing else but the named fields. */
  predicate Moved(f: Fields, f': Fields, status: Status, owner: Owner, act: Act) {
    && f'.status == status && f'.owner == Some(owner) && f'.history == f.history + [act]
    && f' == f.(status := status, owner := Some(owner), history := f'.history, locked := f'.locked, issued := f'.issued,
                sharedAt := f'.sharedAt)
  }

  predicate SameMarks(f: Fields, f': Fields) { f'.locked == f.locked && f'.issued == f.issued && f'.sharedAt == f.sharedAt }

  /** The manager decides on what is pending with the manager: a revision or a return needs a comment, an approval a report of a
      known kind. */
  lemma ManagerDecides(kind: ReportType, f: Fields, choice: ManagerChoice, comment: string)
    ensures var r := ManagerDecision(kind, f, choice, comment);
            && (r.Ok? <==>
                  && f.status.PendingManager?
                  && match choice
                     case ApproveReport => kind == Preliminary || kind == Final
                     case AskRevision => Trim(comment) != ""
                     case ReturnToLead => Trim(comment) != ""
                     case NoManagerChoice => false)
            && (r.Ok? ==>
                  && SameMarks(f, r.value)
                  && match choice
                     case ApproveReport => Moved(f, r.value, SubmittedToGm, GmOwner, ManagerApproved)
                     case AskRevision => Moved(f, r.value, RevisionRequested, LeadOwner, RevisionAsked)
                     case ReturnToLead => Moved(f, r.value, ReturnedToLead, LeadOwner, ManagerReturned)
                     case NoManagerChoice => true)
  {
    hide Trim;
  }

  /** The GM decides on what was submitted to the GM and is not locked: forwarding needs nothing, a return a comment. */
  lemma GmDecides(kind: ReportType, f: Fields, byGm: bool, choice: GmChoice, comment: string)
    ensures var r := GmDecision(kind, f, byGm, choice, comment);
            && (r.Ok? <==>
                  && byGm && (kind == Preliminary || kind == Final) && f.status.SubmittedToGm? && f.owner == Some(GmOwner)
                  && f.locked != Some(true)
                  && match choice
                     case ForwardToExecutive => true
                     case ReturnToDepartment => Trim(comment) != ""
                     case NoGmChoice => false)
            && (r.Ok? ==>
                  && r.value.locked == Some(false) && r.value.sharedAt == f.sharedAt
                  && match choice
                     case ForwardToExecutive =>
                       Moved(f, r.value, SubmittedToExecutive, ExecutiveOwner, GmForwarded) && r.value.issued == Some(false)
                     case ReturnToDepartment =>
                       Moved(f, r.value, PendingManager, ManagerOwner, GmReturned) && r.value.issued == f.issued
                     case NoGmChoice => true)
  {
    hide Trim;
  }

  /** The Executive Director decides on what was submitted to the Executive Director and is not locked: issuing needs nothing, all
      else a rationale, and a referral, of Final Reports only, a category as well. */
  lemma ExecutiveDecides(kind: ReportType, f: Fields, byExecutive: bool, choice: ExecutiveChoice, rationale: string, category: string,
                         at: string)
    ensures ExecutiveDecision(kind, f, byExecutive, choice, rationale, category, at).Ok?
            <==> byExecutive && (kind == Preliminary || kind == Final) && f.status.SubmittedToExecutive?
                 && f.owner == Some(ExecutiveOwner) && f.locked != Some(true)
                 && match choice
                    case IssueReport => true
                    case ReturnReport => Trim(rationale) != ""
                    case RejectReport => Trim(rationale) != ""
                    case ReferForEnforcement => kind == Final && Trim(rationale) != "" && Trim(category) != ""
                    case NoExecutiveChoice => false
  {
    hide Trim;
  }

  /** Issued, it is locked and the provider's: a Preliminary Report shared, a Final Report marked issued. Returned, a Preliminary
      Report goes to the GM and a Final Report to the manager. Rejected, nobody's. */
  lemma ExecutiveLeaves(kind: ReportType, f: Fields, choice: ExecutiveChoice, rationale: string, category: string, at: string)
    requires ExecutiveDecision(kind, f, true, choice, rationale, category, at).Ok?
    ensures var f' := ExecutiveDecision(kind, f, true, choice, rationale, category, at).value; var preliminary := kind == Preliminary;
            match choice
            case IssueReport =>
              && Moved(f, f', if preliminary then ReleasedToServiceProvider else Issued, ProviderOwner, EdIssued)
              && f'.locked == Some(true)
              && f'.sharedAt == (if preliminary then Some(at) else f.sharedAt)
              && f'.issued == (if preliminary then f.issued else Some(true))
            case ReturnReport =>
              if preliminary then Moved(f, f', SubmittedToGm, GmOwner, EdReturned) && f'.locked == Some(false)
                                  && f'.issued == f.issued && f'.sharedAt == f.sharedAt
              else Moved(f, f', ReturnedToManager, ManagerOwner, EdReturned) && SameMarks(f, f')
            case RejectReport =>
              && Moved(f, f', Rejected, NoOwner, EdRejected) && f'.locked == (if preliminary then Some(false) else f.locked)
              && f'.issued == f.issued && f'.sharedAt == f.sharedAt
            case ReferForEnforcement => Moved(f, f', EnforcementReferred, EnforcementOwner, EdReferred) && SameMarks(f, f')
            case NoExecutiveChoice => true
  {
    hide Trim;
  }

  /** Submitted by the Lead, a report is pending with the manager. */
  lemma LeadLeaves(r: Report)
    ensures r.kind == Preliminary ==>
              var r' := LeadSubmission(r);
              && Held(r').history == Held(r).history
              && r'.projection == r.projection.(status := PendingManager, owner := Some(ManagerOwner))
              && (r.artifact.None? ==> r'.artifact.None?)
              && (r.artifact.Some? ==> r'.artifact == Some(r.artifact.value.(status := PendingManager)))
    ensures r.kind == Final && r.artifact.Some? ==>
              var f, f' := Held(r), Held(LeadSubmission(r));
              Moved(f, f', PendingManager, ManagerOwner, LeadSubmitted) && SameMarks(f, f')
  {
  }

  /** The way to the provider: submitted by the Lead, approved by the manager, forwarded by the GM, issued by the Executive
      Director; from then on the provider sees it. */
  lemma WayToProvider(r: Report, at: string)
    requires Fresh(r) && (r.kind == Preliminary || r.kind == Final) && r.artifact.Some? && at != ""
    ensures var events := [LeadSubmits, ByManager(ApproveReport, ""), ByGm(true, ForwardToExecutive, ""),
                ByExecutive(true, IssueReport, "", "", at)];
            var r' := Run(r, events);
            LegalRun(r, events) && VisibleToProvider(r'.kind, ReadModel(r')) && ApprovedInOrder(r'.kind, Held(r').history)
  {
    hide Trim, ApprovedInOrder, Fresh;
    var events := [LeadSubmits, ByManager(ApproveReport, ""), ByGm(true, ForwardToExecutive, ""),
      ByExecutive(true, IssueReport, "", "", at)];
    FreshUnlocked(r);
    var r1 := Step(r, events[0]);
    LeadLeaves(r);
    var r2 := Step(r1, events[1]);
    ManagerDecides(r1.kind, Held(r1), ApproveReport, "");
    var r3 := Step(r2, events[2]);
    GmDecides(r2.kind, Held(r2), true, ForwardToExecutive, "");
    var r4 := Step(r3, events[3]);
    ExecutiveDecides(r3.kind, Held(r3), true, IssueReport, "", "", at);
    ExecutiveLeaves(r3.kind, Held(r3), IssueReport, "", "", at);
    assert Run(r, events) == r4 by { RunFour(r, events); }
    assert LegalRun(r, events) by { LegalSteps(r, r1, r2, r3, events); }
    VisibleMeansApprovedInOrder(r, events);
  }

  lemma FreshUnlocked(r: Report)
    requires Fresh(r)
    ensures Held(r).locked != Some(true)
  {
  }

  lemma LegalSteps(r: Report, r1: Report, r2: Report, r3: Report, events: seq<Event>)
    requires |events| == 4 && events[0].LeadSubmits? && !events[1].LeadSubmits? && !events[2].LeadSubmits? && !events[3].LeadSubmits?
    requires WellTimed(events[1]) && WellTimed(events[2]) && WellTimed(events[3]) && Held(r).locked != Some(true)
    requires r1 == Step(r, events[0]) && r2 == Step(r1, events[1]) && r3 == Step(r2, events[2])
    ensures LegalRun(r, events)
  {
    hide Step, WellTimed;
    assert WellTimed(events[0]) by { SubmissionTimed(events[0]); }
    var a, b, c := events[1..], events[2..], events[3..];
    assert a[0] == events[1] && a[1..] == b && b[0] == events[2] && b[1..] == c && c[0] == events[3] && c[1..] == [];
    assert LegalRun(Step(r3, c[0]), c[1..]);
    assert LegalRun(r3, c);
    assert LegalRun(r2, b);
    assert LegalRun(r1, a);
  }

  lemma RunFour(r: Report, events: seq<Event>)
    requires |events| == 4
    ensures Run(r, events) == Step(Step(Step(Step(r, events[0]), events[1]), events[2]), events[3])
  {
    hide Step;
    var r1 := Step(r, events[0]);
    var r2 := Step(r1, events[1]);
    var r3 := Step(r2, events[2]);
    var a, b, c := events[1..], events[2..], events[3..];
    assert a[0] == events[1] && a[1..] == b && b[0] == events[2] && b[1..] == c && c[0] == events[3] && c[1..] == [];
    assert Run(Step(r3, c[0]), c[1..]) == Step(r3, c[0]);
    assert Run(r3, c) == Step(r3, events[3]);
    assert Run(r2, b) == Run(r3, c);
    assert Run(r1, a) == Run(r2, b);
  }

  lemma SubmissionTimed(e: Event)
    requires e.LeadSubmits?
    ensures WellTimed(e)
  {
  }

  // ----- what readers see -----

  /** The read model: an artifact's own fields, and where it has none the projection's; status and history are the artifact's. */
  lemma ReadModelMeans(r: Report)
    ensures r.artifact.None? ==> ReadModel(r) == r.projection
    ensures r.artifact.Some? ==>
              var a, f := r.artifact.value, ReadModel(r);
              && f.status == a.status && f.history == a.history
              && f.owner == (if a.owner.None? then r.projection.owner else a.owner)
              && f.locked == (if a.locked.None? then r.projection.locked else a.locked)
              && f.issued == (if a.issued.None? then r.projection.issued else a.issued)
              && f.sharedAt == (if a.sharedAt.None? then r.projection.sharedAt else a.sharedAt)
  {
  }

  /** The provider sees a Preliminary Report released, closed or shared, a Final Report issued, marked so and locked, and no other
      report. */
  lemma VisibleExactly(kind: ReportType, f: Fields)
    ensures VisibleToProvider(kind, f) <==>
      match kind
      case Preliminary =>
        f.status == ReleasedToServiceProvider || f.status == Status.Closed || (f.sharedAt.Some? && f.sharedAt != Some(""))
      case Final => f.status == Issued && f.issued == Some(true) && f.locked == Some(true)
      case OtherType(_) => false
  {
  }
}
