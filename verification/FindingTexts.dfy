/** Who reads what: comments go to the Service Provider and internal notes do not; and what a Finding's records hold is what was
    submitted, in order. */
module FindingTexts {
  import opened Basics
  import opened Texts
  import opened FindingLifecycle

  // ----- where each text goes -----

  predicate Given(text: string) { text != "" }

  /** A verification that goes through adds its comment to what the provider reads and its internal text to the notes. */
  lemma VerificationTexts(f: Finding, result: VerificationResult, comment: string, internal: string)
    requires f.status.EvidenceSubmitted? && f.evidence != [] && Trim(comment) != "" && Trim(internal) != ""
    ensures var f' := After(f, VerifyEvidence(true, Some(result), comment, internal));
            && f'.comments == f.comments + [Trim(comment)] && f'.notes == f.notes + [Trim(internal)]
            && |f'.verifications| == |f.verifications| + 1 && f'.verifications[|f.verifications|].result == result
  {
    hide Trim, Latest;
  }

  /** And it marks the evidence of the highest version, the later one on a tie, and moves the Finding on. */
  lemma VerificationMarks(f: Finding, result: VerificationResult, comment: string, internal: string, k: nat)
    requires f.status.EvidenceSubmitted? && Trim(comment) != "" && Trim(internal) != ""
    requires k < |f.evidence| && forall i :: 0 <= i < |f.evidence| ==>
               f.evidence[i].version <= f.evidence[k].version && (i > k ==> f.evidence[i].version < f.evidence[k].version)
    ensures var f' := After(f, VerifyEvidence(true, Some(result), comment, internal));
            match result
            case CloseFinding =>
              f'.evidence == f.evidence[k := f.evidence[k].(status := "Accepted")] && f'.status.Closed?
              && f'.closureType == Some(EvidenceVerified)
            case PartiallyClose =>
              f'.evidence == f.evidence[k := f.evidence[k].(status := "Partially Accepted")] && f'.status.EvidenceMoreInfo?
              && f'.closureType.None?
            case NotClose =>
              f'.evidence == f.evidence[k := f.evidence[k].(status := "More Information Requested")] && f'.status.EvidenceMoreInfo?
              && f'.closureType.None?
  {
    hide Trim;
    LatestMeans(f.evidence, k);
    hide Latest;
  }

  lemma {:induction false} LatestMeans(evidence: seq<Evidence>, k: nat)
    requires k < |evidence| && forall i :: 0 <= i < |evidence| ==>
               evidence[i].version <= evidence[k].version && (i > k ==> evidence[i].version < evidence[k].version)
    ensures Latest(evidence) == k
  {
    if |evidence| > 1 {
      var front := evidence[..|evidence| - 1];
      if k < |front| { LatestMeans(front, k); }
    }
  }

  /** A CAP review that goes through accepts the CAP, and waits for Evidence where it is required, or sends it back. */
  lemma ReviewMarks(f: Finding, v: Review)
    requires v.byReviewer && f.cap.Some?
    ensures var f' := After(f, ReviewCap(v)); var needsText := !v.decision.AcceptIt? && Trim(v.comment) == "";
            var refused := match v.screen
              case CapReview => needsText
              case CapPackage => needsText
              case FindingsWorkspace => v.decision.ReturnIt? && needsText
              case CapPanel => v.decision.Undecided? || (v.decision.ReturnIt? && needsText);
            if refused then f' == f.(notes := f'.notes)
            else if v.decision.AcceptIt? then
              f'.cap == Some(f.cap.value.(status := "Accepted"))
              && f'.status == if f.evidenceRequired then EvidenceRequired else ReadyForVerification
            else f'.cap == Some(f.cap.value.(status := "More Information Requested")) && f'.status.CapMoreInfo?
  {
    hide Trim, Noted, LastRevision, ReturnComments;
  }

  /** A CAP review that goes through adds its comment to what the provider reads, an empty one only where the Findings workspace
      takes a decision that is neither an acceptance nor a return; only the CAP review screen takes an internal text, for the notes. */
  lemma ReviewTexts(f: Finding, v: Review)
    ensures var f' := After(f, ReviewCap(v));
            var neither := v.decision.OtherDecision? || v.decision.Undecided?;
            var anything := v.screen.FindingsWorkspace? && neither;
            var decided := v.decision.AcceptIt? || (v.screen.CapPanel? && v.decision.OtherDecision?)
                           || (Trim(v.comment) != "" && !(v.screen.CapPanel? && v.decision.Undecided?));
            && f'.notes == (if v.byReviewer && f.cap.Some? && v.screen.CapReview? && Given(v.internal) then f.notes + [v.internal]
                            else f.notes)
            && f'.comments == if v.byReviewer && f.cap.Some? && (anything || (decided && v.comment != ""))
                              then f.comments + [v.comment] else f.comments
  {
    assert v.comment == "" ==> Trim(v.comment) == "";
    hide Trim, LastRevision, ACCEPTED, MORE_INFO;
  }

  /** An authorized closure adds its comment to what the provider reads, and its reason and internal text to the notes. */
  lemma ClosureTexts(f: Finding, reason: string, comment: string, internal: string)
    requires Trim(reason) != ""
    ensures var f' := After(f, CloseAuthorized(true, reason, comment, internal));
            && f'.status.Closed? && f'.closureType == Some(Authorized) && f'.closureReason == Some(Trim(reason))
            && f'.comments == (if Given(Trim(comment)) then f.comments + [Trim(comment)] else f.comments)
            && |f'.notes| == |f.notes| + 1 && f.notes <= f'.notes
            && var note := f'.notes[|f.notes|];
               && "Authorized closure reason: " + Trim(reason) <= note
               && (if Given(Trim(internal)) then note == "Authorized closure reason: " + Trim(reason) + " \U{2014} " + Trim(internal)
                   else note == "Authorized closure reason: " + Trim(reason))
  {
    hide Trim;
  }

  lemma SubmissionTexts(f: Finding, a: Action)
    requires a.SubmitCap? || a.SubmitEvidence?
    ensures After(f, a).comments == f.comments && After(f, a).notes == f.notes
  {
    hide AllFilled, MaxVersion;
  }

  /** A closure by anyone but the manager, or without a reason, changes nothing. */
  lemma ClosureRefused(f: Finding, byManager: bool, reason: string, comment: string, internal: string)
    requires !byManager || Trim(reason) == ""
    ensures After(f, CloseAuthorized(byManager, reason, comment, internal)) == f
  {
  }

  /** A verification by anyone but a reviewer, without a result, of a Finding that awaits none, or without one of the two texts
      changes nothing. */
  lemma VerificationRefused(f: Finding, byReviewer: bool, result: Option<VerificationResult>, comment: string, internal: string)
    requires !byReviewer || result.None? || f.status != EvidenceSubmitted || f.evidence == []
      || Trim(comment) == "" || Trim(internal) == ""
    ensures After(f, VerifyEvidence(byReviewer, result, comment, internal)) == f
  {
  }

  /** What the screens offer, status by status. */
  lemma OfferedMeans(f: Finding, a: Action)
    ensures Offered(f, a) <==>
      match f.status
      case WaitingCap => a.SubmitCap? || a.CloseAuthorized?
      case CapMoreInfo => a.SubmitCap? || a.CloseAuthorized?
      case CapSubmitted => a.ReviewCap? || a.CloseAuthorized?
      case EvidenceRequired => a.SubmitEvidence? || a.CloseAuthorized?
      case EvidenceMoreInfo => a.SubmitEvidence? || a.CloseAuthorized?
      case EvidenceSubmitted => a.VerifyEvidence? || a.CloseAuthorized?
      case ReadyForVerification => a.CloseAuthorized?
      case OpenObservation => a.CloseAuthorized?
      case Closed => false
  {
  }

  // ----- nothing internal reaches the provider -----

  /** Everything of a Finding but its internal notes. */
  function Open(f: Finding): Finding { f.(notes := []) }

  /** The same step with another internal text, blank where the first one is. */
  predicate OtherNote(a: Action, b: Action) {
    match (a, b)
    case (SubmitCap(p), SubmitCap(q)) => p == q
    case (ReviewCap(v), ReviewCap(u)) => u == v.(internal := u.internal)
    case (SubmitEvidence(x), SubmitEvidence(y)) => x == y
    case (VerifyEvidence(by1, r1, c1, n1), VerifyEvidence(by2, r2, c2, n2)) =>
      by1 == by2 && r1 == r2 && c1 == c2 && (Trim(n1) == "" <==> Trim(n2) == "")
    case (CloseAuthorized(m1, r1, c1, _), CloseAuthorized(m2, r2, c2, _)) => m1 == m2 && r1 == r2 && c1 == c2
    case _ => false
  }

  lemma OtherNoteSameStep(f: Finding, g: Finding, a: Action, b: Action)
    requires Open(f) == Open(g) && OtherNote(a, b)
    ensures Open(After(f, a)) == Open(After(g, b))
  {
    hide AfterReviewCap, AfterVerify, Trim, Noted, AllFilled, MaxVersion, ClosureNote, SUBMITTED, UPLOADED;
    match (a, b)
    case (ReviewCap(v), ReviewCap(u)) => OtherNoteReview(f, g, v, u);
    case (VerifyEvidence(role, r, c, n), VerifyEvidence(_, _, _, m)) => OtherNoteVerify(f, g, role, r, c, n, m);
    case _ =>
  }

  lemma OtherNoteReview(f: Finding, g: Finding, v: Review, u: Review)
    requires Open(f) == Open(g) && u == v.(internal := u.internal)
    ensures Open(AfterReviewCap(f, v)) == Open(AfterReviewCap(g, u))
  {
    hide Trim, Noted, LastRevision, ACCEPTED, MORE_INFO;
    assert Refuses(v) <==> Refuses(u);
    assert ReturnComments(f.comments, v) == ReturnComments(f.comments, u);
    hide Refuses, ReturnComments;
  }

  lemma OtherNoteVerify(f: Finding, g: Finding, role: bool, r: Option<VerificationResult>, c: string, n: string, m: string)
    requires Open(f) == Open(g) && (Trim(n) == "" <==> Trim(m) == "")
    ensures Open(AfterVerify(f, role, r, c, n)) == Open(AfterVerify(g, role, r, c, m))
  {
    hide Trim, Latest, EvidenceStatus;
  }

  /** Two runs of the handlers that differ only in their internal texts end alike in everything the provider can see. */
  lemma {:induction false} NotesStayInternal(f: Finding, g: Finding, a: seq<Action>, b: seq<Action>)
    requires Open(f) == Open(g) && |a| == |b| && forall i :: 0 <= i < |a| ==> OtherNote(a[i], b[i])
    ensures Open(FindingLifecycle.Run(f, a)) == Open(FindingLifecycle.Run(g, b))
    decreases |a|
  {
    hide After, OtherNote, Open;
    if a != [] {
      assert OtherNote(a[0], b[0]);
      OtherNoteSameStep(f, g, a[0], b[0]);
      NotesStayInternal(After(f, a[0]), After(g, b[0]), a[1..], b[1..]);
    }
  }

  /** The comment a step shows the provider: as it was given, or trimmed. */
  predicate CommentOf(a: Action, text: string) {
    match a
    case ReviewCap(v) => text == v.comment
    case VerifyEvidence(_, _, comment, _) => text == Trim(comment)
    case CloseAuthorized(_, _, comment, _) => text == Trim(comment)
    case _ => false
  }

  ghost predicate SaidInRun(a: seq<Action>, text: string) { exists n :: 0 <= n < |a| && CommentOf(a[n], text) }

  lemma CommentsOfStep(f: Finding, a: Action)
    ensures f.comments <= After(f, a).comments
    ensures forall i :: |f.comments| <= i < |After(f, a).comments| ==> CommentOf(a, After(f, a).comments[i])
  {
    hide Trim, LastRevision, AllFilled, MaxVersion, Latest, ClosureNote, EvidenceStatus, Refuses;
    hide ACCEPTED, MORE_INFO, SUBMITTED, UPLOADED;
  }

  /** Every comment the provider reads was given as a comment in some step of the run, and none is ever taken back. */
  lemma {:induction false} CommentsAreSaid(f: Finding, a: seq<Action>)
    ensures f.comments <= FindingLifecycle.Run(f, a).comments
    ensures forall i :: |f.comments| <= i < |FindingLifecycle.Run(f, a).comments| ==>
              SaidInRun(a, FindingLifecycle.Run(f, a).comments[i])
    decreases |a|
  {
    hide After, CommentOf;
    if a != [] {
      var g := After(f, a[0]);
      CommentsOfStep(f, a[0]);
      CommentsAreSaid(g, a[1..]);
      var all := FindingLifecycle.Run(f, a).comments;
      forall i | |f.comments| <= i < |all| ensures SaidInRun(a, all[i]) {
        if i < |g.comments| {
          assert g.comments[i] == all[i] && CommentOf(a[0], all[i]);
        } else {
          var n :| 0 <= n < |a[1..]| && CommentOf(a[1..][n], all[i]);
          assert a[1..][n] == a[n + 1];
        }
      }
    }
  }

  // ----- what the records hold -----

  function PlansOf(a: seq<Action>): seq<seq<string>> {
    if a == [] then []
    else (if a[0].SubmitCap? && |a[0].plan| == 5 && "" !in a[0].plan then [a[0].plan] else []) + PlansOf(a[1..])
  }

  function FilesOf(a: seq<Action>): seq<string> {
    if a == [] then [] else (if a[0].SubmitEvidence? && a[0].file.Some? then [a[0].file.value] else []) + FilesOf(a[1..])
  }

  function Files(evidence: seq<Evidence>): (files: seq<string>)
    ensures |files| == |evidence| && forall i :: 0 <= i < |files| ==> files[i] == evidence[i].file
  {
    seq(|evidence|, i requires 0 <= i < |evidence| => evidence[i].file)
  }

  /** A CAP is submitted exactly with all five fields filled, and evidence exactly with a file. */
  lemma SubmittedExactly(f: Finding, a: Action)
    ensures a.SubmitCap? ==>
              var f' := After(f, a);
              if |a.plan| == 5 && "" !in a.plan then
                f'.cap.Some? && f'.cap.value.plan == a.plan && |f'.revisions| == |f.revisions| + 1 && f'.status.CapSubmitted?
              else f' == f
    ensures Files(After(f, a).evidence) == Files(f.evidence) + FilesOf([a])
    ensures !a.SubmitCap? ==>
              |After(f, a).revisions| == |f.revisions| && (f.cap.Some? <==> After(f, a).cap.Some?)
              && (f.cap.Some? ==> After(f, a).cap.value.plan == f.cap.value.plan)
  {
    hide AfterVerify, AfterAuthorizedClosure, AfterReviewCap, MaxVersion, FilesOf, SUBMITTED, UPLOADED;
    FilesOfOne(a);
    if !a.SubmitCap? && !a.SubmitEvidence? { ReviewsSubmitNothing(f, a); }
    assert Files(f.evidence) + [] == Files(f.evidence);
  }

  lemma ReviewsSubmitNothing(f: Finding, a: Action)
    requires !a.SubmitCap? && !a.SubmitEvidence?
    ensures Files(After(f, a).evidence) == Files(f.evidence) && |After(f, a).revisions| == |f.revisions|
    ensures f.cap.Some? <==> After(f, a).cap.Some?
    ensures f.cap.Some? ==> After(f, a).cap.value.plan == f.cap.value.plan
  {
    hide Trim, Noted, Latest, ClosureNote, EvidenceStatus, Refuses, ReturnComments, ACCEPTED, MORE_INFO;
  }

  lemma FilesOfOne(a: Action)
    ensures FilesOf([a]) == if a.SubmitEvidence? && a.file.Some? then [a.file.value] else []
    ensures PlansOf([a]) == if a.SubmitCap? && |a.plan| == 5 && "" !in a.plan then [a.plan] else []
  {
    assert [a][1..] == [];
  }

  /** In every run the evidence holds the submitted files in order, the CAP is the plan submitted last, and there is one revision
      for each submission. */
  lemma {:induction false} RecordsHoldSubmissions(f: Finding, a: seq<Action>)
    ensures var f' := FindingLifecycle.Run(f, a);
            && Files(f'.evidence) == Files(f.evidence) + FilesOf(a)
            && |f'.revisions| == |f.revisions| + |PlansOf(a)|
            && (if PlansOf(a) != [] then f'.cap.Some? && f'.cap.value.plan == PlansOf(a)[|PlansOf(a)| - 1]
                else (f'.cap.Some? <==> f.cap.Some?) && (f.cap.Some? ==> f'.cap.value.plan == f.cap.value.plan))
    decreases |a|
  {
    hide After, Files, FilesOf, PlansOf;
    if a == [] {
      NothingSubmitted();
      assert Files(f.evidence) + [] == Files(f.evidence);
    } else {
      var g := After(f, a[0]);
      SubmittedExactly(f, a[0]);
      FilesOfOne(a[0]);
      RecordsHoldSubmissions(g, a[1..]);
      SubmittedFirst(a);
      assert Files(f.evidence) + (FilesOf([a[0]]) + FilesOf(a[1..])) == Files(f.evidence) + FilesOf([a[0]]) + FilesOf(a[1..]);
    }
  }

  lemma NothingSubmitted()
    ensures FilesOf([]) == [] && PlansOf([]) == []
  {
  }

  lemma SubmittedFirst(a: seq<Action>)
    requires a != []
    ensures FilesOf(a) == FilesOf([a[0]]) + FilesOf(a[1..]) && PlansOf(a) == PlansOf([a[0]]) + PlansOf(a[1..])
  {
    hide FilesOf, PlansOf;
    SubmittedUnfold(a);
    FilesOfOne(a[0]);
  }

  lemma SubmittedUnfold(a: seq<Action>)
    requires a != []
    ensures FilesOf(a) == (if a[0].SubmitEvidence? && a[0].file.Some? then [a[0].file.value] else []) + FilesOf(a[1..])
    ensures PlansOf(a)
         == (if a[0].SubmitCap? && |a[0].plan| == 5 && "" !in a[0].plan then [a[0].plan] else []) + PlansOf(a[1..])
  {
  }

  /** The newest revision says what became of the CAP. */
  predicate RevisionSays(f: Finding) {
    f.cap.Some? && f.revisions != [] ==>
      var last := f.revisions[|f.revisions| - 1];
      && (f.cap.value.status == SUBMITTED ==> last == "pending_review")
      && (f.cap.value.status == ACCEPTED ==> last == "accepted")
      && (f.cap.value.status == MORE_INFO ==> last == "more_information_requested")
  }

  lemma RevisionSaysStill(f: Finding, a: Action)
    requires RevisionSays(f)
    ensures RevisionSays(After(f, a))
  {
    hide AfterReviewCap, Trim, Noted, AllFilled, MaxVersion, Latest, ClosureNote, EvidenceStatus;
    hide SUBMITTED, ACCEPTED, MORE_INFO, UPLOADED;
    TextsDiffer();
    if a.ReviewCap? { ReviewSaysSo(f, a.review); }
  }

  lemma ReviewSaysSo(f: Finding, v: Review)
    requires RevisionSays(f)
    ensures RevisionSays(AfterReviewCap(f, v))
  {
    hide Noted, Refuses, ReturnComments, SUBMITTED, ACCEPTED, MORE_INFO;
    TextsDiffer();
  }

  lemma {:induction false} RevisionsFollow(f: Finding, a: seq<Action>)
    requires RevisionSays(f)
    ensures RevisionSays(FindingLifecycle.Run(f, a))
    decreases |a|
  {
    hide RevisionSays, After;
    if a != [] {
      RevisionSaysStill(f, a[0]);
      RevisionsFollow(After(f, a[0]), a[1..]);
    }
  }

  // ----- conversion, and a whole life -----

  /** The note a conversion leaves names the Potential Finding and its files in order. */
  lemma NoteNamesFiles(potential: string, files: seq<string>, file: string)
    ensures ConversionNote(potential, []) == "Converted from Potential Finding " + potential + "."
    ensures ConversionNote(potential, [file]) == "Converted from Potential Finding " + potential + ". Mock evidence filenames: " + file
    ensures files != [] ==> ConversionNote(potential, files + [file]) == ConversionNote(potential, files) + ", " + file
  {
    if files != [] {
      ListedLast(files, file);
      assert files + [file] != [];
    }
  }

  lemma {:induction false} ListedLast(files: seq<string>, file: string)
    requires files != []
    ensures FindingLifecycle.Listed(files + [file]) == FindingLifecycle.Listed(files) + ", " + file
  {
    assert (files + [file])[1..] == files[1..] + [file];
    if |files| > 1 { ListedLast(files[1..], file); }
  }

  /** A submitted CAP bears the program's date. */
  lemma CapIsDated(f: Finding, plan: seq<string>)
    requires |plan| == 5 && "" !in plan
    ensures After(f, SubmitCap(plan)).cap == Some(Cap(SUBMITTED, "2026-06-15", plan)) && SUBMITTED == "Submitted"
  {
  }

  /** Evidence whose status says Verified counts as accepted to the stepper. */
  lemma VerifiedCounts(e: Evidence)
    requires e.status == "Verified"
    ensures SomeVerified([e])
  {
    assert LowerAll("Verified") == "verified";
    assert [e][0] == e;
  }

  /** What a converted Finding starts from: levels 1 to 3 need CAP and Evidence and wait for the CAP, an observation needs
      neither, and the Lead's own choice overrides both. */
  lemma ConvertedMeans(severity: int, note: string)
    ensures severity in {1, 2, 3} ==>
              var f := Converted(severity, None, None, note); f.capRequired && f.evidenceRequired && f.status.WaitingCap?
    ensures severity in {0, 4} ==>
              var f := Converted(severity, None, None, note); !f.capRequired && !f.evidenceRequired && f.status.OpenObservation?
    ensures forall c, e :: var f := Converted(severity, Some(c), Some(e), note);
              && f.capRequired == c && f.evidenceRequired == e && f.notes == [note]
              && f.status == if c then WaitingCap else if e then EvidenceRequired else OpenObservation
  {
  }

  /** The first half of a Finding's life, as the screens offer it: submit, accept, upload. */
  function Uploaded(severity: int, note: string, plan: seq<string>, file: string): Finding {
    After(After(After(Converted(severity, None, None, note), SubmitCap(plan)),
      ReviewCap(Review(CapReview, true, AcceptIt, "", ""))), SubmitEvidence(Some(file)))
  }

  lemma FirstHalf(severity: int, note: string, plan: seq<string>, file: string)
    requires severity in {1, 2, 3} && |plan| == 5 && "" !in plan
    ensures var f := Uploaded(severity, note, plan, file);
            f.status.EvidenceSubmitted? && f.evidence == [Evidence(1, UPLOADED, file)] && f.comments == [] && f.verifications == []
  {
    hide LastRevision, ACCEPTED, SUBMITTED, UPLOADED;
  }

  /** And the second: sent back with a comment, uploaded again, closed. */
  lemma WholeLife(severity: int, note: string, plan: seq<string>, first: string, second: string, comment: string, internal: string)
    requires severity in {1, 2, 3} && |plan| == 5 && "" !in plan && Trim(comment) != "" && Trim(internal) != ""
    ensures var f1 := Uploaded(severity, note, plan, first);
            var f2 := After(f1, VerifyEvidence(true, Some(NotClose), comment, internal));
            var f3 := After(f2, SubmitEvidence(Some(second)));
            var f4 := After(f3, VerifyEvidence(true, Some(CloseFinding), comment, internal));
            && f1.status.EvidenceSubmitted? && f2.status.EvidenceMoreInfo? && f3.status.EvidenceSubmitted? && f4.status.Closed?
            && f4.closureType == Some(EvidenceVerified) && Files(f4.evidence) == [first, second]
            && f4.comments == [Trim(comment), Trim(comment)]
            && f4.verifications == [Verification(NotClose, 1), Verification(CloseFinding, 2)]
  {
    hide Trim, Uploaded, ACCEPTED, MORE_INFO, UPLOADED;
    FirstHalf(severity, note, plan, first);
    var f1 := Uploaded(severity, note, plan, first);
    var f2 := After(f1, VerifyEvidence(true, Some(NotClose), comment, internal));
    assert f2.evidence == [Evidence(1, MORE_INFO, first)] && f2.verifications == [Verification(NotClose, 1)];
    var f3 := After(f2, SubmitEvidence(Some(second)));
    assert f3.evidence == [Evidence(1, MORE_INFO, first), Evidence(2, UPLOADED, second)] by { NextVersion(f2.evidence[0]); }
  }

  lemma NextVersion(e: Evidence)
    ensures MaxVersion([e]) == e.version
  {
    assert [e][..0] == [];
  }
}
