/** A Finding from its conversion to its closure: CAP revisions, Evidence versions, verifications, and the two projections that
    recompute its state from those records. */
module FindingLifecycle {
  import opened Basics
  import opened Texts

  // ----- data -----

  datatype Status = WaitingCap | CapSubmitted | CapMoreInfo | EvidenceRequired | EvidenceSubmitted | EvidenceMoreInfo
    | ReadyForVerification | OpenObservation | Closed

  /** CAP and Evidence records carry their status as the program's text; the projections search that text. */
  datatype Cap = Cap(status: string, submittedDate: string, plan: seq<string>)
  datatype Evidence = Evidence(version: nat, status: string, file: string)

  datatype VerificationResult = CloseFinding | PartiallyClose | NotClose
  datatype Verification = Verification(result: VerificationResult, version: nat)
  datatype ClosureType = EvidenceVerified | Authorized

  datatype Finding = Finding(status: Status, capRequired: bool, evidenceRequired: bool, cap: Option<Cap>, revisions: seq<string>,
    evidence: seq<Evidence>, verifications: seq<Verification>, closureType: Option<ClosureType>, closureReason: Option<string>,
    comments: seq<string>, notes: seq<string>)

  const SUBMITTED := "Submitted"
  const ACCEPTED := "Accepted"
  const PARTIAL := "Partially Accepted"
  const MORE_INFO := "More Information Requested"
  const UPLOADED := "Uploaded"

  // ----- conversion -----

  /** Observations (severity 4, stored as 0) need neither CAP nor Evidence unless the Lead says so. */
  function Required(severity: int, chosen: Option<bool>): bool {
    if chosen.Some? then chosen.value else !(severity == 4 || severity == 0)
  }

  function Listed(files: seq<string>): string {
    if |files| <= 1 then (if files == [] then "" else files[0]) else files[0] + ", " + Listed(files[1..])
  }

  function ConversionNote(potentialId: string, files: seq<string>): string {
    "Converted from Potential Finding " + potentialId
    + if files == [] then "." else ". Mock evidence filenames: " + Listed(files)
  }

  function Converted(severity: int, cap: Option<bool>, evidence: Option<bool>, note: string): Finding {
    var c, e := Required(severity, cap), Required(severity, evidence);
    Finding(if c then WaitingCap else if e then EvidenceRequired else OpenObservation, c, e, None, [], [], [], None, None, [],
      [note])
  }

  // ----- the handlers -----

  /** The four screens on which a CAP is reviewed. */
  datatype ReviewScreen = CapReview | FindingsWorkspace | CapPanel | CapPackage
  datatype ReviewDecision = AcceptIt | ReturnIt | OtherDecision | Undecided
  datatype Review = Review(screen: ReviewScreen, byReviewer: bool, decision: ReviewDecision, comment: string, internal: string)

  datatype Action =
    | SubmitCap(plan: seq<string>)
    | ReviewCap(review: Review)
    | SubmitEvidence(file: Option<string>)
    | VerifyEvidence(byReviewer: bool, result: Option<VerificationResult>, comment: string, internal: string)
    | CloseAuthorized(byManager: bool, reason: string, comment: string, internal: string)

  /** Today's date, whatever it is; the program never leaves it empty. */
  const TODAY := "2026-06-15"

  predicate AllFilled(plan: seq<string>) { |plan| == 5 && forall i :: 0 <= i < 5 ==> plan[i] != "" }

  /** Looks at nothing but the five fields. */
  function AfterSubmitCap(f: Finding, plan: seq<string>): Finding {
    if !AllFilled(plan) then f
    else f.(cap := Some(Cap(SUBMITTED, TODAY, plan)), revisions := f.revisions + ["pending_review"], status := CapSubmitted)
  }

  function LastRevision(revisions: seq<string>, status: string): seq<string> {
    if revisions == [] then [] else revisions[|revisions| - 1 := status]
  }

  function Noted(notes: seq<string>, text: string): seq<string> { if text == "" then notes else notes + [text] }

  /** What each screen turns away: two want a comment on anything but acceptance, two only on a plain return, and the panel
      also wants a decision. */
  predicate Refuses(v: Review) {
    match v.screen
    case CapReview => !v.decision.AcceptIt? && Blank(v.comment)
    case CapPackage => !v.decision.AcceptIt? && Blank(v.comment)
    case FindingsWorkspace => v.decision.ReturnIt? && Blank(v.comment)
    case CapPanel => v.decision.Undecided? || (v.decision.ReturnIt? && Blank(v.comment))
  }

  function ReturnComments(comments: seq<string>, v: Review): seq<string> {
    if v.screen.CapPanel? then Noted(comments, v.comment) else comments + [v.comment]
  }

  /** Only the CAP review takes an internal note, and keeps it even when the return is then refused. */
  function AfterReviewCap(f: Finding, v: Review): Finding {
    if !v.byReviewer || f.cap.None? then f
    else
      var g := if v.screen.CapReview? then f.(notes := Noted(f.notes, v.internal)) else f;
      if Refuses(v) then g
      else if v.decision.AcceptIt? then
        g.(comments := Noted(f.comments, v.comment), cap := Some(f.cap.value.(status := ACCEPTED)),
           revisions := LastRevision(f.revisions, "accepted"),
           status := if f.evidenceRequired then EvidenceRequired else ReadyForVerification)
      else
        g.(comments := ReturnComments(f.comments, v), cap := Some(f.cap.value.(status := MORE_INFO)),
           revisions := LastRevision(f.revisions, "more_information_requested"), status := CapMoreInfo)
  }

  function MaxVersion(evidence: seq<Evidence>): (m: nat)
    ensures forall i :: 0 <= i < |evidence| ==> evidence[i].version <= m
    ensures m == 0 || exists i :: 0 <= i < |evidence| && evidence[i].version == m
  {
    if evidence == [] then 0
    else
      var m := MaxVersion(evidence[..|evidence| - 1]);
      var v := evidence[|evidence| - 1].version;
      if v > m then v else m
  }

  function AfterSubmitEvidence(f: Finding, file: Option<string>): Finding {
    if file.None? then f
    else f.(evidence := f.evidence + [Evidence(MaxVersion(f.evidence) + 1, UPLOADED, file.value)], status := EvidenceSubmitted)
  }

  /** The position of the highest version, the later one on a tie. */
  function Latest(evidence: seq<Evidence>): (k: nat)
    requires evidence != []
    ensures k < |evidence| && forall i :: 0 <= i < |evidence| ==> evidence[i].version <= evidence[k].version
  {
    if |evidence| == 1 then 0
    else
      var k := Latest(evidence[..|evidence| - 1]);
      if evidence[|evidence| - 1].version >= evidence[k].version then |evidence| - 1 else k
  }

  function EvidenceStatus(r: VerificationResult): string {
    match r
    case CloseFinding => ACCEPTED
    case PartiallyClose => PARTIAL
    case NotClose => MORE_INFO
  }

  function AfterVerify(f: Finding, byReviewer: bool, result: Option<VerificationResult>, comment: string, internal: string)
    : Finding
  {
    if !byReviewer || result.None? || f.status != EvidenceSubmitted || f.evidence == [] || Blank(comment) || Blank(internal) then f
    else
      var r := result.value;
      var k := Latest(f.evidence);
      f.(verifications := f.verifications + [Verification(r, f.evidence[k].version)],
         comments := f.comments + [Trim(comment)], notes := f.notes + [Trim(internal)],
         evidence := f.evidence[k := f.evidence[k].(status := EvidenceStatus(r))],
         status := if r.CloseFinding? then Closed else EvidenceMoreInfo,
         closureType := if r.CloseFinding? then Some(EvidenceVerified) else None)
  }

  function ClosureNote(reason: string, internal: string): string {
    "Authorized closure reason: " + Trim(reason) + if Trim(internal) == "" then "" else " \U{2014} " + Trim(internal)
  }

  function AfterAuthorizedClosure(f: Finding, byManager: bool, reason: string, comment: string, internal: string): Finding {
    if !byManager || Blank(reason) then f
    else
      f.(status := Closed, closureType := Some(Authorized), closureReason := Some(Trim(reason)),
         comments := Noted(f.comments, Trim(comment)), notes := f.notes + [ClosureNote(reason, internal)])
  }

  function After(f: Finding, a: Action): Finding {
    match a
    case SubmitCap(plan) => AfterSubmitCap(f, plan)
    case ReviewCap(review) => AfterReviewCap(f, review)
    case SubmitEvidence(file) => AfterSubmitEvidence(f, file)
    case VerifyEvidence(byReviewer, result, comment, internal) => AfterVerify(f, byReviewer, result, comment, internal)
    case CloseAuthorized(byManager, reason, comment, internal) => AfterAuthorizedClosure(f, byManager, reason, comment, internal)
  }

  function Run(f: Finding, actions: seq<Action>): Finding
    decreases |actions|
  {
    if actions == [] then f else Run(After(f, actions[0]), actions[1..])
  }

  // ----- every interleaving: versions, verifications, closure -----

  /** Versions are 1, 2, 3 in order; verifications name rising versions; a version awaiting review is unverified; and a closed
      Finding was closed by an authorized decision with a reason, or by a Close result on the highest version, now accepted. */
  predicate RecordsSound(f: Finding) {
    var n := |f.evidence|;
    && (forall i :: 0 <= i < n ==> f.evidence[i].version == i + 1)
    && (forall i :: 0 <= i < |f.verifications| ==> 1 <= f.verifications[i].version <= n)
    && (forall i, j :: 0 <= i < j < |f.verifications| ==> f.verifications[i].version < f.verifications[j].version)
    && (f.status.EvidenceSubmitted? ==> n > 0 && forall i :: 0 <= i < |f.verifications| ==> f.verifications[i].version < n)
    && (f.status.Closed? ==> ClosedByAuthority(f) || ClosedByEvidence(f))
  }

  predicate ClosedByAuthority(f: Finding) {
    f.closureType == Some(Authorized) && f.closureReason.Some? && !Blank(f.closureReason.value)
  }

  predicate ClosedByEvidence(f: Finding) {
    && f.closureType == Some(EvidenceVerified) && f.evidence != [] && f.verifications != []
    && f.verifications[|f.verifications| - 1] == Verification(CloseFinding, |f.evidence|)
    && f.evidence[|f.evidence| - 1].status == ACCEPTED
  }

  lemma {:induction false} TrimNotBlank(s: string)
    requires !Blank(s)
    ensures !Blank(Trim(s))
  {
  }

  lemma SubmitEvidenceKeeps(f: Finding, file: Option<string>)
    requires RecordsSound(f)
    ensures RecordsSound(AfterSubmitEvidence(f, file))
  {
    hide Blank, UPLOADED, ACCEPTED;
  }

  lemma VerifyKeeps(f: Finding, byReviewer: bool, result: Option<VerificationResult>, comment: string, internal: string)
    requires RecordsSound(f)
    ensures RecordsSound(AfterVerify(f, byReviewer, result, comment, internal))
  {
    hide Blank, Trim, ACCEPTED, PARTIAL, MORE_INFO;
  }

  lemma ClosureKeeps(f: Finding, byManager: bool, reason: string, comment: string, internal: string)
    requires RecordsSound(f)
    ensures RecordsSound(AfterAuthorizedClosure(f, byManager, reason, comment, internal))
  {
    hide Blank, Trim, Noted, ACCEPTED, ClosedByEvidence;
    if !Blank(reason) { TrimNotBlank(reason); }
  }

  lemma ReviewKeeps(f: Finding, v: Review)
    requires RecordsSound(f)
    ensures RecordsSound(AfterReviewCap(f, v))
  {
    hide RecordsSound, LastRevision, Noted, Refuses, ReturnComments, ACCEPTED, MORE_INFO;
    SameRecords(f, AfterReviewCap(f, v));
  }

  /** What a step that leaves Evidence, verifications and closure alone has to keep. */
  lemma SameRecords(f: Finding, f': Finding)
    requires RecordsSound(f) && f'.evidence == f.evidence && f'.verifications == f.verifications
    requires f'.closureType == f.closureType && f'.closureReason == f.closureReason
    requires f'.status == f.status || !(f'.status.EvidenceSubmitted? || f'.status.Closed?)
    ensures RecordsSound(f')
  {
    hide Blank, ACCEPTED;
  }

  lemma ActionKeepsRecords(f: Finding, a: Action)
    requires RecordsSound(f)
    ensures RecordsSound(After(f, a))
  {
    hide AllFilled, LastRevision, Noted, Blank, AfterSubmitEvidence, AfterVerify, AfterAuthorizedClosure, ACCEPTED, MORE_INFO;
    hide AfterReviewCap;
    match a
    case SubmitCap(_) =>
    case ReviewCap(review) => ReviewKeeps(f, review);
    case SubmitEvidence(file) => SubmitEvidenceKeeps(f, file);
    case VerifyEvidence(byReviewer, result, comment, internal) => VerifyKeeps(f, byReviewer, result, comment, internal);
    case CloseAuthorized(byManager, reason, comment, internal) => ClosureKeeps(f, byManager, reason, comment, internal);
  }

  lemma ConvertedSound(severity: int, cap: Option<bool>, evidence: Option<bool>, note: string)
    ensures RecordsSound(Converted(severity, cap, evidence, note))
  {
  }

  /** For every sequence of the handlers, in any order and with any input, from a freshly converted Finding. */
  lemma {:induction false} RecordsAlwaysSound(severity: int, cap: Option<bool>, evidence: Option<bool>, note: string,
    actions: seq<Action>)
    ensures RecordsSound(Run(Converted(severity, cap, evidence, note), actions))
  {
    hide RecordsSound;
    ConvertedSound(severity, cap, evidence, note);
    RunKeepsRecords(Converted(severity, cap, evidence, note), actions);
  }

  lemma {:induction false} RunKeepsRecords(f: Finding, actions: seq<Action>)
    requires RecordsSound(f)
    ensures RecordsSound(Run(f, actions))
    decreases |actions|
  {
    hide RecordsSound, After;
    if actions != [] {
      ActionKeepsRecords(f, actions[0]);
      RunKeepsRecords(After(f, actions[0]), actions[1..]);
    }
  }

  // ----- the recomputed status -----

  predicate Awaiting(status: string) {
    Contains(status, "uploaded") || Contains(status, "submitted") || Contains(status, "pending")
  }

  predicate SentBack(status: string) {
    Contains(status, "rejected") || Contains(status, "more information") || Contains(status, "revision")
    || Contains(status, "partially accepted")
  }

  predicate Accepted(status: string) { Contains(status, "accepted") }

  function Recomputed(f: Finding): Status {
    if f.status.Closed? then Closed
    else if f.evidence != [] && Awaiting(f.evidence[|f.evidence| - 1].status) then EvidenceSubmitted
    else if f.evidence != [] && SentBack(f.evidence[|f.evidence| - 1].status) then EvidenceMoreInfo
    else if f.cap.Some? && Accepted(f.cap.value.status) && f.evidenceRequired then EvidenceRequired
    else if f.cap.Some? && (Contains(f.cap.value.status, "submitted") || Contains(f.cap.value.status, "pending")) then CapSubmitted
    else if !f.capRequired && !f.evidenceRequired then OpenObservation
    else f.status
  }

  // ----- what the searches find -----

  /** A pattern with a character the text lacks is not found. */
  lemma {:induction false} LacksChar(s: string, t: string, c: char)
    requires c in t && forall i :: 0 <= i < |s| ==> s[i] != c
    ensures !ContainsFrom(s, t)
  {
    if s != "" { LacksChar(s[1..], t, c); }
  }

  /** A text in which, ignoring case, none of these characters occurs. */
  predicate HasNone(s: string, cs: string) { forall i :: 0 <= i < |s| ==> Lower(s[i]) !in cs }

  lemma Lacks(s: string, cs: string, t: string, c: char)
    requires c in t && c in cs && HasNone(s, cs)
    ensures !Contains(s, t)
  {
    LacksChar(LowerAll(s), t, c);
  }

  lemma {:induction false} FoundAt(s: string, t: string, k: nat)
    requires k + |t| <= |s| && s[k..k + |t|] == t
    ensures ContainsFrom(s, t)
  {
    if k > 0 {
      assert s[1..][k - 1..k - 1 + |t|] == t;
      FoundAt(s[1..], t, k - 1);
    }
  }

  lemma Finds(s: string, t: string, k: nat)
    requires k + |t| <= |s| && forall i :: 0 <= i < |t| ==> Lower(s[k + i]) == t[i]
    ensures Contains(s, t)
  {
    FoundAt(LowerAll(s), t, k);
  }

  lemma UploadedMeans()
    ensures Awaiting(UPLOADED) && !SentBack(UPLOADED) && !Accepted(UPLOADED) && !Contains(UPLOADED, "verified")
  {
    hide Contains, Lower;
    UploadedText();
    hide UPLOADED, HasNone;
    Lacks(UPLOADED, "rmcv", "rejected", 'r');
    Lacks(UPLOADED, "rmcv", "more information", 'm');
    Lacks(UPLOADED, "rmcv", "revision", 'r');
    Lacks(UPLOADED, "rmcv", "partially accepted", 'c');
    Lacks(UPLOADED, "rmcv", "accepted", 'c');
    Lacks(UPLOADED, "rmcv", "verified", 'v');
  }

  lemma UploadedText()
    ensures HasNone(UPLOADED, "rmcv") && Contains(UPLOADED, "uploaded")
  {
    hide Contains;
    Finds(UPLOADED, "uploaded", 0);
  }

  lemma AcceptedMeans()
    ensures Accepted(ACCEPTED) && !Awaiting(ACCEPTED) && !SentBack(ACCEPTED)
  {
    hide Contains, Lower;
    AcceptedText();
    hide ACCEPTED, HasNone;
    Lacks(ACCEPTED, "unrmo", "uploaded", 'u');
    Lacks(ACCEPTED, "unrmo", "submitted", 'u');
    Lacks(ACCEPTED, "unrmo", "pending", 'n');
    Lacks(ACCEPTED, "unrmo", "rejected", 'r');
    Lacks(ACCEPTED, "unrmo", "more information", 'm');
    Lacks(ACCEPTED, "unrmo", "revision", 'r');
    Lacks(ACCEPTED, "unrmo", "partially accepted", 'r');
  }

  lemma AcceptedText()
    ensures HasNone(ACCEPTED, "unrmo") && Contains(ACCEPTED, "accepted")
  {
    hide Contains;
    Finds(ACCEPTED, "accepted", 0);
  }

  /** `Partially Accepted` counts as accepted to the stepper, and as sent back to the status. */
  lemma PartialMeans()
    ensures Accepted(PARTIAL) && SentBack(PARTIAL) && !Awaiting(PARTIAL)
  {
    hide Contains, Lower;
    PartialLacks();
    PartialText();
    hide PARTIAL, HasNone;
    Lacks(PARTIAL, "un", "uploaded", 'u');
    Lacks(PARTIAL, "un", "submitted", 'u');
    Lacks(PARTIAL, "un", "pending", 'n');
  }

  lemma PartialLacks()
    ensures HasNone(PARTIAL, "un")
  {
  }

  lemma PartialText()
    ensures Contains(PARTIAL, "accepted") && Contains(PARTIAL, "partially accepted")
  {
    hide Contains;
    Finds(PARTIAL, "accepted", 10);
    Finds(PARTIAL, "partially accepted", 0);
  }

  lemma MoreInfoMeans()
    ensures SentBack(MORE_INFO) && !Awaiting(MORE_INFO) && !Accepted(MORE_INFO) && !Contains(MORE_INFO, "verified")
  {
    hide Contains, Lower;
    MoreInfoLacks();
    MoreInfoText();
    hide MORE_INFO, HasNone;
    Lacks(MORE_INFO, "pbcv", "uploaded", 'p');
    Lacks(MORE_INFO, "pbcv", "submitted", 'b');
    Lacks(MORE_INFO, "pbcv", "pending", 'p');
    Lacks(MORE_INFO, "pbcv", "accepted", 'c');
    Lacks(MORE_INFO, "pbcv", "verified", 'v');
  }

  lemma MoreInfoLacks()
    ensures HasNone(MORE_INFO, "pbcv")
  {
  }

  lemma MoreInfoText()
    ensures Contains(MORE_INFO, "more information")
  {
    hide Contains;
    Finds(MORE_INFO, "more information", 0);
  }

  lemma SubmittedMeans()
    ensures Contains(SUBMITTED, "submitted") && !Accepted(SUBMITTED)
  {
    hide Contains;
    Finds(SUBMITTED, "submitted", 0);
    Lacks(SUBMITTED, "a", "accepted", 'a');
  }

  // ----- the actions the screens offer -----

  /** `primaryActionFor`: each status offers at most one step; an authorized closure may come at any time before the end. */
  predicate Offered(f: Finding, a: Action) {
    match a
    case SubmitCap(_) => f.status.WaitingCap? || f.status.CapMoreInfo?
    case ReviewCap(_) => f.status.CapSubmitted?
    case SubmitEvidence(_) => f.status.EvidenceRequired? || f.status.EvidenceMoreInfo?
    case VerifyEvidence(_, _, _, _) => f.status.EvidenceSubmitted?
    case CloseAuthorized(_, _, _, _) => !f.status.Closed?
  }

  predicate OfferedRun(f: Finding, actions: seq<Action>)
    decreases |actions|
  {
    actions == [] || (Offered(f, actions[0]) && OfferedRun(After(f, actions[0]), actions[1..]))
  }

  predicate CapAccepted(f: Finding) { if f.capRequired then f.cap.Some? && f.cap.value.status == ACCEPTED else f.cap.None? }

  predicate CapHas(f: Finding, status: string) {
    f.capRequired && f.cap.Some? && f.cap.value.status == status && f.evidence == []
  }

  function LastStatus(f: Finding): string { if f.evidence == [] then "" else f.evidence[|f.evidence| - 1].status }

  predicate CapDated(f: Finding) { f.cap.Some? ==> f.cap.value.submittedDate != "" }

  predicate OrderedEvidence(f: Finding) { forall i :: 0 <= i < |f.evidence| ==> f.evidence[i].version == i + 1 }

  predicate Consistent(f: Finding) { CapDated(f) && OrderedEvidence(f) && Backed(f) }

  /** What the records look like behind each status, when only offered actions are taken. */
  predicate Backed(f: Finding) {
    match f.status
    case WaitingCap => f.capRequired && f.cap.None? && f.evidence == []
    case CapSubmitted => CapHas(f, SUBMITTED)
    case CapMoreInfo => CapHas(f, MORE_INFO)
    case EvidenceRequired => f.evidenceRequired && CapAccepted(f) && f.evidence == []
    case EvidenceSubmitted => f.evidenceRequired && CapAccepted(f) && f.evidence != [] && LastStatus(f) == UPLOADED
    case EvidenceMoreInfo =>
      f.evidenceRequired && CapAccepted(f) && f.evidence != [] && (LastStatus(f) == PARTIAL || LastStatus(f) == MORE_INFO)
    case ReadyForVerification => !f.evidenceRequired && CapHas(f, ACCEPTED)
    case OpenObservation => !f.capRequired && !f.evidenceRequired && f.cap.None? && f.evidence == []
    case Closed =>
      f.closureType == Some(Authorized)
      || (f.closureType == Some(EvidenceVerified) && f.evidenceRequired && CapAccepted(f) && f.evidence != []
          && LastStatus(f) == ACCEPTED)
  }

  lemma OfferedKeepsConsistent(f: Finding, a: Action)
    requires Consistent(f) && Offered(f, a)
    ensures Consistent(After(f, a))
  {
    hide Blank, Trim, Noted, LastRevision, Refuses, ReturnComments;
    hide AllFilled, ACCEPTED, MORE_INFO, SUBMITTED, UPLOADED, PARTIAL, MaxVersion, Latest;
  }

  lemma {:induction false} OfferedRunConsistent(f: Finding, actions: seq<Action>)
    requires Consistent(f) && OfferedRun(f, actions)
    ensures Consistent(Run(f, actions))
    decreases |actions|
  {
    hide Consistent, Offered, After;
    if actions != [] {
      OfferedKeepsConsistent(f, actions[0]);
      OfferedRunConsistent(After(f, actions[0]), actions[1..]);
    }
  }

  lemma ConsistentRecomputes(f: Finding)
    requires Consistent(f)
    ensures Recomputed(f) == f.status
  {
    hide SentBack, Accepted, Contains, ACCEPTED, MORE_INFO, SUBMITTED, UPLOADED, PARTIAL;
    UploadedMeans();
    AcceptedMeans();
    PartialMeans();
    MoreInfoMeans();
    SubmittedMeans();
  }

  /** In every run of the actions the screens offer, authorized closure included, from a freshly converted Finding: the status
      recomputed from the CAP and Evidence records is the stored one. */
  lemma {:induction false} StatusAgrees(severity: int, cap: Option<bool>, evidence: Option<bool>, note: string,
    actions: seq<Action>)
    requires OfferedRun(Converted(severity, cap, evidence, note), actions)
    ensures var f := Run(Converted(severity, cap, evidence, note), actions); Recomputed(f) == f.status
  {
    hide Run, OfferedRun, Recomputed;
    OfferedRunConsistent(Converted(severity, cap, evidence, note), actions);
    ConsistentRecomputes(Run(Converted(severity, cap, evidence, note), actions));
  }

  // ----- every handler, offered or not: when the recomputed status agrees -----

  /** The texts the handlers write; nothing else is ever stored. */
  predicate CapText(s: string) { s == SUBMITTED || s == ACCEPTED || s == MORE_INFO }

  predicate EvidenceText(s: string) { s == UPLOADED || s == ACCEPTED || s == PARTIAL || s == MORE_INFO }

  predicate Written(f: Finding) {
    && (f.cap.Some? ==> CapText(f.cap.value.status))
    && (forall i :: 0 <= i < |f.evidence| ==> EvidenceText(f.evidence[i].status))
    && OrderedEvidence(f)
  }

  lemma ActionKeepsWritten(f: Finding, a: Action)
    requires Written(f)
    ensures Written(After(f, a))
  {
    hide Blank, Trim, Noted, LastRevision, Refuses, ReturnComments;
    hide AllFilled, ACCEPTED, MORE_INFO, SUBMITTED, UPLOADED, PARTIAL, ClosureNote;
    hide AfterSubmitEvidence, AfterVerify, MaxVersion, Latest;
    match a
    case SubmitEvidence(file) => UploadKeepsWritten(f, file);
    case VerifyEvidence(byReviewer, result, comment, internal) => VerifyKeepsWritten(f, byReviewer, result, comment, internal);
    case _ =>
  }

  lemma UploadKeepsWritten(f: Finding, file: Option<string>)
    requires Written(f)
    ensures var f' := AfterSubmitEvidence(f, file);
            Written(f') && (file.Some? ==> f'.evidence != [] && LastStatus(f') == UPLOADED)
  {
    hide CapText, ACCEPTED, MORE_INFO, SUBMITTED, UPLOADED, PARTIAL;
  }

  lemma VerifyKeepsWritten(f: Finding, byReviewer: bool, result: Option<VerificationResult>, comment: string, internal: string)
    requires Written(f)
    ensures var f' := AfterVerify(f, byReviewer, result, comment, internal);
            && Written(f')
            && (Takes(f, VerifyEvidence(byReviewer, result, comment, internal)) ==>
                 f'.evidence != [] && LastStatus(f') == EvidenceStatus(result.value))
  {
    hide CapText, Blank, Trim, ACCEPTED, MORE_INFO, SUBMITTED, UPLOADED, PARTIAL;
  }

  predicate Agrees(f: Finding) { Recomputed(f) == f.status }

  /** No Evidence waits for review or was sent back. */
  predicate Settled(f: Finding) { f.evidence == [] || LastStatus(f) == ACCEPTED }

  /** The status the records name, the searches worked out. */
  function Named(f: Finding): Status {
    if f.status.Closed? then Closed
    else if !Settled(f) then (if LastStatus(f) == UPLOADED then EvidenceSubmitted else EvidenceMoreInfo)
    else if f.cap.Some? && f.cap.value.status == ACCEPTED && f.evidenceRequired then EvidenceRequired
    else if f.cap.Some? && f.cap.value.status == SUBMITTED then CapSubmitted
    else if !f.capRequired && !f.evidenceRequired then OpenObservation
    else f.status
  }

  lemma RecomputedIsNamed(f: Finding)
    requires Written(f)
    ensures Recomputed(f) == Named(f)
  {
    hide SentBack, Accepted, Contains, ACCEPTED, MORE_INFO, SUBMITTED, UPLOADED, PARTIAL;
    UploadedMeans();
    AcceptedMeans();
    PartialMeans();
    MoreInfoMeans();
    SubmittedMeans();
  }

  lemma TextsDiffer()
    ensures SUBMITTED != ACCEPTED && SUBMITTED != MORE_INFO && ACCEPTED != MORE_INFO
    ensures UPLOADED != ACCEPTED && UPLOADED != PARTIAL && UPLOADED != MORE_INFO && ACCEPTED != PARTIAL
  {
  }

  /** The handler goes through: it is not refused. */
  predicate Takes(f: Finding, a: Action) {
    match a
    case SubmitCap(plan) => AllFilled(plan)
    case ReviewCap(review) => review.byReviewer && f.cap.Some? && !Refuses(review)
    case SubmitEvidence(file) => file.Some?
    case VerifyEvidence(byReviewer, result, comment, internal) =>
      byReviewer && result.Some? && f.status.EvidenceSubmitted? && f.evidence != [] && !Blank(comment) && !Blank(internal)
    case CloseAuthorized(byManager, reason, _, _) => byManager && !Blank(reason)
  }

  /** A CAP step while Evidence waits or was sent back, or a CAP review on a Finding that needs neither CAP nor Evidence. */
  predicate Parts(f: Finding, a: Action) {
    Takes(f, a)
    && ((a.SubmitCap? && !Settled(f)) || (a.ReviewCap? && (!Settled(f) || (!f.capRequired && !f.evidenceRequired))))
  }

  /** For every handler with any input: what goes through leaves the recomputed status equal to the stored one exactly when it
      is not such a step, and what is refused leaves the agreement as it was. */
  lemma AgreesAfter(f: Finding, a: Action)
    requires Written(f)
    ensures Agrees(After(f, a)) <==> if Takes(f, a) then !Parts(f, a) else Agrees(f)
  {
    hide Recomputed, Written, After, Named, Takes, Parts;
    ActionKeepsWritten(f, a);
    RecomputedIsNamed(f);
    RecomputedIsNamed(After(f, a));
    NamedAfter(f, a);
  }

  lemma NamedAfter(f: Finding, a: Action)
    requires Written(f)
    ensures Named(After(f, a)) == After(f, a).status <==> if Takes(f, a) then !Parts(f, a) else Named(f) == f.status
  {
    hide Blank, Noted, LastRevision, Refuses, ReturnComments, AllFilled;
    hide ClosureNote, Written, ACCEPTED, MORE_INFO, SUBMITTED, UPLOADED, PARTIAL;
    hide AfterSubmitEvidence, AfterVerify, AfterReviewCap;
    TextsDiffer();
    match a
    case ReviewCap(review) => NamedAfterReview(f, review);
    case SubmitEvidence(file) => NamedAfterUpload(f, file);
    case VerifyEvidence(byReviewer, result, comment, internal) => NamedAfterVerify(f, byReviewer, result, comment, internal);
    case _ =>
  }

  lemma NamedAfterReview(f: Finding, v: Review)
    requires Written(f)
    ensures var f' := AfterReviewCap(f, v);
            Named(f') == f'.status <==> if Takes(f, ReviewCap(v)) then !Parts(f, ReviewCap(v)) else Named(f) == f.status
  {
    hide AfterReviewCap, Refuses, Written, ACCEPTED, MORE_INFO, SUBMITTED, UPLOADED, PARTIAL;
    TextsDiffer();
    ReviewOutcome(f, v);
  }

  /** What a review leaves of the fields the status depends on. */
  lemma ReviewOutcome(f: Finding, v: Review)
    ensures var f' := AfterReviewCap(f, v);
            if Takes(f, ReviewCap(v)) then
              && f'.evidence == f.evidence && f'.capRequired == f.capRequired && f'.evidenceRequired == f.evidenceRequired
              && f'.cap.Some?
              && if v.decision.AcceptIt? then
                   f'.cap.value.status == ACCEPTED && f'.status == if f.evidenceRequired then EvidenceRequired else ReadyForVerification
                 else f'.cap.value.status == MORE_INFO && f'.status == CapMoreInfo
            else f' == f.(notes := f'.notes)
  {
    hide Noted, LastRevision, Refuses, ReturnComments, ACCEPTED, MORE_INFO;
  }

  lemma NamedAfterUpload(f: Finding, file: Option<string>)
    ensures var f' := AfterSubmitEvidence(f, file); if file.Some? then Named(f') == f'.status else f' == f
  {
    hide ACCEPTED, MORE_INFO, SUBMITTED, UPLOADED, PARTIAL, MaxVersion;
    TextsDiffer();
  }

  lemma NamedAfterVerify(f: Finding, byReviewer: bool, result: Option<VerificationResult>, comment: string, internal: string)
    requires Written(f)
    ensures var f' := AfterVerify(f, byReviewer, result, comment, internal);
            if Takes(f, VerifyEvidence(byReviewer, result, comment, internal)) then Named(f') == f'.status else f' == f
  {
    hide Blank, Trim, Written, ACCEPTED, MORE_INFO, SUBMITTED, UPLOADED, PARTIAL;
    TextsDiffer();
    VerifyKeepsWritten(f, byReviewer, result, comment, internal);
  }

  predicate AlwaysAgrees(f: Finding, actions: seq<Action>)
    decreases |actions|
  {
    Agrees(f) && (actions == [] || AlwaysAgrees(After(f, actions[0]), actions[1..]))
  }

  predicate NeverParts(f: Finding, actions: seq<Action>)
    decreases |actions|
  {
    actions == [] || (!Parts(f, actions[0]) && NeverParts(After(f, actions[0]), actions[1..]))
  }

  lemma {:induction false} RunAgrees(f: Finding, actions: seq<Action>)
    requires Written(f) && Agrees(f)
    ensures AlwaysAgrees(f, actions) <==> NeverParts(f, actions)
    decreases |actions|
  {
    hide Written, Agrees, After, Takes;
    if actions != [] {
      AgreesAfter(f, actions[0]);
      ActionKeepsWritten(f, actions[0]);
      PartsIsTaken(f, actions[0]);
      if !Parts(f, actions[0]) { RunAgrees(After(f, actions[0]), actions[1..]); }
    }
  }

  lemma PartsIsTaken(f: Finding, a: Action)
    ensures Parts(f, a) ==> Takes(f, a)
  {
  }

  /** In every run of the handlers, offered or not, from a freshly converted Finding: the two statuses agree at every moment
      exactly when no CAP step of the kind above goes through. */
  lemma StatusAgreesExactly(severity: int, cap: Option<bool>, evidence: Option<bool>, note: string, actions: seq<Action>)
    ensures var f := Converted(severity, cap, evidence, note); AlwaysAgrees(f, actions) <==> NeverParts(f, actions)
  {
    hide AlwaysAgrees, NeverParts;
    RunAgrees(Converted(severity, cap, evidence, note), actions);
  }

  /** On the offered path Evidence is open exactly once there is some, so a CAP submitted off that path agrees exactly while
      there is none; with Evidence waiting it is shown as Evidence awaiting review. */
  lemma UnofferedCapDisagrees(f: Finding, plan: seq<string>)
    requires Consistent(f) && !f.status.Closed? && AllFilled(plan)
    ensures var f' := After(f, SubmitCap(plan));
            && f'.status.CapSubmitted? && (Agrees(f') <==> f.evidence == [])
            && (f.status.EvidenceSubmitted? ==> Recomputed(f').EvidenceSubmitted?)
  {
    hide Awaiting, SentBack, Accepted, Contains, AllFilled, ACCEPTED, MORE_INFO, SUBMITTED, UPLOADED, PARTIAL;
    UploadedMeans();
    PartialMeans();
    MoreInfoMeans();
    SubmittedMeans();
  }

  // ----- the lifecycle stepper -----

  datatype StepState = NotRequired | Complete | Current | Incomplete
  datatype Definition = Definition(required: bool, complete: bool)

  predicate NotSubmitted(status: string) { LowerAll(if status == "" then "Not Submitted" else status) == "not submitted" }

  predicate SomeVerified(evidence: seq<Evidence>) {
    exists i :: 0 <= i < |evidence| && (Accepted(evidence[i].status) || Contains(evidence[i].status, "verified"))
  }

  /** The six steps: issued, CAP submitted, CAP accepted, Evidence submitted, Evidence verified, closed. */
  function Definitions(f: Finding): seq<Definition> {
    var closed := Recomputed(f).Closed?;
    var byEvidence := closed && f.closureType == Some(EvidenceVerified);
    [Definition(true, true),
     Definition(f.capRequired,
       f.capRequired && f.cap.Some? && (f.cap.value.submittedDate != "" || !NotSubmitted(f.cap.value.status))),
     Definition(f.capRequired, f.capRequired && f.cap.Some? && Accepted(f.cap.value.status)),
     Definition(f.evidenceRequired, f.evidenceRequired && f.evidence != []),
     Definition(f.evidenceRequired, byEvidence || (f.evidenceRequired && SomeVerified(f.evidence))),
     Definition(true, closed)]
  }

  /** The steps, read off the records: issued; a CAP is there; it is accepted; Evidence is there; some of it is accepted or
      partially accepted, or the Finding was closed on it; closed. */
  lemma DefinitionsMean(f: Finding)
    requires Written(f)
    ensures var d := Definitions(f); var byEvidence := f.status.Closed? && f.closureType == Some(EvidenceVerified);
            && |d| == 6 && d[0] == Definition(true, true)
            && d[1] == Definition(f.capRequired, f.capRequired && f.cap.Some?)
            && d[2] == Definition(f.capRequired, f.capRequired && f.cap.Some? && f.cap.value.status == ACCEPTED)
            && d[3] == Definition(f.evidenceRequired, f.evidenceRequired && f.evidence != [])
            && d[4] == Definition(f.evidenceRequired, byEvidence || (f.evidenceRequired && SomeTaken(f.evidence)))
            && d[5] == Definition(true, f.status.Closed?)
  {
    hide Recomputed, Contains, Accepted, ACCEPTED, MORE_INFO, SUBMITTED, UPLOADED, PARTIAL, NotSubmitted;
    RecomputedIsNamed(f);
    assert Recomputed(f).Closed? <==> f.status.Closed? by { OnlyClosedIsClosed(f); }
    VerifiedMeans(f.evidence);
    if f.cap.Some? { CapTextsMean(f.cap.value.status); }
  }

  predicate SomeTaken(evidence: seq<Evidence>) {
    exists i :: 0 <= i < |evidence| && (evidence[i].status == ACCEPTED || evidence[i].status == PARTIAL)
  }

  lemma OnlyClosedIsClosed(f: Finding)
    ensures Named(f).Closed? <==> f.status.Closed?
  {
  }

  lemma CapTextsMean(s: string)
    requires CapText(s)
    ensures !NotSubmitted(s) && (Accepted(s) <==> s == ACCEPTED)
  {
    AcceptedMeans();
    MoreInfoMeans();
    SubmittedMeans();
    TextsDiffer();
    assert |SUBMITTED| == 9 && |ACCEPTED| == 8 && |MORE_INFO| == 26;
    assert |"not submitted"| == 13;
    hide Accepted, Contains;
  }

  lemma VerifiedMeans(evidence: seq<Evidence>)
    requires forall i :: 0 <= i < |evidence| ==> EvidenceText(evidence[i].status)
    ensures SomeVerified(evidence) <==> SomeTaken(evidence)
  {
    hide Contains, Accepted, Awaiting, SentBack, ACCEPTED, MORE_INFO, UPLOADED, PARTIAL;
    TextsDiffer();
    AcceptedMeans();
    PartialMeans();
    UploadedMeans();
    MoreInfoMeans();
  }

  /** The stepper, step by step: not required, complete, current where nothing required is missing before, else incomplete. */
  lemma {:induction false} StepsMean(d: seq<Definition>, taken: bool, i: nat)
    requires i < |d|
    ensures Steps(d, taken)[i] ==
      if !d[i].required then NotRequired else if d[i].complete then Complete
      else if !taken && forall j :: 0 <= j < i ==> !d[j].required || d[j].complete then Current else Incomplete
    decreases |d|
  {
    var next := taken || (d[0].required && !d[0].complete);
    if i > 0 {
      StepsMean(d[1..], next, i - 1);
      assert forall j :: 0 < j < i ==> d[j] == d[1..][j - 1];
      if !taken && forall j :: 0 <= j < i ==> !d[j].required || d[j].complete {
        assert !d[0].required || d[0].complete;
        assert forall j :: 0 <= j < i - 1 ==> d[1..][j] == d[j + 1];
      }
    }
  }

  /** The stepper: the first required step that is not complete is current, later ones are incomplete. */
  function Steps(definitions: seq<Definition>, taken: bool): (states: seq<StepState>)
    ensures |states| == |definitions|
    decreases |definitions|
  {
    if definitions == [] then []
    else
      var d := definitions[0];
      var state := if !d.required then NotRequired else if d.complete then Complete else if !taken then Current else Incomplete;
      [state] + Steps(definitions[1..], taken || state.Current?)
  }

  /** Once a required step is missing, no later required step is complete. */
  predicate CompleteIsPrefix(definitions: seq<Definition>) {
    forall i, j :: 0 <= i < j < |definitions| && definitions[i].required && definitions[j].required && definitions[j].complete
      ==> definitions[i].complete
  }

  predicate NotAuthorized(f: Finding) { f.closureType != Some(Authorized) }

  /** Without authorized closure the completed required steps form a prefix. */
  lemma ConsistentSteps(f: Finding)
    requires Consistent(f) && NotAuthorized(f)
    ensures CompleteIsPrefix(Definitions(f))
  {
    hide Contains, Accepted, Awaiting, SentBack, NotSubmitted, ACCEPTED, MORE_INFO, SUBMITTED, UPLOADED, PARTIAL, Recomputed;
    ConsistentRecomputes(f);
    AcceptedMeans();
    MoreInfoMeans();
    SubmittedMeans();
  }

  predicate NoAuthorized(actions: seq<Action>) { forall i :: 0 <= i < |actions| ==> !actions[i].CloseAuthorized? }

  lemma {:induction false} StaysUnauthorized(f: Finding, actions: seq<Action>)
    requires NotAuthorized(f) && NoAuthorized(actions)
    ensures NotAuthorized(Run(f, actions))
    decreases |actions|
  {
    hide Noted, LastRevision, Refuses, ReturnComments, AllFilled, MaxVersion, Latest, Blank, Trim, EvidenceStatus;
    if actions != [] {
      assert NotAuthorized(After(f, actions[0]));
      StaysUnauthorized(After(f, actions[0]), actions[1..]);
    }
  }

  /** In every offered run without authorized closure the completed required steps form a prefix of the required steps. */
  lemma {:induction false} StepsArePrefix(severity: int, cap: Option<bool>, evidence: Option<bool>, note: string,
    actions: seq<Action>)
    requires OfferedRun(Converted(severity, cap, evidence, note), actions) && NoAuthorized(actions)
    ensures CompleteIsPrefix(Definitions(Run(Converted(severity, cap, evidence, note), actions)))
  {
    hide Run, OfferedRun, Definitions, CompleteIsPrefix;
    OfferedRunConsistent(Converted(severity, cap, evidence, note), actions);
    StaysUnauthorized(Converted(severity, cap, evidence, note), actions);
    ConsistentSteps(Run(Converted(severity, cap, evidence, note), actions));
  }

  predicate AllComplete(definitions: seq<Definition>) {
    forall i :: 0 <= i < |definitions| && definitions[i].required ==> definitions[i].complete
  }

  /** After an authorized closure they do so exactly when every required step had been completed. */
  lemma AuthorizedStepsPrefix(f: Finding)
    requires f.status.Closed?
    ensures CompleteIsPrefix(Definitions(f)) <==> AllComplete(Definitions(f))
  {
    hide Contains, Accepted, SomeVerified, NotSubmitted;
    var d := Definitions(f);
    assert d[5].required && d[5].complete;
  }

  predicate NoneLeft(s: seq<StepState>) { forall i :: 0 <= i < |s| ==> !s[i].Complete? && !s[i].Current? }

  /** Completed steps first, then at most one current step, then incomplete ones; steps not required may stand anywhere. */
  predicate InOrder(s: seq<StepState>) {
    forall i, j :: 0 <= i < j < |s| ==>
      && (s[j].Complete? ==> s[i].Complete? || s[i].NotRequired?)
      && (s[j].Current? ==> s[i].Complete? || s[i].NotRequired?)
  }

  /** On a prefix the stepper is in order. */
  lemma {:induction false} StepperInOrder(d: seq<Definition>, taken: bool)
    requires CompleteIsPrefix(d) && (taken ==> forall i :: 0 <= i < |d| ==> !(d[i].required && d[i].complete))
    ensures InOrder(Steps(d, taken)) && (taken ==> NoneLeft(Steps(d, taken)))
    decreases |d|
  {
    if d != [] {
      var next := taken || (d[0].required && !d[0].complete);
      forall j | 0 <= j < |d[1..]| && next ensures !(d[1..][j].required && d[1..][j].complete) { assert d[1..][j] == d[j + 1]; }
      StepperInOrder(d[1..], next);
    }
  }

  ghost predicate OnlyClosureOffered(f: Finding) { forall a :: Offered(f, a) ==> a.CloseAuthorized? }

  /** From two statuses the screens offer no step at all. */
  lemma NothingOfferedExactly(f: Finding)
    requires !f.status.Closed?
    ensures OnlyClosureOffered(f) <==> f.status.ReadyForVerification? || f.status.OpenObservation?
  {
    assert f.status.WaitingCap? || f.status.CapMoreInfo? ==> Offered(f, SubmitCap([]));
    assert f.status.CapSubmitted? ==> Offered(f, ReviewCap(Review(CapReview, true, AcceptIt, "", "")));
    assert f.status.EvidenceRequired? || f.status.EvidenceMoreInfo? ==> Offered(f, SubmitEvidence(None));
    assert f.status.EvidenceSubmitted? ==> Offered(f, VerifyEvidence(true, None, "", ""));
  }

  /** In every offered run from a freshly converted Finding: an open Finding is left with nothing but an authorized closure
      exactly when it needs no Evidence and its CAP, if it needs one, has been accepted. */
  lemma {:induction false} StrandedExactly(severity: int, cap: Option<bool>, evidence: Option<bool>, note: string,
    actions: seq<Action>)
    requires OfferedRun(Converted(severity, cap, evidence, note), actions)
    ensures var f := Run(Converted(severity, cap, evidence, note), actions);
            !f.status.Closed? ==> (OnlyClosureOffered(f) <==> !f.evidenceRequired && CapAccepted(f))
  {
    hide Run, OfferedRun, OnlyClosureOffered, ACCEPTED, MORE_INFO, SUBMITTED;
    TextsDiffer();
    OfferedRunConsistent(Converted(severity, cap, evidence, note), actions);
    var f := Run(Converted(severity, cap, evidence, note), actions);
    if !f.status.Closed? { NothingOfferedExactly(f); }
  }

  /** A refused CAP return changes nothing exactly when no internal note was given. */
  lemma RefusedReturnKeepsNote(f: Finding, comment: string, internal: string)
    requires f.cap.Some? && Blank(comment)
    ensures var f' := After(f, ReviewCap(Review(CapReview, true, ReturnIt, comment, internal)));
            f' == f.(notes := f'.notes) && (f' == f <==> internal == "")
  {
  }

  // ----- the record the handlers write -----

  class FindingRecord {
    const capRequired: bool
    const evidenceRequired: bool
    var status: Status
    var cap: Option<Cap>
    var capRevisions: seq<string>
    var evidence: seq<Evidence>
    var verificationHistory: seq<Verification>
    var closureType: Option<ClosureType>
    var closureReason: Option<string>
    var commentsToAuditee: seq<string>
    var internalNotes: seq<string>

    function View(): Finding
      reads this
    {
      Finding(status, capRequired, evidenceRequired, cap, capRevisions, evidence, verificationHistory, closureType, closureReason,
        commentsToAuditee, internalNotes)
    }

    /** `convertPotentialFindingToFinding`, as far as the lifecycle goes. */
    constructor (severity: int, capChosen: Option<bool>, evidenceChosen: Option<bool>, potentialId: string, files: seq<string>)
      ensures View() == Converted(severity, capChosen, evidenceChosen, ConversionNote(potentialId, files))
    {
      var needsCap := Required(severity, capChosen);
      var needsEvidence := Required(severity, evidenceChosen);
      capRequired, evidenceRequired := needsCap, needsEvidence;
      status := if needsCap then WaitingCap else if needsEvidence then EvidenceRequired else OpenObservation;
      cap, closureType, closureReason := None, None, None;
      capRevisions, evidence, verificationHistory, commentsToAuditee := [], [], [], [];
      internalNotes := [ConversionNote(potentialId, files)];
    }

    method Submit(plan: seq<string>)
      modifies this
      ensures View() == After(old(View()), SubmitCap(plan))
    {
      hide AllFilled, AfterReviewCap, AfterSubmitEvidence, AfterVerify, AfterAuthorizedClosure;
      if !AllFilled(plan) { return; }
      cap := Some(Cap(SUBMITTED, TODAY, plan));
      capRevisions := capRevisions + ["pending_review"];
      status := CapSubmitted;
    }

    /** The review handlers: each screen checks what it must, and then all write the same fields. */
    method DecideCap(review: Review)
      modifies this
      ensures View() == After(old(View()), ReviewCap(review))
    {
      hide ACCEPTED, MORE_INFO, Refuses, Noted, LastRevision;
      hide AfterSubmitCap, AfterSubmitEvidence, AfterVerify, AfterAuthorizedClosure;
      if !review.byReviewer || cap.None? { return; }
      if review.screen == CapReview { AddNote(review.internal); }
      if Refuses(review) { return; }
      if review.decision == AcceptIt {
        AddComment(review.comment);
        cap := Some(cap.value.(status := ACCEPTED));
        MarkRevision("accepted");
        status := if evidenceRequired then EvidenceRequired else ReadyForVerification;
      } else {
        if review.screen == CapPanel {
          AddComment(review.comment);
        } else {
          commentsToAuditee := commentsToAuditee + [review.comment];
        }
        cap := Some(cap.value.(status := MORE_INFO));
        MarkRevision("more_information_requested");
        status := CapMoreInfo;
      }
    }

    method AddNote(text: string)
      modifies this`internalNotes
      ensures internalNotes == Noted(old(internalNotes), text)
    {
      if text != "" { internalNotes := internalNotes + [text]; }
    }

    method AddComment(text: string)
      modifies this`commentsToAuditee
      ensures commentsToAuditee == Noted(old(commentsToAuditee), text)
    {
      if text != "" { commentsToAuditee := commentsToAuditee + [text]; }
    }

    method MarkRevision(status: string)
      modifies this`capRevisions
      ensures capRevisions == LastRevision(old(capRevisions), status)
    {
      if capRevisions != [] { capRevisions := capRevisions[|capRevisions| - 1 := status]; }
    }

    /** The loop that looks for the highest version so far. */
    method HighestVersion() returns (max: nat)
      ensures max == MaxVersion(evidence)
    {
      max := 0;
      for i := 0 to |evidence|
        invariant max == MaxVersion(evidence[..i])
      {
        assert evidence[..i + 1][..i] == evidence[..i];
        if evidence[i].version > max { max := evidence[i].version; }
      }
      assert evidence[..|evidence|] == evidence;
    }

    method Upload(file: Option<string>)
      modifies this
      ensures View() == After(old(View()), SubmitEvidence(file))
    {
      hide AfterSubmitCap, AfterReviewCap, AfterVerify, AfterAuthorizedClosure;
      if file.None? { return; }
      var max := HighestVersion();
      evidence := evidence + [Evidence(max + 1, UPLOADED, file.value)];
      status := EvidenceSubmitted;
    }

    /** The fold that finds the evidence to verify. */
    method LatestEvidence() returns (k: nat)
      requires evidence != []
      ensures k == Latest(evidence)
    {
      k := 0;
      for i := 1 to |evidence|
        invariant k == Latest(evidence[..i])
      {
        assert evidence[..i + 1][..i] == evidence[..i];
        if evidence[i].version >= evidence[k].version { k := i; }
      }
      assert evidence[..|evidence|] == evidence;
    }

    method Verify(byReviewer: bool, result: Option<VerificationResult>, comment: string, internal: string)
      modifies this
      ensures View() == After(old(View()), VerifyEvidence(byReviewer, result, comment, internal))
    {
      hide EvidenceStatus, Blank, Trim, AfterSubmitCap, AfterReviewCap, AfterSubmitEvidence, AfterAuthorizedClosure;
      if !byReviewer || result.None? || status != EvidenceSubmitted || evidence == [] { return; }
      if Blank(comment) || Blank(internal) { return; }
      var k := LatestEvidence();
      verificationHistory := verificationHistory + [Verification(result.value, evidence[k].version)];
      commentsToAuditee := commentsToAuditee + [Trim(comment)];
      internalNotes := internalNotes + [Trim(internal)];
      evidence := evidence[k := evidence[k].(status := EvidenceStatus(result.value))];
      if result.value.CloseFinding? {
        status, closureType := Closed, Some(EvidenceVerified);
      } else {
        status, closureType := EvidenceMoreInfo, None;
      }
    }

    method Close(byManager: bool, reason: string, comment: string, internal: string)
      modifies this
      ensures View() == After(old(View()), CloseAuthorized(byManager, reason, comment, internal))
    {
      hide Blank, Trim, Noted, ClosureNote, AfterSubmitCap, AfterReviewCap, AfterSubmitEvidence, AfterVerify;
      if !byManager || Blank(reason) { return; }
      status := Closed;
      closureType := Some(Authorized);
      closureReason := Some(Trim(reason));
      AddComment(Trim(comment));
      internalNotes := internalNotes + [ClosureNote(reason, internal)];
    }
  }
}
