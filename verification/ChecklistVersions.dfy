/** The versions of one checklist package: two ways to publish, approval decisions on any version, and which version is active. */
module ChecklistVersions {
  import opened Basics
  import opened Decimals
  import opened Texts
  import opened ApprovalChain
  import ApprovalRecords
  import opened ChecklistPackages

  // ----- the governed path: draft, approve, publish -----

  const CHECKLIST_CHAIN := [Stage(Manager, "Department Manager", None, None), Stage(Gm, "GM Approval", Some(Manager), None)]

  function FirstActive(versions: seq<Version>): (k: Option<nat>)
    ensures k.Some? ==> k.value < |versions|
  {
    if versions == [] then None
    else if versions[0].record.status == ACTIVE then Some(0)
    else match FirstActive(versions[1..])
      case None => None
      case Some(k) => Some(k + 1)
  }

  /** A draft starts from the active version, or else from the newest. */
  function DraftSource(versions: seq<Version>): seq<string> {
    match FirstActive(versions)
    case Some(k) => versions[k].questionIds
    case None => if versions == [] then [] else versions[|versions| - 1].questionIds
  }

  function DraftRecord(actor: Actor, reason: string): Record {
    Record(Checklist, false, CHECKLIST_CHAIN, ConfiguredRole, 0, Pending,
      [Entry(actor.name, actor.role, DraftCreated, reason)], None, DRAFT)
  }

  datatype VersionRefusal = ReasonMissing | NotApprovedYet | Refused(why: Refusal) | PackageArchived

  function CreateDraft(p: Package, actor: Actor, reason: string): Result<Package, VersionRefusal> {
    if Blank(reason) then Err(ReasonMissing)
    else
      var v := Version(MaxVersion(p.versions, 0) + 1, DraftRecord(actor, Trim(reason)), DraftSource(p.versions), []);
      Ok(p.(versions := p.versions + [v]))
  }

  function DecideVersion(p: Package, k: nat, input: Input): Result<Package, VersionRefusal>
    requires k < |p.versions|
  {
    match Decide(p.versions[k].record, input)
    case Ok(r) => Ok(p.(versions := p.versions[k := p.versions[k].(record := r)]))
    case Err(why) => Err(Refused(why))
  }

  function Tenths(n: nat): string { Dec(n / 10) + "." + [DigitChar(n % 10)] }

  function VersionId(p: Package, v: Version): string { p.id + "-v" + Tenths(v.number) }

  /** Archives whatever is active under another id. */
  function ArchiveOthers(p: Package, id: string): (r: seq<Version>)
    ensures |r| == |p.versions|
    ensures forall i :: 0 <= i < |r| ==> r[i] == if VersionId(p, p.versions[i]) == id then p.versions[i] else Archive(p.versions[i])
  {
    seq(|p.versions|, i requires 0 <= i < |p.versions| =>
      if VersionId(p, p.versions[i]) == id then p.versions[i] else Archive(p.versions[i]))
  }

  function Activated(v: Version, actor: Actor): (r: Version)
    ensures r == v.(record := r.record)
  {
    v.(record := v.record.(status := ACTIVE,
      history := v.record.history
        + [NewEntry(actor, PublishedVersion, "Published as active demo checklist; prior active version archived.")]))
  }

  function PublishApproved(p: Package, k: nat, actor: Actor): (r: Result<Package, VersionRefusal>)
    requires k < |p.versions|
    ensures r.Ok? <==> p.versions[k].record.status == ChecklistApproved
  {
    if p.versions[k].record.status != ChecklistApproved then Err(NotApprovedYet)
    else
      var others := ArchiveOthers(p, VersionId(p, p.versions[k]));
      Ok(p.(versions := others[k := Activated(p.versions[k], actor)], published := Some(p.versions[k].number)))
  }

  // ----- the order of a draft's questions -----

  function IndexOf(ids: seq<string>, id: string): (k: Option<nat>)
    ensures k.Some? ==> k.value < |ids| && ids[k.value] == id && forall i :: 0 <= i < k.value ==> ids[i] != id
    ensures k.None? ==> id !in ids
  {
    if ids == [] then None
    else if ids[0] == id then Some(0)
    else match IndexOf(ids[1..], id)
      case None => None
      case Some(k) => Some(k + 1)
  }

  function Swapped(ids: seq<string>, i: nat, j: nat): seq<string>
    requires i < |ids| && j < |ids|
  {
    ids[i := ids[j]][j := ids[i]]
  }

  /** `moveChecklistQuestion`: swaps with a neighbour, if there is one. */
  function Moved(ids: seq<string>, id: string, up: bool): seq<string> {
    match IndexOf(ids, id)
    case None => ids
    case Some(i) =>
      if up then (if i == 0 then ids else Swapped(ids, i, i - 1)) else (if i + 1 == |ids| then ids else Swapped(ids, i, i + 1))
  }

  predicate NoRepeats(ids: seq<string>) { forall i, j :: 0 <= i < j < |ids| ==> ids[i] != ids[j] }

  /** A question that has a neighbour on that side moves next to it, nothing else moves, and moving back restores the order. */
  lemma MoveThereAndBack(ids: seq<string>, i: nat, up: bool)
    requires NoRepeats(ids) && i < |ids| && (if up then i > 0 else i + 1 < |ids|)
    ensures var j := if up then i - 1 else i + 1; var moved := Moved(ids, ids[i], up);
            && |moved| == |ids| && moved[j] == ids[i] && moved[i] == ids[j]
            && (forall k :: 0 <= k < |ids| && k != i && k != j ==> moved[k] == ids[k])
            && Moved(moved, ids[i], !up) == ids
  {
    hide IndexOf, Swapped;
    var j: nat := if up then i - 1 else i + 1;
    SwapFacts(ids, i, j);
  }

  lemma SwapFacts(ids: seq<string>, i: nat, j: nat)
    requires NoRepeats(ids) && i < |ids| && j < |ids| && i != j
    ensures var moved := Swapped(ids, i, j);
            && |moved| == |ids| && moved[j] == ids[i] && moved[i] == ids[j] && NoRepeats(moved)
            && (forall k :: 0 <= k < |ids| && k != i && k != j ==> moved[k] == ids[k])
            && Swapped(moved, j, i) == ids
  {
  }

  /** `addQuestionToChecklistVersion`: at the end, once. */
  function AddedOnce(ids: seq<string>, id: string): seq<string> { if id in ids then ids else ids + [id] }

  /** Adding keeps a list without repeats, adds just that question, and adding it again changes nothing. */
  lemma AddingOnce(ids: seq<string>, id: string)
    requires NoRepeats(ids)
    ensures var r := AddedOnce(ids, id);
            && NoRepeats(r) && ids <= r && AddedOnce(r, id) == r && forall q :: q in r <==> q in ids || q == id
  {
  }

  /** Moving neither adds nor drops a question. */
  lemma MovingKeeps(ids: seq<string>, id: string, up: bool)
    requires NoRepeats(ids)
    ensures NoRepeats(Moved(ids, id, up)) && multiset(Moved(ids, id, up)) == multiset(ids)
  {
    hide IndexOf, NoRepeats, Swapped;
    var found := IndexOf(ids, id);
    if found.Some? && Moved(ids, id, up) != ids {
      var i := found.value;
      var j := if up then i - 1 else i + 1;
      SwapFacts(ids, i, j);
      SwapMultiset(ids, i, j);
    }
  }

  lemma SwapMultiset(ids: seq<string>, i: nat, j: nat)
    requires i < |ids| && j < |ids|
    ensures multiset(Swapped(ids, i, j)) == multiset(ids)
  {
  }

  /** The swap as the program does it, in the version's own list. */
  method MoveInPlace(ids: array<string>, id: string, up: bool)
    modifies ids
    ensures ids[..] == Moved(old(ids[..]), id, up)
  {
    var found := IndexOf(ids[..], id);
    if found.None? { return; }
    var idx: int := found.value;
    var swapIdx := if up then idx - 1 else idx + 1;
    if swapIdx < 0 || swapIdx >= ids.Length { return; }
    var temp := ids[swapIdx];
    ids[swapIdx] := ids[idx];
    ids[idx] := temp;
  }

  // ----- runs over both paths -----

  datatype VersionEvent =
    | ManagerPublishes(name: string)
    | ManagerEdits
    | ManagerArchives
    | DraftMade(actor: Actor, reason: string)
    | Decided(k: nat, input: Input)
    | ApprovedPublished(k: nat, actor: Actor)
    | Reordered(k: nat, id: string, up: bool)
    | QuestionAdded(k: nat, id: string)

  function WithQuestions(p: Package, k: nat, ids: seq<string>): Package
    requires k < |p.versions|
  {
    p.(versions := p.versions[k := p.versions[k].(questionIds := ids)])
  }

  function Happens(p: Package, e: VersionEvent): Result<Package, VersionRefusal> {
    match e
    case ManagerPublishes(name) => if p.status.Archived? then Err(PackageArchived) else Ok(Publish(p, name))
    case ManagerEdits => if p.status.Archived? then Err(PackageArchived) else Ok(EnsureDraft(p))
    case ManagerArchives => Ok(p.(status := PackageStatus.Archived))
    case DraftMade(actor, reason) => CreateDraft(p, actor, reason)
    case Decided(k, input) => if k < |p.versions| then DecideVersion(p, k, input) else Ok(p)
    case ApprovedPublished(k, actor) => if k < |p.versions| then PublishApproved(p, k, actor) else Ok(p)
    case Reordered(k, id, up) =>
      if k < |p.versions| then Ok(WithQuestions(p, k, Moved(p.versions[k].questionIds, id, up))) else Ok(p)
    case QuestionAdded(k, id) =>
      if k < |p.versions| then Ok(WithQuestions(p, k, AddedOnce(p.versions[k].questionIds, id))) else Ok(p)
  }

  function Next(p: Package, e: VersionEvent): Package {
    match Happens(p, e)
    case Ok(p') => p'
    case Err(_) => p
  }

  function RunVersions(p: Package, events: seq<VersionEvent>): Package
    decreases |events|
  {
    if events == [] then p else RunVersions(Next(p, events[0]), events[1..])
  }

  /** A version's record is a checklist whose stages are the manager's and the GM's. */
  predicate Governed(r: Record) {
    r.kind.Checklist? && forall i :: 0 <= i < |r.chain| ==> ApprovalRecords.KnownRole(Checklist, r.chain[i].role)
  }

  predicate Increasing(versions: seq<Version>) {
    forall a, b :: 0 <= a < b < |versions| ==> versions[a].number < versions[b].number
  }

  /** Numbers only grow, and an active version is the one `publishedVersion` names. */
  predicate VersionsSound(p: Package) {
    && Increasing(p.versions)
    && forall k :: 0 <= k < |p.versions| ==>
         Governed(p.versions[k].record) && (p.versions[k].record.status == ACTIVE ==> p.published == Some(p.versions[k].number))
  }

  lemma TenthsInjective(m: nat, n: nat)
    requires Tenths(m) == Tenths(n)
    ensures m == n
  {
    var s, t := Tenths(m), Tenths(n);
    assert s[..|s| - 2] == Dec(m / 10) && t[..|t| - 2] == Dec(n / 10);
    DecInjective(m / 10, n / 10);
    assert s[|s| - 1] == DigitChar(m % 10) && t[|t| - 1] == DigitChar(n % 10);
    assert DigitValue(DigitChar(m % 10)) == m % 10 && DigitValue(DigitChar(n % 10)) == n % 10;
  }

  lemma IdNamesNumber(p: Package, v: Version, v': Version)
    requires VersionId(p, v) == VersionId(p, v')
    ensures v.number == v'.number
  {
    var front := p.id + "-v";
    assert VersionId(p, v)[|front|..] == Tenths(v.number) && VersionId(p, v')[|front|..] == Tenths(v'.number);
    TenthsInjective(v.number, v'.number);
  }

  /** The version the governed path publishes becomes the only active one. */
  lemma PublishApprovedSound(p: Package, k: nat, actor: Actor)
    requires VersionsSound(p) && k < |p.versions| && p.versions[k].record.status == ChecklistApproved
    ensures VersionsSound(PublishApproved(p, k, actor).value)
  {
    hide NewEntry, VersionId;
    var p' := PublishApproved(p, k, actor).value;
    forall i | 0 <= i < |p'.versions|
      ensures Governed(p'.versions[i].record) && p'.versions[i].number == p.versions[i].number
      ensures p'.versions[i].record.status == ACTIVE ==> i == k
    {
      assert Governed(p.versions[i].record);
      if i != k && VersionId(p, p.versions[i]) == VersionId(p, p.versions[k]) { IdNamesNumber(p, p.versions[i], p.versions[k]); }
    }
  }

  lemma PublishSound(p: Package, actor: string)
    requires VersionsSound(p)
    ensures VersionsSound(Publish(p, actor))
    ensures forall k :: 0 <= k < |p.versions| ==> p.versions[k].number < NextNumber(p)
  {
    hide AllQuestions;
  }

  /** No approval decision makes a version active. */
  lemma DecisionSound(p: Package, k: nat, input: Input)
    requires VersionsSound(p) && k < |p.versions| && DecideVersion(p, k, input).Ok?
    ensures VersionsSound(DecideVersion(p, k, input).value)
  {
    hide Decide, ApprovalRecords.KnownRole;
    var r := p.versions[k].record;
    assert Governed(r);
    DecideShape(r, input);
    ApprovalRecords.StatusShowsOutcome(r, input);
    ApprovalRecords.StatusIsFresh(r, input);
  }

  lemma CreateDraftSound(p: Package, actor: Actor, reason: string)
    requires VersionsSound(p) && CreateDraft(p, actor, reason).Ok?
    ensures VersionsSound(CreateDraft(p, actor, reason).value)
  {
    hide Blank, Trim, DraftSource;
  }

  lemma NextSound(p: Package, e: VersionEvent)
    requires VersionsSound(p)
    ensures VersionsSound(Next(p, e)) && Next(p, e).id == p.id
  {
    hide Publish, DecideVersion, PublishApproved, CreateDraft, Moved, AddedOnce, MaxVersion;
    match e
    case ManagerPublishes(name) =>
      PublishSound(p, name);
      assert Publish(p, name).id == p.id by { PublishKept(p, name); }
    case ManagerEdits =>
    case ManagerArchives =>
    case DraftMade(actor, reason) =>
      if CreateDraft(p, actor, reason).Ok? {
        CreateDraftSound(p, actor, reason);
        SameId(p, e);
      }
    case Decided(k, input) =>
      if k < |p.versions| && DecideVersion(p, k, input).Ok? {
        DecisionSound(p, k, input);
        SameId(p, e);
      }
    case ApprovedPublished(k, actor) =>
      if k < |p.versions| && PublishApproved(p, k, actor).Ok? {
        PublishApprovedSound(p, k, actor);
        SameId(p, e);
      }
    case Reordered(k, id, up) => if k < |p.versions| { ListSound(p, k, Moved(p.versions[k].questionIds, id, up)); }
    case QuestionAdded(k, id) => if k < |p.versions| { ListSound(p, k, AddedOnce(p.versions[k].questionIds, id)); }
  }

  lemma SameId(p: Package, e: VersionEvent)
    ensures Next(p, e).id == p.id
  {
    hide Decide, NewEntry, ArchiveOthers, VersionId, MaxVersion, DraftSource, Moved, AddedOnce, Blank, AllQuestions, NextNumber;
  }

  lemma ListSound(p: Package, k: nat, ids: seq<string>)
    requires VersionsSound(p) && k < |p.versions|
    ensures VersionsSound(WithQuestions(p, k, ids))
  {
    hide ApprovalRecords.KnownRole;
  }

  /** Over any run of both publication paths and of approval decisions: version numbers only grow, so ids stay distinct, and at
      most one version is active: the one `publishedVersion` names. */
  lemma {:induction false} OneActiveVersion(p: Package, events: seq<VersionEvent>)
    requires VersionsSound(p)
    ensures var p' := RunVersions(p, events);
            && VersionsSound(p')
            && (forall a, b :: 0 <= a < b < |p'.versions| ==> VersionId(p', p'.versions[a]) != VersionId(p', p'.versions[b]))
            && forall a, b :: 0 <= a < b < |p'.versions| ==>
                 p'.versions[a].record.status != ACTIVE || p'.versions[b].record.status != ACTIVE
    decreases |events|
  {
    hide Next, VersionId, Governed;
    if events == [] {
      forall a, b | 0 <= a < b < |p.versions| ensures VersionId(p, p.versions[a]) != VersionId(p, p.versions[b]) {
        if VersionId(p, p.versions[a]) == VersionId(p, p.versions[b]) { IdNamesNumber(p, p.versions[a], p.versions[b]); }
      }
    } else {
      NextSound(p, events[0]);
      OneActiveVersion(Next(p, events[0]), events[1..]);
    }
  }
}
