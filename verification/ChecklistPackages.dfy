/** The Department Manager's checklist packages over one shared question bank: drafting, copying on write, publishing and
    duplicating, and why what has been published stays as it was. */
module ChecklistPackages {
  import opened Basics
  import opened Texts
  import opened UniqueIds
  import opened ApprovalChain
  import Decimals

  // ----- data -----

  datatype Flags = Flags(evidenceMethods: seq<string>, findingTypes: seq<string>, mandatory: bool, critical: bool, status: string)
  datatype Content = Content(text: string, reference: string, guidance: string, likelihood: string, impact: string, flags: Flags,
    department: string)
  datatype Question = Question(id: string, content: Content)

  datatype Section = Section(id: string, name: string, questionIds: seq<string>)

  /** A version of a package; its number is counted in tenths and its record carries status and approval. */
  datatype Version = Version(number: nat, record: Record, questionIds: seq<string>, sections: seq<Section>)

  datatype PackageStatus = Draft | Published | Archived

  datatype Package = Package(id: string, name: string, department: string, status: PackageStatus, version: nat,
    published: Option<nat>, draftIds: seq<string>, sections: seq<Section>, versions: seq<Version>)

  datatype Workspace = Workspace(bank: seq<Question>, packages: seq<Package>)

  // ----- lookups -----

  function Find(packages: seq<Package>, id: string): (i: Option<nat>)
    ensures i.Some? ==> i.value < |packages| && packages[i.value].id == id
    ensures i.None? ==> forall k :: 0 <= k < |packages| ==> packages[k].id != id
  {
    if packages == [] then None
    else if packages[0].id == id then Some(0)
    else match Find(packages[1..], id)
      case None => None
      case Some(k) => Some(k + 1)
  }

  function FindSection(sections: seq<Section>, id: string): (i: Option<nat>)
    ensures i.Some? ==> i.value < |sections| && sections[i.value].id == id
  {
    if sections == [] then None
    else if sections[0].id == id then Some(0)
    else match FindSection(sections[1..], id)
      case None => None
      case Some(k) => Some(k + 1)
  }

  function FindQuestion(bank: seq<Question>, id: string): (i: Option<nat>)
    ensures i.Some? ==> i.value < |bank| && bank[i.value].id == id
    ensures i.None? ==> forall k :: 0 <= k < |bank| ==> bank[k].id != id
  {
    if bank == [] then None
    else if bank[0].id == id then Some(0)
    else match FindQuestion(bank[1..], id)
      case None => None
      case Some(k) => Some(k + 1)
  }

  function Lookup(bank: seq<Question>, id: string): Option<Question> {
    match FindQuestion(bank, id)
    case None => None
    case Some(k) => Some(bank[k])
  }

  function BankIds(bank: seq<Question>): (ids: seq<string>)
    ensures |ids| == |bank| && forall i :: 0 <= i < |bank| ==> ids[i] == bank[i].id
  {
    seq(|bank|, i requires 0 <= i < |bank| => bank[i].id)
  }

  function SectionIds(sections: seq<Section>): (ids: seq<string>)
    ensures |ids| == |sections| && forall i :: 0 <= i < |sections| ==> ids[i] == sections[i].id
  {
    seq(|sections|, i requires 0 <= i < |sections| => sections[i].id)
  }

  function PackageIds(packages: seq<Package>): (ids: seq<string>)
    ensures |ids| == |packages| && forall i :: 0 <= i < |packages| ==> ids[i] == packages[i].id
  {
    seq(|packages|, i requires 0 <= i < |packages| => packages[i].id)
  }

  function LowerNames(packages: seq<Package>): (names: seq<string>)
    ensures |names| == |packages| && forall i :: 0 <= i < |packages| ==> names[i] == LowerAll(packages[i].name)
  {
    seq(|packages|, i requires 0 <= i < |packages| => LowerAll(packages[i].name))
  }

  // ----- versions -----

  const ACTIVE := OtherStatus("published_active")
  const ARCHIVED := OtherStatus("archived")
  const DRAFT := OtherStatus("draft")

  /** The largest version number so far, the package's own included. */
  function MaxVersion(versions: seq<Version>, start: nat): (m: nat)
    ensures m >= start && forall i :: 0 <= i < |versions| ==> versions[i].number <= m
  {
    if versions == [] then start
    else
      var m := MaxVersion(versions[..|versions| - 1], start);
      var n := versions[|versions| - 1].number;
      if n > m then n else m
  }

  function Archive(v: Version): Version { if v.record.status == ACTIVE then v.(record := v.record.(status := ARCHIVED)) else v }

  function ArchiveAll(versions: seq<Version>): (r: seq<Version>)
    ensures |r| == |versions| && forall i :: 0 <= i < |versions| ==> r[i] == Archive(versions[i])
  {
    seq(|versions|, i requires 0 <= i < |versions| => Archive(versions[i]))
  }

  function AllQuestions(sections: seq<Section>): seq<string> {
    if sections == [] then [] else AllQuestions(sections[..|sections| - 1]) + sections[|sections| - 1].questionIds
  }

  function PublishedRecord(actor: string): Record {
    Record(Checklist, false, [], ConfiguredRole, 0, Approved, [Entry(actor, Manager, PublishedVersion, "Demo version published.")],
      None, ACTIVE)
  }

  function NextNumber(p: Package): nat {
    var max := MaxVersion(p.versions, p.version);
    if p.status.Draft? && p.version > max then p.version else max + 1
  }

  function Publish(p: Package, actor: string): Package {
    var n := NextNumber(p);
    var v := Version(n, PublishedRecord(actor), AllQuestions(p.sections), p.sections);
    p.(versions := ArchiveAll(p.versions) + [v], version := n, published := Some(n), status := Published, draftIds := [])
  }

  // ----- editing one package -----

  /** A published package goes back to draft under the next number, with no question of its own yet. */
  function EnsureDraft(p: Package): Package {
    if p.status.Draft? then p
    else p.(version := MaxVersion(p.versions, p.version) + 1, status := Draft, draftIds := [])
  }

  ghost function AddSection(p: Package, name: string): Package {
    var d := EnsureDraft(p);
    d.(sections := d.sections + [Section(UniqueId(SectionIds(d.sections), d.id + "-SEC-"), name, [])])
  }

  function Without(sections: seq<Section>, id: string): seq<Section> {
    if sections == [] then []
    else Without(sections[..|sections| - 1], id) + (if sections[|sections| - 1].id == id then [] else [sections[|sections| - 1]])
  }

  function RemoveSection(p: Package, id: string): Package { EnsureDraft(p).(sections := Without(p.sections, id)) }

  function SwapSections(p: Package, j: nat, k: nat): Package
    requires j < |p.sections| && k < |p.sections|
  {
    EnsureDraft(p).(sections := p.sections[j := p.sections[k]][k := p.sections[j]])
  }

  function DropId(ids: seq<string>, id: string): seq<string> {
    if ids == [] then [] else DropId(ids[..|ids| - 1], id) + (if ids[|ids| - 1] == id then [] else [ids[|ids| - 1]])
  }

  function WithIds(p: Package, j: nat, ids: seq<string>): Package
    requires j < |p.sections|
  {
    p.(sections := p.sections[j := p.sections[j].(questionIds := ids)])
  }

  function RemoveQuestion(p: Package, j: nat, questionId: string): Package
    requires j < |p.sections|
  {
    WithIds(EnsureDraft(p), j, DropId(p.sections[j].questionIds, questionId))
  }

  /** The first occurrence of one id replaced by another. */
  function ReplaceId(ids: seq<string>, old_: string, new_: string): seq<string> {
    if ids == [] then [] else if ids[0] == old_ then [new_] + ids[1..] else [ids[0]] + ReplaceId(ids[1..], old_, new_)
  }

  // ----- saving a question: edit the draft's own, or copy on write, or create -----

  const QUESTION_PREFIX := "MGR-Q-"

  ghost function NewQuestionId(bank: seq<Question>): string { UniqueId(BankIds(bank), QUESTION_PREFIX) }

  datatype Payload = Payload(id: Option<string>, content: Content)

  predicate Complete(c: Content) { !Blank(c.text) && !Blank(c.reference) }

  function Cleaned(c: Content, department: string): Content {
    c.(text := Trim(c.text), reference := Trim(c.reference), guidance := Trim(c.guidance), department := department)
  }

  ghost function SaveQuestion(w: Workspace, i: nat, j: nat, payload: Payload): Workspace
    requires i < |w.packages| && j < |w.packages[i].sections|
  {
    var d := EnsureDraft(w.packages[i]);
    var content := Cleaned(payload.content, d.department);
    var found := if payload.id.Some? && payload.id.value != "" then FindQuestion(w.bank, payload.id.value) else None;
    var ids := d.sections[j].questionIds;
    if found.Some? && payload.id.value in d.draftIds then
      Workspace(w.bank[found.value := w.bank[found.value].(content := content)], w.packages[i := d])
    else
      var id := NewQuestionId(w.bank);
      var ids' := if found.Some? then ReplaceId(ids, payload.id.value, id) else ids + [id];
      var d' := WithIds(d.(draftIds := d.draftIds + [id]), j, ids');
      Workspace(w.bank + [Question(id, content)], w.packages[i := d'])
  }

  // ----- creating and duplicating packages -----

  predicate NameTaken(packages: seq<Package>, name: string) { LowerAll(name) in LowerNames(packages) }

  ghost function NewPackageId(packages: seq<Package>, slug: string): (id: string)
    ensures id !in PackageIds(packages)
  {
    var ids := SuffixedIds("MGR-CL-" + slug, "-");
    SuffixedDistinct("MGR-CL-" + slug, "-");
    var n := Search(ids, Ids(PackageIds(packages)), 0);
    assert ids(n) !in Ids(PackageIds(packages));
    ids(n)
  }

  ghost function NewPackage(packages: seq<Package>, name: string, slug: string, department: string): Package {
    var id := NewPackageId(packages, slug);
    Package(id, name, if Blank(department) then "Cabin Safety" else Trim(department), Draft, 1, None, [],
      [Section(id + "-SEC-01", "General", [])], [])
  }

  /** Refused for a blank name or, ignoring case, one that is taken. */
  ghost function Create(w: Workspace, name: string, slug: string, department: string): Option<Workspace> {
    var clean := Trim(name);
    if clean == "" || NameTaken(w.packages, clean) then None
    else Some(w.(packages := w.packages + [NewPackage(w.packages, clean, slug, department)]))
  }

  ghost function CopyNames(name: string): nat -> string { (n: nat) => LowerAll(Suffixed(name + " Copy", " ", n + 1)) }

  function LowerNamesSet(packages: seq<Package>): set<string> { Ids(LowerNames(packages)) }

  lemma CopyNamesDistinct(name: string)
    ensures Distinct(CopyNames(name))
  {
    var ids := CopyNames(name);
    forall m: nat, n: nat | ids(m) == ids(n) ensures m == n {
      LowerSuffixed(name + " Copy", m + 1);
      LowerSuffixed(name + " Copy", n + 1);
      SuffixedDiffer(LowerAll(name + " Copy"), " ", m, n);
    }
  }

  lemma LowerSuffixed(stem: string, n: nat)
    ensures LowerAll(Suffixed(stem, " ", n)) == Suffixed(LowerAll(stem), " ", n)
  {
    hide Decimals.Dec;
    assert LowerAll(Decimals.Dec(n)) == Decimals.Dec(n);
  }

  function CopySections(sections: seq<Section>, packageId: string): (r: seq<Section>)
    ensures |r| == |sections|
    ensures forall k :: 0 <= k < |sections| ==> r[k].questionIds == sections[k].questionIds && r[k].name == sections[k].name
  {
    seq(|sections|, k requires 0 <= k < |sections| =>
      Section(packageId + "-SEC-" + Decimals.PadStart(Decimals.Dec(k + 1), 2), sections[k].name, sections[k].questionIds))
  }

  /** The first free name among "X Copy", "X Copy 2", "X Copy 3" and so on. */
  ghost function CopyName(packages: seq<Package>, name: string): (copy: string)
    ensures !NameTaken(packages, copy)
  {
    CopyNamesDistinct(name);
    var n := Search(CopyNames(name), LowerNamesSet(packages), 0);
    assert CopyNames(name)(n) !in LowerNamesSet(packages);
    Suffixed(name + " Copy", " ", n + 1)
  }

  ghost function Duplicate(w: Workspace, i: nat, slug: string): Option<Workspace>
    requires i < |w.packages|
  {
    var source := w.packages[i];
    match Create(w, CopyName(w.packages, source.name), slug, source.department)
    case None => None
    case Some(w') =>
      var n := |w.packages|;
      var item := w'.packages[n];
      Some(w'.(packages := w'.packages[n := item.(version := source.version, sections := CopySections(source.sections, item.id))]))
  }

  // ----- runs -----

  datatype Event =
    | CreatePackage(name: string, slug: string, department: string)
    | DuplicatePackage(packageId: string, slug: string)
    | ArchivePackage(packageId: string)
    | PublishPackage(packageId: string, actor: string)
    | AddSectionTo(packageId: string, name: string)
    | RemoveSectionFrom(packageId: string, sectionId: string)
    | MoveSection(packageId: string, sectionId: string, up: bool)
    | Save(packageId: string, sectionId: string, payload: Payload)
    | DuplicateQuestion(packageId: string, sectionId: string, questionId: string)
    | RemoveQuestionFrom(packageId: string, sectionId: string, questionId: string)

  predicate SectionNamed(sections: seq<Section>, name: string) {
    exists k :: 0 <= k < |sections| && LowerAll(sections[k].name) == LowerAll(name)
  }

  ghost function SaveIn(w: Workspace, i: nat, sectionId: string, payload: Payload): Option<Workspace>
    requires i < |w.packages|
  {
    match FindSection(w.packages[i].sections, sectionId)
    case None => None
    case Some(j) =>
      if !Complete(payload.content) || w.packages[i].status.Archived? then None else Some(SaveQuestion(w, i, j, payload))
  }

  /** What an operation on the package at i makes of the workspace; None is a refusal. */
  ghost function Edit(w: Workspace, i: nat, e: Event): Option<Workspace>
    requires i < |w.packages| && !e.CreatePackage?
  {
    var p := w.packages[i];
    var archived := p.status.Archived?;
    match e
    case DuplicatePackage(_, slug) => Duplicate(w, i, slug)
    case ArchivePackage(_) => Some(w.(packages := w.packages[i := p.(status := Archived)]))
    case PublishPackage(_, actor) => if archived then None else Some(w.(packages := w.packages[i := Publish(p, actor)]))
    case AddSectionTo(_, name) =>
      if Blank(name) || SectionNamed(p.sections, Trim(name)) || archived then None
      else Some(w.(packages := w.packages[i := AddSection(p, Trim(name))]))
    case RemoveSectionFrom(_, sectionId) =>
      if |p.sections| <= 1 || FindSection(p.sections, sectionId).None? || archived then None
      else Some(w.(packages := w.packages[i := RemoveSection(p, sectionId)]))
    case MoveSection(_, sectionId, up) =>
      (match FindSection(p.sections, sectionId)
       case None => None
       case Some(j) =>
         if archived || (if up then j == 0 else j + 1 == |p.sections|) then None
         else Some(w.(packages := w.packages[i := SwapSections(p, j, if up then j - 1 else j + 1)])))
    case Save(_, sectionId, payload) => SaveIn(w, i, sectionId, payload)
    case DuplicateQuestion(_, sectionId, questionId) =>
      (match Lookup(w.bank, questionId)
       case None => None
       case Some(q) => SaveIn(w, i, sectionId, Payload(None, q.content.(text := q.content.text + " (Copy)"))))
    case RemoveQuestionFrom(_, sectionId, questionId) =>
      (match FindSection(p.sections, sectionId)
       case None => None
       case Some(j) =>
         if questionId !in p.sections[j].questionIds || archived then None
         else Some(w.(packages := w.packages[i := RemoveQuestion(p, j, questionId)])))
  }

  /** Unknown packages and refused operations change nothing. */
  ghost function Step(w: Workspace, e: Event): Workspace {
    if e.CreatePackage? then (match Create(w, e.name, e.slug, e.department) case Some(w') => w' case None => w)
    else match Find(w.packages, e.packageId)
      case None => w
      case Some(i) => match Edit(w, i, e) case Some(w') => w' case None => w
  }

  ghost function Run(w: Workspace, events: seq<Event>): Workspace
    decreases |events|
  {
    if events == [] then w else Run(Step(w, events[0]), events[1..])
  }

  // ----- who uses which question -----

  ghost function Drafts(p: Package): set<string> { Ids(p.draftIds) }

  ghost function UsedIn(sections: seq<Section>): set<string> {
    set j, k | 0 <= j < |sections| && 0 <= k < |sections[j].questionIds| :: sections[j].questionIds[k]
  }

  ghost function Used(p: Package): set<string> { UsedIn(p.sections) }

  ghost function Listed(p: Package): set<string> {
    set v, k | 0 <= v < |p.versions| && 0 <= k < |p.versions[v].questionIds| :: p.versions[v].questionIds[k]
  }

  ghost predicate Generated(id: string) { exists n: nat :: id == Padded(QUESTION_PREFIX, n) }

  ghost predicate KnownIfGenerated(bank: seq<Question>, ids: set<string>) {
    forall id :: id in ids && Generated(id) ==> id in BankIds(bank)
  }

  predicate DistinctIds(bank: seq<Question>) { forall a, b :: 0 <= a < b < |bank| ==> bank[a].id != bank[b].id }

  /** Question i's drafts are its own: in the bank, in no version, and in no other package. */
  ghost predicate OwnDrafts(w: Workspace, i: nat)
    requires i < |w.packages|
  {
    && (forall id :: id in Drafts(w.packages[i]) ==> id in BankIds(w.bank))
    && forall j :: 0 <= j < |w.packages| ==>
         && Drafts(w.packages[i]) !! Listed(w.packages[j])
         && (i != j ==> Drafts(w.packages[i]) !! Drafts(w.packages[j]) && Drafts(w.packages[i]) !! Used(w.packages[j]))
  }

  ghost predicate Sound(w: Workspace) {
    && DistinctIds(w.bank)
    && (forall i :: 0 <= i < |w.packages| ==> OwnDrafts(w, i))
    && forall i :: 0 <= i < |w.packages| ==>
         KnownIfGenerated(w.bank, Used(w.packages[i])) && KnownIfGenerated(w.bank, Listed(w.packages[i]))
  }

  /** The bank either keeps its ids or gains one new question, whose id is `added`. */
  ghost predicate BankGrows(bank: seq<Question>, bank': seq<Question>, added: set<string>) {
    || (added == {} && BankIds(bank') == BankIds(bank))
    || (exists q: Question :: bank' == bank + [q] && added == {q.id} && q.id !in BankIds(bank) && Generated(q.id))
  }

  /** How an edit may change the ids of the package it works on. */
  ghost predicate EditsOwn(p: Package, p': Package, added: set<string>) {
    && Drafts(p') <= Drafts(p) + added && Used(p') <= Used(p) + added
    && (Listed(p') <= Listed(p) || (Listed(p') <= Listed(p) + Used(p) && Drafts(p') == {}))
  }

  lemma GrownBank(bank: seq<Question>, bank': seq<Question>, added: set<string>)
    requires DistinctIds(bank) && BankGrows(bank, bank', added)
    ensures DistinctIds(bank')
    ensures forall id :: id in BankIds(bank) || id in added ==> id in BankIds(bank')
    ensures forall id :: id in added ==> id !in BankIds(bank) && Generated(id)
  {
    hide Generated;
    if BankIds(bank') == BankIds(bank) {
      assert forall k :: 0 <= k < |bank| ==> bank'[k].id == BankIds(bank)[k];
    } else {
      var q: Question :| bank' == bank + [q] && added == {q.id};
      forall id | id in BankIds(bank) || id in added ensures id in BankIds(bank') {
        if id in BankIds(bank) {
          var k :| 0 <= k < |bank| && BankIds(bank)[k] == id;
          assert BankIds(bank')[k] == id;
        } else {
          assert BankIds(bank')[|bank|] == id;
        }
      }
    }
  }

  /** Ids that were fine stay fine, and new ones cannot have been used or listed before. */
  lemma FreshIsUnknown(w: Workspace, bank': seq<Question>, added: set<string>, j: nat)
    requires Sound(w) && BankGrows(w.bank, bank', added) && j < |w.packages|
    ensures var p := w.packages[j];
            added !! Used(p) && added !! Listed(p) && added !! Drafts(p)
    ensures var p := w.packages[j];
            KnownIfGenerated(bank', Used(p)) && KnownIfGenerated(bank', Listed(p)) && KnownIfGenerated(bank', added)
  {
    hide Generated, Used, Listed, Drafts, BankGrows;
    GrownBank(w.bank, bank', added);
    assert OwnDrafts(w, j);
  }

  lemma EditKeepsSound(w: Workspace, i: nat, p': Package, bank': seq<Question>, added: set<string>)
    requires Sound(w) && i < |w.packages| && EditsOwn(w.packages[i], p', added) && BankGrows(w.bank, bank', added)
    ensures Sound(Workspace(bank', w.packages[i := p']))
  {
    hide Generated, Used, Listed, Drafts, BankGrows;
    var w' := Workspace(bank', w.packages[i := p']);
    var p := w.packages[i];
    GrownBank(w.bank, bank', added);
    forall j | 0 <= j < |w.packages| ensures OwnDrafts(w', j) {
      assert OwnDrafts(w, j) && OwnDrafts(w, i);
      FreshIsUnknown(w, bank', added, j);
      forall k | 0 <= k < |w.packages|
        ensures Drafts(w'.packages[j]) !! Listed(w'.packages[k])
        ensures j != k ==> Drafts(w'.packages[j]) !! Drafts(w'.packages[k]) && Drafts(w'.packages[j]) !! Used(w'.packages[k])
      {
        assert OwnDrafts(w, k);
        FreshIsUnknown(w, bank', added, k);
      }
    }
    forall j | 0 <= j < |w.packages|
      ensures KnownIfGenerated(bank', Used(w'.packages[j])) && KnownIfGenerated(bank', Listed(w'.packages[j]))
    {
      FreshIsUnknown(w, bank', added, j);
    }
  }

  // ----- what each edit does to the ids -----

  lemma UsedAt(sections: seq<Section>, id: string) returns (j: nat)
    requires id in UsedIn(sections)
    ensures j < |sections| && id in sections[j].questionIds
  {
    var j', k :| 0 <= j' < |sections| && 0 <= k < |sections[j'].questionIds| && sections[j'].questionIds[k] == id;
    j := j';
  }

  lemma UsedBy(sections: seq<Section>, j: nat, id: string)
    requires j < |sections| && id in sections[j].questionIds
    ensures id in UsedIn(sections)
  {
    var k :| 0 <= k < |sections[j].questionIds| && sections[j].questionIds[k] == id;
  }

  /** Sections whose ids come from these sections, or are `added`. */
  lemma UsedWithin(sections: seq<Section>, sections': seq<Section>, added: set<string>)
    requires forall j :: 0 <= j < |sections'| ==>
               exists k :: 0 <= k < |sections|
                 && forall id :: id in sections'[j].questionIds ==> id in sections[k].questionIds || id in added
    ensures UsedIn(sections') <= UsedIn(sections) + added
  {
    forall id | id in UsedIn(sections') && id !in added ensures id in UsedIn(sections) {
      var j := UsedAt(sections', id);
      var k :| 0 <= k < |sections| && forall x :: x in sections'[j].questionIds ==> x in sections[k].questionIds || x in added;
      UsedBy(sections, k, id);
    }
  }

  lemma {:induction false} WithoutWithin(sections: seq<Section>, id: string)
    ensures forall s :: s in Without(sections, id) ==> s in sections
  {
    if sections != [] { WithoutWithin(sections[..|sections| - 1], id); }
  }

  lemma {:induction false} DropWithin(ids: seq<string>, id: string)
    ensures forall x :: x in DropId(ids, id) ==> x in ids
  {
    if ids != [] { DropWithin(ids[..|ids| - 1], id); }
  }

  lemma {:induction false} ReplaceWithin(ids: seq<string>, old_: string, new_: string)
    ensures forall x :: x in ReplaceId(ids, old_, new_) ==> x in ids || x == new_
    decreases |ids|
  {
    if ids != [] && ids[0] != old_ { ReplaceWithin(ids[1..], old_, new_); }
  }

  lemma {:induction false} AllQuestionsUsed(sections: seq<Section>)
    ensures forall id :: id in AllQuestions(sections) ==> id in UsedIn(sections)
  {
    if sections != [] {
      var front := sections[..|sections| - 1];
      AllQuestionsUsed(front);
      forall id | id in AllQuestions(sections) ensures id in UsedIn(sections) {
        if id in AllQuestions(front) {
          var j := UsedAt(front, id);
          UsedBy(sections, j, id);
        } else {
          UsedBy(sections, |sections| - 1, id);
        }
      }
    }
  }

  lemma DraftFirst(p: Package)
    ensures var d := EnsureDraft(p); EditsOwn(p, d, {}) && d.sections == p.sections && d.versions == p.versions && d.id == p.id
  {
  }

  lemma AddSectionOwn(p: Package, name: string)
    ensures EditsOwn(p, AddSection(p, name), {})
  {
    hide EnsureDraft, UniqueId;
    DraftFirst(p);
    var p' := AddSection(p, name);
    forall id | id in Used(p') ensures id in Used(p) {
      var j := UsedAt(p'.sections, id);
      UsedBy(p.sections, j, id);
    }
  }

  lemma RemoveSectionOwn(p: Package, id: string)
    ensures EditsOwn(p, RemoveSection(p, id), {})
  {
    hide EnsureDraft;
    DraftFirst(p);
    WithoutWithin(p.sections, id);
    var s' := Without(p.sections, id);
    forall j | 0 <= j < |s'|
      ensures exists k :: 0 <= k < |p.sections|
                && forall x :: x in s'[j].questionIds ==> x in p.sections[k].questionIds || x in {}
    {
      assert s'[j] in p.sections;
      var k :| 0 <= k < |p.sections| && p.sections[k] == s'[j];
    }
    UsedWithin(p.sections, s', {});
  }

  lemma SwapOwn(p: Package, j: nat, k: nat)
    requires j < |p.sections| && k < |p.sections|
    ensures EditsOwn(p, SwapSections(p, j, k), {})
  {
    hide EnsureDraft;
    DraftFirst(p);
    UsedWithin(p.sections, SwapSections(p, j, k).sections, {});
  }

  /** Changing one section's list to ids it had, or added ones. */
  lemma WithIdsUsed(p: Package, j: nat, ids: seq<string>, added: set<string>)
    requires j < |p.sections| && forall id :: id in ids ==> id in p.sections[j].questionIds || id in added
    ensures Used(WithIds(p, j, ids)) <= Used(p) + added
  {
    var s' := WithIds(p, j, ids).sections;
    forall k | 0 <= k < |s'| ensures forall x :: x in s'[k].questionIds ==> x in p.sections[k].questionIds || x in added {}
    UsedWithin(p.sections, s', added);
  }

  lemma RemoveQuestionOwn(p: Package, j: nat, questionId: string)
    requires j < |p.sections|
    ensures EditsOwn(p, RemoveQuestion(p, j, questionId), {})
  {
    hide EnsureDraft;
    DraftFirst(p);
    DropWithin(p.sections[j].questionIds, questionId);
    WithIdsUsed(EnsureDraft(p), j, DropId(p.sections[j].questionIds, questionId), {});
  }

  lemma PublishOwn(p: Package, actor: string)
    ensures EditsOwn(p, Publish(p, actor), {})
  {
    hide NextNumber, PublishedRecord;
    AllQuestionsUsed(p.sections);
    var p' := Publish(p, actor);
    forall id | id in Listed(p') ensures id in Listed(p) || id in Used(p) {
      var v, k :| 0 <= v < |p'.versions| && 0 <= k < |p'.versions[v].questionIds| && p'.versions[v].questionIds[k] == id;
      if v < |p.versions| { assert p.versions[v].questionIds[k] == id; } else { assert id in AllQuestions(p.sections); }
    }
  }

  lemma BankSame(w: Workspace, i: nat, p': Package)
    requires Sound(w) && i < |w.packages| && EditsOwn(w.packages[i], p', {})
    ensures Sound(w.(packages := w.packages[i := p']))
  {
    hide Sound, EditsOwn;
    EditKeepsSound(w, i, p', w.bank, {});
    assert w.(packages := w.packages[i := p']) == Workspace(w.bank, w.packages[i := p']);
  }

  /** Saving a question: in place only when it is the package's own draft, otherwise under an id nobody has. */
  lemma SaveSound(w: Workspace, i: nat, j: nat, payload: Payload)
    requires Sound(w) && i < |w.packages| && j < |w.packages[i].sections|
    ensures Sound(SaveQuestion(w, i, j, payload))
  {
    hide Sound, EnsureDraft, Cleaned, UniqueId;
    var p := w.packages[i];
    var d := EnsureDraft(p);
    DraftFirst(p);
    var w' := SaveQuestion(w, i, j, payload);
    var content := Cleaned(payload.content, d.department);
    var found := if payload.id.Some? && payload.id.value != "" then FindQuestion(w.bank, payload.id.value) else None;
    if found.Some? && payload.id.value in d.draftIds {
      assert BankIds(w'.bank) == BankIds(w.bank);
      EditKeepsSound(w, i, d, w'.bank, {});
    } else {
      var id := NewQuestionId(w.bank);
      var ids := d.sections[j].questionIds;
      var ids' := if found.Some? then ReplaceId(ids, payload.id.value, id) else ids + [id];
      if found.Some? { ReplaceWithin(ids, payload.id.value, id); }
      var d1 := d.(draftIds := d.draftIds + [id]);
      WithIdsUsed(d1, j, ids', {id});
      AddedIsGenerated(w.bank);
      assert w'.bank == w.bank + [Question(id, content)];
      EditKeepsSound(w, i, WithIds(d1, j, ids'), w'.bank, {id});
    }
  }

  lemma AddedIsGenerated(bank: seq<Question>)
    ensures NewQuestionId(bank) !in BankIds(bank) && Generated(NewQuestionId(bank))
  {
    var n: nat :| NewQuestionId(bank) == Padded(QUESTION_PREFIX, n);
  }

  // ----- new packages -----

  /** A package without drafts or versions whose sections use only ids that are known where they must be, and no open draft. */
  lemma AppendSound(w: Workspace, p: Package)
    requires Sound(w) && p.draftIds == [] && p.versions == [] && KnownIfGenerated(w.bank, Used(p))
    ensures Sound(w.(packages := w.packages + [p])) <==> forall i :: 0 <= i < |w.packages| ==> Drafts(w.packages[i]) !! Used(p)
  {
    hide Generated, Used;
    var w' := w.(packages := w.packages + [p]);
    var n := |w.packages|;
    assert w'.packages[n] == p && Drafts(p) == {} && Listed(p) == {};
    if forall i :: 0 <= i < n ==> Drafts(w.packages[i]) !! Used(p) {
      forall i | 0 <= i <= n ensures OwnDrafts(w', i) {
        if i < n { assert OwnDrafts(w, i); }
      }
    }
    if Sound(w') {
      forall i | 0 <= i < n ensures Drafts(w.packages[i]) !! Used(p) {
        assert OwnDrafts(w', i);
        assert w'.packages[i] == w.packages[i];
      }
    }
  }

  lemma CreateSound(w: Workspace, name: string, slug: string, department: string)
    requires Sound(w) && Create(w, name, slug, department).Some?
    ensures Sound(Create(w, name, slug, department).value)
  {
    hide Sound, NewPackageId, NameTaken, Trim, Blank, KnownIfGenerated;
    var p := NewPackage(w.packages, Trim(name), slug, department);
    assert KnownIfGenerated(w.bank, Used(p)) by { NothingKnown(w.bank, Used(p)); }
    AppendSound(w, p);
  }

  lemma NothingKnown(bank: seq<Question>, ids: set<string>)
    requires ids == {}
    ensures KnownIfGenerated(bank, ids)
  {
  }

  /** Open drafts that the package's own sections use: these are what a duplicate would share. */
  ghost predicate SharesDrafts(p: Package) { Drafts(p) * Used(p) != {} }

  lemma SameUse(sections: seq<Section>, copy: seq<Section>)
    requires |copy| == |sections| && forall k :: 0 <= k < |sections| ==> copy[k].questionIds == sections[k].questionIds
    ensures UsedIn(copy) == UsedIn(sections)
  {
    forall id ensures id in UsedIn(copy) <==> id in UsedIn(sections) {
      if id in UsedIn(copy) { var j := UsedAt(copy, id); UsedBy(sections, j, id); }
      if id in UsedIn(sections) { var j := UsedAt(sections, id); UsedBy(copy, j, id); }
    }
  }

  lemma NoneShared(a: set<string>, b: set<string>)
    ensures a !! b <==> a * b == {}
  {
    if a !! b { assert forall x :: x !in a * b; }
    if a * b == {} {
      forall x | x in a ensures x !in b { assert x in b ==> x in a * b; }
    }
  }

  /** Duplicating keeps the workspace sound exactly when the source's sections use none of its open drafts. */
  lemma DuplicateSound(w: Workspace, i: nat, slug: string)
    requires Sound(w) && i < |w.packages| && Duplicate(w, i, slug).Some?
    ensures Sound(Duplicate(w, i, slug).value) <==> !SharesDrafts(w.packages[i])
  {
    hide CopyName, NewPackageId, NameTaken, Trim, Blank, KnownIfGenerated, Drafts, UsedIn, DistinctIds, Listed;
    var source := w.packages[i];
    var p := Duplicate(w, i, slug).value.packages[|w.packages|];
    SameUse(source.sections, p.sections);
    assert Duplicate(w, i, slug).value == w.(packages := w.packages + [p]);
    AppendSound(w, p);
    assert OwnDrafts(w, i);
    NoneShared(Drafts(source), Used(source));
    forall j | 0 <= j < |w.packages| && j != i ensures Drafts(w.packages[j]) !! Used(p) { assert OwnDrafts(w, j); }
  }

  // ----- what has been published stays -----

  predicate SameVersion(v: Version, v': Version) {
    v'.number == v.number && v'.questionIds == v.questionIds && v'.sections == v.sections
  }

  predicate VersionsKept(p: Package, p': Package) {
    && p'.id == p.id && |p.versions| <= |p'.versions|
    && forall k :: 0 <= k < |p.versions| ==> SameVersion(p.versions[k], p'.versions[k])
  }

  /** Every version of every package keeps its number, its question list and its stored sections, and every question a version
      lists keeps its bank entry. */
  ghost predicate PublishedKept(w: Workspace, w': Workspace) {
    && |w.packages| <= |w'.packages|
    && (forall i :: 0 <= i < |w.packages| ==> VersionsKept(w.packages[i], w'.packages[i]))
    && forall i, id :: 0 <= i < |w.packages| && id in Listed(w.packages[i]) ==> Lookup(w'.bank, id) == Lookup(w.bank, id)
  }

  lemma KeptListed(p: Package, p': Package)
    requires VersionsKept(p, p')
    ensures Listed(p) <= Listed(p')
  {
    forall id | id in Listed(p) ensures id in Listed(p') {
      var v, k :| 0 <= v < |p.versions| && 0 <= k < |p.versions[v].questionIds| && p.versions[v].questionIds[k] == id;
      assert SameVersion(p.versions[v], p'.versions[v]);
      assert p'.versions[v].questionIds[k] == id;
    }
  }

  lemma KeptTwice(w: Workspace, w1: Workspace, w2: Workspace)
    requires PublishedKept(w, w1) && PublishedKept(w1, w2)
    ensures PublishedKept(w, w2)
  {
    hide Listed, Lookup;
    forall i | 0 <= i < |w.packages| ensures VersionsKept(w.packages[i], w2.packages[i]) {
      assert VersionsKept(w.packages[i], w1.packages[i]) && VersionsKept(w1.packages[i], w2.packages[i]);
      forall k | 0 <= k < |w.packages[i].versions| ensures SameVersion(w.packages[i].versions[k], w2.packages[i].versions[k]) {
        assert SameVersion(w.packages[i].versions[k], w1.packages[i].versions[k]);
      }
    }
    forall i, id | 0 <= i < |w.packages| && id in Listed(w.packages[i]) ensures Lookup(w2.bank, id) == Lookup(w.bank, id) {
      KeptListed(w.packages[i], w1.packages[i]);
    }
  }

  lemma {:induction false} LookupAppend(bank: seq<Question>, q: Question, id: string)
    requires id != q.id
    ensures Lookup(bank + [q], id) == Lookup(bank, id)
    decreases |bank|
  {
    if bank == [] {
      assert bank + [q] == [q] && [q][1..] == [];
    } else {
      assert (bank + [q])[1..] == bank[1..] + [q];
      LookupAppend(bank[1..], q, id);
    }
  }

  lemma {:induction false} LookupUpdate(bank: seq<Question>, k: nat, q: Question, id: string)
    requires k < |bank| && q.id == bank[k].id && id != q.id
    ensures Lookup(bank[k := q], id) == Lookup(bank, id)
    decreases |bank|
  {
    if k == 0 {
      assert bank[0 := q][1..] == bank[1..];
    } else {
      assert bank[k := q][1..] == bank[1..][k - 1 := q];
      LookupUpdate(bank[1..], k - 1, q, id);
    }
  }

  /** Editing one package without touching the bank keeps everything published. */
  lemma PackageKept(w: Workspace, i: nat, p': Package)
    requires i < |w.packages| && VersionsKept(w.packages[i], p')
    ensures PublishedKept(w, w.(packages := w.packages[i := p']))
  {
    hide Lookup, Listed;
  }

  lemma SavePublishedKept(w: Workspace, i: nat, j: nat, payload: Payload)
    requires Sound(w) && i < |w.packages| && j < |w.packages[i].sections|
    ensures PublishedKept(w, SaveQuestion(w, i, j, payload))
  {
    hide Lookup, Listed, Cleaned, UniqueId, ReplaceId, EnsureDraft, Generated;
    DraftFirst(w.packages[i]);
    var w' := SaveQuestion(w, i, j, payload);
    var d := EnsureDraft(w.packages[i]);
    var content := Cleaned(payload.content, d.department);
    var found := if payload.id.Some? && payload.id.value != "" then FindQuestion(w.bank, payload.id.value) else None;
    forall k, id | 0 <= k < |w.packages| && id in Listed(w.packages[k]) ensures Lookup(w'.bank, id) == Lookup(w.bank, id) {
      assert OwnDrafts(w, i);
      if found.Some? && payload.id.value in d.draftIds {
        OwnDraftUnlisted(w, i, payload.id.value, k);
        LookupUpdate(w.bank, found.value, w.bank[found.value].(content := content), id);
      } else {
        AddedIsGenerated(w.bank);
        assert KnownIfGenerated(w.bank, Listed(w.packages[k]));
        LookupAppend(w.bank, Question(NewQuestionId(w.bank), content), id);
      }
    }
  }

  lemma OwnDraftUnlisted(w: Workspace, i: nat, id: string, k: nat)
    requires Sound(w) && i < |w.packages| && k < |w.packages| && id in EnsureDraft(w.packages[i]).draftIds
    ensures id !in Listed(w.packages[k])
  {
    hide Listed;
    assert OwnDrafts(w, i);
    assert id in Drafts(w.packages[i]);
  }

  /** The events the theorem is about: everything but duplicating a package that shares its open drafts. */
  ghost predicate Allowed(w: Workspace, e: Event) {
    e.DuplicatePackage? ==>
      match Find(w.packages, e.packageId)
      case None => true
      case Some(i) => !SharesDrafts(w.packages[i])
  }

  lemma SwapKept(p: Package, j: nat, k: nat)
    requires j < |p.sections| && k < |p.sections|
    ensures VersionsKept(p, SwapSections(p, j, k))
  {
  }

  lemma PublishKept(p: Package, actor: string)
    ensures VersionsKept(p, Publish(p, actor))
  {
    hide NextNumber, AllQuestions;
  }

  lemma AppendKept(w: Workspace, p: Package)
    ensures PublishedKept(w, w.(packages := w.packages + [p]))
  {
    hide Lookup, Listed;
  }

  lemma SaveInKeeps(w: Workspace, i: nat, sectionId: string, payload: Payload)
    requires Sound(w) && i < |w.packages| && SaveIn(w, i, sectionId, payload).Some?
    ensures var w' := SaveIn(w, i, sectionId, payload).value; Sound(w') && PublishedKept(w, w')
  {
    hide Sound, SaveQuestion, Complete;
    var j := FindSection(w.packages[i].sections, sectionId).value;
    SaveSound(w, i, j, payload);
    SavePublishedKept(w, i, j, payload);
  }

  lemma OnePackage(w: Workspace, i: nat, p': Package)
    requires Sound(w) && i < |w.packages| && EditsOwn(w.packages[i], p', {}) && VersionsKept(w.packages[i], p')
    ensures Sound(w.(packages := w.packages[i := p'])) && PublishedKept(w, w.(packages := w.packages[i := p']))
  {
    hide Sound, EditsOwn, VersionsKept, PublishedKept;
    BankSame(w, i, p');
    PackageKept(w, i, p');
  }

  lemma SectionEditsKept(p: Package, name: string, id: string)
    ensures VersionsKept(p, AddSection(p, name)) && VersionsKept(p, RemoveSection(p, id))
  {
    hide UniqueId, Without;
  }

  lemma RemoveQuestionKept(p: Package, j: nat, questionId: string)
    requires j < |p.sections|
    ensures VersionsKept(p, RemoveQuestion(p, j, questionId))
  {
    hide DropId;
  }

  lemma ArchiveOwn(p: Package)
    ensures EditsOwn(p, p.(status := PackageStatus.Archived), {}) && VersionsKept(p, p.(status := PackageStatus.Archived))
  {
  }

  lemma DuplicateKeeps(w: Workspace, i: nat, slug: string)
    requires Sound(w) && i < |w.packages| && Duplicate(w, i, slug).Some? && !SharesDrafts(w.packages[i])
    ensures var w' := Duplicate(w, i, slug).value; Sound(w') && PublishedKept(w, w')
  {
    hide Sound, SharesDrafts, PublishedKept, NewPackageId, CopyName;
    DuplicateSound(w, i, slug);
    var w' := Duplicate(w, i, slug).value;
    assert w' == w.(packages := w.packages + [w'.packages[|w.packages|]]);
    AppendKept(w, w'.packages[|w.packages|]);
  }

  lemma EditKeeps(w: Workspace, i: nat, e: Event)
    requires Sound(w) && i < |w.packages| && !e.CreatePackage? && Edit(w, i, e).Some?
    requires e.DuplicatePackage? ==> !SharesDrafts(w.packages[i])
    ensures var w' := Edit(w, i, e).value; Sound(w') && PublishedKept(w, w')
  {
    hide Sound, SaveIn, Publish, AddSection, RemoveSection, SwapSections, RemoveQuestion, Duplicate, PublishedKept, SharesDrafts;
    hide Lookup, Blank, Trim, SectionNamed, EditsOwn, VersionsKept;
    var p := w.packages[i];
    match e
    case DuplicatePackage(_, slug) => DuplicateKeeps(w, i, slug);
    case ArchivePackage(_) =>
      ArchiveOwn(p);
      OnePackage(w, i, p.(status := PackageStatus.Archived));
    case PublishPackage(_, actor) =>
      PublishOwn(p, actor);
      PublishKept(p, actor);
      OnePackage(w, i, Publish(p, actor));
    case AddSectionTo(_, name) =>
      AddSectionOwn(p, Trim(name));
      SectionEditsKept(p, Trim(name), "");
      OnePackage(w, i, AddSection(p, Trim(name)));
    case RemoveSectionFrom(_, sectionId) =>
      RemoveSectionOwn(p, sectionId);
      SectionEditsKept(p, "", sectionId);
      OnePackage(w, i, RemoveSection(p, sectionId));
    case MoveSection(_, sectionId, up) =>
      var j := FindSection(p.sections, sectionId).value;
      var k := if up then j - 1 else j + 1;
      SwapOwn(p, j, k);
      SwapKept(p, j, k);
      OnePackage(w, i, SwapSections(p, j, k));
    case Save(_, sectionId, payload) => SaveInKeeps(w, i, sectionId, payload);
    case DuplicateQuestion(_, sectionId, questionId) =>
      var q := Lookup(w.bank, questionId).value;
      SaveInKeeps(w, i, sectionId, Payload(None, q.content.(text := q.content.text + " (Copy)")));
    case RemoveQuestionFrom(_, sectionId, questionId) =>
      var j := FindSection(p.sections, sectionId).value;
      RemoveQuestionOwn(p, j, questionId);
      RemoveQuestionKept(p, j, questionId);
      OnePackage(w, i, RemoveQuestion(p, j, questionId));
  }

  lemma StepKeeps(w: Workspace, e: Event)
    requires Sound(w) && Allowed(w, e)
    ensures Sound(Step(w, e)) && PublishedKept(w, Step(w, e))
  {
    hide Sound, Edit, PublishedKept, Create, SharesDrafts;
    NothingChanges(w);
    if e.CreatePackage? {
      if Create(w, e.name, e.slug, e.department).Some? {
        CreateSound(w, e.name, e.slug, e.department);
        CreateAppends(w, e.name, e.slug, e.department);
      }
    } else {
      match Find(w.packages, e.packageId)
      case None =>
      case Some(i) => if Edit(w, i, e).Some? { EditKeeps(w, i, e); }
    }
  }

  lemma NothingChanges(w: Workspace)
    ensures PublishedKept(w, w)
  {
    hide Lookup, Listed;
  }

  lemma CreateAppends(w: Workspace, name: string, slug: string, department: string)
    requires Create(w, name, slug, department).Some?
    ensures PublishedKept(w, Create(w, name, slug, department).value)
  {
    hide PublishedKept, NewPackageId, NameTaken, Trim, Blank;
    AppendKept(w, NewPackage(w.packages, Trim(name), slug, department));
  }

  ghost predicate AllowedRun(w: Workspace, events: seq<Event>)
    decreases |events|
  {
    events == [] || (Allowed(w, events[0]) && AllowedRun(Step(w, events[0]), events[1..]))
  }

  /** Over every run that never duplicates a package sharing its open drafts, whatever was in a published version stays: the
      bank entry of every question it lists, and the sections stored with it. */
  lemma {:induction false} PublishedNeverChanges(w: Workspace, events: seq<Event>)
    requires Sound(w) && AllowedRun(w, events)
    ensures Sound(Run(w, events)) && PublishedKept(w, Run(w, events))
    decreases |events|
  {
    hide Sound, Allowed, Step, PublishedKept;
    NothingChanges(w);
    if events != [] {
      StepKeeps(w, events[0]);
      PublishedNeverChanges(Step(w, events[0]), events[1..]);
      KeptTwice(w, Step(w, events[0]), Run(w, events));
    }
  }

  // ----- why sharing drafts must be excluded, and when duplicating succeeds -----

  lemma {:induction false} FoundAgain(bank: seq<Question>, id: string, q: Question)
    requires FindQuestion(bank, id).Some? && q.id == id
    ensures FindQuestion(bank[FindQuestion(bank, id).value := q], id) == FindQuestion(bank, id)
    decreases |bank|
  {
    var k := FindQuestion(bank, id).value;
    if bank[0].id != id {
      assert bank[k := q][1..] == bank[1..][k - 1 := q];
      FoundAgain(bank[1..], id, q);
    }
  }

  /** Duplicate a package whose section uses one of its open drafts, publish the copy, then save that draft again in the
      source: the published version lists the question and its bank entry is now the new content, whatever it is. */
  lemma SharedDraftChangesPublished(w: Workspace, i: nat, j: nat, slug: string, actor: string, payload: Payload)
    requires i < |w.packages| && j < |w.packages[i].sections| && w.packages[i].status.Draft? && Duplicate(w, i, slug).Some?
    requires payload.id.Some? && payload.id.value != "" && FindQuestion(w.bank, payload.id.value).Some?
    requires payload.id.value in w.packages[i].draftIds && payload.id.value in w.packages[i].sections[j].questionIds
    ensures var id := payload.id.value; var n := |w.packages|;
            var w1 := Duplicate(w, i, slug).value;
            var w2 := w1.(packages := w1.packages[n := Publish(w1.packages[n], actor)]);
            && n < |w1.packages| && i < |w2.packages| && j < |w2.packages[i].sections|
            && id in Listed(w2.packages[n])
            && Lookup(SaveQuestion(w2, i, j, payload).bank, id)
                 == Some(Question(id, Cleaned(payload.content, w.packages[i].department)))
  {
    hide CopyName, NewPackageId, NameTaken, Trim, Blank, Cleaned, NextNumber;
    var id, n := payload.id.value, |w.packages|;
    var w1 := Duplicate(w, i, slug).value;
    var copy := w1.packages[n];
    var published := Publish(copy, actor);
    UsedBy(copy.sections, j, id);
    UsedListed(copy.sections, id);
    var v := |copy.versions|;
    var k :| 0 <= k < |published.versions[v].questionIds| && published.versions[v].questionIds[k] == id;
    FoundAgain(w.bank, id, Question(id, Cleaned(payload.content, w.packages[i].department)));
  }

  lemma {:induction false} UsedListed(sections: seq<Section>, id: string)
    requires id in UsedIn(sections)
    ensures id in AllQuestions(sections)
  {
    var j := UsedAt(sections, id);
    var front := sections[..|sections| - 1];
    if j < |front| {
      UsedBy(front, j, id);
      UsedListed(front, id);
    }
  }

  lemma TrimmedCopy(name: string, n: nat)
    requires name != "" && !IsSpace(name[0])
    ensures Trim(Suffixed(name + " Copy", " ", n + 1)) == Suffixed(name + " Copy", " ", n + 1)
  {
    var copy := Suffixed(name + " Copy", " ", n + 1);
    assert copy[0] == name[0];
    assert !IsSpace(copy[|copy| - 1]);
  }

  /** Duplicating a package fails exactly when trimming the name its own loop found free turns it into a taken one; a name that
      does not begin with white space is not changed by trimming, so there it never fails. */
  lemma DuplicatingNeverClashes(w: Workspace, i: nat, slug: string)
    requires i < |w.packages|
    ensures var copy := CopyName(w.packages, w.packages[i].name);
            Duplicate(w, i, slug).None? <==> NameTaken(w.packages, Trim(copy))
    ensures w.packages[i].name != "" && !IsSpace(w.packages[i].name[0]) ==> Duplicate(w, i, slug).Some?
  {
    hide NewPackageId, NameTaken, Trim;
    var name := w.packages[i].name;
    var n := CopyNameShape(w.packages, name);
    if name != "" && !IsSpace(name[0]) { TrimmedCopy(name, n); }
  }

  /** Names as the program stores them: `trim` ran over each before it was kept. */
  predicate NamesTrimmed(w: Workspace) {
    forall i :: 0 <= i < |w.packages| ==> w.packages[i].name != "" && !IsSpace(w.packages[i].name[0])
  }

  lemma EditKeepsNames(w: Workspace, i: nat, e: Event)
    requires NamesTrimmed(w) && i < |w.packages| && !e.CreatePackage? && Edit(w, i, e).Some?
    ensures NamesTrimmed(Edit(w, i, e).value)
  {
    hide SaveQuestion, UniqueId, Trim, Blank, Without, DropId, NextNumber, AllQuestions, NewPackageId, CopyName, SectionNamed;
    hide FindSection, Complete, Lookup, NameTaken;
    match e
    case DuplicatePackage(_, slug) => CreateKeepsNames(w, CopyName(w.packages, w.packages[i].name), slug, w.packages[i].department);
    case Save(_, sectionId, payload) => SaveKeepsNames(w, i, sectionId, payload);
    case DuplicateQuestion(_, sectionId, questionId) =>
      var q := Lookup(w.bank, questionId).value;
      SaveKeepsNames(w, i, sectionId, Payload(None, q.content.(text := q.content.text + " (Copy)")));
    case _ =>
  }

  lemma SaveKeepsNames(w: Workspace, i: nat, sectionId: string, payload: Payload)
    requires NamesTrimmed(w) && i < |w.packages| && SaveIn(w, i, sectionId, payload).Some?
    ensures NamesTrimmed(SaveIn(w, i, sectionId, payload).value)
  {
    hide FindQuestion, NewQuestionId, ReplaceId, Cleaned, Complete, MaxVersion;
  }

  lemma CreateKeepsNames(w: Workspace, name: string, slug: string, department: string)
    requires NamesTrimmed(w) && Create(w, name, slug, department).Some?
    ensures NamesTrimmed(Create(w, name, slug, department).value)
  {
    hide NewPackageId, NameTaken, TrimLeft, TrimRight, Blank;
  }

  lemma {:induction false} NamesStayTrimmed(w: Workspace, events: seq<Event>)
    requires NamesTrimmed(w)
    ensures NamesTrimmed(Run(w, events))
    decreases |events|
  {
    hide NamesTrimmed, Edit, Create;
    if events != [] {
      var e := events[0];
      if e.CreatePackage? {
        if Create(w, e.name, e.slug, e.department).Some? { CreateKeepsNames(w, e.name, e.slug, e.department); }
      } else if Find(w.packages, e.packageId).Some? && Edit(w, Find(w.packages, e.packageId).value, e).Some? {
        EditKeepsNames(w, Find(w.packages, e.packageId).value, e);
      }
      NamesStayTrimmed(Step(w, e), events[1..]);
    }
  }

  /** So in every run of the operations, duplicating any package there is never fails, on a name or otherwise. */
  lemma DuplicatingNeverRefused(w: Workspace, events: seq<Event>, packageId: string, slug: string)
    requires NamesTrimmed(w)
    ensures var w' := Run(w, events);
            match Find(w'.packages, packageId)
            case Some(i) => Duplicate(w', i, slug).Some?
            case None => true
  {
    hide Run, Duplicate, Find;
    NamesStayTrimmed(w, events);
    var w' := Run(w, events);
    if Find(w'.packages, packageId).Some? { DuplicatingNeverClashes(w', Find(w'.packages, packageId).value, slug); }
  }

  lemma CopyNameShape(packages: seq<Package>, name: string) returns (n: nat)
    ensures CopyName(packages, name) == Suffixed(name + " Copy", " ", n + 1) && !Blank(CopyName(packages, name))
  {
    CopyNamesDistinct(name);
    n := Search(CopyNames(name), LowerNamesSet(packages), 0);
    var copy := CopyName(packages, name);
    assert copy[|name| + 1] == 'C' && !IsSpace('C');
    BlankIsAllSpace(copy);
  }

  // ----- a run that shares a draft -----

  lemma FindLast(packages: seq<Package>, p: Package)
    requires p.id !in PackageIds(packages)
    ensures Find(packages + [p], p.id) == Some(|packages|)
  {
    FindFirst(packages, p, []);
    assert packages + [p] + [] == packages + [p];
  }

  lemma FindFirst(packages: seq<Package>, p: Package, more: seq<Package>)
    requires p.id !in PackageIds(packages) && forall k :: 0 <= k < |more| ==> more[k].id != p.id
    ensures Find(packages + [p] + more, p.id) == Some(|packages|)
  {
    var all := packages + [p] + more;
    assert all[|packages|] == p;
    forall k | 0 <= k < |all| && k != |packages| ensures all[k].id != p.id {
      if k < |packages| { assert PackageIds(packages)[k] == all[k].id; }
    }
  }

  /** Saving a new question into the only section of the newest package. */
  lemma FirstQuestion(w: Workspace, p: Package, content: Content)
    requires p.status.Draft? && p.draftIds == [] && |p.sections| == 1 && p.sections[0].questionIds == []
    ensures var w1 := w.(packages := w.packages + [p]); var id := NewQuestionId(w.bank);
            SaveQuestion(w1, |w.packages|, 0, Payload(None, content))
              == Workspace(w.bank + [Question(id, Cleaned(content, p.department))],
                   w.packages + [p.(draftIds := [id], sections := [p.sections[0].(questionIds := [id])])])
  {
    hide NewQuestionId, Cleaned, FindQuestion;
    var w1, id := w.(packages := w.packages + [p]), NewQuestionId(w.bank);
    var d := WithIds(p.(draftIds := p.draftIds + [id]), 0, [] + [id]);
    assert [] + [id] == [id];
    assert d == p.(draftIds := [id], sections := [p.sections[0].(questionIds := [id])]);
    assert w1.packages[|w.packages| := d] == w.packages + [d];
  }

  /** A new package with one new question in its only section: an open draft that the section uses. */
  lemma NewDraft(w: Workspace, name: string, slug: string, department: string, content: Content) returns (p: Package, id: string)
    requires Create(w, name, slug, department).Some? && Complete(content)
    ensures p.id !in PackageIds(w.packages) && p.status.Draft? && p.draftIds == [id] && |p.sections| == 1 && p.versions == []
    ensures p.sections[0].questionIds == [id] && id != "" && p.name != "" && !IsSpace(p.name[0])
    ensures p.department == if Blank(department) then "Cabin Safety" else Trim(department)
    ensures var w1 := Step(w, CreatePackage(name, slug, department));
            Step(w1, Save(p.id, p.sections[0].id, Payload(None, content)))
              == Workspace(w.bank + [Question(id, Cleaned(content, p.department))], w.packages + [p])
    ensures id !in BankIds(w.bank)
  {
    hide Cleaned, Complete, SaveQuestion, Find, NewQuestionId, PackageIds, BankIds, IsSpace, Edit;
    var p1 := CreatedPackage(w, name, slug, department);
    hide Create, Blank, Trim;
    AddedIsGenerated(w.bank);
    GeneratedIsSome(w.bank);
    FirstSave(w, p1, content);
    FirstQuestion(w, p1, content);
    id := NewQuestionId(w.bank);
    p := p1.(draftIds := [id], sections := [p1.sections[0].(questionIds := [id])]);
  }

  lemma FirstSave(w: Workspace, p: Package, content: Content)
    requires p.id !in PackageIds(w.packages) && p.status.Draft? && |p.sections| == 1 && Complete(content)
    ensures var w1 := w.(packages := w.packages + [p]); var payload := Payload(None, content);
            Step(w1, Save(p.id, p.sections[0].id, payload)) == SaveQuestion(w1, |w.packages|, 0, payload)
  {
    hide SaveQuestion, Complete, Find;
    FindLast(w.packages, p);
  }

  lemma CreatedPackage(w: Workspace, name: string, slug: string, department: string) returns (p: Package)
    requires Create(w, name, slug, department).Some?
    ensures Create(w, name, slug, department).value == w.(packages := w.packages + [p]) && p.id !in PackageIds(w.packages)
    ensures p.status.Draft? && p.draftIds == [] && p.versions == [] && |p.sections| == 1 && p.sections[0].questionIds == []
    ensures p.name != "" && !IsSpace(p.name[0])
    ensures p.department == if Blank(department) then "Cabin Safety" else Trim(department)
  {
    hide NewPackageId, NameTaken, TrimLeft, TrimRight, Blank;
    p := NewPackage(w.packages, Trim(name), slug, department);
  }

  lemma GeneratedIsSome(bank: seq<Question>)
    ensures NewQuestionId(bank) != ""
  {
    var n: nat :| NewQuestionId(bank) == Padded(QUESTION_PREFIX, n);
  }

  lemma NewInBank(bank: seq<Question>, q: Question)
    requires q.id !in BankIds(bank)
    ensures FindQuestion(bank + [q], q.id).Some? && Lookup(bank + [q], q.id) == Some(q)
  {
    var all := bank + [q];
    assert all[|bank|] == q;
    forall k | 0 <= k < |bank| ensures all[k].id != q.id { assert BankIds(bank)[k] == all[k].id; }
  }

  lemma CopyAppended(w: Workspace, i: nat, slug: string) returns (copy: Package)
    requires i < |w.packages| && Duplicate(w, i, slug).Some?
    ensures Duplicate(w, i, slug).value == w.(packages := w.packages + [copy])
    ensures copy.id !in PackageIds(w.packages) && copy.status.Draft?
  {
    hide CopyName, NewPackageId, NameTaken, Trim, Blank;
    var w' := Duplicate(w, i, slug).value;
    copy := w'.packages[|w.packages|];
    assert w'.packages == w.packages + [copy];
  }

  lemma DuplicateStep(w: Workspace, p: Package, w2: Workspace, slug: string)
    requires p.id !in PackageIds(w.packages) && w2.packages == w.packages + [p] && Duplicate(w2, |w.packages|, slug).Some?
    ensures Step(w2, DuplicatePackage(p.id, slug)) == Duplicate(w2, |w.packages|, slug).value
  {
    hide Duplicate, Find;
    FindLast(w.packages, p);
  }

  lemma PublishStep(w2: Workspace, copy: Package, w3: Workspace, actor: string)
    requires copy.id !in PackageIds(w2.packages) && copy.status.Draft? && w3 == w2.(packages := w2.packages + [copy])
    ensures Step(w3, PublishPackage(copy.id, actor))
         == w3.(packages := w3.packages[|w2.packages| := Publish(copy, actor)])
  {
    hide Publish, Find;
    FindLast(w2.packages, copy);
  }

  lemma PublishedIs(p: Package, actor: string)
    ensures Publish(p, actor).status.Published? && Publish(p, actor).id == p.id
  {
    hide NextNumber, AllQuestions;
  }

  lemma SaveStep(w: Workspace, p: Package, other: Package, w4: Workspace, payload: Payload)
    requires p.id !in PackageIds(w.packages) && p.status.Draft? && |p.sections| == 1 && Complete(payload.content)
    requires w4.packages == w.packages + [p] + [other] && other.id != p.id
    ensures Step(w4, Save(p.id, p.sections[0].id, payload)) == SaveQuestion(w4, |w.packages|, 0, payload)
  {
    hide SaveQuestion, Complete, Find;
    FindFirst(w.packages, p, [other]);
  }

  lemma OnlyOneSaved(w: Workspace, i: nat, j: nat, payload: Payload, k: nat)
    requires i < |w.packages| && j < |w.packages[i].sections| && k < |w.packages| && k != i
    ensures |SaveQuestion(w, i, j, payload).packages| == |w.packages|
    ensures SaveQuestion(w, i, j, payload).packages[k] == w.packages[k]
  {
    hide FindQuestion, NewQuestionId, ReplaceId, Cleaned, MaxVersion;
  }

  lemma {:induction false} RunSnoc(w: Workspace, events: seq<Event>, e: Event)
    ensures Run(w, events + [e]) == Step(Run(w, events), e)
    decreases |events|
  {
    hide Step;
    if events == [] {
      assert events + [e] == [e] && [e][1..] == [];
    } else {
      assert (events + [e])[1..] == events[1..] + [e];
      RunSnoc(Step(w, events[0]), events[1..], e);
    }
  }

  lemma RunFour(w: Workspace, e: seq<Event>)
    requires |e| == 4
    ensures Run(w, e) == Step(Step(Step(Step(w, e[0]), e[1]), e[2]), e[3])
  {
    hide Step, Run;
    assert e == e[..3] + [e[3]] && e[..3] == e[..2] + [e[2]] && e[..2] == e[..1] + [e[1]] && e[..1] == [] + [e[0]];
    RunSnoc(w, e[..3], e[3]);
    RunSnoc(w, e[..2], e[2]);
    RunSnoc(w, e[..1], e[1]);
    RunSnoc(w, [], e[0]);
    assert Run(w, []) == w by { RunNothing(w); }
  }

  lemma RunNothing(w: Workspace)
    ensures Run(w, []) == w
  {
  }

  /** From every workspace in which a package of that name can be created there is such a run: create it, save a question,
      duplicate the package, publish the copy. Then saving the draft once more changes the published question. */
  lemma SharedDraftRun(w: Workspace, name: string, slug: string, department: string, first: Content, copySlug: string,
                       actor: string, second: Content) returns (before: seq<Event>, last: Event, id: string, n: nat)
    requires Create(w, name, slug, department).Some? && Complete(first) && Complete(second)
    ensures var w4, w5 := Run(w, before), Run(w, before + [last]);
            var owner := if Blank(department) then "Cabin Safety" else Trim(department);
            && n < |w4.packages| && n < |w5.packages| && w4.packages[n].status.Published?
            && id in Listed(w4.packages[n]) && id in Listed(w5.packages[n])
            && Lookup(w4.bank, id) == Some(Question(id, Cleaned(first, owner)))
            && Lookup(w5.bank, id) == Some(Question(id, Cleaned(second, owner)))
  {
    hide Create, Complete, Blank, Trim, Cleaned, Listed, Edit, Find, Lookup, SaveQuestion, Duplicate, Publish, BankIds, FindQuestion;
    var p, id' := NewDraft(w, name, slug, department, first);
    id := id';
    var i := |w.packages|;
    var w2 := Workspace(w.bank + [Question(id, Cleaned(first, p.department))], w.packages + [p]);
    NewInBank(w.bank, Question(id, Cleaned(first, p.department)));
    DuplicatingNeverClashes(w2, i, copySlug);
    var payload := Payload(Some(id), second);
    SharedDraftChangesPublished(w2, i, 0, copySlug, actor, payload);
    var w3 := Duplicate(w2, i, copySlug).value;
    n := i + 1;
    var copy := CopyAppended(w2, i, copySlug);
    var published := Publish(copy, actor);
    var w4 := w3.(packages := w3.packages[n := published]);
    var sectionId := p.sections[0].id;
    before := [CreatePackage(name, slug, department), Save(p.id, sectionId, Payload(None, first)), DuplicatePackage(p.id, copySlug),
      PublishPackage(copy.id, actor)];
    last := Save(p.id, sectionId, payload);
    assert Step(w2, before[2]) == w3 by { DuplicateStep(w, p, w2, copySlug); }
    assert Step(w3, before[3]) == w4 by { PublishStep(w2, copy, w3, actor); }
    assert published.status.Published? && published.id == copy.id by { PublishedIs(copy, actor); }
    assert w4.packages == w.packages + [p] + [published];
    assert Step(w4, last) == SaveQuestion(w4, i, 0, payload) by { SaveStep(w, p, published, w4, payload); }
    RunFour(w, before);
    RunSnoc(w, before, last);
    assert SaveQuestion(w4, i, 0, payload).packages[n] == published by { OnlyOneSaved(w4, i, 0, payload, n); }
  }

  /** The id of a new package is always one nobody has. */
  lemma CreatedIdIsNew(w: Workspace, name: string, slug: string, department: string)
    requires Create(w, name, slug, department).Some?
    ensures var packages := Create(w, name, slug, department).value.packages;
            |packages| == |w.packages| + 1 && packages[|w.packages|].id !in PackageIds(w.packages)
  {
    hide NameTaken, Trim, Blank;
  }
}
