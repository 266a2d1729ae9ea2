/** What each operation on a checklist package leaves behind, and exactly when it is refused. */
module ChecklistMeaning {
  import opened Basics
  import opened Texts
  import opened UniqueIds
  import opened ApprovalChain
  import opened ChecklistPackages
  import opened ChecklistVersions

  // ----- lists -----

  /** The elements that are kept, in order. */
  function Keep<T>(s: seq<T>, keep: T -> bool): seq<T> {
    if s == [] then [] else (if keep(s[0]) then [s[0]] else []) + Keep(s[1..], keep)
  }

  lemma {:induction false} KeepConcat<T>(a: seq<T>, b: seq<T>, keep: T -> bool)
    ensures Keep(a + b, keep) == Keep(a, keep) + Keep(b, keep)
    decreases |a|
  {
    if a == [] {
      assert a + b == b;
    } else {
      KeepConcat(a[1..], b, keep);
      KeepFirst(a, keep);
      KeepFirst(a + b, keep);
      assert (a + b)[0] == a[0] && (a + b)[1..] == a[1..] + b;
      hide Keep;
      Associate(if keep(a[0]) then [a[0]] else [], Keep(a[1..], keep), Keep(b, keep));
    }
  }

  lemma KeepFirst<T>(s: seq<T>, keep: T -> bool)
    requires s != []
    ensures Keep(s, keep) == (if keep(s[0]) then [s[0]] else []) + Keep(s[1..], keep)
  {
  }

  lemma Associate<T>(a: seq<T>, b: seq<T>, c: seq<T>)
    ensures a + (b + c) == (a + b) + c
  {
  }

  lemma KeepOne<T>(x: T, keep: T -> bool)
    ensures Keep([x], keep) == if keep(x) then [x] else []
  {
    assert [x][1..] == [];
  }

  /** Dropping a question leaves the others, in order. */
  lemma {:induction false} DropIdKeepsOthers(ids: seq<string>, id: string)
    ensures DropId(ids, id) == Keep(ids, (x: string) => x != id)
    ensures id !in DropId(ids, id) && forall x :: x != id ==> multiset(DropId(ids, id))[x] == multiset(ids)[x]
  {
    if ids != [] {
      var front, last := ids[..|ids| - 1], ids[|ids| - 1];
      DropIdKeepsOthers(front, id);
      assert ids == front + [last];
      KeepConcat(front, [last], (x: string) => x != id);
      KeepOne(last, (x: string) => x != id);
    }
  }

  lemma {:induction false} WithoutKeepsOthers(sections: seq<Section>, id: string)
    ensures Without(sections, id) == Keep(sections, (s: Section) => s.id != id)
  {
    if sections != [] {
      var front, last := sections[..|sections| - 1], sections[|sections| - 1];
      WithoutKeepsOthers(front, id);
      assert sections == front + [last];
      KeepConcat(front, [last], (s: Section) => s.id != id);
      KeepOne(last, (s: Section) => s.id != id);
    }
  }

  /** Replacing a question puts the new one in the place of the first mention, and leaves a list without one alone. */
  lemma {:induction false} ReplaceIdMeans(ids: seq<string>, was: string, now: string, k: nat)
    requires k <= |ids| && (k < |ids| ==> ids[k] == was) && forall i :: 0 <= i < k ==> ids[i] != was
    ensures ReplaceId(ids, was, now) == if k == |ids| then ids else ids[k := now]
  {
    if ids != [] && k > 0 {
      ReplaceIdMeans(ids[1..], was, now, k - 1);
      assert ids == [ids[0]] + ids[1..];
    }
  }

  /** The questions of the sections, one section after the other. */
  function InOrder(sections: seq<Section>): seq<string> {
    if sections == [] then [] else sections[0].questionIds + InOrder(sections[1..])
  }

  lemma {:induction false} InOrderConcat(a: seq<Section>, b: seq<Section>)
    ensures InOrder(a + b) == InOrder(a) + InOrder(b)
    decreases |a|
  {
    if a == [] {
      assert a + b == b;
    } else {
      assert (a + b)[1..] == a[1..] + b;
      InOrderConcat(a[1..], b);
    }
  }

  lemma {:induction false} AllQuestionsInOrder(sections: seq<Section>)
    ensures AllQuestions(sections) == InOrder(sections)
  {
    if sections != [] {
      var front, last := sections[..|sections| - 1], sections[|sections| - 1];
      AllQuestionsInOrder(front);
      assert sections == front + [last] && [last][1..] == [];
      assert InOrder([last]) == last.questionIds + InOrder([]);
      InOrderConcat(front, [last]);
    }
  }

  // ----- drafting and publishing -----

  /** n is the largest of the package's own number and its versions'. */
  ghost predicate Largest(versions: seq<Version>, start: nat, n: nat) {
    && start <= n && (forall k :: 0 <= k < |versions| ==> versions[k].number <= n)
    && (n == start || exists k :: 0 <= k < |versions| && versions[k].number == n)
  }

  lemma {:induction false} MaxVersionMeans(versions: seq<Version>, start: nat)
    ensures Largest(versions, start, ChecklistPackages.MaxVersion(versions, start))
  {
    if versions != [] {
      var front := versions[..|versions| - 1];
      MaxVersionMeans(front, start);
      var m := ChecklistPackages.MaxVersion(front, start);
      if m != start && versions[|versions| - 1].number <= m {
        var k :| 0 <= k < |front| && front[k].number == m;
        assert versions[k].number == m;
      }
    }
  }

  /** Opening a draft: a draft stays as it is; anything else becomes one under the next number, with no drafts of its own. */
  lemma DraftMeans(p: Package)
    ensures var d := EnsureDraft(p);
            if p.status.Draft? then d == p
            else d == p.(status := Draft, version := d.version, draftIds := []) && d.version > 0
                 && Largest(p.versions, p.version, d.version - 1)
  {
    MaxVersionMeans(p.versions, p.version);
  }

  /** Publishing: the versions there were, the active ones archived, and one more with the sections as they are and all their
      questions; the package is published under that number and has no open drafts. */
  lemma PublishMeans(p: Package, actor: string)
    ensures var r := Publish(p, actor); var n := |p.versions|;
            && r == p.(status := Published, version := r.version, published := Some(r.version), draftIds := [], versions := r.versions)
            && |r.versions| == n + 1
            && (forall k :: 0 <= k < n ==>
                 r.versions[k] == if p.versions[k].record.status == ACTIVE
                                  then p.versions[k].(record := p.versions[k].record.(status := ARCHIVED)) else p.versions[k])
            && var v := r.versions[n];
               && v.number == r.version && v.sections == p.sections && v.questionIds == InOrder(p.sections)
               && v.record.status == ACTIVE && v.record.outcome.Approved?
               && v.record.history == [Entry(actor, Manager, PublishedVersion, "Demo version published.")]
    ensures var r := Publish(p, actor); r.version > 0 && Largest(p.versions, p.version, r.version - 1)
  {
    AllQuestionsInOrder(p.sections);
    MaxVersionMeans(p.versions, p.version);
    hide AllQuestions, ChecklistPackages.MaxVersion, Largest;
  }

  // ----- sections -----

  lemma SectionEditsMean(p: Package, name: string, id: string, j: nat, k: nat)
    requires j < |p.sections| && k < |p.sections|
    ensures var r := AddSection(p, name); var n := |p.sections|;
            && r == EnsureDraft(p).(sections := r.sections) && |r.sections| == n + 1 && r.sections[..n] == p.sections
            && r.sections[n].name == name && r.sections[n].questionIds == [] && r.sections[n].id !in SectionIds(p.sections)
    ensures RemoveSection(p, id) == EnsureDraft(p).(sections := Keep(p.sections, (s: Section) => s.id != id))
    ensures var r := SwapSections(p, j, k);
            && r == EnsureDraft(p).(sections := r.sections) && |r.sections| == |p.sections|
            && r.sections[j] == p.sections[k] && r.sections[k] == p.sections[j]
            && forall i :: 0 <= i < |p.sections| && i != j && i != k ==> r.sections[i] == p.sections[i]
  {
    hide UniqueId, Without, Keep, ChecklistPackages.MaxVersion;
    WithoutKeepsOthers(p.sections, id);
  }

  lemma RemoveQuestionMeans(p: Package, j: nat, id: string)
    requires j < |p.sections|
    ensures RemoveQuestion(p, j, id)
         == EnsureDraft(p).(sections := p.sections[j :=
            p.sections[j].(questionIds := Keep(p.sections[j].questionIds, (x: string) => x != id))])
  {
    hide DropId, Keep, ChecklistPackages.MaxVersion;
    DropIdKeepsOthers(p.sections[j].questionIds, id);
  }

  // ----- saving a question -----

  /** What is stored of a payload: the three free texts trimmed, the rest as given, under the package's department. */
  predicate Stores(c: Content, given: Content, department: string) {
    && c.text == Trim(given.text) && c.reference == Trim(given.reference) && c.guidance == Trim(given.guidance)
    && c.likelihood == given.likelihood && c.impact == given.impact && c.flags == given.flags && c.department == department
  }

  predicate Edits(w: Workspace, p: Package, payload: Payload) {
    payload.id.Some? && payload.id.value != "" && (exists k :: 0 <= k < |w.bank| && w.bank[k].id == payload.id.value)
    && p.status.Draft? && payload.id.value in p.draftIds
  }

  /** A question the draft owns is changed in place, and nothing else. */
  lemma OwnDraftSaved(w: Workspace, i: nat, j: nat, payload: Payload, k: nat)
    requires i < |w.packages| && j < |w.packages[i].sections| && Edits(w, w.packages[i], payload)
    requires k < |w.bank| && w.bank[k].id == payload.id.value && forall l :: 0 <= l < k ==> w.bank[l].id != payload.id.value
    ensures var w' := SaveQuestion(w, i, j, payload);
            && w' == w.(bank := w.bank[k := Question(payload.id.value, w'.bank[k].content)])
            && Stores(w'.bank[k].content, payload.content, w.packages[i].department)
  {
    hide Trim, NewQuestionId, ReplaceId;
    FoundFirst(w.bank, payload.id.value, k);
    hide FindQuestion;
    assert w.packages[i := w.packages[i]] == w.packages;
  }

  lemma {:induction false} FoundFirst(bank: seq<Question>, id: string, k: nat)
    requires k < |bank| && bank[k].id == id && forall l :: 0 <= l < k ==> bank[l].id != id
    ensures FindQuestion(bank, id) == Some(k)
  {
    if k > 0 { FoundFirst(bank[1..], id, k - 1); }
  }

  /** Any other save writes a new question, under a new id, into the bank and the draft's list, and puts it into the section: in
      the place of the question it was made from, or at the end. */
  lemma CopySaved(w: Workspace, i: nat, j: nat, payload: Payload)
    requires i < |w.packages| && j < |w.packages[i].sections| && !Edits(w, w.packages[i], payload)
    ensures var w' := SaveQuestion(w, i, j, payload); var n := |w.bank|; var d := EnsureDraft(w.packages[i]);
            var known := payload.id.Some? && payload.id.value != ""
                        && exists k :: 0 <= k < |w.bank| && w.bank[k].id == payload.id.value;
            && |w'.bank| == n + 1 && w'.bank[..n] == w.bank && w'.bank[n].id !in BankIds(w.bank)
            && Stores(w'.bank[n].content, payload.content, d.department)
            && var ids := if known then ReplaceId(d.sections[j].questionIds, payload.id.value, w'.bank[n].id)
                          else d.sections[j].questionIds + [w'.bank[n].id];
               w'.packages == w.packages[i := d.(draftIds := d.draftIds + [w'.bank[n].id],
                 sections := d.sections[j := d.sections[j].(questionIds := ids)])]
  {
    hide Trim, ReplaceId, ChecklistPackages.MaxVersion;
    if payload.id.Some? {
      assert FindQuestion(w.bank, payload.id.value).Some? <==> exists k :: 0 <= k < |w.bank| && w.bank[k].id == payload.id.value;
    }
    hide FindQuestion, NewQuestionId;
  }

  // ----- packages -----

  /** A package is created exactly under a name that is not blank and that no package has, whatever the case of its letters. */
  lemma CreatedExactly(w: Workspace, name: string, slug: string, department: string)
    ensures Create(w, name, slug, department).Some?
            <==> Trim(name) != "" && forall k :: 0 <= k < |w.packages| ==> LowerAll(w.packages[k].name) != LowerAll(Trim(name))
    ensures Create(w, name, slug, department).Some? ==>
              var w' := Create(w, name, slug, department).value; var n := |w.packages|;
              && w'.bank == w.bank && |w'.packages| == n + 1 && w'.packages[..n] == w.packages
              && var p := w'.packages[n];
                 && p.id !in PackageIds(w.packages) && p.name == Trim(name) && p.status.Draft? && p.version == 1 && p.published.None?
                 && p.department == (if Trim(department) == "" then "Cabin Safety" else Trim(department))
                 && p.draftIds == [] && p.versions == [] && p.sections == [Section(p.id + "-SEC-01", "General", [])]
  {
    hide NewPackageId, Trim, LowerAll;
  }

  /** A duplicate: a draft package at the end with the source's department, number and sections, question by question, under new
      section ids and the first free name. */
  lemma DuplicateMeans(w: Workspace, i: nat, slug: string)
    requires i < |w.packages| && Duplicate(w, i, slug).Some?
    ensures var w' := Duplicate(w, i, slug).value; var n := |w.packages|; var source := w.packages[i];
            && w'.bank == w.bank && |w'.packages| == n + 1 && w'.packages[..n] == w.packages
            && var p := w'.packages[n];
               && p.id !in PackageIds(w.packages) && p.status.Draft? && p.version == source.version && p.published.None?
               && p.draftIds == [] && p.versions == [] && |p.sections| == |source.sections|
               && p.name == Trim(CopyName(w.packages, source.name))
               && p.department == (if Trim(source.department) == "" then "Cabin Safety" else Trim(source.department))
               && forall k :: 0 <= k < |source.sections| ==>
                    && p.sections[k].name == source.sections[k].name && p.sections[k].questionIds == source.sections[k].questionIds
                    && p.sections[k].id == p.id + "-SEC-" + Decimals.PadStart(Decimals.Dec(k + 1), 2)
  {
    hide NewPackageId, Trim, NameTaken, CopyName;
  }

  /** The names tried for a copy, one after the other. */
  function NthCopy(name: string, m: nat): string {
    if m == 0 then name + " Copy" else name + " Copy " + Decimals.Dec(m + 1)
  }

  lemma NthCopyIsTried(name: string, m: nat)
    ensures CopyNames(name)(m) == LowerAll(NthCopy(name, m)) && Suffixed(name + " Copy", " ", m + 1) == NthCopy(name, m)
  {
    hide Decimals.Dec, LowerAll;
    assert name + " Copy" + " " + Decimals.Dec(m + 1) == name + " Copy " + Decimals.Dec(m + 1);
    assert Suffixed(name + " Copy", " ", m + 1) == NthCopy(name, m);
  }

  /** The copy's name: "Copy" alone where it is free, and otherwise with the first number that is. */
  lemma CopyNameMeans(packages: seq<Package>, name: string) returns (n: nat)
    ensures CopyName(packages, name) == NthCopy(name, n) && !NameTaken(packages, NthCopy(name, n))
    ensures forall m: nat :: m < n ==> NameTaken(packages, NthCopy(name, m))
  {
    hide LowerAll, NthCopy;
    CopyNamesDistinct(name);
    n := Search(CopyNames(name), LowerNamesSet(packages), 0);
    NthCopyIsTried(name, n);
    forall m: nat | m < n ensures NameTaken(packages, NthCopy(name, m)) {
      NthCopyIsTried(name, m);
      NotFreeBefore(CopyNames(name), LowerNamesSet(packages), n, m);
      assert CopyNames(name)(m) in LowerNamesSet(packages);
    }
  }

  lemma NotFreeBefore(candidate: nat -> string, taken: set<string>, n: nat, m: nat)
    requires Distinct(candidate) && n == Search(candidate, taken, 0) && m < n
    ensures !Free(candidate, taken, m)
  {
  }

  // ----- exactly what is refused -----

  predicate SameName(a: string, b: string) { LowerAll(a) == LowerAll(b) }

  /** An operation on a package is refused exactly so: on an archived package every edit, publication and save; without a name, or
      with one a section has, a new section; the last section or one that is not there, its removal; at the end of the list, a
      move; without text or reference, a save; and a question that is not there, its duplication or removal. */
  lemma EditAcceptedExactly(w: Workspace, i: nat, e: ChecklistPackages.Event)
    requires i < |w.packages| && !e.CreatePackage? && !e.DuplicatePackage?
    ensures var p := w.packages[i]; var open := !p.status.Archived?;
            Edit(w, i, e).Some? <==>
              match e
              case ArchivePackage(_) => true
              case PublishPackage(_, _) => open
              case AddSectionTo(_, name) =>
                open && Trim(name) != "" && forall k :: 0 <= k < |p.sections| ==> !SameName(p.sections[k].name, Trim(name))
              case RemoveSectionFrom(_, id) => open && |p.sections| > 1 && HasSection(p.sections, id)
              case MoveSection(_, id, up) =>
                open && FindSection(p.sections, id).Some?
                && if up then FindSection(p.sections, id).value > 0 else FindSection(p.sections, id).value + 1 < |p.sections|
              case Save(_, id, payload) =>
                open && HasSection(p.sections, id) && Trim(payload.content.text) != "" && Trim(payload.content.reference) != ""
              case DuplicateQuestion(_, id, questionId) =>
                open && HasSection(p.sections, id) && Lookup(w.bank, questionId).Some?
                && Trim(Lookup(w.bank, questionId).value.content.text + " (Copy)") != ""
                && Trim(Lookup(w.bank, questionId).value.content.reference) != ""
              case RemoveQuestionFrom(_, id, questionId) =>
                open && FindSection(p.sections, id).Some? && questionId in p.sections[FindSection(p.sections, id).value].questionIds
              case _ => true
  {
    hide Trim, LowerAll, SaveQuestion, Publish, AddSection, RemoveSection, SwapSections, RemoveQuestion, Lookup;
    if e.RemoveSectionFrom? { SectionFound(w.packages[i].sections, e.sectionId); }
    if e.Save? || e.DuplicateQuestion? { SectionFound(w.packages[i].sections, e.sectionId); }
    hide FindSection, HasSection;
  }

  predicate HasSection(sections: seq<Section>, id: string) { exists k :: 0 <= k < |sections| && sections[k].id == id }

  lemma {:induction false} SectionFound(sections: seq<Section>, id: string)
    ensures FindSection(sections, id).Some? <==> HasSection(sections, id)
    ensures FindSection(sections, id).Some? ==> forall k :: 0 <= k < FindSection(sections, id).value ==> sections[k].id != id
  {
    if sections != [] {
      SectionFound(sections[1..], id);
      if HasSection(sections, id) && sections[0].id != id {
        var k :| 0 <= k < |sections| && sections[k].id == id;
        assert sections[1..][k - 1].id == id;
      }
    }
  }

  // ----- versions on the governed path -----

  lemma {:induction false} ActiveFound(versions: seq<Version>)
    ensures match FirstActive(versions)
            case Some(k) => versions[k].record.status == ACTIVE && forall j :: 0 <= j < k ==> versions[j].record.status != ACTIVE
            case None => forall j :: 0 <= j < |versions| ==> versions[j].record.status != ACTIVE
  {
    if versions != [] { ActiveFound(versions[1..]); }
  }

  /** A draft version needs a reason; it takes the questions of the active version, or of the newest, under the next number, and
      waits for the manager and then the GM. */
  lemma DraftVersionMeans(p: Package, actor: Actor, reason: string)
    ensures CreateDraft(p, actor, reason).Ok? <==> Trim(reason) != ""
    ensures CreateDraft(p, actor, reason).Ok? ==>
              var p' := CreateDraft(p, actor, reason).value; var n := |p.versions|;
              && p' == p.(versions := p'.versions) && |p'.versions| == n + 1 && p'.versions[..n] == p.versions
              && var v := p'.versions[n];
                 && v.number > 0 && Largest(p.versions, 0, v.number - 1) && v.record.status == DRAFT && v.record.outcome.Pending?
                 && v.record.index == 0 && v.record.chain == [Stage(Manager, "Department Manager", None, None),
                                       Stage(Gm, "GM Approval", Some(Manager), None)]
                 && v.record.history == [Entry(actor.name, actor.role, DraftCreated, Trim(reason))]
                 && v.questionIds ==
                      match FirstActive(p.versions)
                      case Some(k) => p.versions[k].questionIds
                      case None => if n == 0 then [] else p.versions[n - 1].questionIds
  {
    MaxVersionMeans(p.versions, 0);
    hide Trim, ChecklistPackages.MaxVersion, FirstActive, Largest;
  }

  /** The record keeps everything but its status and gains the entry of its publication. */
  predicate ActivationNoted(r: Record, r': Record, actor: Actor) {
    && r' == r.(status := ACTIVE, history := r'.history)
    && r'.history == r.history + [Entry(if actor.name == "" then "Unknown actor" else actor.name, actor.role, PublishedVersion,
         Trim("Published as active demo checklist; prior active version archived."))]
  }

  lemma ActivatedMeans(v: Version, actor: Actor)
    ensures ActivationNoted(v.record, Activated(v, actor).record, actor)
  {
    hide Trim;
  }

  /** An approved version, and no other, is published: it becomes active, active versions under other ids are archived, and the
      package names its number; no version's questions change. */
  lemma PublishApprovedMeans(p: Package, k: nat, actor: Actor)
    requires k < |p.versions| && PublishApproved(p, k, actor).Ok?
    ensures var p' := PublishApproved(p, k, actor).value;
            && p.versions[k].record.status == ChecklistApproved
            && p' == p.(versions := p'.versions, published := Some(p.versions[k].number)) && |p'.versions| == |p.versions|
            && p'.versions[k].record.status == ACTIVE
            && ActivationNoted(p.versions[k].record, p'.versions[k].record, actor)
            && (forall j :: 0 <= j < |p.versions| ==>
                 p'.versions[j].questionIds == p.versions[j].questionIds && p'.versions[j].number == p.versions[j].number)
            && forall j :: 0 <= j < |p.versions| && j != k && p.versions[j].number != p.versions[k].number ==>
                 p'.versions[j].record.status == if p.versions[j].record.status == ACTIVE then ARCHIVED else p.versions[j].record.status
  {
    hide NewEntry, VersionId, ActivationNoted;
    ActivatedMeans(p.versions[k], actor);
    forall j | 0 <= j < |p.versions| && VersionId(p, p.versions[j]) == VersionId(p, p.versions[k])
      ensures p.versions[j].number == p.versions[k].number
    {
      IdNamesNumber(p, p.versions[j], p.versions[k]);
    }
  }

  lemma TwoApprovals(r: Record, manager: Actor, gm: Actor)
    requires r.kind.Checklist? && r.index == 0 && r.chain == CHECKLIST_CHAIN && manager.role.Manager? && gm.role.Gm?
    ensures var input1, input2 := Input(manager, Approve, "", ""), Input(gm, Approve, "", "");
            && Decide(r, input1).Ok? && Decide(r, input1).value.index == 1
            && Decide(Decide(r, input1).value, input2).Ok?
            && Decide(Decide(r, input1).value, input2).value.status == ChecklistApproved
  {
    hide Trim;
  }

  /** And there is a way there: drafted with a reason, approved by the manager and by the GM, published. */
  lemma GovernedPath(p: Package, manager: Actor, gm: Actor, reason: string)
    requires Trim(reason) != "" && manager.role.Manager? && gm.role.Gm?
    ensures var n := |p.versions|;
            var p1 := Next(p, DraftMade(manager, reason));
            var p2 := Next(p1, Decided(n, Input(manager, Approve, "", "")));
            var p3 := Next(p2, Decided(n, Input(gm, Approve, "", "")));
            var p4 := Next(p3, ApprovedPublished(n, manager));
            && |p1.versions| == |p2.versions| == |p3.versions| == |p4.versions| == n + 1
            && p2.versions[n].record.index == 1 && p3.versions[n].record.status == ChecklistApproved
            && p4.versions[n].record.status == ACTIVE && p4.published == Some(p4.versions[n].number)
  {
    hide Trim, ChecklistPackages.MaxVersion, DraftSource, VersionId, Decide, PublishApproved, ActivationNoted;
    var n := |p.versions|;
    var p1 := Next(p, DraftMade(manager, reason));
    TwoApprovals(p1.versions[n].record, manager, gm);
    var p3 := Next(Next(p1, Decided(n, Input(manager, Approve, "", ""))), Decided(n, Input(gm, Approve, "", "")));
    PublishApprovedMeans(p3, n, manager);
  }

  /** Version ids as they are written. */
  lemma VersionIdWritten(p: Package, v: Version, whole: nat, tenth: nat)
    requires v.number == 10 * whole + tenth && tenth < 10
    ensures VersionId(p, v) == p.id + "-v" + Decimals.Dec(whole) + "." + Decimals.Dec(tenth)
  {
    assert v.number / 10 == whole && v.number % 10 == tenth;
    assert Decimals.Dec(tenth) == [Decimals.DigitChar(tenth)];
    var a, b, c := p.id + "-v", Decimals.Dec(whole), Decimals.Dec(tenth);
    assert a + (b + "." + c) == a + b + "." + c;
  }

  /** What each event of a version history does; on a version that is not there it does nothing, and an archived package is neither
      published nor edited by its manager. */
  lemma VersionEventsDo(p: Package, e: VersionEvent)
    ensures var p' := Next(p, e);
            match e
            case ManagerPublishes(name) => p' == if p.status == Archived then p else Publish(p, name)
            case ManagerEdits => p' == if p.status == Archived then p else EnsureDraft(p)
            case ManagerArchives => p' == p.(status := Archived)
            case DraftMade(actor, reason) =>
              if Trim(reason) == "" then p' == p else CreateDraft(p, actor, reason).Ok? && p' == CreateDraft(p, actor, reason).value
            case Decided(k, input) =>
              if k < |p.versions| && Decide(p.versions[k].record, input).Ok?
              then p' == p.(versions := p.versions[k := p.versions[k].(record := Decide(p.versions[k].record, input).value)])
              else p' == p
            case ApprovedPublished(k, actor) =>
              if k < |p.versions| && p.versions[k].record.status == ChecklistApproved
              then PublishApproved(p, k, actor).Ok? && p' == PublishApproved(p, k, actor).value else p' == p
            case Reordered(k, id, up) =>
              if k < |p.versions|
              then var ids := ChecklistVersions.Moved(p.versions[k].questionIds, id, up);
                   p' == p.(versions := p.versions[k := p.versions[k].(questionIds := ids)])
              else p' == p
            case QuestionAdded(k, id) =>
              if k < |p.versions|
              then p' == p.(versions := p.versions[k := p.versions[k].(questionIds := AddedOnce(p.versions[k].questionIds, id))])
              else p' == p
  {
    hide Trim, Decide, Publish, EnsureDraft, ChecklistVersions.Moved, AddedOnce;
  }

  /** Which change each operation makes to its package; archiving just marks it. */
  lemma EditsDo(w: Workspace, i: nat, e: ChecklistPackages.Event)
    requires i < |w.packages| && !e.CreatePackage? && Edit(w, i, e).Some?
    ensures var p := w.packages[i]; var w' := Edit(w, i, e).value;
            match e
            case ArchivePackage(_) => w' == w.(packages := w.packages[i := p.(status := Archived)])
            case PublishPackage(_, actor) => w' == w.(packages := w.packages[i := Publish(p, actor)])
            case AddSectionTo(_, name) => w' == w.(packages := w.packages[i := AddSection(p, Trim(name))])
            case RemoveSectionFrom(_, id) => w' == w.(packages := w.packages[i := RemoveSection(p, id)])
            case MoveSection(_, id, up) =>
              && HasSection(p.sections, id)
              && var j := FindSection(p.sections, id).value;
                 if up then j > 0 && w' == w.(packages := w.packages[i := SwapSections(p, j, j - 1)])
                 else j + 1 < |p.sections| && w' == w.(packages := w.packages[i := SwapSections(p, j, j + 1)])
            case Save(_, id, payload) =>
              HasSection(p.sections, id) && w' == SaveQuestion(w, i, FindSection(p.sections, id).value, payload)
            case DuplicateQuestion(_, id, questionId) =>
              && HasSection(p.sections, id) && Lookup(w.bank, questionId).Some?
              && var content := Lookup(w.bank, questionId).value.content;
                 w' == SaveQuestion(w, i, FindSection(p.sections, id).value, Payload(None, content.(text := content.text + " (Copy)")))
            case RemoveQuestionFrom(_, id, questionId) =>
              && HasSection(p.sections, id)
              && w' == w.(packages := w.packages[i := RemoveQuestion(p, FindSection(p.sections, id).value, questionId)])
            case _ => true
  {
    hide Trim, LowerAll, SaveQuestion, Publish, AddSection, RemoveSection, SwapSections, RemoveQuestion, Lookup, Duplicate;
    if !e.ArchivePackage? && !e.PublishPackage? && !e.AddSectionTo? && !e.DuplicatePackage? {
      SectionFound(w.packages[i].sections, e.sectionId);
    }
    hide FindSection, HasSection;
  }

  /** An operation is on the first package of its id; one on an unknown package, or refused, changes nothing. */
  lemma StepsDo(w: Workspace, e: ChecklistPackages.Event)
    ensures match e
            case CreatePackage(name, slug, department) =>
              Step(w, e) == (if Create(w, name, slug, department).Some? then Create(w, name, slug, department).value else w)
            case _ =>
              if forall k :: 0 <= k < |w.packages| ==> w.packages[k].id != e.packageId then Step(w, e) == w
              else exists i :: 0 <= i < |w.packages| && w.packages[i].id == e.packageId
                     && Step(w, e) == (if Edit(w, i, e).Some? then Edit(w, i, e).value else w)
  {
    hide Create, Edit;
    if !e.CreatePackage? {
      var found := Find(w.packages, e.packageId);
      if found.Some? { assert w.packages[found.value].id == e.packageId; }
    }
  }
}
