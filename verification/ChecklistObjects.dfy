/** A checklist package as the program keeps it: section objects edited in place, and versions that hold clones of them. */
module ChecklistObjects {
  import opened Basics
  import opened Texts
  import opened UniqueIds
  import opened ApprovalChain
  import opened ChecklistPackages
  import opened ChecklistVersions

  class SectionObject {
    const id: string
    const name: string
    var questionIds: seq<string>

    function View(): Section
      reads this
    {
      Section(id, name, questionIds)
    }

    constructor (section: Section)
      ensures View() == section
    {
      id, name, questionIds := section.id, section.name, section.questionIds;
    }
  }

  function Views(sections: seq<SectionObject>): (views: seq<Section>)
    reads sections
    ensures |views| == |sections| && forall i :: 0 <= i < |sections| ==> views[i] == sections[i].View()
  {
    seq(|sections|, i requires 0 <= i < |sections| reads sections => sections[i].View())
  }

  class VersionObject {
    const number: nat
    const sections: seq<SectionObject>
    var questionIds: seq<string>
    var record: Record

    function View(): Version
      reads this, sections
    {
      Version(number, record, questionIds, Views(sections))
    }

    constructor (number: nat, record: Record, questionIds: seq<string>, sections: seq<SectionObject>)
      ensures this.number == number && this.record == record && this.questionIds == questionIds && this.sections == sections
    {
      this.number, this.record, this.questionIds, this.sections := number, record, questionIds, sections;
    }
  }

  /** The sections stored with versions. */
  ghost function Stored(versions: seq<VersionObject>): set<object> {
    set v, k | 0 <= v < |versions| && 0 <= k < |versions[v].sections| :: versions[v].sections[k]
  }

  function VersionViews(versions: seq<VersionObject>): (views: seq<Version>)
    reads versions, Stored(versions)
    ensures |views| == |versions| && forall i :: 0 <= i < |versions| ==> views[i] == versions[i].View()
  {
    seq(|versions|, i requires 0 <= i < |versions| reads versions, Stored(versions) => versions[i].View())
  }

  /** `deepClone(sections)`: new objects with the same contents. */
  method DeepClone(sections: seq<SectionObject>) returns (clones: seq<SectionObject>)
    ensures Views(clones) == Views(sections)
    ensures forall i :: 0 <= i < |clones| ==> fresh(clones[i])
  {
    clones := [];
    for i := 0 to |sections|
      invariant |clones| == i
      invariant forall k :: 0 <= k < i ==> fresh(clones[k]) && clones[k].View() == sections[k].View()
    {
      var clone := new SectionObject(sections[i].View());
      clones := clones + [clone];
    }
  }

  method CloneVersion(number: nat, record: Record, ids: seq<string>, sections: seq<SectionObject>) returns (v: VersionObject)
    ensures fresh(v) && forall k :: 0 <= k < |v.sections| ==> fresh(v.sections[k])
    ensures v.View() == Version(number, record, ids, Views(sections))
  {
    var clones := DeepClone(sections);
    v := new VersionObject(number, record, ids, clones);
  }

  class PackageObject {
    const id: string
    const name: string
    const department: string
    var status: PackageStatus
    var version: nat
    var published: Option<nat>
    var draftIds: seq<string>
    var sections: seq<SectionObject>
    var versions: seq<VersionObject>

    /** No section object is listed twice, and none is shared with a version. */
    ghost predicate Valid()
      reads this
    {
      && (forall i, j :: 0 <= i < j < |sections| ==> sections[i] != sections[j])
      && (forall i, j :: 0 <= i < j < |versions| ==> versions[i] != versions[j])
      && forall i :: 0 <= i < |sections| ==> sections[i] !in Stored(versions)
    }

    function View(): Package
      reads this, sections, versions, Stored(versions)
    {
      Package(id, name, department, status, version, published, draftIds, Views(sections), VersionViews(versions))
    }

    constructor (id: string, name: string, department: string)
      ensures Valid() && fresh(sections)
      ensures View() == Package(id, name, department, Draft, 1, None, [], [Section(id + "-SEC-01", "General", [])], [])
    {
      this.id, this.name, this.department := id, name, department;
      status, version, published, draftIds, versions := Draft, 1, None, [], [];
      var section := new SectionObject(Section(id + "-SEC-01", "General", []));
      sections := [section];
    }

    /** Every editing operation starts here; only the package's own fields change. */
    method OpenDraft()
      requires Valid()
      modifies this`version, this`status, this`draftIds
      ensures Valid() && View() == EnsureDraft(old(View()))
    {
      if status != Draft {
        version := MaxVersion(VersionViews(versions), version) + 1;
        status := Draft;
        draftIds := [];
      }
    }

    method ArchiveActive()
      requires Valid()
      modifies versions
      ensures Valid() && View() == old(View()).(versions := ArchiveAll(old(View()).versions))
    {
      ghost var before := VersionViews(versions);
      for k := 0 to |versions|
        invariant forall v :: 0 <= v < |versions| ==> versions[v].View() == if v < k then Archive(before[v]) else before[v]
      {
        if versions[k].record.status == ACTIVE { versions[k].record := versions[k].record.(status := ARCHIVED); }
      }
      assert VersionViews(versions) == ArchiveAll(before);
    }

    method CollectQuestions() returns (ids: seq<string>)
      ensures ids == AllQuestions(View().sections)
    {
      ids := [];
      for k := 0 to |sections|
        invariant ids == AllQuestions(Views(sections)[..k])
      {
        assert Views(sections)[..k + 1][..k] == Views(sections)[..k];
        ids := ids + sections[k].questionIds;
      }
      assert Views(sections)[..|sections|] == Views(sections);
    }

    /** Publishing stores clones: the sections that stay editable and the sections of the version are different objects. */
    method PushVersion(number: nat, record: Record, ids: seq<string>)
      requires Valid()
      modifies this`versions
      ensures Valid()
      ensures View() == old(View()).(versions := old(View()).versions + [Version(number, record, ids, old(View()).sections)])
    {
      var v := CloneVersion(number, record, ids, sections);
      AppendVersion(v);
    }

    method AppendVersion(v: VersionObject)
      requires Valid() && v !in versions && forall i, k :: 0 <= i < |sections| && 0 <= k < |v.sections| ==> sections[i] != v.sections[k]
      modifies this`versions
      ensures Valid() && View() == old(View()).(versions := old(View()).versions + [v.View()])
    {
      ghost var before := VersionViews(versions);
      versions := versions + [v];
      assert VersionViews(versions) == before + [v.View()];
    }

    method PublishVersion(actor: string)
      requires Valid()
      modifies this, versions
      ensures Valid() && sections == old(sections) && View() == Publish(old(View()), actor)
    {
      hide MaxVersion, PublishedRecord, AllQuestions, Archive, NextNumber;
      var number := NextNumber(View());
      ArchiveActive();
      var ids := CollectQuestions();
      PushVersion(number, PublishedRecord(actor), ids);
      MarkPublished(number);
    }

    method MarkPublished(number: nat)
      requires Valid()
      modifies this`version, this`published, this`status, this`draftIds
      ensures Valid()
      ensures View() == old(View()).(version := number, published := Some(number), status := Published, draftIds := [])
    {
      version := number;
      published := Some(number);
      status := Published;
      draftIds := [];
    }

    /** Sets one section's list in place; versions do not see it. */
    method SetQuestions(j: nat, ids: seq<string>)
      requires Valid() && j < |sections|
      modifies sections[j]
      ensures Valid() && View() == WithIds(old(View()), j, ids)
    {
      ghost var before := Views(sections);
      sections[j].questionIds := ids;
      assert Views(sections) == before[j := before[j].(questionIds := ids)];
    }

    method MoveQuestionOut(j: nat, questionId: string)
      requires Valid() && j < |sections|
      modifies this, sections[j]
      ensures Valid() && View() == RemoveQuestion(old(View()), j, questionId)
    {
      hide EnsureDraft, EditsOwn;
      DraftFirst(View());
      OpenDraft();
      SetQuestions(j, DropId(sections[j].questionIds, questionId));
    }

    method PushSection(sectionName: string)
      requires Valid()
      modifies this
      ensures Valid() && View() == AddSection(old(View()), sectionName)
    {
      hide EnsureDraft, EditsOwn, UniqueId, SectionIds;
      DraftFirst(View());
      OpenDraft();
      ghost var draft := View();
      var newId := ManagerChecklistUniqueId(SectionIds(Views(sections)), id + "-SEC-");
      var section := new SectionObject(Section(newId, sectionName, []));
      assert View() == draft;
      AppendSection(section);
    }

    method AppendSection(section: SectionObject)
      requires Valid() && section !in sections && section !in Stored(versions)
      modifies this`sections
      ensures Valid() && View() == old(View()).(sections := old(View()).sections + [section.View()])
    {
      ghost var before := Views(sections);
      sections := sections + [section];
      assert Views(sections) == before + [section.View()];
    }

    method SwapWith(j: nat, k: nat)
      requires Valid() && j < |sections| && k < |sections|
      modifies this
      ensures Valid() && View() == SwapSections(old(View()), j, k)
    {
      hide EnsureDraft, EditsOwn;
      DraftFirst(View());
      OpenDraft();
      Exchange(j, k);
    }

    method Exchange(j: nat, k: nat)
      requires Valid() && j < |sections| && k < |sections|
      modifies this`sections
      ensures var old_ := old(View()).sections;
              Valid() && View() == old(View()).(sections := old_[j := old_[k]][k := old_[j]])
    {
      ghost var before := Views(sections);
      var swap := sections[k];
      sections := sections[k := sections[j]];
      sections := sections[j := swap];
      assert Views(sections) == before[j := before[k]][k := before[j]];
    }

    /** Records a new draft question and puts it into a section. */
    method PutDraft(j: nat, questionId: string, ids: seq<string>)
      requires Valid() && j < |sections|
      modifies this`draftIds, sections[j]
      ensures Valid() && View() == WithIds(old(View()).(draftIds := old(View()).draftIds + [questionId]), j, ids)
    {
      draftIds := draftIds + [questionId];
      SetQuestions(j, ids);
    }

    /** Saving one question of this package: its own draft in place, another one as a copy, a new one at the end. The bank is
        the shared list of questions before and after. */
    method SaveInto(bank: seq<Question>, j: nat, payload: Payload) returns (bank': seq<Question>)
      requires Valid() && j < |sections|
      modifies this, sections[j]
      ensures Valid() && sections == old(sections)
      ensures Workspace(bank', [View()]) == SaveQuestion(Workspace(bank, [old(View())]), 0, j, payload)
    {
      hide EnsureDraft, EditsOwn, Cleaned, UniqueId, ReplaceId, BankIds;
      DraftFirst(View());
      OpenDraft();
      var content := Cleaned(payload.content, department);
      var found := if payload.id.Some? && payload.id.value != "" then FindQuestion(bank, payload.id.value) else None;
      if found.Some? && payload.id.value in draftIds {
        bank' := bank[found.value := bank[found.value].(content := content)];
        return;
      }
      var newId := ManagerChecklistUniqueId(BankIds(bank), QUESTION_PREFIX);
      bank' := bank + [Question(newId, content)];
      var ids := sections[j].questionIds;
      PutDraft(j, newId, if found.Some? then ReplaceId(ids, payload.id.value, newId) else ids + [newId]);
    }

    // ----- the governed path -----

    /** Opening a draft version in place; nothing is touched when the reason is missing. */
    method DraftVersion(actor: Actor, reason: string) returns (refused: Option<VersionRefusal>)
      requires Valid()
      modifies this`versions
      ensures Valid()
      ensures match CreateDraft(old(View()), actor, reason)
              case Ok(p) => refused.None? && View() == p
              case Err(why) => refused == Some(why) && View() == old(View())
    {
      hide MaxVersion, DraftSource, DraftRecord, Blank, Trim, Archive;
      if Blank(reason) { return Some(ReasonMissing); }
      var number := MaxVersion(VersionViews(versions), 0) + 1;
      var v := CloneVersion(number, DraftRecord(actor, Trim(reason)), DraftSource(VersionViews(versions)), []);
      AppendVersion(v);
      refused := None;
    }

    /** Overwrites the statuses one by one, then the version's own and the package's pointer to it. */
    method PublishApprovedVersion(k: nat, actor: Actor) returns (refused: Option<VersionRefusal>)
      requires Valid() && k < |versions|
      modifies this`published, versions
      ensures Valid()
      ensures match PublishApproved(old(View()), k, actor)
              case Ok(p) => refused.None? && View() == p
              case Err(why) => refused == Some(why) && View() == old(View())
    {
      hide NewEntry, VersionId, Archive, Activated;
      var version := versions[k];
      if version.record.status != ChecklistApproved { return Some(NotApprovedYet); }
      var views, asIs := VersionViews(versions), version.View();
      var versionId := VersionId(View(), asIs);
      ArchiveOtherIds(views, versionId);
      assert version.View() == asIs;
      SetRecord(k, Activated(asIs, actor).record);
      published := Some(version.number);
      refused := None;
    }

    method SetRecord(k: nat, record: Record)
      requires Valid() && k < |versions|
      modifies versions[k]
      ensures Valid() && View() == old(View()).(versions := old(View()).versions[k := old(View()).versions[k].(record := record)])
    {
      ghost var before := VersionViews(versions);
      versions[k].record := record;
      assert VersionViews(versions) == before[k := before[k].(record := record)];
    }

    method ArchiveOtherIds(views: seq<Version>, versionId: string)
      requires Valid() && views == View().versions
      modifies versions
      ensures Valid() && View() == old(View()).(versions := ArchiveOthers(old(View()), versionId))
    {
      hide Tenths;
      ghost var before := View();
      for i := 0 to |versions|
        invariant View() == before.(versions := View().versions)
        invariant forall j :: 0 <= j < |versions| ==>
          View().versions[j] == if j < i && VersionId(before, views[j]) != versionId then Archive(views[j]) else views[j]
      {
        if versions[i].record.status == ACTIVE && VersionId(View(), versions[i].View()) != versionId {
          SetRecord(i, versions[i].record.(status := ARCHIVED));
        }
        assert View().versions[i] == if VersionId(before, views[i]) != versionId then Archive(views[i]) else views[i];
      }
      assert View().versions == ArchiveOthers(before, versionId);
    }
  }
}
