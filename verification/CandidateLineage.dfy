/** The table of checklist drafts and the two triggers that guard its generated candidates. */
module CandidateLineage {
  import opened Basics

  type Id = string

  datatype Status = Draft | GeneratedDraft | DepartmentReview | Returned | Rejected | TechnicallyApproved | Published

  /** A draft row. `run` is the generation run (absent on ordinary drafts, as are digest and schema); `fixed` stands for the
      owner, creator and change reason, which the guard compares as they are. */
  datatype Row = Row(run: Option<Id>, root: Option<Id>, supersedes: Option<Id>, template: Id, version: nat, revision: nat,
                     status: Status, digest: Option<string>, schema: Option<string>, questionVersions: seq<string>, fixed: string)

  type Table = map<Id, Row>

  /** What is looked up elsewhere: known question versions, all runs, runs with complete lineage and their output digests. */
  datatype Facts = Facts(questions: set<string>, runs: set<Id>, completeRuns: set<Id>, outputDigest: map<Id, string>)

  datatype Change = Insert(id: Id, row: Row) | Update(id: Id, newId: Id, row: Row) | Delete(id: Id)

  /** `governed_sha256`. */
  predicate Sha256(s: string) {
    |s| == 71 && s[..7] == "sha256:" && forall i :: 7 <= i < 71 ==> '0' <= s[i] <= '9' || 'a' <= s[i] <= 'f'
  }

  /** The check constraints on every stored row: ordinary drafts have no lineage, generated ones name a root and carry a digest
      and a schema version. */
  predicate RowCheck(row: Row) {
    && row.version > 0 && row.revision > 0
    && if row.run.None? then row.root.None? && row.supersedes.None? && row.digest.None? && row.schema.None?
       else row.root.Some? && row.digest.Some? && Sha256(row.digest.value) && row.schema.Some?
  }

  predicate Known(t: Table, id: Option<Id>) { id.None? || id.value in t }

  /** A row beside another: no predecessor twice, no version of a template twice, one open draft per template. */
  predicate Apart(a: Row, b: Row) {
    && (a.supersedes.None? || a.supersedes != b.supersedes)
    && (a.template == b.template ==> a.version != b.version && !(a.status == Draft && b.status == Draft))
  }

  /** The constraints between rows: roots and predecessors are rows of the table, runs exist, and what must be unique is. */
  predicate TableCheck(t: Table, facts: Facts) {
    && (forall id :: id in t ==>
         Known(t, t[id].root) && Known(t, t[id].supersedes) && (t[id].run.None? || t[id].run.value in facts.runs))
    && forall a, b :: a in t && b in t && a != b ==> Apart(t[a], t[b])
  }

  /** `validate_governed_generated_candidate`, run before an insert. */
  predicate LineageGuard(t: Table, facts: Facts, id: Id, row: Row) {
    row.run.None? || (
      && row.questionVersions != [] && (forall q :: q in row.questionVersions ==> q != "" && q in facts.questions)
      && row.run.value in facts.completeRuns
      && match row.supersedes
         case None =>
           row.root == Some(id) && row.run.value in facts.outputDigest && Some(facts.outputDigest[row.run.value]) == row.digest
         case Some(p) =>
           && p in t && t[p].run.Some?
           && t[p].template == row.template && t[p].root == row.root && t[p].run == row.run
           && t[p].version < row.version && t[p].revision < row.revision)
  }

  predicate StatusMoves(from: Status, to: Status) {
    || (from == GeneratedDraft && to == DepartmentReview)
    || (from == DepartmentReview && to in {Returned, Rejected, TechnicallyApproved})
    || (from == TechnicallyApproved && to == Published)
  }

  /** `governed_generated_candidate_immutable_guard`, run before an update. */
  predicate ImmutableGuard(id: Id, old_: Row, newId: Id, row: Row) {
    old_.run.None? || (StatusMoves(old_.status, row.status) && newId == id && row == old_.(status := row.status))
  }

  function Checked(t: Table, facts: Facts): Option<Table> { if TableCheck(t, facts) then Some(t) else None }

  /** The table after an attempted change: None when the database refuses it.
      Deleting an ordinary draft is answered by the trigger with no row, so the database silently skips it. */
  function Apply(t: Table, facts: Facts, c: Change): Option<Table> {
    match c
    case Insert(id, row) =>
      if id !in t && RowCheck(row) && LineageGuard(t, facts, id, row) then Checked(t[id := row], facts) else None
    case Update(id, newId, row) =>
      if id in t && (newId == id || newId !in t) && RowCheck(row) && ImmutableGuard(id, t[id], newId, row)
      then Checked((t - {id})[newId := row], facts) else None
    case Delete(id) =>
      if id in t && t[id].run.Some? then None else Some(t)
  }

  predicate Generated(t: Table, id: Id) { id in t && t[id].run.Some? }

  /** The one change no guard stops: an ordinary draft updated into a generated candidate. */
  predicate GainsRun(t: Table, c: Change) {
    c.Update? && c.id in t && t[c.id].run.None? && c.row.run.Some?
  }

  /** A generated row is its own root, or follows a generated row of lower revision with the same root, run and template. */
  predicate Linked(t: Table, id: Id)
    requires Generated(t, id)
  {
    var row := t[id];
    match row.supersedes
    case None => row.root == Some(id)
    case Some(p) =>
      && Generated(t, p) && t[p].root == row.root && t[p].run == row.run && t[p].template == row.template
      && t[p].revision < row.revision
  }

  ghost predicate Inv(t: Table) {
    forall id :: id in t ==> RowCheck(t[id]) && (t[id].run.Some? ==> Linked(t, id))
  }

  lemma AcceptedChangeKeepsInv(t: Table, facts: Facts, c: Change)
    requires Inv(t) && Apply(t, facts, c).Some? && !GainsRun(t, c)
    ensures Inv(Apply(t, facts, c).value)
    ensures forall id :: Generated(t, id) ==>
              Generated(Apply(t, facts, c).value, id) && Apply(t, facts, c).value[id].(status := t[id].status) == t[id]
  {
    var t' := Apply(t, facts, c).value;
    forall id | Generated(t, id)
      ensures Generated(t', id) && t'[id].(status := t[id].status) == t[id]
    {
    }
    forall id | id in t' ensures RowCheck(t'[id]) && (t'[id].run.Some? ==> Linked(t', id)) {
      if t'[id].run.Some? && c.Insert? && id == c.id {
        assert LineageGuard(t, facts, id, t'[id]);
      } else if t'[id].run.Some? {
        assert Generated(t, id) && Linked(t, id);
      }
    }
  }

  /** A run of attempted changes; refused ones leave the table as it is. */
  function Run(t: Table, facts: Facts, cs: seq<Change>): Table
    decreases |cs|
  {
    if cs == [] then t else
    match Apply(t, facts, cs[0])
    case None => Run(t, facts, cs[1..])
    case Some(t') => Run(t', facts, cs[1..])
  }

  /** No change of the run turns an ordinary draft, as it then is, into a generated candidate. */
  predicate NoDraftGainsRun(t: Table, facts: Facts, cs: seq<Change>)
    decreases |cs|
  {
    cs == [] ||
    match Apply(t, facts, cs[0])
    case None => NoDraftGainsRun(t, facts, cs[1..])
    case Some(t') => !GainsRun(t, cs[0]) && NoDraftGainsRun(t', facts, cs[1..])
  }

  /** Over every run the links stay sound, and what a generated candidate says of its lineage never changes. */
  lemma {:induction false} LineageKept(t: Table, facts: Facts, cs: seq<Change>)
    requires Inv(t) && NoDraftGainsRun(t, facts, cs)
    ensures Inv(Run(t, facts, cs))
    ensures forall id :: Generated(t, id) ==>
              Generated(Run(t, facts, cs), id) && Run(t, facts, cs)[id].(status := t[id].status) == t[id]
    decreases |cs|
  {
    if cs != [] {
      match Apply(t, facts, cs[0])
      case None => LineageKept(t, facts, cs[1..]);
      case Some(t') =>
        AcceptedChangeKeepsInv(t, facts, cs[0]);
        LineageKept(t', facts, cs[1..]);
    }
  }

  /** Two ordinary drafts, and the first updated to claim the second as its root. */
  function TwoDrafts(fixed: string): Table {
    map["D" := Row(None, None, None, "T", 1, 1, Draft, None, None, [], fixed),
        "E" := Row(None, None, None, "U", 1, 1, Draft, None, None, [], fixed)]
  }

  function ClaimRoot(fixed: string, run: Id, digest: string, schema: string): Change {
    Update("D", "D", Row(Some(run), Some("E"), None, "T", 1, 1, Draft, Some(digest), Some(schema), [], fixed))
  }

  /** Why the proviso is needed: an ordinary draft may be updated to claim any other draft as its root; every constraint holds
      and no guard stops it. */
  lemma GainingARunBreaksLineage(facts: Facts, run: Id, digest: string, schema: string, fixed: string)
    requires run in facts.runs && Sha256(digest)
    ensures var t := TwoDrafts(fixed); var c := ClaimRoot(fixed, run, digest, schema);
            Inv(t) && TableCheck(t, facts) && Apply(t, facts, c).Some? && !Inv(Apply(t, facts, c).value)
  {
    hide Sha256, TableCheck, Linked, Inv;
    var t, c := TwoDrafts(fixed), ClaimRoot(fixed, run, digest, schema);
    var t' := (t - {"D"})["D" := c.row];
    TwoRowsInOrder(facts, t["D"], t["E"]);
    TwoRowsInOrder(facts, c.row, t["E"]);
    assert t == map["D" := t["D"], "E" := t["E"]] && t' == map["D" := c.row, "E" := t["E"]];
    assert Inv(t) by { OrdinaryOnly(t); }
    assert !Inv(t') by { Unlinked(t', "D"); }
  }

  lemma TwoRowsInOrder(facts: Facts, d: Row, e: Row)
    requires d.run.None? || d.run.value in facts.runs
    requires e.run.None? && e.root.None? && e.supersedes.None? && d.supersedes.None? && (d.root.None? || d.root == Some("E"))
    requires d.template != e.template
    ensures TableCheck(map["D" := d, "E" := e], facts)
  {
  }

  lemma OrdinaryOnly(t: Table)
    requires forall id :: id in t ==> t[id].run.None? && RowCheck(t[id])
    ensures Inv(t)
  {
  }

  lemma Unlinked(t: Table, id: Id)
    requires Generated(t, id) && t[id].supersedes.None? && t[id].root != Some(id)
    ensures !Inv(t)
  {
    assert !Linked(t, id);
  }

  /** What a row would have to say for its links to be sound in this table. */
  predicate LinksWell(t: Table, id: Id, row: Row) {
    match row.supersedes
    case None => row.root == Some(id)
    case Some(p) =>
      && Generated(t, p) && t[p].root == row.root && t[p].run == row.run && t[p].template == row.template
      && t[p].revision < row.revision
  }

  /** Exactly when such an update does no harm: when the new row links as an inserted one would have to. */
  lemma GainingARunExactly(t: Table, facts: Facts, c: Change)
    requires Inv(t) && Apply(t, facts, c).Some? && GainsRun(t, c)
    ensures Inv(Apply(t, facts, c).value) <==> LinksWell(t, c.newId, c.row)
  {
    var t' := Apply(t, facts, c).value;
    forall id | id in t' && id != c.newId ensures t'[id] == t[id] && RowCheck(t'[id]) && (t'[id].run.Some? ==> Linked(t', id)) {
      assert t[id].run.Some? ==> Linked(t, id);
    }
    assert Linked(t', c.newId) <==> LinksWell(t, c.newId, c.row);
  }

  // ----- exactly what the database accepts -----

  lemma Sha256Means(hex: string)
    ensures Sha256("sha256:" + hex) <==> |hex| == 64 && forall i :: 0 <= i < 64 ==> hex[i] in "0123456789abcdef"
  {
    var s := "sha256:" + hex;
    assert s[..7] == "sha256:";
    assert forall i :: 0 <= i < |hex| ==> hex[i] == s[i + 7];
    forall c: char ensures c in "0123456789abcdef" <==> '0' <= c <= '9' || 'a' <= c <= 'f' { HexDigits(c); }
  }

  lemma HexDigits(c: char)
    ensures c in "0123456789abcdef" <==> '0' <= c <= '9' || 'a' <= c <= 'f'
  {
    var s := "0123456789abcdef";
    assert forall d: nat :: d < 10 ==> s[d] as int == '0' as int + d;
    assert forall d: nat :: 10 <= d < 16 ==> s[d] as int == 'a' as int + d - 10;
    if '0' <= c <= '9' { assert s[c as int - '0' as int] == c; }
    if 'a' <= c <= 'f' { assert s[c as int - 'a' as int + 10] == c; }
  }

  /** What every generated row needs on its own: positive numbers, a digest, a schema version, questions that exist, and a run
      whose lineage is complete. */
  predicate Presentable(facts: Facts, row: Row) {
    && row.run.Some? && row.version > 0 && row.revision > 0
    && row.digest.Some? && Sha256(row.digest.value) && row.schema.Some?
    && row.questionVersions != [] && (forall q :: q in row.questionVersions ==> q != "" && q in facts.questions)
    && row.run.value in facts.completeRuns && row.run.value in facts.runs
  }

  /** Room for a new row: its id is free, and no row has its template's version, or is its template's draft if it is one. */
  predicate Room(t: Table, id: Id, row: Row) {
    && id !in t
    && forall a :: a in t && t[a].template == row.template ==>
         t[a].version != row.version && (row.status != Draft || t[a].status != Draft)
  }

  /** A first revision is accepted exactly when it is presentable, there is room, it is its own root and its digest is the one its
      run produced. */
  lemma RootInsertedExactly(t: Table, facts: Facts, id: Id, row: Row)
    requires TableCheck(t, facts) && row.run.Some? && row.supersedes.None?
    ensures Apply(t, facts, Insert(id, row)).Some?
            <==> Presentable(facts, row) && Room(t, id, row) && row.root == Some(id)
                 && row.run.value in facts.outputDigest && row.digest == Some(facts.outputDigest[row.run.value])
  {
    hide Sha256;
    InsertFits(t, facts, id, row);
  }

  /** A successor is accepted exactly when it is presentable, there is room, and its predecessor is a generated row of the same
      run, root and template, of lower version and revision, that no row supersedes yet. */
  lemma SuccessorInsertedExactly(t: Table, facts: Facts, id: Id, row: Row, p: Id)
    requires TableCheck(t, facts) && row.run.Some? && row.supersedes == Some(p)
    ensures Apply(t, facts, Insert(id, row)).Some?
            <==> Presentable(facts, row) && Room(t, id, row) && row.root.Some?
                 && p in t && t[p].run == row.run && t[p].root == row.root && t[p].template == row.template
                 && t[p].version < row.version && t[p].revision < row.revision
                 && forall a :: a in t ==> t[a].supersedes != Some(p)
  {
    hide Sha256;
    InsertFits(t, facts, id, row);
    if p in t && t[p].root == row.root { assert Known(t, t[p].root); }
  }

  /** An ordinary draft is accepted exactly when it has no lineage and there is room. */
  lemma DraftInsertedExactly(t: Table, facts: Facts, id: Id, row: Row)
    requires TableCheck(t, facts) && row.run.None?
    ensures Apply(t, facts, Insert(id, row)).Some?
            <==> row.version > 0 && row.revision > 0 && row.root.None? && row.supersedes.None? && row.digest.None?
                 && row.schema.None? && Room(t, id, row)
  {
    InsertFits(t, facts, id, row);
  }

  /** What a new row needs of the table: its root, predecessor and run exist, no row has its predecessor, and there is room. */
  predicate Welcome(t: Table, facts: Facts, id: Id, row: Row) {
    && Room(t, id, row) && (row.root.None? || row.root.value == id || row.root.value in t)
    && (row.supersedes.None? || row.supersedes.value == id || row.supersedes.value in t)
    && (row.run.None? || row.run.value in facts.runs)
    && forall a :: a in t ==> row.supersedes.None? || t[a].supersedes != row.supersedes
  }

  lemma InsertFits(t: Table, facts: Facts, id: Id, row: Row)
    requires TableCheck(t, facts)
    ensures id !in t && TableCheck(t[id := row], facts) <==> Welcome(t, facts, id, row)
  {
    hide TableCheck, Welcome;
    if id !in t && TableCheck(t[id := row], facts) { FitsWelcome(t, facts, id, row); }
    if Welcome(t, facts, id, row) { WelcomeFits(t, facts, id, row); }
  }

  lemma FitsWelcome(t: Table, facts: Facts, id: Id, row: Row)
    requires id !in t && TableCheck(t[id := row], facts)
    ensures Welcome(t, facts, id, row)
  {
    var t' := t[id := row];
    forall a | a in t
      ensures row.supersedes.None? || t[a].supersedes != row.supersedes
      ensures t[a].template == row.template ==> t[a].version != row.version && (row.status != Draft || t[a].status != Draft)
    {
      assert t'[a] == t[a] && Apart(t'[a], t'[id]);
    }
    assert Known(t', t'[id].root) && Known(t', t'[id].supersedes);
  }

  lemma WelcomeFits(t: Table, facts: Facts, id: Id, row: Row)
    requires TableCheck(t, facts) && Welcome(t, facts, id, row)
    ensures id !in t && TableCheck(t[id := row], facts)
  {
    var t' := t[id := row];
    forall a, b | a in t' && b in t' && a != b ensures Apart(t'[a], t'[b]) {
      if a != id && b != id { assert Apart(t[a], t[b]); }
    }
  }

  /** So the next revision of any generated candidate that has no successor yet is accepted, and stands one step further from
      the root. */
  lemma NextRevisionAccepted(t: Table, facts: Facts, p: Id, id: Id, digest: string, questions: seq<string>)
    requires Inv(t) && TableCheck(t, facts) && Generated(t, p) && id !in t && Sha256(digest)
    requires questions != [] && forall q :: q in questions ==> q != "" && q in facts.questions
    requires t[p].run.value in facts.completeRuns
    requires forall a :: a in t ==> t[a].supersedes != Some(p) && (t[a].template == t[p].template ==> t[a].version <= t[p].version)
    ensures var row := t[p].(supersedes := Some(p), version := t[p].version + 1, revision := t[p].revision + 1,
              status := GeneratedDraft, digest := Some(digest), questionVersions := questions);
            && Apply(t, facts, Insert(id, row)) == Some(t[id := row])
            && Inv(t[id := row]) && Depth(t[id := row], id) == Depth(t[id := row], p) + 1
  {
    hide Sha256;
    var row := t[p].(supersedes := Some(p), version := t[p].version + 1, revision := t[p].revision + 1,
      status := GeneratedDraft, digest := Some(digest), questionVersions := questions);
    assert RowCheck(t[p]) && Known(t, t[p].root);
    SuccessorInsertedExactly(t, facts, id, row, p);
    AcceptedChangeKeepsInv(t, facts, Insert(id, row));
    assert t[id := row][id].supersedes == Some(p);
    hide Inv, TableCheck, Apply;
    OneStepFurther(t[id := row], id, p);
  }

  lemma OneStepFurther(t: Table, id: Id, p: Id)
    requires Inv(t) && Generated(t, id) && t[id].supersedes == Some(p)
    ensures Generated(t, p) && Depth(t, id) == Depth(t, p) + 1
  {
    assert Linked(t, id);
    assert Ancestors(t, id) == [id] + Ancestors(t, p);
  }

  /** A generated row changes exactly by the five status moves, and in nothing else. */
  lemma UpdatedExactly(t: Table, facts: Facts, id: Id, newId: Id, row: Row)
    requires TableCheck(t, facts) && Generated(t, id) && RowCheck(t[id])
    ensures Apply(t, facts, Update(id, newId, row)).Some?
            <==> newId == id && row == t[id].(status := row.status)
                 && match (t[id].status, row.status)
                    case (GeneratedDraft, DepartmentReview) => true
                    case (DepartmentReview, Returned) => true
                    case (DepartmentReview, Rejected) => true
                    case (DepartmentReview, TechnicallyApproved) => true
                    case (TechnicallyApproved, Published) => true
                    case _ => false
  {
    hide TableCheck, Sha256;
    if newId == id && row == t[id].(status := row.status) && row.status != Draft { StatusFits(t, facts, id, row); }
  }

  lemma StatusFits(t: Table, facts: Facts, id: Id, row: Row)
    requires TableCheck(t, facts) && id in t && row == t[id].(status := row.status) && row.status != Draft
    ensures TableCheck((t - {id})[id := row], facts)
  {
    var t' := (t - {id})[id := row];
    assert t'.Keys == t.Keys;
    forall a, b | a in t' && b in t' && a != b ensures Apart(t'[a], t'[b]) { assert Apart(t[a], t[b]); }
  }

  /** An ordinary draft is rewritten, under a new id where nothing names the old one, exactly when it stays free of any lineage and
      collides with no other row. */
  lemma DraftUpdatedExactly(t: Table, facts: Facts, id: Id, newId: Id, row: Row)
    requires TableCheck(t, facts) && id in t && t[id].run.None? && row.run.None?
    ensures Apply(t, facts, Update(id, newId, row)).Some?
            <==> && row.version > 0 && row.revision > 0 && row.root.None? && row.supersedes.None? && row.digest.None?
                 && row.schema.None? && Room(t - {id}, newId, row)
                 && (newId != id ==> Unnamed(t, id))
  {
    hide TableCheck, RowCheck;
    var rest := t - {id};
    if newId !in rest && TableCheck(rest[newId := row], facts) { RewrittenFits(t, facts, id, newId, row); }
    if Room(rest, newId, row) && (newId != id ==> Unnamed(t, id)) && row.root.None? && row.supersedes.None? {
      FitsRewritten(t, facts, id, newId, row);
    }
    DraftShape(row);
  }

  predicate Unnamed(t: Table, id: Id) {
    forall a :: a in t && a != id ==> t[a].root != Some(id) && t[a].supersedes != Some(id)
  }

  lemma DraftShape(row: Row)
    requires row.run.None?
    ensures RowCheck(row)
            <==> row.version > 0 && row.revision > 0 && row.root.None? && row.supersedes.None? && row.digest.None? && row.schema.None?
  {
  }

  lemma RewrittenFits(t: Table, facts: Facts, id: Id, newId: Id, row: Row)
    requires id in t && newId !in t - {id} && TableCheck((t - {id})[newId := row], facts)
    ensures Room(t - {id}, newId, row) && (newId != id ==> Unnamed(t, id))
  {
    var rest := t - {id};
    var t' := rest[newId := row];
    forall a | a in rest
      ensures t[a].template == row.template ==> t[a].version != row.version && (row.status != Draft || t[a].status != Draft)
      ensures newId != id ==> t[a].root != Some(id) && t[a].supersedes != Some(id)
    {
      assert t'[a] == t[a] && Apart(t'[a], t'[newId]);
      assert Known(t', t'[a].root) && Known(t', t'[a].supersedes);
    }
  }

  lemma FitsRewritten(t: Table, facts: Facts, id: Id, newId: Id, row: Row)
    requires TableCheck(t, facts) && id in t && Room(t - {id}, newId, row) && (newId != id ==> Unnamed(t, id))
    requires row.run.None? && row.root.None? && row.supersedes.None?
    ensures TableCheck((t - {id})[newId := row], facts)
  {
    var t' := (t - {id})[newId := row];
    forall a | a in t' && a != newId
      ensures Known(t', t'[a].root) && Known(t', t'[a].supersedes) && (t'[a].run.None? || t'[a].run.value in facts.runs)
      ensures Apart(t'[a], row) && Apart(row, t'[a])
    {
      assert t'[a] == t[a] && Known(t, t[a].root) && Known(t, t[a].supersedes);
    }
    forall a, b | a in t' && b in t' && a != b ensures Apart(t'[a], t'[b]) {
      if a != newId && b != newId { assert t'[a] == t[a] && t'[b] == t[b] && Apart(t[a], t[b]); }
    }
  }

  /** A run attempts its changes one after the other; what is refused leaves the table as it was. */
  lemma {:induction false} RunGoesOn(t: Table, facts: Facts, cs: seq<Change>, c: Change)
    ensures var t' := Run(t, facts, cs);
            Run(t, facts, cs + [c]) == if Apply(t', facts, c).Some? then Apply(t', facts, c).value else t'
    decreases |cs|
  {
    hide Apply;
    if cs != [] {
      assert (cs + [c])[1..] == cs[1..] + [c];
      RunGoesOn(if Apply(t, facts, cs[0]).Some? then Apply(t, facts, cs[0]).value else t, facts, cs[1..], c);
    }
  }

  /** Nobody deletes a generated row, and deleting an ordinary draft is skipped. */
  lemma NothingIsDeleted(t: Table, facts: Facts, id: Id)
    ensures Apply(t, facts, Delete(id)) == if Generated(t, id) then None else Some(t)
  {
  }

  // ----- the chain behind a candidate -----

  /** The candidate and its predecessors, newest first. */
  ghost function Ancestors(t: Table, id: Id): (chain: seq<Id>)
    requires Inv(t) && Generated(t, id)
    ensures chain != [] && chain[0] == id
    decreases t[id].revision
  {
    match t[id].supersedes
    case None => [id]
    case Some(p) =>
      assert Linked(t, id);
      [id] + Ancestors(t, p)
  }

  ghost function Depth(t: Table, id: Id): nat
    requires Inv(t) && Generated(t, id)
  {
    |Ancestors(t, id)| - 1
  }

  /** The supersedes links lower the revision at every step and end at the row the candidate names as its root. */
  lemma {:induction false} ChainEndsAtRoot(t: Table, id: Id)
    requires Inv(t) && Generated(t, id)
    ensures var chain := Ancestors(t, id);
            && (forall i :: 0 <= i < |chain| ==> Generated(t, chain[i]) && t[chain[i]].root == t[id].root)
            && (forall i, j :: 0 <= i < j < |chain| ==> t[chain[j]].revision < t[chain[i]].revision)
            && (forall i :: 0 <= i < |chain| - 1 ==> t[chain[i]].supersedes == Some(chain[i + 1]))
            && t[id].root == Some(chain[|chain| - 1]) && t[chain[|chain| - 1]].supersedes.None?
    decreases t[id].revision
  {
    assert Linked(t, id);
    if t[id].supersedes.Some? {
      ChainEndsAtRoot(t, t[id].supersedes.value);
    }
  }

  // ----- the recursive walk of the repair script -----

  /** The rows the recursive query adds in round n: first the generated rows without a predecessor,
      then the rows whose predecessor was added in the round before. */
  ghost function Level(t: Table, n: nat): set<Id> {
    if n == 0 then set id | id in t && t[id].run.Some? && t[id].supersedes.None?
    else set id | id in t && t[id].supersedes.Some? && t[id].supersedes.value in Level(t, n - 1)
  }

  /** Every generated candidate is added in exactly one round, the one equal to its depth; nothing else is ever added. */
  lemma {:induction false} WalkVisitsEachOnce(t: Table, id: Id, n: nat)
    requires Inv(t) && id in t
    ensures id in Level(t, n) <==> Generated(t, id) && n == Depth(t, id)
    decreases n
  {
    assert Generated(t, id) ==> Linked(t, id);
    if n > 0 && t[id].supersedes.Some? {
      WalkVisitsEachOnce(t, t[id].supersedes.value, n - 1);
    }
  }

  /** The walk stops: no round beyond the number of rows adds anything. */
  lemma WalkEnds(t: Table, n: nat)
    requires Inv(t) && n >= |t|
    ensures Level(t, n) == {}
  {
    forall id | id in Level(t, n) ensures false {
      WalkVisitsEachOnce(t, id, n);
      ChainEndsAtRoot(t, id);
      var chain := Ancestors(t, id);
      assert forall i, j :: 0 <= i < j < |chain| ==> chain[i] != chain[j];
      DistinctFits(chain, t.Keys);
      assert false;
    }
  }

  lemma {:induction false} DistinctFits(s: seq<Id>, keys: set<Id>)
    requires forall i, j :: 0 <= i < j < |s| ==> s[i] != s[j]
    requires forall i :: 0 <= i < |s| ==> s[i] in keys
    ensures |s| <= |keys|
  {
    if s != [] {
      DistinctFits(s[1..], keys - {s[0]});
    }
  }

  /** An order the query may return: each generated candidate once, by root and then by depth. */
  ghost predicate WalkOrder(t: Table, order: seq<Id>)
    requires Inv(t)
  {
    && (forall id :: Generated(t, id) <==> id in order)
    && (forall i, j :: 0 <= i < j < |order| ==> order[i] != order[j])
    && (forall i, j :: 0 <= i < j < |order| ==>
          && Generated(t, order[i]) && Generated(t, order[j])
          && (t[order[i]].root == t[order[j]].root ==> Depth(t, order[i]) <= Depth(t, order[j])))
  }

  /** In any such order a predecessor comes before its successors. */
  lemma PredecessorFirst(t: Table, order: seq<Id>, k: nat)
    requires Inv(t) && WalkOrder(t, order) && k < |order|
    requires Generated(t, order[k]) && t[order[k]].supersedes.Some?
    ensures exists j :: 0 <= j < k && order[j] == t[order[k]].supersedes.value
  {
    var id := order[k];
    assert Generated(t, id) && Linked(t, id);
    var p := t[id].supersedes.value;
    assert Ancestors(t, id) == [id] + Ancestors(t, p);
    var j :| 0 <= j < |order| && order[j] == p;
    assert Depth(t, p) < Depth(t, id);
  }

  // ----- the guarded table -----

  class CandidateTable {
    var rows: Table

    constructor ()
      ensures rows == map[]
    {
      rows := map[];
    }

    method Insert(facts: Facts, id: Id, row: Row) returns (ok: bool)
      modifies this
      ensures ok <==> Apply(old(rows), facts, Change.Insert(id, row)).Some?
      ensures rows == if ok then Apply(old(rows), facts, Change.Insert(id, row)).value else old(rows)
    {
      ok := id !in rows && RowCheck(row) && LineageGuard(rows, facts, id, row) && TableCheck(rows[id := row], facts);
      if ok { rows := rows[id := row]; }
    }

    method Update(facts: Facts, id: Id, newId: Id, row: Row) returns (ok: bool)
      modifies this
      ensures ok <==> Apply(old(rows), facts, Change.Update(id, newId, row)).Some?
      ensures rows == if ok then Apply(old(rows), facts, Change.Update(id, newId, row)).value else old(rows)
    {
      ok := id in rows && (newId == id || newId !in rows) && RowCheck(row) && ImmutableGuard(id, rows[id], newId, row)
        && TableCheck((rows - {id})[newId := row], facts);
      if ok { rows := (rows - {id})[newId := row]; }
    }
  }
}
