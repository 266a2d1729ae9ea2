/** The ordering repair: it walks the generated candidates and rebuilds the order of each one's compliance mappings. */
module MappingOrder {
  import opened Basics
  import opened CandidateLineage

  type MappingId = string

  /** What the repair reads of a candidate: the mapping list of its run's artifact, and for each of its questions, in order,
      the mapping ids that question refers to. */
  datatype Content = Content(listing: seq<MappingId>, references: seq<seq<MappingId>>)

  /** The ordinal column of one candidate's mapping rows; None is NULL. */
  type Ordinals = map<MappingId, Option<int>>

  /** The ordinals of every candidate. */
  type Snapshots = map<Id, Ordinals>

  function IndexIn(s: seq<MappingId>, m: MappingId): (k: nat)
    requires m in s
    ensures k < |s| && s[k] == m
    ensures forall i :: 0 <= i < k ==> s[i] != m
  {
    if s[0] == m then 0 else 1 + IndexIn(s[1..], m)
  }

  /** All references of a candidate, question by question. */
  function Flatten(refs: seq<seq<MappingId>>): seq<MappingId> {
    if refs == [] then [] else Flatten(refs[..|refs| - 1]) + refs[|refs| - 1]
  }

  /** The first occurrences in `s` of the wanted mappings, in order. */
  function FirstSeen(s: seq<MappingId>, wanted: set<MappingId>): (r: seq<MappingId>)
    ensures forall m :: m in r <==> m in s && m in wanted
    ensures forall i, j :: 0 <= i < j < |r| ==> r[i] != r[j]
  {
    if s == [] then []
    else
      var front, last := s[..|s| - 1], s[|s| - 1];
      assert s == front + [last];
      var seen := FirstSeen(front, wanted);
      if last in wanted && last !in front then seen + [last] else seen
  }

  predicate Unset(o: Ordinals) { forall m :: m in o ==> o[m].None? }

  /** `COALESCE(MAX(mapping_ordinal), -1)`. */
  ghost predicate IsMax(o: Ordinals, x: int) {
    && (forall m :: m in o && o[m].Some? ==> o[m].value <= x)
    && if Unset(o) then x == -1 else exists m :: m in o && o[m] == Some(x)
  }

  ghost function MaxOrdinal(o: Ordinals): (x: int)
    ensures IsMax(o, x)
    decreases o.Keys
  {
    if Unset(o) then -1
    else
      var k :| k in o.Keys && o[k].Some?;
      var rest := o - {k};
      assert forall m :: m in o && m != k ==> m in rest && rest[m] == o[m];
      if Unset(rest) || MaxOrdinal(rest) < o[k].value then o[k].value else MaxOrdinal(rest)
  }

  /** The new mappings of a revision that its questions refer to, in order of first reference. */
  function NewMappings(c: Content, pred: Ordinals, cur: Ordinals): seq<MappingId> {
    FirstSeen(Flatten(c.references), cur.Keys - pred.Keys)
  }

  /** The updates the repair makes to one candidate; `pred` is absent for a root. */
  ghost function RepairOne(c: Content, pred: Option<Ordinals>, cur: Ordinals): (o: Ordinals)
    ensures o.Keys == cur.Keys
  {
    match pred
    case None => map m | m in cur :: if m in c.listing then Some(IndexIn(c.listing, m)) else cur[m]
    case Some(p) =>
      var added := NewMappings(c, p, cur);
      map m | m in cur ::
        if m in p then p[m]
        else if m in added then Some(MaxOrdinal(p) + 1 + IndexIn(added, m))
        else cur[m]
  }

  predicate AllSet(o: Ordinals) { forall m :: m in o ==> o[m].Some? }

  function Get(st: Snapshots, id: Id): Ordinals { if id in st then st[id] else map[] }

  function ContentOf(contents: map<Id, Content>, id: Id): Content {
    if id in contents then contents[id] else Content([], [])
  }

  /** The predecessor's ordinals as they stand in `st`. */
  function PredOrdinals(t: Table, st: Snapshots, id: Id): Option<Ordinals> {
    if id in t && t[id].supersedes.Some? then Some(Get(st, t[id].supersedes.value)) else None
  }

  /** The whole walk; None when the script raises: a mapping stays without ordinal, or the digest recomputed from the
      repaired order differs from the stored one. */
  ghost function RepairAll(t: Table, contents: map<Id, Content>, digestOk: (Id, Ordinals) -> bool, order: seq<Id>,
                           st: Snapshots): Option<Snapshots>
    decreases |order|
  {
    if order == [] then Some(st) else
    var o := RepairOne(ContentOf(contents, order[0]), PredOrdinals(t, st, order[0]), Get(st, order[0]));
    if AllSet(o) && digestOk(order[0], o) then RepairAll(t, contents, digestOk, order[1..], st[order[0] := o]) else None
  }

  // ----- what the walk computes -----

  /** No predecessor stands at or after its successor, and nothing stands twice. */
  ghost predicate PredFirst(t: Table, order: seq<Id>) {
    && (forall i, j :: 0 <= i < j < |order| ==> order[i] != order[j])
    && (forall i, j :: 0 <= i <= j < |order| && order[i] in t ==> t[order[i]].supersedes != Some(order[j]))
  }

  /** A finished walk satisfies one equation per candidate, stated on the final ordinals alone. */
  ghost predicate Repaired(t: Table, contents: map<Id, Content>, order: seq<Id>, st: Snapshots, st': Snapshots) {
    && (forall id :: id !in order ==> Get(st', id) == Get(st, id))
    && (forall id :: id in order ==>
          && Get(st', id) == RepairOne(ContentOf(contents, id), PredOrdinals(t, st', id), Get(st, id))
          && AllSet(Get(st', id)))
  }

  lemma {:induction false} WalkSatisfiesEquations(t: Table, contents: map<Id, Content>, digestOk: (Id, Ordinals) -> bool,
                                                 order: seq<Id>, st: Snapshots)
    requires PredFirst(t, order) && RepairAll(t, contents, digestOk, order, st).Some?
    ensures Repaired(t, contents, order, st, RepairAll(t, contents, digestOk, order, st).value)
    ensures forall id :: id in order ==> digestOk(id, Get(RepairAll(t, contents, digestOk, order, st).value, id))
    decreases |order|
  {
    hide RepairOne, AllSet, PredFirst, Repaired, PredOrdinals, Get, ContentOf;
    if order == [] {
      assert Repaired(t, contents, order, st, st) by { NothingToRepair(t, contents, st); }
    } else {
      var id := order[0];
      var st1 := st[id := RepairOne(ContentOf(contents, id), PredOrdinals(t, st, id), Get(st, id))];
      TailPredFirst(t, order);
      WalkSatisfiesEquations(t, contents, digestOk, order[1..], st1);
      var st' := RepairAll(t, contents, digestOk, order, st).value;
      HeadAndTail(t, contents, order, st, st');
      assert order == [id] + order[1..];
      assert Get(st', id) == st1[id] by { HeadKept(t, contents, order, st1, st'); }
    }
  }

  lemma NothingToRepair(t: Table, contents: map<Id, Content>, st: Snapshots)
    ensures Repaired(t, contents, [], st, st)
  {
  }

  lemma HeadKept(t: Table, contents: map<Id, Content>, order: seq<Id>, st1: Snapshots, st': Snapshots)
    requires order != [] && order[0] in st1 && order[0] !in order[1..] && Repaired(t, contents, order[1..], st1, st')
    ensures Get(st', order[0]) == st1[order[0]]
  {
    hide RepairOne, AllSet, PredOrdinals;
  }

  /** The first candidate's equation joins those of the rest: its predecessor is not ahead, so its ordinals stay. */
  lemma HeadAndTail(t: Table, contents: map<Id, Content>, order: seq<Id>, st: Snapshots, st': Snapshots)
    requires PredFirst(t, order) && order != []
    requires var o := RepairOne(ContentOf(contents, order[0]), PredOrdinals(t, st, order[0]), Get(st, order[0]));
             AllSet(o) && Repaired(t, contents, order[1..], st[order[0] := o], st')
    ensures Repaired(t, contents, order, st, st')
  {
    hide RepairOne, AllSet, ContentOf;
    var id := order[0];
    var st1 := st[id := RepairOne(ContentOf(contents, id), PredOrdinals(t, st, id), Get(st, id))];
    TailPredFirst(t, order);
    HeadKept(t, contents, order, st1, st');
    assert order == [id] + order[1..];
    assert PredOrdinals(t, st', id) == PredOrdinals(t, st, id) by { PredNotAhead(t, order, id); }
    hide PredFirst, PredOrdinals, Repaired;
    assert Repaired(t, contents, order, st, st') by { HeadJoined(t, contents, order, st, st1, st'); }
  }

  lemma HeadJoined(t: Table, contents: map<Id, Content>, order: seq<Id>, st: Snapshots, st1: Snapshots, st': Snapshots)
    requires order != [] && Repaired(t, contents, order[1..], st1, st')
    requires forall x :: x != order[0] ==> Get(st1, x) == Get(st, x)
    requires var id := order[0];
             && Get(st', id) == RepairOne(ContentOf(contents, id), PredOrdinals(t, st', id), Get(st, id)) && AllSet(Get(st', id))
    ensures Repaired(t, contents, order, st, st')
  {
    hide RepairOne, AllSet, ContentOf, PredOrdinals, Get;
    assert order == [order[0]] + order[1..];
    forall x | x in order
      ensures Get(st', x) == RepairOne(ContentOf(contents, x), PredOrdinals(t, st', x), Get(st, x)) && AllSet(Get(st', x))
    {
      if x != order[0] { assert x in order[1..]; }
    }
  }

  lemma TailPredFirst(t: Table, order: seq<Id>)
    requires PredFirst(t, order) && order != []
    ensures PredFirst(t, order[1..]) && order[0] !in order[1..]
  {
  }

  lemma PredNotAhead(t: Table, order: seq<Id>, id: Id)
    requires PredFirst(t, order) && order != [] && id == order[0]
    ensures id in t && t[id].supersedes.Some? ==> t[id].supersedes.value !in order
  {
  }

  /** A revision keeps its predecessor's ordinals for the mappings they share. */
  lemma SharedMappingsInherit(t: Table, contents: map<Id, Content>, order: seq<Id>, st: Snapshots, st': Snapshots,
                              id: Id, p: Id, m: MappingId)
    requires Repaired(t, contents, order, st, st') && id in order && id in t && t[id].supersedes == Some(p)
    requires m in Get(st', id) && m in Get(st', p)
    ensures Get(st', id)[m] == Get(st', p)[m]
  {
  }

  /** A mapping the updates reach: listed by the artifact, shared with the predecessor, or referred to by a question. */
  predicate Placeable(c: Content, pred: Option<Ordinals>, m: MappingId) {
    match pred
    case None => m in c.listing
    case Some(p) => m in p || m in Flatten(c.references)
  }

  ghost predicate Covered(t: Table, contents: map<Id, Content>, st: Snapshots, id: Id) {
    forall m :: m in Get(st, id) ==> Placeable(ContentOf(contents, id), PredOrdinals(t, st, id), m)
  }

  /** From a freshly added column, where every ordinal is NULL, the script can only finish if every mapping could be placed. */
  lemma NullStartMeansCovered(t: Table, contents: map<Id, Content>, order: seq<Id>, st: Snapshots, st': Snapshots, id: Id)
    requires Repaired(t, contents, order, st, st') && id in order
    requires forall m :: m in Get(st, id) ==> Get(st, id)[m].None?
    ensures Covered(t, contents, st', id)
  {
    var o := Get(st', id);
    assert o == RepairOne(ContentOf(contents, id), PredOrdinals(t, st', id), Get(st, id));
    forall m | m in o ensures Placeable(ContentOf(contents, id), PredOrdinals(t, st', id), m) {
      assert o[m].Some?;
    }
  }

  ghost predicate Distinct(o: Ordinals) {
    forall m, n :: m in o && n in o && m != n ==> o[m] != o[n]
  }

  /** What the constraints put back after the script demand of one candidate: no NULL, nothing negative, no ordinal twice. */
  ghost predicate Accepted(o: Ordinals) {
    AllSet(o) && Distinct(o) && forall m :: m in o ==> o[m].value >= 0
  }

  /** The updates hand this ordinal to a mapping of the candidate. */
  ghost predicate HandedOut(c: Content, pred: Option<Ordinals>, cur: Ordinals, x: int) {
    match pred
    case None => exists m :: m in cur && m in c.listing && IndexIn(c.listing, m) == x
    case Some(p) =>
      (exists m :: m in cur && m in p && p[m] == Some(x))
      || MaxOrdinal(p) < x <= MaxOrdinal(p) + |NewMappings(c, p, cur)|
  }

  /** The ordinals of mappings the updates do not reach are usable as they stand: set, not negative, all different, and none is
      handed out to another mapping. */
  ghost predicate LeftoversFit(c: Content, pred: Option<Ordinals>, cur: Ordinals) {
    && (forall m :: m in cur && !Placeable(c, pred, m) ==>
         cur[m].Some? && cur[m].value >= 0 && !HandedOut(c, pred, cur, cur[m].value))
    && forall m, n :: m in cur && n in cur && m != n && !Placeable(c, pred, m) && !Placeable(c, pred, n) ==> cur[m] != cur[n]
  }

  /** What the updates give each mapping they reach: an ordinal that is handed out, to no other mapping. */
  lemma PlacedOrdinals(c: Content, pred: Option<Ordinals>, cur: Ordinals, m: MappingId)
    requires (pred.Some? ==> Accepted(pred.value)) && m in cur && Placeable(c, pred, m)
    ensures var o := RepairOne(c, pred, cur); o[m].Some? && o[m].value >= 0 && HandedOut(c, pred, cur, o[m].value)
  {
    if pred.Some? {
      var p := pred.value;
      var added := NewMappings(c, p, cur);
      if m !in p {
        assert m in added;
        assert RepairOne(c, pred, cur)[m] == Some(MaxOrdinal(p) + 1 + IndexIn(added, m));
      }
    }
  }

  lemma PlacedDiffer(c: Content, pred: Option<Ordinals>, cur: Ordinals, m: MappingId, n: MappingId)
    requires (pred.Some? ==> Accepted(pred.value)) && m in cur && n in cur && m != n && Placeable(c, pred, m) && Placeable(c, pred, n)
    ensures RepairOne(c, pred, cur)[m] != RepairOne(c, pred, cur)[n]
  {
    if pred.Some? {
      var p := pred.value;
      var added := NewMappings(c, p, cur);
      assert (m in p || m in added) && (n in p || n in added);
      assert (m in p ==> p[m].value <= MaxOrdinal(p)) && (n in p ==> p[n].value <= MaxOrdinal(p));
    }
  }

  /** Whatever is handed out goes to some mapping of the candidate. */
  lemma HandedOutIsGiven(c: Content, pred: Option<Ordinals>, cur: Ordinals, x: int) returns (m: MappingId)
    requires (pred.Some? ==> Accepted(pred.value)) && HandedOut(c, pred, cur, x)
    ensures m in cur && Placeable(c, pred, m) && RepairOne(c, pred, cur)[m] == Some(x)
  {
    match pred
    case None => m :| m in cur && m in c.listing && IndexIn(c.listing, m) == x;
    case Some(p) =>
      var added := NewMappings(c, p, cur);
      if x > MaxOrdinal(p) {
        var k := x - MaxOrdinal(p) - 1;
        m := added[k];
        assert m in added && m in cur && m !in p && IndexIn(added, m) == k;
      } else {
        m :| m in cur && m in p && p[m] == Some(x);
      }
  }

  /** For any start, NULL or stale: over a predecessor that is accepted, the repaired ordinals of a candidate are accepted
      exactly when the leftovers fit. */
  lemma AcceptedExactly(c: Content, pred: Option<Ordinals>, cur: Ordinals)
    requires pred.Some? ==> Accepted(pred.value)
    ensures Accepted(RepairOne(c, pred, cur)) <==> LeftoversFit(c, pred, cur)
  {
    hide HandedOut, NewMappings, MaxOrdinal;
    var o := RepairOne(c, pred, cur);
    forall m | m in cur && !Placeable(c, pred, m) ensures o[m] == cur[m] { LeftAlone(c, pred, cur, m); }
    forall m | m in cur && Placeable(c, pred, m)
      ensures o[m].Some? && o[m].value >= 0 && HandedOut(c, pred, cur, o[m].value)
    {
      PlacedOrdinals(c, pred, cur, m);
    }
    forall m, n | m in cur && n in cur && m != n && Placeable(c, pred, m) && Placeable(c, pred, n) ensures o[m] != o[n] {
      PlacedDiffer(c, pred, cur, m, n);
    }
    hide RepairOne, Placeable;
    if Accepted(o) {
      forall m | m in cur && !Placeable(c, pred, m) ensures !HandedOut(c, pred, cur, cur[m].value) {
        if HandedOut(c, pred, cur, cur[m].value) {
          var n := HandedOutIsGiven(c, pred, cur, cur[m].value);
        }
      }
    }
  }

  lemma LeftAlone(c: Content, pred: Option<Ordinals>, cur: Ordinals, m: MappingId)
    requires m in cur && !Placeable(c, pred, m)
    ensures RepairOne(c, pred, cur)[m] == cur[m]
  {
  }

  /** A root whose artifact lists one of its two mappings, with distinct ordinals before the repair: afterwards one ordinal
      stands twice. */
  lemma StaleOrdinalCollides()
    ensures var cur: Ordinals := map["listed" := Some(1), "stale" := Some(0)]; var o := RepairOne(Content(["listed"], []), None, cur);
            Accepted(cur) && AllSet(o) && !Accepted(o)
  {
    var c, cur: Ordinals := Content(["listed"], []), map["listed" := Some(1), "stale" := Some(0)];
    var o := RepairOne(c, None, cur);
    assert "listed" in o && "stale" in o && o["listed"] == o["stale"] == Some(0);
  }

  /** What the repair makes of a candidate, from its root down, on the stored candidates and the ordinals before the run. */
  ghost function RepairedFrom(t: Table, contents: map<Id, Content>, st: Snapshots, id: Id): Ordinals
    requires CandidateLineage.Inv(t) && Generated(t, id)
    decreases t[id].revision, 1
  {
    RepairOne(ContentOf(contents, id), PredRepaired(t, contents, st, id), Get(st, id))
  }

  ghost function PredRepaired(t: Table, contents: map<Id, Content>, st: Snapshots, id: Id): Option<Ordinals>
    requires CandidateLineage.Inv(t) && Generated(t, id)
    decreases t[id].revision, 0
  {
    match t[id].supersedes
    case None => None
    case Some(p) =>
      assert Linked(t, id);
      Some(RepairedFrom(t, contents, st, p))
  }

  /** A finished walk ends with exactly these ordinals. */
  lemma {:induction false} WalkIsRepairedFrom(t: Table, contents: map<Id, Content>, order: seq<Id>, st: Snapshots, st': Snapshots,
                                              id: Id)
    requires CandidateLineage.Inv(t) && WalkOrder(t, order) && Repaired(t, contents, order, st, st') && Generated(t, id)
    ensures Get(st', id) == RepairedFrom(t, contents, st, id)
    ensures PredOrdinals(t, st', id) == PredRepaired(t, contents, st, id)
    decreases t[id].revision
  {
    hide RepairOne, AllSet;
    assert Linked(t, id);
    if t[id].supersedes.Some? { WalkIsRepairedFrom(t, contents, order, st, st', t[id].supersedes.value); }
  }

  // ----- when the script gets through -----

  /** One candidate gives no reason to raise: every mapping the updates do not reach already has an ordinal, and the digest of
      the repaired order is the stored one. All of it on the state before the run. */
  ghost predicate Recoverable(t: Table, contents: map<Id, Content>, digestOk: (Id, Ordinals) -> bool, st: Snapshots, id: Id)
    requires CandidateLineage.Inv(t) && Generated(t, id)
  {
    && (forall m :: m in Get(st, id) && !Placeable(ContentOf(contents, id), PredRepaired(t, contents, st, id), m) ==>
         Get(st, id)[m].Some?)
    && digestOk(id, RepairedFrom(t, contents, st, id))
  }

  ghost predicate RaisesNot(t: Table, contents: map<Id, Content>, digestOk: (Id, Ordinals) -> bool, st: Snapshots, id: Id)
    requires CandidateLineage.Inv(t) && Generated(t, id)
  {
    AllSet(RepairedFrom(t, contents, st, id)) && digestOk(id, RepairedFrom(t, contents, st, id))
  }

  /** Part-way through the walk: the candidates behind it hold their repaired ordinals, the others what they started with. */
  ghost predicate WalkedTo(t: Table, contents: map<Id, Content>, order: seq<Id>, st: Snapshots, k: nat, now: Snapshots)
    requires CandidateLineage.Inv(t) && WalkOrder(t, order) && k <= |order|
  {
    && (forall i :: 0 <= i < k ==> Generated(t, order[i]) && Get(now, order[i]) == RepairedFrom(t, contents, st, order[i]))
    && forall id :: id !in order[..k] ==> Get(now, id) == Get(st, id)
  }

  lemma WalkedPred(t: Table, contents: map<Id, Content>, order: seq<Id>, st: Snapshots, k: nat, now: Snapshots)
    requires CandidateLineage.Inv(t) && WalkOrder(t, order) && k < |order| && WalkedTo(t, contents, order, st, k, now)
    ensures Generated(t, order[k]) && order[k] !in order[..k]
    ensures PredOrdinals(t, now, order[k]) == PredRepaired(t, contents, st, order[k])
    ensures Get(now, order[k]) == Get(st, order[k])
  {
    hide RepairOne;
    var id := order[k];
    assert id in order && Linked(t, id);
    if t[id].supersedes.Some? { PredecessorFirst(t, order, k); }
  }

  lemma WalkedOn(t: Table, contents: map<Id, Content>, order: seq<Id>, st: Snapshots, k: nat, now: Snapshots)
    requires CandidateLineage.Inv(t) && WalkOrder(t, order) && k < |order| && WalkedTo(t, contents, order, st, k, now)
    requires Generated(t, order[k]) && order[k] !in order[..k]
    ensures WalkedTo(t, contents, order, st, k + 1, now[order[k] := RepairedFrom(t, contents, st, order[k])])
  {
    hide RepairedFrom, WalkOrder, CandidateLineage.Inv;
    var id := order[k];
    var now' := now[id := RepairedFrom(t, contents, st, id)];
    assert order[..k + 1] == order[..k] + [id];
    forall i | 0 <= i < k + 1
      ensures Generated(t, order[i]) && Get(now', order[i]) == RepairedFrom(t, contents, st, order[i])
    {
      if i < k { assert order[i] in order[..k]; }
    }
    forall x | x !in order[..k + 1] ensures Get(now', x) == Get(st, x) {
      assert x !in order[..k] && x != id;
    }
  }

  lemma {:induction false} WalkRaisesExactly(t: Table, contents: map<Id, Content>, digestOk: (Id, Ordinals) -> bool,
                                             order: seq<Id>, st: Snapshots, k: nat, now: Snapshots)
    requires CandidateLineage.Inv(t) && WalkOrder(t, order) && k <= |order| && WalkedTo(t, contents, order, st, k, now)
    ensures RepairAll(t, contents, digestOk, order[k..], now).Some?
            <==> forall i :: k <= i < |order| ==> Generated(t, order[i]) && RaisesNot(t, contents, digestOk, st, order[i])
    decreases |order| - k
  {
    hide RepairOne, AllSet, WalkOrder, WalkedTo, PredOrdinals, PredRepaired;
    if k < |order| {
      var id := order[k];
      assert order[k..][0] == id && order[k..][1..] == order[k + 1..];
      WalkedPred(t, contents, order, st, k, now);
      WalkedOn(t, contents, order, st, k, now);
      WalkRaisesExactly(t, contents, digestOk, order, st, k + 1, now[id := RepairedFrom(t, contents, st, id)]);
    }
  }

  /** Over a predecessor without NULL, the updates leave no NULL exactly when the mappings they do not reach have none. */
  lemma AllSetExactly(c: Content, pred: Option<Ordinals>, cur: Ordinals)
    requires pred.Some? ==> AllSet(pred.value)
    ensures AllSet(RepairOne(c, pred, cur)) <==> forall m :: m in cur && !Placeable(c, pred, m) ==> cur[m].Some?
  {
    hide MaxOrdinal, IndexIn;
    var o := RepairOne(c, pred, cur);
    forall m | m in cur ensures Placeable(c, pred, m) ==> o[m].Some? {
      if Placeable(c, pred, m) && pred.Some? && m !in pred.value { assert m in NewMappings(c, pred.value, cur); }
    }
    forall m | m in cur && !Placeable(c, pred, m) ensures o[m] == cur[m] { LeftAlone(c, pred, cur, m); }
  }

  lemma {:induction false} RecoverableChain(t: Table, contents: map<Id, Content>, digestOk: (Id, Ordinals) -> bool, st: Snapshots,
                                            id: Id)
    requires CandidateLineage.Inv(t) && Generated(t, id)
    requires forall a :: Generated(t, a) ==> Recoverable(t, contents, digestOk, st, a)
    ensures RaisesNot(t, contents, digestOk, st, id)
    decreases t[id].revision
  {
    hide RepairOne, AllSet, Placeable;
    assert Linked(t, id) && Recoverable(t, contents, digestOk, st, id);
    if t[id].supersedes.Some? { RecoverableChain(t, contents, digestOk, st, t[id].supersedes.value); }
    AllSetExactly(ContentOf(contents, id), PredRepaired(t, contents, st, id), Get(st, id));
  }

  /** The script gets through exactly when every generated candidate is recoverable: it never raises for a NULL that its own
      updates would have filled. */
  lemma ScriptSucceedsExactly(t: Table, contents: map<Id, Content>, digestOk: (Id, Ordinals) -> bool, order: seq<Id>,
                              st: Snapshots)
    requires CandidateLineage.Inv(t) && WalkOrder(t, order)
    ensures RepairAll(t, contents, digestOk, order, st).Some?
            <==> forall id :: Generated(t, id) ==> Recoverable(t, contents, digestOk, st, id)
  {
    hide RepairOne, AllSet, Placeable, Recoverable, RepairAll;
    assert WalkedTo(t, contents, order, st, 0, st) && order[0..] == order;
    WalkRaisesExactly(t, contents, digestOk, order, st, 0, st);
    if forall id :: Generated(t, id) ==> Recoverable(t, contents, digestOk, st, id) {
      forall i | 0 <= i < |order| ensures Generated(t, order[i]) && RaisesNot(t, contents, digestOk, st, order[i]) {
        assert order[i] in order;
        RecoverableChain(t, contents, digestOk, st, order[i]);
      }
    }
    if RepairAll(t, contents, digestOk, order, st).Some? {
      forall id | Generated(t, id) ensures Recoverable(t, contents, digestOk, st, id) {
        RecoverableOne(t, contents, digestOk, order, st, id);
      }
    }
  }

  lemma RecoverableOne(t: Table, contents: map<Id, Content>, digestOk: (Id, Ordinals) -> bool, order: seq<Id>, st: Snapshots,
                       id: Id)
    requires CandidateLineage.Inv(t) && WalkOrder(t, order) && Generated(t, id)
    requires forall i :: 0 <= i < |order| ==> Generated(t, order[i]) && RaisesNot(t, contents, digestOk, st, order[i])
    ensures Recoverable(t, contents, digestOk, st, id)
  {
    hide RepairOne, AllSet, Placeable;
    assert id in order && Linked(t, id) && RaisesNot(t, contents, digestOk, st, id);
    if t[id].supersedes.Some? {
      var p := t[id].supersedes.value;
      assert p in order && RaisesNot(t, contents, digestOk, st, p);
    }
    AllSetExactly(ContentOf(contents, id), PredRepaired(t, contents, st, id), Get(st, id));
  }

  /** A root's mappings stand where its artifact lists them: each at the position of its first mention. */
  lemma RootFollowsArtifact(t: Table, contents: map<Id, Content>, st: Snapshots, id: Id, m: MappingId, k: nat)
    requires CandidateLineage.Inv(t) && Generated(t, id) && t[id].supersedes.None? && m in Get(st, id)
    requires var listing := ContentOf(contents, id).listing;
             k < |listing| && listing[k] == m && forall i :: 0 <= i < k ==> listing[i] != m
    ensures RepairedFrom(t, contents, st, id)[m] == Some(k)
  {
  }

  // ----- what the constraints put back accept -----

  /** The condition for one candidate, which nothing but the state before the run enters. */
  ghost predicate Fits(t: Table, contents: map<Id, Content>, st: Snapshots, id: Id)
    requires CandidateLineage.Inv(t) && Generated(t, id)
  {
    LeftoversFit(ContentOf(contents, id), PredRepaired(t, contents, st, id), Get(st, id))
  }

  lemma {:induction false} FitsAccepted(t: Table, contents: map<Id, Content>, st: Snapshots, id: Id)
    requires CandidateLineage.Inv(t) && Generated(t, id)
    requires forall a :: Generated(t, a) ==> Fits(t, contents, st, a)
    ensures Accepted(RepairedFrom(t, contents, st, id))
    decreases t[id].revision
  {
    hide LeftoversFit, RepairOne, Accepted;
    assert Linked(t, id);
    if t[id].supersedes.Some? { FitsAccepted(t, contents, st, t[id].supersedes.value); }
    assert Fits(t, contents, st, id);
    AcceptedExactly(ContentOf(contents, id), PredRepaired(t, contents, st, id), Get(st, id));
  }

  /** For a finished repair of any forest from any ordinals, NULL or stale: the constraints put back afterwards accept every
      candidate exactly when, before the run, the leftovers of every candidate fit. */
  lemma {:induction false} ConstraintsAcceptExactly(t: Table, contents: map<Id, Content>, order: seq<Id>, st: Snapshots,
                                                   st': Snapshots)
    requires CandidateLineage.Inv(t) && WalkOrder(t, order) && Repaired(t, contents, order, st, st')
    ensures (forall id :: Generated(t, id) ==> Accepted(Get(st', id))) <==> forall id :: Generated(t, id) ==> Fits(t, contents, st, id)
  {
    hide LeftoversFit, RepairOne, Accepted, Repaired;
    forall id | Generated(t, id)
      ensures Get(st', id) == RepairedFrom(t, contents, st, id) && PredOrdinals(t, st', id) == PredRepaired(t, contents, st, id)
    {
      WalkIsRepairedFrom(t, contents, order, st, st', id);
    }
    if forall id :: Generated(t, id) ==> Fits(t, contents, st, id) {
      forall id | Generated(t, id) ensures Accepted(Get(st', id)) { FitsAccepted(t, contents, st, id); }
    }
    if forall id :: Generated(t, id) ==> Accepted(Get(st', id)) {
      forall id | Generated(t, id) ensures Fits(t, contents, st, id) {
        assert Linked(t, id);
        AcceptedExactly(ContentOf(contents, id), PredRepaired(t, contents, st, id), Get(st, id));
      }
    }
  }

  /** After the repair of a forest of any depth, every candidate whose chain could be placed has distinct, non-negative
      ordinals. */
  lemma {:induction false} RepairedOrdinalsDistinct(t: Table, contents: map<Id, Content>, order: seq<Id>, st: Snapshots,
                                                   st': Snapshots, id: Id)
    requires CandidateLineage.Inv(t) && WalkOrder(t, order) && Repaired(t, contents, order, st, st')
    requires Generated(t, id)
    requires forall a :: a in Ancestors(t, id) ==> Covered(t, contents, st', a)
    ensures Accepted(Get(st', id))
    decreases t[id].revision
  {
    hide Accepted, RepairOne, LeftoversFit, Placeable;
    assert Linked(t, id);
    var c, pred := ContentOf(contents, id), PredOrdinals(t, st', id);
    if t[id].supersedes.Some? {
      RepairedOrdinalsDistinct(t, contents, order, st, st', t[id].supersedes.value);
    }
    assert id in Ancestors(t, id);
    assert Get(st', id).Keys == Get(st, id).Keys;
    assert LeftoversFit(c, pred, Get(st, id)) by { NothingLeft(c, pred, Get(st, id)); }
    AcceptedExactly(c, pred, Get(st, id));
  }

  lemma NothingLeft(c: Content, pred: Option<Ordinals>, cur: Ordinals)
    requires forall m :: m in cur ==> Placeable(c, pred, m)
    ensures LeftoversFit(c, pred, cur)
  {
    hide Placeable, HandedOut;
  }

  // ----- new mappings follow in order of first reference -----

  /** Question q is the first to refer to m, and r is the place of m's first mention in it. */
  ghost predicate FirstReference(refs: seq<seq<MappingId>>, m: MappingId, q: nat, r: nat) {
    && q < |refs| && r < |refs[q]| && refs[q][r] == m
    && (forall i :: 0 <= i < q ==> m !in refs[i])
    && (forall j :: 0 <= j < r ==> refs[q][j] != m)
  }

  function Offset(refs: seq<seq<MappingId>>, q: nat): nat
    requires q <= |refs|
  {
    if q == 0 then 0 else Offset(refs, q - 1) + |refs[q - 1]|
  }

  lemma {:induction false} OffsetOfFront(refs: seq<seq<MappingId>>, n: nat, q: nat)
    requires q <= n <= |refs|
    ensures Offset(refs[..n], q) == Offset(refs, q)
  {
    if q > 0 { OffsetOfFront(refs, n, q - 1); }
  }

  lemma {:induction false} FlattenPosition(refs: seq<seq<MappingId>>, m: MappingId, q: nat, r: nat)
    requires FirstReference(refs, m, q, r)
    ensures |Flatten(refs)| == Offset(refs, |refs|)
    ensures m in Flatten(refs) && IndexIn(Flatten(refs), m) == Offset(refs, q) + r
  {
    var n := |refs| - 1;
    var front := Flatten(refs[..n]);
    FlattenLength(refs);
    FlattenLength(refs[..n]);
    OffsetOfFront(refs, n, n);
    if q < n {
      FlattenPosition(refs[..n], m, q, r);
      OffsetOfFront(refs, n, q);
      IndexInPrefix(front, refs[n], m);
    } else {
      if m in front { FlattenElements(refs[..n], m); }
      var s := front + refs[n];
      assert s[|front| + r] == m;
      forall i | 0 <= i < |front| + r ensures s[i] != m {
        assert i < |front| ==> s[i] in front;
      }
    }
  }

  lemma {:induction false} FlattenLength(refs: seq<seq<MappingId>>)
    ensures |Flatten(refs)| == Offset(refs, |refs|)
  {
    if refs != [] {
      FlattenLength(refs[..|refs| - 1]);
      OffsetOfFront(refs, |refs| - 1, |refs| - 1);
    }
  }

  lemma {:induction false} FlattenElements(refs: seq<seq<MappingId>>, m: MappingId)
    requires m in Flatten(refs)
    ensures exists i :: 0 <= i < |refs| && m in refs[i]
  {
    if m !in refs[|refs| - 1] { FlattenElements(refs[..|refs| - 1], m); }
  }

  lemma IndexInPrefix(s: seq<MappingId>, tail: seq<MappingId>, m: MappingId)
    requires m in s
    ensures IndexIn(s + tail, m) == IndexIn(s, m)
  {
    var k := IndexIn(s, m);
    assert (s + tail)[k] == m;
    assert forall i :: 0 <= i < k ==> (s + tail)[i] != m;
  }

  /** A later question starts after every mention in an earlier one. */
  lemma {:induction false} OffsetGrows(refs: seq<seq<MappingId>>, q: nat, p: nat)
    requires q < p <= |refs|
    ensures Offset(refs, q) + |refs[q]| <= Offset(refs, p)
  {
    if q + 1 < p { OffsetGrows(refs, q, p - 1); }
  }

  lemma {:induction false} FirstSeenOrder(s: seq<MappingId>, wanted: set<MappingId>, a: MappingId, b: MappingId)
    requires a in FirstSeen(s, wanted) && b in FirstSeen(s, wanted) && a != b
    ensures IndexIn(FirstSeen(s, wanted), a) < IndexIn(FirstSeen(s, wanted), b) <==> IndexIn(s, a) < IndexIn(s, b)
  {
    var front, last := s[..|s| - 1], s[|s| - 1];
    var seen := FirstSeen(front, wanted);
    assert s == front + [last];
    if a in seen { IndexInPrefix(front, [last], a); IndexInPrefix(seen, [last], a); }
    if b in seen { IndexInPrefix(front, [last], b); IndexInPrefix(seen, [last], b); }
    if a in seen && b in seen {
      FirstSeenOrder(front, wanted, a, b);
    }
  }

  /** A mapping new in a revision comes after all its predecessor's, and new mappings stand in the order in which the
      questions first refer to them: earlier question first, then earlier place within the question. */
  lemma NewMappingsFollowReferences(t: Table, contents: map<Id, Content>, order: seq<Id>, st: Snapshots, st': Snapshots,
                                    id: Id, p: Id, m: MappingId, q: nat, r: nat)
    requires Repaired(t, contents, order, st, st') && id in order && id in t && t[id].supersedes == Some(p)
    requires m in Get(st', id) && m !in Get(st', p)
    requires FirstReference(ContentOf(contents, id).references, m, q, r)
    ensures var o, refs := Get(st', id), ContentOf(contents, id).references;
            && o[m].Some? && o[m].value > MaxOrdinal(Get(st', p))
            && forall n, q': nat, r': nat :: n in o && n !in Get(st', p) && n != m && FirstReference(refs, n, q', r') ==>
                 (o[m].value < o[n].value <==> q < q' || (q == q' && r < r'))
  {
    var c, pred, o := ContentOf(contents, id), Get(st', p), Get(st', id);
    var refs := c.references;
    var all, added := Flatten(refs), NewMappings(c, pred, Get(st, id));
    FlattenPosition(refs, m, q, r);
    assert m in added;
    forall n, q': nat, r': nat | n in o && n !in pred && n != m && FirstReference(refs, n, q', r')
      ensures o[m].value < o[n].value <==> q < q' || (q == q' && r < r')
    {
      FlattenPosition(refs, n, q', r');
      assert n in added;
      FirstSeenOrder(all, o.Keys - pred.Keys, m, n);
      if q < q' { OffsetGrows(refs, q, q'); }
      if q' < q { OffsetGrows(refs, q', q); }
    }
  }

  /** And they leave no gap: below each stands another new one, or the predecessor's maximum. */
  lemma NewOrdinalsLeaveNoGap(t: Table, contents: map<Id, Content>, order: seq<Id>, st: Snapshots, st': Snapshots,
                              id: Id, p: Id, m: MappingId, q: nat, r: nat)
    requires Repaired(t, contents, order, st, st') && id in order && id in t && t[id].supersedes == Some(p)
    requires m in Get(st', id) && m !in Get(st', p)
    requires FirstReference(ContentOf(contents, id).references, m, q, r)
    ensures var o := Get(st', id);
            && o[m].Some?
            && (o[m].value == MaxOrdinal(Get(st', p)) + 1
                || exists n :: n in o && n !in Get(st', p) && n != m && o[n] == Some(o[m].value - 1))
  {
    var c, pred, o := ContentOf(contents, id), Get(st', p), Get(st', id);
    var added := NewMappings(c, pred, Get(st, id));
    FlattenPosition(c.references, m, q, r);
    assert m in added;
    var k := IndexIn(added, m);
    if k > 0 {
      var n := added[k - 1];
      assert n in added && IndexIn(added, n) == k - 1;
      assert n in o && n !in pred && o[n] == Some(o[m].value - 1);
    }
  }

  // ----- repairing again -----

  /** A candidate's repaired ordinals are a fixed point of its own repair. */
  lemma RepairOneTwice(c: Content, pred: Option<Ordinals>, cur: Ordinals)
    ensures RepairOne(c, pred, RepairOne(c, pred, cur)) == RepairOne(c, pred, cur)
  {
    hide MaxOrdinal, IndexIn, FirstSeen, Flatten;
    var once := RepairOne(c, pred, cur);
    forall m | m in cur ensures RepairOne(c, pred, once)[m] == once[m] {
    }
  }

  lemma {:induction false} FixedPointWalk(t: Table, contents: map<Id, Content>, digestOk: (Id, Ordinals) -> bool, order: seq<Id>,
                                         st: Snapshots)
    requires forall id :: id in order ==>
               && id in st && RepairOne(ContentOf(contents, id), PredOrdinals(t, st, id), st[id]) == st[id]
               && AllSet(st[id]) && digestOk(id, st[id])
    ensures RepairAll(t, contents, digestOk, order, st) == Some(st)
    decreases |order|
  {
    if order != [] {
      assert order == [order[0]] + order[1..];
      assert st[order[0] := st[order[0]]] == st;
      FixedPointWalk(t, contents, digestOk, order[1..], st);
    }
  }

  lemma {:induction false} WalkKeepsKeys(t: Table, contents: map<Id, Content>, digestOk: (Id, Ordinals) -> bool, order: seq<Id>,
                                        st: Snapshots)
    requires RepairAll(t, contents, digestOk, order, st).Some?
    ensures forall id :: id in order || id in st ==> id in RepairAll(t, contents, digestOk, order, st).value
    decreases |order|
  {
    if order != [] {
      assert order == [order[0]] + order[1..];
      var o := RepairOne(ContentOf(contents, order[0]), PredOrdinals(t, st, order[0]), Get(st, order[0]));
      WalkKeepsKeys(t, contents, digestOk, order[1..], st[order[0] := o]);
    }
  }

  /** Running the repair a second time succeeds and changes nothing. */
  lemma RepairIsIdempotent(t: Table, contents: map<Id, Content>, digestOk: (Id, Ordinals) -> bool, order: seq<Id>, st: Snapshots)
    requires CandidateLineage.Inv(t) && WalkOrder(t, order)
    requires RepairAll(t, contents, digestOk, order, st).Some?
    ensures var st' := RepairAll(t, contents, digestOk, order, st).value;
            RepairAll(t, contents, digestOk, order, st') == Some(st')
  {
    WalkSatisfiesEquations(t, contents, digestOk, order, st);
    WalkKeepsKeys(t, contents, digestOk, order, st);
    var st' := RepairAll(t, contents, digestOk, order, st).value;
    forall id | id in order
      ensures RepairOne(ContentOf(contents, id), PredOrdinals(t, st', id), st'[id]) == st'[id]
    {
      RepairOneTwice(ContentOf(contents, id), PredOrdinals(t, st', id), Get(st, id));
    }
    FixedPointWalk(t, contents, digestOk, order, st');
  }

  // ----- what was there before does not matter -----

  lemma RepairOneIgnoresStart(c: Content, pred: Option<Ordinals>, a: Ordinals, b: Ordinals)
    requires a.Keys == b.Keys && forall m :: m in a ==> Placeable(c, pred, m)
    ensures RepairOne(c, pred, a) == RepairOne(c, pred, b)
  {
    forall m | m in a ensures RepairOne(c, pred, a)[m] == RepairOne(c, pred, b)[m] {
      assert Placeable(c, pred, m);
    }
  }

  /** Where every mapping can be placed, the outcome depends on the stored candidates alone, not on the ordinals found:
      a damaged order is rebuilt exactly. */
  lemma {:induction false} DamageIsUndone(t: Table, contents: map<Id, Content>, order: seq<Id>,
                                         a: Snapshots, a': Snapshots, b: Snapshots, b': Snapshots, id: Id)
    requires CandidateLineage.Inv(t) && WalkOrder(t, order)
    requires Repaired(t, contents, order, a, a') && Repaired(t, contents, order, b, b')
    requires Generated(t, id)
    requires forall x :: x in Ancestors(t, id) ==> Get(a, x).Keys == Get(b, x).Keys && Covered(t, contents, a', x)
    ensures Get(a', id) == Get(b', id)
    decreases t[id].revision
  {
    assert Linked(t, id);
    if t[id].supersedes.Some? {
      DamageIsUndone(t, contents, order, a, a', b, b', t[id].supersedes.value);
    }
    var pred := PredOrdinals(t, a', id);
    assert pred == PredOrdinals(t, b', id);
    assert id in Ancestors(t, id);
    assert Get(a', id) == RepairOne(ContentOf(contents, id), pred, Get(a, id));
    assert forall m :: m in Get(a, id) ==> m in Get(a', id);
    RepairOneIgnoresStart(ContentOf(contents, id), pred, Get(a, id), Get(b, id));
  }

  // ----- the script -----

  class SnapshotTable {
    var ordinals: Snapshots

    constructor (start: Snapshots)
      ensures ordinals == start
    {
      ordinals := start;
    }

    method PredecessorMax(pred: Ordinals) returns (max: int)
      ensures max == MaxOrdinal(pred)
    {
      max := -1;
      var keys, none := pred.Keys, true;
      while keys != {}
        invariant keys <= pred.Keys && (none <==> forall m :: m in pred && m !in keys ==> pred[m].None?)
        invariant none ==> max == -1
        invariant !none ==> exists m :: m in pred && pred[m] == Some(max)
        invariant forall m :: m in pred && m !in keys && pred[m].Some? ==> pred[m].value <= max
        decreases keys
      {
        var m :| m in keys;
        if pred[m].Some? && (none || pred[m].value > max) { max, none := pred[m].value, false; }
        keys := keys - {m};
      }
    }

    /** The updates of one candidate: a root takes the artifact's order; a revision first inherits, then appends. */
    method RepairCandidate(id: Id, c: Content, pred: Option<Ordinals>)
      modifies this
      ensures ordinals == old(ordinals)[id := RepairOne(c, pred, Get(old(ordinals), id))]
    {
      var cur := Get(ordinals, id);
      match pred
      case None =>
        ordinals := ordinals[id := map m | m in cur :: if m in c.listing then Some(IndexIn(c.listing, m)) else cur[m]];
      case Some(p) =>
        var inherited := map m | m in cur :: if m in p then p[m] else cur[m];
        var max := PredecessorMax(p);
        var added := NewMappings(c, p, cur);
        var appended := map m | m in cur ::
          if m in added then Some(max + 1 + IndexIn(added, m)) else inherited[m];
        assert appended == RepairOne(c, pred, cur);
        ordinals := ordinals[id := appended];
    }

    /** The whole script in one transaction: it ends as the walk says, or raises and leaves every ordinal as it was. */
    method Repair(t: Table, contents: map<Id, Content>, digestOk: (Id, Ordinals) -> bool, order: seq<Id>) returns (ok: bool)
      modifies this
      ensures ok <==> RepairAll(t, contents, digestOk, order, old(ordinals)).Some?
      ensures ordinals == if ok then RepairAll(t, contents, digestOk, order, old(ordinals)).value else old(ordinals)
    {
      var start := ordinals;
      for i := 0 to |order|
        invariant RepairAll(t, contents, digestOk, order, start) == RepairAll(t, contents, digestOk, order[i..], ordinals)
      {
        var id := order[i];
        RepairCandidate(id, ContentOf(contents, id), PredOrdinals(t, ordinals, id));
        if !AllSet(ordinals[id]) || !digestOk(id, ordinals[id]) {
          ordinals := start;
          return false;
        }
        assert order[i..][1..] == order[i + 1..];
      }
      ok := true;
    }
  }
}
