/** `load` and one call of `Apply` in the program's own form: loops over the embedded files and the pending migrations. */
module MigrationApply {
  import opened Basics
  import opened Decimals
  import opened MigrationProtocol

  // ----- load -----

  datatype Entry = Entry(name: string, isDir: bool, contents: Option<string>)
  datatype Migration = Migration(version: int, name: string, sql: string)

  const SUFFIX := ".up.sql"
  const MAX_INT64 := 0x7FFF_FFFF_FFFF_FFFF

  /** `strconv.ParseInt(s, 10, 64)`. */
  function ParseInt64(s: string): Option<int> {
    var negative := s != "" && s[0] == '-';
    var digits := if s != "" && (s[0] == '-' || s[0] == '+') then s[1..] else s;
    if digits == "" || !AllDigits(digits) then None
    else if negative && Value(digits) <= MAX_INT64 + 1 then Some(0 - Value(digits))
    else if !negative && Value(digits) <= MAX_INT64 then Some(Value(digits))
    else None
  }

  function IndexOf(s: string, c: char): (k: nat)
    ensures k <= |s|
  {
    if s == "" || s[0] == c then 0 else 1 + IndexOf(s[1..], c)
  }

  predicate IsUpMigration(e: Entry) {
    !e.isDir && |e.name| >= |SUFFIX| && e.name[|e.name| - |SUFFIX|..] == SUFFIX
  }

  function ParseEntry(e: Entry): Result<Migration, string> {
    var cut := IndexOf(e.name, '_');
    if cut == |e.name| then Err("migration has no numeric prefix")
    else match ParseInt64(e.name[..cut])
      case None => Err("parse migration version")
      case Some(version) =>
        if e.contents.None? then Err("read migration") else Ok(Migration(version, e.name, e.contents.value))
  }

  /** A file is taken for version n when its name begins with the number, padded or not, and an underscore. */
  lemma NameGivesVersion(n: nat, width: nat, rest: string, contents: string)
    requires n <= MAX_INT64
    ensures var name := PadStart(Dec(n), width) + "_" + rest;
            ParseEntry(Entry(name, false, Some(contents))) == Ok(Migration(n, name, contents))
  {
    hide Dec, PadStart, Value;
    var digits := PadStart(Dec(n), width);
    var name := digits + "_" + rest;
    ValueOfPadded(n, width);
    UnderscoreAfter(digits, rest);
    assert name[..|digits|] == digits;
    assert IsDigit(digits[0]);
  }

  /** A signed number is read with its sign. */
  lemma SignedNames(n: nat, rest: string, contents: string)
    requires n <= MAX_INT64
    ensures var minus, plus := "-" + Dec(n) + "_" + rest, "+" + Dec(n) + "_" + rest;
            && ParseEntry(Entry(minus, false, Some(contents))) == Ok(Migration(0 - n as int, minus, contents))
            && ParseEntry(Entry(plus, false, Some(contents))) == Ok(Migration(n, plus, contents))
  {
    hide Dec, Value;
    var digits := Dec(n);
    ValueOfDec(n);
    UnderscoreAfter(digits, rest);
    forall sign | sign == "-" || sign == "+" ensures IndexOf(sign + digits + "_" + rest, '_') == |digits| + 1 {
      assert (sign + digits + "_" + rest)[1..] == digits + "_" + rest;
    }
    assert ("-" + digits + "_" + rest)[..|digits| + 1] == "-" + digits;
    assert ("+" + digits + "_" + rest)[..|digits| + 1] == "+" + digits;
    assert ("-" + digits)[1..] == digits == ("+" + digits)[1..];
  }

  /** Only files whose names end in .up.sql are read. */
  lemma FilesTaken(e: Entry, stem: string)
    ensures IsUpMigration(Entry(stem + ".up.sql", e.isDir, e.contents)) <==> !e.isDir
    ensures IsUpMigration(e) ==> !e.isDir && |e.name| >= 7 && e.name == e.name[..|e.name| - 7] + ".up.sql"
  {
  }

  lemma {:induction false} UnderscoreAfter(digits: string, rest: string)
    requires AllDigits(digits)
    ensures IndexOf(digits + "_" + rest, '_') == |digits|
  {
    var s := digits + "_" + rest;
    if digits == "" {
      assert s == "_" + rest;
    } else {
      assert s[1..] == digits[1..] + "_" + rest;
      UnderscoreAfter(digits[1..], rest);
    }
  }

  /** A file without an underscore, with something else than a number before it, or that cannot be read is an error. */
  lemma BadNamesRefused(e: Entry)
    requires '_' !in e.name || e.contents.None?
      || exists k :: 0 < k < |e.name| && e.name[k] == '_' && '_' !in e.name[..k] && !AllDigits(e.name[1..k])
    ensures ParseEntry(e).Err?
  {
    hide Value;
    CutMeans(e.name);
    var cut := IndexOf(e.name, '_');
    if '_' in e.name && e.contents.Some? {
      var k :| 0 < k < |e.name| && e.name[k] == '_' && '_' !in e.name[..k] && !AllDigits(e.name[1..k]);
      var prefix := e.name[..k];
      assert forall i :: 0 <= i < k ==> e.name[i] == prefix[i];
      assert cut == k;
      assert prefix[1..] == e.name[1..k];
      var i :| 0 <= i < |prefix[1..]| && !IsDigit(prefix[1..][i]);
      assert prefix[i + 1] == prefix[1..][i];
    }
  }

  lemma {:induction false} CutMeans(s: string)
    ensures var k := IndexOf(s, '_');
            (k < |s| ==> s[k] == '_') && forall i :: 0 <= i < k ==> s[i] != '_'
  {
    if s != "" && s[0] != '_' { CutMeans(s[1..]); }
  }

  /** The migrations among the entries, in file order. */
  function Parsed(entries: seq<Entry>): seq<Migration> {
    if entries == [] then []
    else
      var last := entries[|entries| - 1];
      var front := Parsed(entries[..|entries| - 1]);
      if IsUpMigration(last) && ParseEntry(last).Ok? then front + [ParseEntry(last).value] else front
  }

  predicate AllParse(entries: seq<Entry>) {
    forall i :: 0 <= i < |entries| && IsUpMigration(entries[i]) ==> ParseEntry(entries[i]).Ok?
  }

  function Versions(ms: seq<Migration>): (vs: seq<int>)
    ensures |vs| == |ms| && forall i :: 0 <= i < |ms| ==> vs[i] == ms[i].version
  {
    seq(|ms|, i requires 0 <= i < |ms| => ms[i].version)
  }

  predicate Ascending(vs: seq<int>) { forall i, j :: 0 <= i < j < |vs| ==> vs[i] <= vs[j] }

  function InsertByVersion(ms: seq<Migration>, m: Migration): seq<Migration> {
    if ms == [] || ms[|ms| - 1].version <= m.version then ms + [m]
    else InsertByVersion(ms[..|ms| - 1], m) + [ms[|ms| - 1]]
  }

  /** `sort.Slice` by version. */
  function SortByVersion(ms: seq<Migration>): seq<Migration> {
    if ms == [] then [] else InsertByVersion(SortByVersion(ms[..|ms| - 1]), ms[|ms| - 1])
  }

  lemma AppendVersion(ms: seq<Migration>, m: Migration)
    ensures Versions(ms + [m]) == Versions(ms) + [m.version]
    ensures multiset(Versions(ms + [m])) == multiset(Versions(ms)) + multiset{m.version}
  {
    assert Versions(ms + [m]) == Versions(ms) + [m.version];
  }

  lemma {:induction false} InsertElements(ms: seq<Migration>, m: Migration)
    ensures multiset(Versions(InsertByVersion(ms, m))) == multiset(Versions(ms)) + multiset{m.version}
    ensures forall x :: x in InsertByVersion(ms, m) ==> x in ms || x == m
  {
    if ms == [] || ms[|ms| - 1].version <= m.version {
      AppendVersion(ms, m);
    } else {
      var front, last := ms[..|ms| - 1], ms[|ms| - 1];
      InsertElements(front, m);
      AppendVersion(InsertByVersion(front, m), last);
      AppendVersion(front, last);
      assert ms == front + [last];
    }
  }

  lemma {:induction false} InsertAscending(ms: seq<Migration>, m: Migration)
    requires Ascending(Versions(ms))
    ensures Ascending(Versions(InsertByVersion(ms, m)))
  {
    if ms == [] || ms[|ms| - 1].version <= m.version {
      forall i | 0 <= i < |ms| ensures ms[i].version <= m.version {
        assert Versions(ms)[i] <= Versions(ms)[|ms| - 1];
      }
    } else {
      var front, last := ms[..|ms| - 1], ms[|ms| - 1];
      assert Ascending(Versions(front)) by { FrontAscending(ms); }
      InsertAscending(front, m);
      var r := InsertByVersion(front, m);
      InsertElements(front, m);
      forall x | x in r ensures x.version <= last.version {
        if x != m {
          var k :| 0 <= k < |front| && front[k] == x;
          assert Versions(ms)[k] <= Versions(ms)[|ms| - 1];
        }
      }
    }
  }

  lemma FrontAscending(ms: seq<Migration>)
    requires ms != [] && Ascending(Versions(ms))
    ensures Ascending(Versions(ms[..|ms| - 1]))
  {
    forall i, j | 0 <= i < j < |ms| - 1 ensures ms[i].version <= ms[j].version {
      assert Versions(ms)[i] <= Versions(ms)[j];
    }
  }

  lemma {:induction false} SortKeeps(ms: seq<Migration>)
    ensures Ascending(Versions(SortByVersion(ms)))
    ensures multiset(Versions(SortByVersion(ms))) == multiset(Versions(ms))
    ensures forall x :: x in SortByVersion(ms) ==> x in ms
  {
    if ms != [] {
      var front, last := ms[..|ms| - 1], ms[|ms| - 1];
      SortKeeps(front);
      InsertElements(SortByVersion(front), last);
      InsertAscending(SortByVersion(front), last);
      AppendVersion(front, last);
      assert ms == front + [last];
    }
  }

  lemma WithoutLast(a: seq<int>)
    requires a != []
    ensures multiset(a[..|a| - 1]) == multiset(a) - multiset{a[|a| - 1]}
  {
    assert a == a[..|a| - 1] + [a[|a| - 1]];
  }

  lemma SameLast(a: seq<int>, b: seq<int>)
    requires a != [] && Ascending(a) && Ascending(b) && multiset(a) == multiset(b)
    ensures b != [] && a[|a| - 1] == b[|b| - 1]
  {
    var x := a[|a| - 1];
    assert x in multiset(b);
    var y := b[|b| - 1];
    assert y in multiset(a);
  }

  /** Two ascending lists with the same elements are the same list. */
  lemma {:induction false} AscendingUnique(a: seq<int>, b: seq<int>)
    requires Ascending(a) && Ascending(b) && multiset(a) == multiset(b)
    ensures a == b
    decreases |a|
  {
    if |a| == 0 {
      assert |multiset(b)| == 0;
    } else {
      SameLast(a, b);
      WithoutLast(a);
      WithoutLast(b);
      assert Ascending(a[..|a| - 1]) && Ascending(b[..|b| - 1]);
      AscendingUnique(a[..|a| - 1], b[..|b| - 1]);
      assert a == a[..|a| - 1] + [a[|a| - 1]];
      assert b == b[..|b| - 1] + [b[|b| - 1]];
    }
  }

  predicate IsSequence(ms: seq<Migration>) {
    |ms| == LATEST && forall i :: 0 <= i < |ms| ==> ms[i].version == i + 1
  }

  /** How many embedded migrations carry version v. */
  function FilesFor(entries: seq<Entry>, v: int): nat {
    multiset(Versions(Parsed(entries)))[v]
  }

  /** The files make up exactly the set 1..57: one file for each of those versions and none for any other. */
  ghost predicate CompleteSet(entries: seq<Entry>) {
    AllParse(entries) && forall v :: FilesFor(entries, v) == if 1 <= v <= LATEST then 1 else 0
  }

  lemma {:induction false} UpToCounts(k: nat, v: int)
    ensures multiset(UpTo(k))[v] == if 1 <= v <= k then 1 else 0
  {
    if k > 0 {
      UpToCounts(k - 1, v);
      var front: seq<int> := UpTo(k - 1);
      assert multiset(front + [k])[v] == multiset(front)[v] + if v == k then 1 else 0;
    }
  }

  lemma SequenceFromCounts(ms: seq<Migration>, k: nat)
    requires Ascending(Versions(ms))
    ensures (forall v :: multiset(Versions(ms))[v] == if 1 <= v <= k then 1 else 0)
            <==> |ms| == k && forall i :: 0 <= i < k ==> ms[i].version == i + 1
  {
    assert Versions(ms) == UpTo(k) <==> |ms| == k && forall i :: 0 <= i < k ==> ms[i].version == i + 1;
    if forall v :: multiset(Versions(ms))[v] == if 1 <= v <= k then 1 else 0 { CountsAreUpTo(Versions(ms), k); }
    if Versions(ms) == UpTo(k) {
      forall v ensures multiset(Versions(ms))[v] == if 1 <= v <= k then 1 else 0 { UpToCounts(k, v); }
    }
  }

  lemma CountsAreUpTo(versions: seq<int>, k: nat)
    requires Ascending(versions) && forall v :: multiset(versions)[v] == if 1 <= v <= k then 1 else 0
    ensures versions == UpTo(k)
  {
    forall v ensures multiset(UpTo(k))[v] == multiset(versions)[v] { UpToCounts(k, v); }
    assert multiset(versions) == multiset(UpTo(k));
    AscendingUnique(versions, UpTo(k));
  }

  lemma CompleteSetSorts(entries: seq<Entry>)
    ensures (forall v :: FilesFor(entries, v) == if 1 <= v <= LATEST then 1 else 0)
            <==> IsSequence(SortByVersion(Parsed(entries)))
  {
    var sorted := SortByVersion(Parsed(entries));
    SortKeeps(Parsed(entries));
    SequenceFromCounts(sorted, LATEST);
    assert forall v :: FilesFor(entries, v) == multiset(Versions(sorted))[v];
  }

  lemma ParsedAppend(front: seq<Entry>, e: Entry)
    ensures AllParse(front + [e]) <==> AllParse(front) && (IsUpMigration(e) ==> ParseEntry(e).Ok?)
    ensures Parsed(front + [e])
         == if IsUpMigration(e) && ParseEntry(e).Ok? then Parsed(front) + [ParseEntry(e).value] else Parsed(front)
  {
    var all := front + [e];
    assert all[..|all| - 1] == front && all[|front|] == e;
    assert forall i :: 0 <= i < |front| ==> all[i] == front[i];
  }

  method ParseAll(entries: seq<Entry>) returns (r: Result<seq<Migration>, string>)
    ensures r.Ok? <==> AllParse(entries)
    ensures r.Ok? ==> r.value == Parsed(entries)
  {
    var loaded: seq<Migration> := [];
    for i := 0 to |entries|
      invariant AllParse(entries[..i]) && loaded == Parsed(entries[..i])
    {
      var entry := entries[i];
      assert entries[..i + 1] == entries[..i] + [entry];
      ParsedAppend(entries[..i], entry);
      if IsUpMigration(entry) {
        var parsed := ParseEntry(entry);
        if parsed.Err? {
          assert !AllParse(entries);
          return Err(parsed.error);
        }
        loaded := loaded + [parsed.value];
      }
    }
    assert entries[..|entries|] == entries;
    return Ok(loaded);
  }

  method CheckSequence(sorted: seq<Migration>) returns (ok: bool)
    ensures ok <==> IsSequence(sorted)
  {
    if |sorted| == 0 || sorted[|sorted| - 1].version != LATEST { return false; }
    for i := 0 to |sorted|
      invariant forall j :: 0 <= j < i ==> sorted[j].version == j + 1
    {
      if sorted[i].version != i + 1 { return false; }
    }
    return true;
  }

  /** Succeeds exactly when the embedded files are the versions 1..57, one file each, and then lists them in order. */
  method Load(entries: seq<Entry>) returns (r: Result<seq<Migration>, string>)
    ensures r.Ok? <==> CompleteSet(entries)
    ensures r.Ok? ==> IsSequence(r.value) && forall m :: m in r.value ==> m in Parsed(entries)
  {
    var loaded := ParseAll(entries);
    if loaded.Err? { return loaded; }
    CompleteSetSorts(entries);
    SortKeeps(loaded.value);
    var sorted := SortByVersion(loaded.value);
    var ok := CheckSequence(sorted);
    r := if ok then Ok(sorted) else Err("the embedded files are not the versions up to the latest");
  }

  // ----- one call of Apply -----

  /** Which operations fail, by the version being applied; `lostReplies` are commits that land although their reply is lost. */
  datatype Faults = Faults(connect: bool, lock: bool, create: bool, read: bool, repair: bool,
                           begin: set<nat>, execute: set<nat>, record: set<nat>, commit: set<nat>, lostReplies: set<nat>)

  predicate Harmed(f: Faults, v: nat) { v in f.begin || v in f.execute || v in f.record || v in f.commit }

  /** Where the loop over pending migrations leaves a ledger at k, and whether it got through. */
  function Pending(k: nat, f: Faults): (nat, bool)
    decreases LATEST - k
  {
    if k >= LATEST then (k, true)
    else if Harmed(f, k + 1) then (k, false)
    else if k + 1 in f.lostReplies then (k + 1, false)
    else Pending(k + 1, f)
  }

  /** The loop gets through exactly when no pending version is harmed and no pending commit reply is lost. */
  lemma {:induction false} PendingExactly(k: nat, f: Faults)
    requires k <= LATEST
    ensures k <= Pending(k, f).0 <= LATEST
    ensures Pending(k, f).1 <==> forall v :: k < v <= LATEST ==> !Harmed(f, v) && v !in f.lostReplies
    ensures Pending(k, f).1 ==> Pending(k, f).0 == LATEST
    ensures !Pending(k, f).1 ==>
              var at := Pending(k, f).0;
              && (forall v :: k < v <= at ==> !Harmed(f, v)) && (forall v :: k < v < at ==> v !in f.lostReplies)
              && ((k < at && at in f.lostReplies) || (at < LATEST && Harmed(f, at + 1) && (k < at ==> at !in f.lostReplies)))
    decreases LATEST - k
  {
    if k < LATEST && !Harmed(f, k + 1) && k + 1 !in f.lostReplies {
      PendingExactly(k + 1, f);
    }
  }

  class MigrationDatabase {
    var ledgerExists: bool
    var ledger: seq<nat>
    var schema: seq<nat>

    /** The ledger is a gap-free prefix and the schema carries exactly those migrations. */
    ghost predicate Valid()
      reads this
    {
      ledger == schema == UpTo(|ledger|) && (!ledgerExists ==> ledger == [])
    }

    constructor ()
      ensures Valid() && ledger == []
    {
      ledgerExists, ledger, schema := false, [], [];
    }

    method MaxVersion() returns (m: nat)
      requires Valid()
      ensures m == |ledger|
    {
      m := Max(ledger);
      MaxUpTo(|ledger|);
    }

    /** One transaction: run the migration and insert its ledger row, or leave everything as it was. */
    method ApplyOne(v: nat, f: Faults) returns (ok: bool)
      requires Valid() && v == |ledger| + 1
      modifies `ledger, `schema
      ensures ok <==> !Harmed(f, v) && v !in f.lostReplies
      ensures ledger == if Harmed(f, v) then old(ledger) else old(ledger) + [v]
      ensures schema == if Harmed(f, v) then old(schema) else old(schema) + [v]
    {
      if v in f.begin || v in f.execute { return false; }
      var txSchema := schema + [v];
      if v in f.record { return false; }
      var txLedger := ledger + [v];
      if v in f.commit { return false; }
      schema, ledger := txSchema, txLedger;
      ok := v !in f.lostReplies;
    }

    /** The loop over the embedded migrations, each one newer than the ledger in its own transaction. */
    method ApplyPending(available: seq<Migration>, f: Faults) returns (ok: bool)
      requires Valid() && ledgerExists && IsSequence(available)
      modifies `ledger, `schema
      ensures Valid()
      ensures |old(ledger)| > LATEST ==> !ok && ledger == old(ledger)
      ensures |old(ledger)| <= LATEST ==> |ledger| == Pending(|old(ledger)|, f).0 && ok == Pending(|old(ledger)|, f).1
    {
      ghost var k0 := |ledger|;
      var current := MaxVersion();
      for i := 0 to |available|
        invariant Valid() && ledgerExists && current == |ledger| && i <= |available|
        invariant k0 <= LATEST ==> i <= |ledger| || |ledger| == k0
        invariant k0 >= i || i <= |ledger|
        invariant k0 > LATEST ==> ledger == old(ledger)
        invariant k0 <= LATEST ==> |ledger| <= LATEST && Pending(k0, f) == Pending(|ledger|, f)
      {
        if available[i].version > current {
          assert UpTo(current + 1) == UpTo(current) + [current + 1];
          var done := ApplyOne(current + 1, f);
          if !done { return false; }
          current := current + 1;
        }
      }
      ok := current == LATEST;
    }

    /** Applies what is pending and nothing else; nil exactly when every step worked and the database ends at 57. */
    method Apply(entries: seq<Entry>, f: Faults) returns (ok: bool)
      requires Valid()
      modifies this
      ensures Valid()
      ensures f.connect || f.lock || f.create || f.read || !CompleteSet(entries) || |old(ledger)| > LATEST
              ==> !ok && ledger == old(ledger)
      ensures !(f.connect || f.lock || f.create || f.read) && CompleteSet(entries) && |old(ledger)| <= LATEST
              ==> |ledger| == Pending(|old(ledger)|, f).0 && ok == (Pending(|old(ledger)|, f).1 && !f.repair)
    {
      if f.connect || f.lock || f.create { return false; }
      ledgerExists := true;
      if f.read { return false; }
      var loaded := Load(entries);
      if loaded.Err? { return false; }
      ok := ApplyPending(loaded.value, f);
      ok := ok && !f.repair;
    }
  }
}
