/** The file around the objects: body, cross-reference table and trailer, and a reader that enters through `startxref`
    (sections 7.3.8, 7.3.10, 7.5.4 and 7.5.5 of ISO 32000-1). */
module PdfFile {
  import opened Basics
  import opened Decimals
  import opened PdfSyntax

  /** An indirect object: a plain object, or a stream whose dictionary holds only its length. */
  datatype Body = Plain(o: Obj) | Stream(data: string)

  // ----- writing -----

  function StreamDict(length: nat): Obj { Dict(Entry("Length", Num(length), NoEntries)) }

  function ShowBody(b: Body): string {
    match b
    case Plain(o) => Show(o)
    case Stream(data) => Show(StreamDict(|data|)) + "\nstream\n" + data + "endstream"
  }

  predicate ValidBody(b: Body) { b.Plain? ==> ValidObj(b.o) }

  /** Object number i + 1. */
  function ObjectText(i: nat, body: string): string { Dec(i + 1) + " 0 obj\n" + body + "\nendobj\n" }

  /** The file up to and including the first i objects. */
  function Prefix(bodies: seq<string>, i: nat): string
    requires i <= |bodies|
  {
    if i == 0 then "%PDF-1.4\n" else Prefix(bodies, i - 1) + ObjectText(i - 1, bodies[i - 1])
  }

  function EntryText(bodies: seq<string>, i: nat): string
    requires i <= |bodies|
  {
    if i == 0 then "0000000000 65535 f \n" else PadStart(Dec(|Prefix(bodies, i - 1)|), 10) + " 00000 n \n"
  }

  /** The first k entries of the cross-reference table. */
  function TableText(bodies: seq<string>, k: nat): string
    requires k <= |bodies| + 1
  {
    if k == 0 then "" else TableText(bodies, k - 1) + EntryText(bodies, k - 1)
  }

  function Trailer(size: nat): Obj { Dict(Entry("Size", Num(size), Entry("Root", Ref(1), NoEntries))) }

  function EndText(size: nat, xref: nat): string {
    "trailer\n" + Show(Trailer(size)) + "\nstartxref\n" + Dec(xref) + "\n%%EOF"
  }

  function FileText(bodies: seq<string>): string {
    var n := |bodies|;
    Prefix(bodies, n) + ("xref\n0 " + Dec(n + 1) + "\n" + TableText(bodies, n + 1) + EndText(n + 1, |Prefix(bodies, n)|))
  }

  // ----- reading -----

  function TrailingDigits(s: string): (k: nat)
    ensures k <= |s| && AllDigits(s[|s| - k..])
  {
    if s == "" || !IsDigit(s[|s| - 1]) then 0
    else
      var k := 1 + TrailingDigits(s[..|s| - 1]);
      assert s[|s| - k..] == s[..|s| - 1][|s| - k..] + [s[|s| - 1]];
      k
  }

  predicate EndsWith(s: string, t: string) { |t| <= |s| && s[|s| - |t|..] == t }

  /** The number between the last `startxref` and the end-of-file marker. */
  function ReadStartXref(pdf: string): Option<nat> {
    if !EndsWith(pdf, "\n%%EOF") then None
    else
      var s := pdf[..|pdf| - 6];
      var k := TrailingDigits(s);
      if k == 0 || !EndsWith(s[..|s| - k], "\nstartxref\n") then None else Some(Value(s[|s| - k..]))
  }

  datatype XrefEntry = Free | InUse(offset: nat)

  /** One entry: ten digits, five digits, a keyword letter and a two-character line end, twenty characters in all. */
  function ReadEntry(e: string): Option<XrefEntry> {
    if |e| == 20 && AllDigits(e[..10]) && e[10] == ' ' && AllDigits(e[11..16]) && e[16] == ' ' && e[18..] == " \n" then
      if e[17] == 'n' then Some(InUse(Value(e[..10]))) else if e[17] == 'f' then Some(Free) else None
    else None
  }

  /** The cross-reference table, still as text, its size and the root object's number. */
  datatype Xref = Xref(table: string, size: nat, root: nat)

  function Find(entries: Entries, key: string): Option<Obj> {
    match entries
    case NoEntries => None
    case Entry(k, value, tail) => if k == key then Some(value) else Find(tail, key)
  }

  function ReadTrailer(s: string, size: nat): Option<nat> {
    if !("trailer\n" <= s) then None
    else match ReadObj(s[8..])
      case Some((Dict(entries), _)) =>
        (match (Find(entries, "Size"), Find(entries, "Root"))
         case (Some(Num(n)), Some(Ref(r))) => if n == size then Some(r) else None
         case _ => None)
      case _ => None
  }

  /** The table and trailer at the front of `s`. */
  function ReadXrefSection(s: string): Option<Xref> {
    if !("xref\n0 " <= s) then None
    else match ReadNat(s[7..])
      case None => None
      case Some((size, rest)) =>
        if !("\n" <= rest) || |rest| < 1 + 20 * size then None
        else match ReadTrailer(rest[1 + 20 * size..], size)
          case None => None
          case Some(root) => Some(Xref(rest[1..1 + 20 * size], size, root))
  }

  function ReadXref(pdf: string): Option<Xref> {
    match ReadStartXref(pdf)
    case None => None
    case Some(at) => if at > |pdf| then None else ReadXrefSection(pdf[at..])
  }

  function OffsetOf(x: Xref, number: nat): Option<nat> {
    if number >= x.size || 20 * number + 20 > |x.table| then None
    else match ReadEntry(x.table[20 * number..20 * number + 20])
      case Some(InUse(offset)) => Some(offset)
      case _ => None
  }

  function ReadStream(entries: Entries, s: string): Option<Body> {
    match Find(entries, "Length")
    case Some(Num(n)) => if n <= |s| && "endstream\nendobj\n" <= s[n..] then Some(Stream(s[..n])) else None
    case _ => None
  }

  /** What follows an object decides whether it is a stream. */
  function FinishBody(o: Obj, t: string): Option<Body> {
    if "\nendobj\n" <= t then Some(Plain(o))
    else if "\nstream\n" <= t && o.Dict? then ReadStream(o.entries, t[8..])
    else None
  }

  /** The object numbered `number`, standing at the front of `s`. */
  function ReadBodyText(s: string, number: nat): Option<Body> {
    match ReadNat(s)
    case None => None
    case Some((n, r)) =>
      if n != number || !(" 0 obj\n" <= r) then None
      else match ReadObj(r[7..])
        case None => None
        case Some((o, t)) => FinishBody(o, t)
  }

  function ReadBody(pdf: string, x: Xref, number: nat): Option<Body> {
    match OffsetOf(x, number)
    case None => None
    case Some(offset) => if offset > |pdf| then None else ReadBodyText(pdf[offset..], number)
  }

  // ----- one object -----

  lemma NewlineSafe(rest: string)
    requires rest == "" || (!White(rest[0]) && !IsDigit(rest[0]))
    ensures Safe("\n" + rest)
  {
    assert ("\n" + rest)[1..] == rest;
    NotDigitSafe("\n" + rest);
  }

  lemma HeaderBack(number: nat, s: string, o: Obj, t: string)
    requires ReadObj(s) == Some((o, t))
    ensures ReadBodyText(Dec(number) + (" 0 obj\n" + s), number) == FinishBody(o, t)
  {
    var r := " 0 obj\n" + s;
    ReadDec(number, r);
    assert r[7..] == s;
  }

  lemma PlainBack(o: Obj, i: nat, rest: string)
    requires ValidObj(o)
    ensures ReadBodyText(ObjectText(i, Show(o)) + rest, i + 1) == Some(Plain(o))
  {
    var t := "\nendobj\n" + rest;
    assert ObjectText(i, Show(o)) + rest == Dec(i + 1) + (" 0 obj\n" + (Show(o) + t));
    assert t == "\n" + ("endobj\n" + rest);
    NewlineSafe("endobj\n" + rest);
    ObjBack(o, t);
    HeaderBack(i + 1, Show(o) + t, o, t);
  }

  lemma StreamDataBack(data: string, rest: string)
    ensures ReadStream(StreamDict(|data|).entries, data + ("endstream\nendobj\n" + rest)) == Some(Stream(data))
  {
    var s := data + ("endstream\nendobj\n" + rest);
    assert s[..|data|] == data && s[|data|..] == "endstream\nendobj\n" + rest;
  }

  lemma StreamRegroup(n: string, dict: string, data: string, rest: string)
    ensures n + " 0 obj\n" + (dict + "\nstream\n" + data + "endstream") + "\nendobj\n" + rest
         == n + (" 0 obj\n" + (dict + ("\nstream\n" + (data + ("endstream\nendobj\n" + rest)))))
  {
    assert "endstream\nendobj\n" == "endstream" + "\nendobj\n";
  }

  lemma StreamDictBack(data: string, u: string)
    ensures var t := "\nstream\n" + u;
            && ReadObj(Show(StreamDict(|data|)) + t) == Some((StreamDict(|data|), t))
            && FinishBody(StreamDict(|data|), t) == ReadStream(StreamDict(|data|).entries, u)
  {
    var t := "\nstream\n" + u;
    assert t == "\n" + ("stream\n" + u);
    assert t[8..] == u && t[1] == 's';
    NewlineSafe("stream\n" + u);
    ObjBack(StreamDict(|data|), t);
  }

  lemma StreamBack(data: string, i: nat, rest: string)
    ensures ReadBodyText(ObjectText(i, ShowBody(Stream(data))) + rest, i + 1) == Some(Stream(data))
  {
    var u := data + ("endstream\nendobj\n" + rest);
    var t := "\nstream\n" + u;
    var dict := StreamDict(|data|);
    StreamRegroup(Dec(i + 1), Show(dict), data, rest);
    StreamDictBack(data, u);
    HeaderBack(i + 1, Show(dict) + t, dict, t);
    StreamDataBack(data, rest);
  }

  lemma BodyBack(b: Body, i: nat, rest: string)
    requires ValidBody(b)
    ensures ReadBodyText(ObjectText(i, ShowBody(b)) + rest, i + 1) == Some(b)
  {
    match b
    case Plain(o) => PlainBack(o, i, rest);
    case Stream(data) => StreamBack(data, i, rest);
  }

  // ----- where objects stand -----

  lemma {:induction false} PrefixWithin(bodies: seq<string>, i: nat, j: nat)
    requires i <= j <= |bodies|
    ensures Prefix(bodies, i) <= Prefix(bodies, j)
    decreases j - i
  {
    if i < j { PrefixWithin(bodies, i, j - 1); }
  }

  lemma FileHasPrefix(bodies: seq<string>, i: nat)
    requires i <= |bodies|
    ensures Prefix(bodies, i) <= FileText(bodies)
  {
    PrefixWithin(bodies, i, |bodies|);
    assert Prefix(bodies, |bodies|) <= FileText(bodies);
  }

  lemma SplitAt(all: string, before: string, text: string)
    requires before + text <= all
    ensures |before| <= |before + text| <= |all|
    ensures all[|before|..] == text + all[|before + text|..]
  {
    assert all == before + text + all[|before + text|..];
  }

  /** The text at the offset of an object is that object. */
  lemma ObjectStands(bodies: seq<string>, i: nat)
    requires i < |bodies|
    ensures |Prefix(bodies, i)| <= |FileText(bodies)| && |Prefix(bodies, i + 1)| <= |FileText(bodies)|
    ensures FileText(bodies)[|Prefix(bodies, i)|..]
         == ObjectText(i, bodies[i]) + FileText(bodies)[|Prefix(bodies, i + 1)|..]
  {
    FileHasPrefix(bodies, i + 1);
    SplitAt(FileText(bodies), Prefix(bodies, i), ObjectText(i, bodies[i]));
  }

  // ----- the table -----

  /** Every offset, that of the table included, fits the ten digits of a cross-reference entry. */
  ghost predicate Small(bodies: seq<string>) { |Prefix(bodies, |bodies|)| < 10_000_000_000 }

  lemma EntryShape(digits: string, generation: string, keyword: char)
    requires |digits| == 10 && AllDigits(digits) && |generation| == 5 && AllDigits(generation)
    requires keyword == 'n' || keyword == 'f'
    ensures var e := digits + (" " + generation + " " + [keyword] + " \n");
            |e| == 20 && ReadEntry(e) == Some(if keyword == 'n' then InUse(Value(digits)) else Free)
  {
    var e := digits + (" " + generation + " " + [keyword] + " \n");
    assert e[..10] == digits && e[11..16] == generation && e[18..] == " \n";
  }

  lemma TenDigits(offset: nat)
    requires offset < 10_000_000_000
    ensures var d := PadStart(Dec(offset), 10); |d| == 10 && AllDigits(d) && Value(d) == offset
  {
    assert Pow10(5) == 100_000;
    assert Pow10(10) == 10_000_000_000;
    DecWidth(offset, 10);
    ValueOfPadded(offset, 10);
  }

  lemma FreeEntryBack()
    ensures |"0000000000 65535 f \n"| == 20 && ReadEntry("0000000000 65535 f \n") == Some(Free)
  {
    EntryShape("0000000000", "65535", 'f');
    assert "0000000000 65535 f \n" == "0000000000" + (" " + "65535" + " " + ['f'] + " \n");
  }

  lemma InUseEntryBack(offset: nat)
    requires offset < 10_000_000_000
    ensures var e := PadStart(Dec(offset), 10) + " 00000 n \n"; |e| == 20 && ReadEntry(e) == Some(InUse(offset))
  {
    hide ReadEntry, Dec, PadStart, Value;
    TenDigits(offset);
    EntryShape(PadStart(Dec(offset), 10), "00000", 'n');
    assert " 00000 n \n" == " " + "00000" + " " + ['n'] + " \n";
  }

  /** Every entry is exactly twenty characters long and reads back as its offset. */
  lemma EntryBack(bodies: seq<string>, i: nat)
    requires Small(bodies) && i <= |bodies|
    ensures |EntryText(bodies, i)| == 20
    ensures ReadEntry(EntryText(bodies, i)) == Some(if i == 0 then Free else InUse(|Prefix(bodies, i - 1)|))
  {
    hide ReadEntry, Prefix, Dec, PadStart;
    if i == 0 {
      FreeEntryBack();
    } else {
      PrefixWithin(bodies, i - 1, |bodies|);
      InUseEntryBack(|Prefix(bodies, i - 1)|);
    }
  }

  lemma {:induction false} TableBack(bodies: seq<string>, k: nat, i: nat)
    requires Small(bodies) && k <= |bodies| + 1
    ensures |TableText(bodies, k)| == 20 * k
    ensures i < k ==> TableText(bodies, k)[20 * i..20 * i + 20] == EntryText(bodies, i)
  {
    hide EntryText, Prefix;
    if k > 0 {
      TableBack(bodies, k - 1, i);
      EntryBack(bodies, k - 1);
    }
  }

  // ----- the end of the file -----

  lemma {:induction false} TrailingDigitsOf(a: string, d: string)
    requires AllDigits(d) && a != "" && !IsDigit(a[|a| - 1])
    ensures TrailingDigits(a + d) == |d|
  {
    if d == "" {
      assert a + d == a;
    } else {
      assert (a + d)[..|a + d| - 1] == a + d[..|d| - 1];
      TrailingDigitsOf(a, d[..|d| - 1]);
    }
  }

  lemma StartXrefBack(front: string, xref: nat)
    ensures ReadStartXref(front + "\nstartxref\n" + Dec(xref) + "\n%%EOF") == Some(xref)
  {
    hide Dec;
    var a := front + "\nstartxref\n";
    var s := a + Dec(xref);
    var pdf := s + "\n%%EOF";
    assert pdf[..|pdf| - 6] == s && pdf[|pdf| - 6..] == "\n%%EOF";
    TrailingDigitsOf(a, Dec(xref));
    assert s[..|s| - |Dec(xref)|] == a && s[|s| - |Dec(xref)|..] == Dec(xref);
    assert a[|a| - 11..] == "\nstartxref\n";
    ValueOfDec(xref);
  }

  lemma TrailerDictBack(size: nat, s: string, t: string)
    requires ReadObj(s) == Some((Trailer(size), t))
    ensures ReadTrailer("trailer\n" + s, size) == Some(1)
  {
    assert ("trailer\n" + s)[8..] == s;
    assert Find(Trailer(size).entries, "Size") == Some(Num(size));
    assert Find(Trailer(size).entries.tail, "Root") == Some(Ref(1));
    assert Find(Trailer(size).entries, "Root") == Some(Ref(1));
  }

  lemma TrailerBack(size: nat, xref: nat)
    ensures ReadTrailer(EndText(size, xref), size) == Some(1)
  {
    var u := "startxref\n" + Dec(xref) + "\n%%EOF";
    var t := "\n" + u;
    NewlineSafe(u);
    ObjBack(Trailer(size), t);
    TrailerDictBack(size, Show(Trailer(size)) + t, t);
    EndRegroup("", Show(Trailer(size)), Dec(xref));
  }

  lemma EndRegroup(front: string, trailer: string, xref: string)
    ensures "trailer\n" + trailer + "\nstartxref\n" + xref + "\n%%EOF"
         == "trailer\n" + (trailer + ("\n" + ("startxref\n" + xref + "\n%%EOF")))
    ensures front + ("trailer\n" + trailer + "\nstartxref\n" + xref + "\n%%EOF")
         == front + ("trailer\n" + trailer) + "\nstartxref\n" + xref + "\n%%EOF"
  {
    assert "\nstartxref\n" == "\n" + "startxref\n";
  }

  lemma Regroup2(a: string, b: string, c: string)
    ensures a + (b + c) == (a + b) + c
  {
  }

  lemma FileStartXref(bodies: seq<string>)
    ensures ReadStartXref(FileText(bodies)) == Some(|Prefix(bodies, |bodies|)|)
  {
    hide ReadStartXref, Prefix, TableText, Show, Trailer, Dec;
    var n := |bodies|;
    var x := |Prefix(bodies, n)|;
    var head := "xref\n0 " + Dec(n + 1) + "\n" + TableText(bodies, n + 1);
    var front := Prefix(bodies, n) + head;
    Regroup2(Prefix(bodies, n), head, EndText(n + 1, x));
    EndRegroup(front, Show(Trailer(n + 1)), Dec(x));
    StartXrefBack(front + ("trailer\n" + Show(Trailer(n + 1))), x);
  }

  lemma XrefSectionBack(size: nat, table: string, end: string)
    requires |table| == 20 * size && ReadTrailer(end, size) == Some(1)
    ensures ReadXrefSection("xref\n0 " + Dec(size) + "\n" + table + end) == Some(Xref(table, size, 1))
  {
    hide ReadTrailer, Dec, ReadNat;
    var rest := "\n" + table + end;
    var s := "xref\n0 " + Dec(size) + "\n" + table + end;
    assert s[7..] == Dec(size) + rest;
    ReadDec(size, rest);
    assert rest[1..1 + 20 * size] == table && rest[1 + 20 * size..] == end;
  }

  lemma DropFront(front: string, rest: string)
    ensures (front + rest)[|front|..] == rest
  {
  }

  /** Entering through `startxref`, a reader finds the whole table and the trailer. */
  lemma XrefBack(bodies: seq<string>)
    requires Small(bodies)
    ensures ReadXref(FileText(bodies)) == Some(Xref(TableText(bodies, |bodies| + 1), |bodies| + 1, 1))
  {
    hide ReadXrefSection, ReadStartXref, Prefix, TableText, EndText, Show, Trailer, Dec, ReadTrailer, FileText, EntryText, Small;
    var n := |bodies|;
    var prefix, table, end := Prefix(bodies, n), TableText(bodies, n + 1), EndText(n + 1, |Prefix(bodies, n)|);
    FileStartXref(bodies);
    TableBack(bodies, n + 1, 0);
    TrailerBack(n + 1, |prefix|);
    XrefSectionBack(n + 1, table, end);
    var section := "xref\n0 " + Dec(n + 1) + "\n" + table + end;
    assert FileText(bodies) == prefix + section by { FileSection(bodies); }
    hide ReadXref;
    SectionFound(prefix, section);
  }

  lemma FileSection(bodies: seq<string>)
    ensures var n := |bodies|;
            FileText(bodies) == Prefix(bodies, n)
              + ("xref\n0 " + Dec(n + 1) + "\n" + TableText(bodies, n + 1) + EndText(n + 1, |Prefix(bodies, n)|))
  {
  }

  lemma SectionFound(front: string, section: string)
    requires ReadStartXref(front + section) == Some(|front|)
    ensures ReadXref(front + section) == ReadXrefSection(section)
  {
    hide ReadStartXref, ReadXrefSection;
    DropFront(front, section);
  }

  // ----- every object comes back -----

  function ShowAll(bodies: seq<Body>): (texts: seq<string>)
    ensures |texts| == |bodies| && forall i :: 0 <= i < |bodies| ==> texts[i] == ShowBody(bodies[i])
  {
    seq(|bodies|, i requires 0 <= i < |bodies| => ShowBody(bodies[i]))
  }

  predicate AllValid(bodies: seq<Body>) { forall i :: 0 <= i < |bodies| ==> ValidBody(bodies[i]) }

  lemma OffsetBack(bodies: seq<string>, i: nat)
    requires Small(bodies) && i < |bodies|
    ensures OffsetOf(Xref(TableText(bodies, |bodies| + 1), |bodies| + 1, 1), i + 1) == Some(|Prefix(bodies, i)|)
  {
    hide EntryText, Prefix, TableText, ReadEntry;
    TableBack(bodies, |bodies| + 1, i + 1);
    EntryBack(bodies, i + 1);
  }

  /** For any list of objects, in a file under ten billion bytes, the cross-reference table leads the reader to every object
      and the object read is exactly the one written, stream contents included. */
  lemma EveryObjectBack(bodies: seq<Body>, i: nat)
    requires AllValid(bodies) && Small(ShowAll(bodies)) && i < |bodies|
    ensures var pdf := FileText(ShowAll(bodies));
            ReadXref(pdf).Some? && ReadXref(pdf).value.root == 1 && ReadBody(pdf, ReadXref(pdf).value, i + 1) == Some(bodies[i])
  {
    hide FileText, Prefix, TableText, ReadBodyText, OffsetOf, ObjectText, ReadXref, ShowBody, ValidBody;
    var texts := ShowAll(bodies);
    XrefBack(texts);
    OffsetBack(texts, i);
    ObjectStands(texts, i);
    BodyBack(bodies[i], i, FileText(texts)[|Prefix(texts, i + 1)|..]);
  }
}
