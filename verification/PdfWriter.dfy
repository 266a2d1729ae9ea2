/** The two writers as the program runs them: growing lists of lines, pages, objects and offsets, and a growing file text.
    Each is proved to produce the document that module PdfDocument reads back. */
module PdfWriter {
  import opened Decimals
  import opened TextWrap
  import opened PdfSyntax
  import opened PdfContent
  import opened PdfFile
  import opened PdfDocument

  // ----- the page list in the program's own words -----

  function References(n: nat): (refs: seq<string>)
    ensures |refs| == n && forall p :: 0 <= p < n ==> refs[p] == Dec(PageNumber(p)) + " 0 R"
  {
    seq(n, p requires 0 <= p < n => Dec(PageNumber(p)) + " 0 R")
  }

  /** The references joined with blanks print the array of kids. */
  lemma {:induction false} JoinedReferences(n: nat, p: nat)
    requires p <= n
    ensures Join(References(n)[p..]) == ShowItems(KidsFrom(p, n))
    decreases n - p
  {
    if p < n {
      JoinedReferences(n, p + 1);
      assert References(n)[p..][1..] == References(n)[p + 1..];
    }
  }

  // The program's literals, cut after their blanks.

  function CatalogText(): string { "<< " + "/Type /Catalog " + "/Pages 2 0 R " + ">>" }

  function FontText(): string { "<< " + "/Type /Font " + "/Subtype /Type1 " + "/BaseFont /Helvetica " + ">>" }

  function PagesText(refs: string, count: nat): string {
    "<< " + "/Type /Pages " + "/Kids [" + refs + "] " + "/Count " + Dec(count) + " " + ">>"
  }

  function StreamText(content: string): string { "<< /Length " + Dec(|content|) + " >>\nstream\n" + content + "endstream" }

  function PageText(content: nat): string {
    "<< " + "/Type /Page " + "/Parent 2 0 R " + "/MediaBox [0 0 612 842] " + "/Resources << /Font << /F1 " + Dec(3) + " 0 R >> >> "
    + "/Contents " + Dec(content) + " 0 R " + ">>"
  }

  /** One dictionary entry in front of others already printed. */
  lemma EntryShown(key: string, value: Obj, tail: Entries, front: string, rest: string)
    requires "/" + key + " " + Show(value) + " " == front && ShowEntries(tail) == rest
    ensures ShowEntries(Entry(key, value, tail)) == front + rest
    ensures Show(Dict(Entry(key, value, tail))) == "<< " + (front + rest) + ">>"
  {
  }

  lemma NothingShown()
    ensures ShowEntries(NoEntries) == ""
  {
  }

  lemma NameShown(name: string)
    ensures Show(Name(name)) == "/" + name
  {
  }

  lemma DigitShown(d: nat)
    requires d < 10
    ensures Show(Ref(d)) == [DigitChar(d)] + " 0 R"
  {
  }

  lemma CatalogShown()
    ensures CatalogText() == Show(CATALOG)
  {
    hide Show, ShowEntries;
    NothingShown();
    DigitShown(2);
    EntryShown("Pages", Ref(2), NoEntries, "/Pages 2 0 R ", "");
    NameShown("Catalog");
    EntryShown("Type", Name("Catalog"), Entry("Pages", Ref(2), NoEntries), "/Type /Catalog ", "/Pages 2 0 R " + "");
    Regroup2("<< ", "/Type /Catalog ", "/Pages 2 0 R ", ">>");
  }

  lemma FontShown()
    ensures FontText() == Show(FONT)
  {
    hide Show, ShowEntries;
    NothingShown();
    NameShown("Helvetica");
    NameShown("Type1");
    NameShown("Font");
    var base := Entry("BaseFont", Name("Helvetica"), NoEntries);
    var sub := Entry("Subtype", Name("Type1"), base);
    EntryShown("BaseFont", Name("Helvetica"), NoEntries, "/BaseFont /Helvetica ", "");
    EntryShown("Subtype", Name("Type1"), base, "/Subtype /Type1 ", "/BaseFont /Helvetica " + "");
    EntryShown("Type", Name("Font"), sub, "/Type /Font ", "/Subtype /Type1 " + ("/BaseFont /Helvetica " + ""));
    Regroup3("<< ", "/Type /Font ", "/Subtype /Type1 ", "/BaseFont /Helvetica ", ">>");
  }

  lemma Regroup2(open: string, a: string, b: string, close: string)
    ensures open + (a + (b + "")) + close == open + a + b + close
  {
  }

  lemma Regroup3(open: string, a: string, b: string, c: string, close: string)
    ensures open + (a + (b + (c + ""))) + close == open + a + b + c + close
  {
  }

  lemma PagesRegroup(open: string, a: string, k: string, refs: string, l: string, c: string, n: string, close: string)
    ensures open + (a + (k + refs + l + (c + n + " " + ""))) + close == open + a + k + refs + l + c + n + " " + close
  {
  }

  lemma KidsEntry(refs: string)
    ensures "/" + "Kids" + " " + ("[" + refs + "]") + " " == "/Kids [" + refs + "] "
  {
    assert "/Kids [" == "/" + "Kids" + " " + "[";
  }

  lemma CountEntry(n: string)
    ensures "/" + "Count" + " " + n + " " == "/Count " + n + " "
  {
    assert "/Count " == "/" + "Count" + " ";
  }

  lemma ArrayShown(items: Items, n: nat)
    ensures Show(Arr(items)) == "[" + ShowItems(items) + "]" && Show(Num(n)) == Dec(n)
  {
  }

  lemma PagesShown(refs: string, n: nat)
    requires refs == ShowItems(KidsFrom(0, n))
    ensures PagesText(refs, n) == Show(PagesObj(n))
  {
    hide Show, ShowEntries, ShowItems, KidsFrom, Dec;
    NothingShown();
    var kids, d := KidsFrom(0, n), Dec(n);
    var count := Entry("Count", Num(n), NoEntries);
    ArrayShown(kids, n);
    CountEntry(d);
    KidsEntry(refs);
    NameShown("Pages");
    EntryShown("Count", Num(n), NoEntries, "/Count " + d + " ", "");
    EntryShown("Kids", Arr(kids), count, "/Kids [" + refs + "] ", "/Count " + d + " " + "");
    EntryShown("Type", Name("Pages"), Entry("Kids", Arr(kids), count), "/Type /Pages ",
      "/Kids [" + refs + "] " + ("/Count " + d + " " + ""));
    PagesRegroup("<< ", "/Type /Pages ", "/Kids [", refs, "] ", "/Count ", d, ">>");
  }

  lemma LengthEntry(n: string)
    ensures "/" + "Length" + " " + n + " " == "/Length " + n + " "
    ensures "<< " + ("/Length " + n + " " + "") + ">>" + "\nstream\n" == "<< /Length " + n + " >>\nstream\n"
  {
    assert "/Length " == "/" + "Length" + " ";
    assert " >>\nstream\n" == " " + ">>" + "\nstream\n";
    assert "<< /Length " == "<< " + "/Length ";
  }

  lemma StreamShown(content: string)
    ensures StreamText(content) == ShowBody(Stream(content))
  {
    hide Show, ShowEntries, Dec;
    NothingShown();
    ArrayShown(NoItems, |content|);
    LengthEntry(Dec(|content|));
    EntryShown("Length", Num(|content|), NoEntries, "/Length " + Dec(|content|) + " ", "");
  }

  lemma FontsShown()
    ensures Show(Dict(Entry("F1", Ref(3), NoEntries))) == "<< /F1 3 0 R >>"
  {
    hide Show, ShowEntries;
    NothingShown();
    DigitShown(3);
    EntryShown("F1", Ref(3), NoEntries, "/F1 3 0 R ", "");
  }

  lemma FontEntryText()
    ensures "/" + "Font" + " " + "<< /F1 3 0 R >>" + " " == "/Font << /F1 3 0 R >> "
  {
  }

  lemma ResourcesText()
    ensures "<< " + ("/Font << /F1 3 0 R >> " + "") + ">>" == "<< /Font << /F1 3 0 R >> >>"
  {
  }

  lemma ResourcesShown()
    ensures Show(RESOURCES) == "<< /Font << /F1 3 0 R >> >>"
  {
    hide Show, ShowEntries;
    NothingShown();
    FontsShown();
    FontEntryText();
    ResourcesText();
    EntryShown("Font", Dict(Entry("F1", Ref(3), NoEntries)), NoEntries, "/Font << /F1 3 0 R >> ", "");
  }

  lemma NumbersShown()
    ensures Show(Num(0)) == "0" && Show(Num(612)) == "612" && Show(Num(842)) == "842"
  {
    assert Dec(61) == "61" && Dec(84) == "84";
  }

  lemma MediaBoxShown()
    ensures Show(MEDIA_BOX) == "[0 0 612 842]"
  {
    hide Show;
    NumbersShown();
    var last := Item(Num(842), NoItems);
    assert ShowItems(last) == "842";
    ArrayShown(MEDIA_BOX.items, 0);
  }

  lemma PageRegroup(open: string, a: string, b: string, c: string, r1: string, r2: string, r3: string, d: string, n: string,
    z: string, close: string)
    ensures open + (a + (b + (c + ((r1 + r2 + r3) + (d + n + z + ""))))) + close
         == open + a + b + c + r1 + r2 + r3 + d + n + z + close
  {
  }

  lemma ContentsShown(content: nat)
    ensures ShowEntries(Entry("Contents", Ref(content), NoEntries)) == "/Contents " + Dec(content) + " 0 R " + ""
  {
    hide ShowEntries, Dec;
    NothingShown();
    EntryShown("Contents", Ref(content), NoEntries, "/Contents " + Dec(content) + " 0 R ", "");
  }

  lemma ResourcesEntryText()
    ensures "/" + "Resources" + " " + "<< /Font << /F1 3 0 R >> >>" + " " == "/Resources << /Font << /F1 " + "3" + " 0 R >> >> "
  {
  }

  lemma ResourcesEntry(tail: Entries, t: string)
    requires ShowEntries(tail) == t
    ensures ShowEntries(Entry("Resources", RESOURCES, tail)) == "/Resources << /Font << /F1 " + "3" + " 0 R >> >> " + t
  {
    hide Show, ShowEntries, RESOURCES;
    ResourcesShown();
    ResourcesEntryText();
    EntryShown("Resources", RESOURCES, tail, "/Resources << /Font << /F1 " + "3" + " 0 R >> >> ", t);
  }

  lemma MediaBoxEntry(tail: Entries, t: string)
    requires ShowEntries(tail) == t
    ensures ShowEntries(Entry("MediaBox", MEDIA_BOX, tail)) == "/MediaBox [0 0 612 842] " + t
  {
    hide Show, ShowEntries, MEDIA_BOX;
    MediaBoxShown();
    EntryShown("MediaBox", MEDIA_BOX, tail, "/MediaBox [0 0 612 842] ", t);
  }

  lemma ParentEntry(tail: Entries, t: string)
    requires ShowEntries(tail) == t
    ensures ShowEntries(Entry("Parent", Ref(2), tail)) == "/Parent 2 0 R " + t
  {
    hide Show, ShowEntries;
    DigitShown(2);
    EntryShown("Parent", Ref(2), tail, "/Parent 2 0 R ", t);
  }

  lemma PageTypeEntry(tail: Entries, t: string)
    requires ShowEntries(tail) == t
    ensures Show(Dict(Entry("Type", Name("Page"), tail))) == "<< " + ("/Type /Page " + t) + ">>"
  {
    hide Show, ShowEntries;
    NameShown("Page");
    EntryShown("Type", Name("Page"), tail, "/Type /Page ", t);
  }

  lemma PageShownText(content: nat)
    ensures PageText(content) == Show(PageObj(content))
  {
    hide Show, ShowEntries, RESOURCES, MEDIA_BOX;
    assert Dec(3) == "3";
    hide Dec;
    var contents := Entry("Contents", Ref(content), NoEntries);
    var resources := Entry("Resources", RESOURCES, contents);
    var mediaBox := Entry("MediaBox", MEDIA_BOX, resources);
    var t1 := "/Contents " + Dec(content) + " 0 R " + "";
    var t2 := "/Resources << /Font << /F1 " + "3" + " 0 R >> >> " + t1;
    var t3 := "/MediaBox [0 0 612 842] " + t2;
    ContentsShown(content);
    ResourcesEntry(contents, t1);
    MediaBoxEntry(resources, t2);
    ParentEntry(mediaBox, t3);
    PageTypeEntry(Entry("Parent", Ref(2), mediaBox), "/Parent 2 0 R " + t3);
    PageRegroup("<< ", "/Type /Page ", "/Parent 2 0 R ", "/MediaBox [0 0 612 842] ", "/Resources << /Font << /F1 ", "3",
      " 0 R >> >> ", "/Contents ", Dec(content), " 0 R ", ">>");
  }

  // ----- the objects -----

  method ContentOf(w: Writer, page: nat, lines: seq<string>) returns (content: string)
    ensures content == PageContent(w, page, lines, 0, TOP)
  {
    hide Command, FontSize, Leading;
    var y := TOP;
    content := "";
    for i := 0 to |lines|
      invariant content + PageContent(w, page, lines, i, y) == PageContent(w, page, lines, 0, TOP)
    {
      if lines[i] == "" {
        y := y - 8;
      } else {
        var command := Command(FontSize(w, page, i, lines[i]), y, lines[i]);
        y := y - Leading(w, page, i, lines[i]);
        Regroup(content, command, PageContent(w, page, lines, i + 1, y));
        content := content + command;
      }
    }
  }

  lemma Regroup(a: string, b: string, c: string)
    ensures a + (b + c) == (a + b) + c
  {
  }

  lemma PageBodiesShown(w: Writer, pages: seq<seq<string>>, p: nat)
    requires p < |pages|
    ensures ShowBody(BodyAt(w, pages, 3 + 2 * p)) == StreamText(PageStream(w, pages, p))
    ensures ShowBody(BodyAt(w, pages, 4 + 2 * p)) == PageText(4 + 2 * p)
  {
    hide StreamText, PageText, PageStream, PageObj, Show;
    PageBodies(w, pages, p);
    StreamShown(PageStream(w, pages, p));
    PageShownText(4 + 2 * p);
  }

  lemma FirstBodiesShown(w: Writer, pages: seq<seq<string>>)
    ensures ShowBody(BodyAt(w, pages, 0)) == CatalogText()
    ensures ShowBody(BodyAt(w, pages, 1)) == PagesText(Join(References(|pages|)), |pages|)
    ensures ShowBody(BodyAt(w, pages, 2)) == FontText()
  {
    hide Show, CatalogText, FontText, PagesText, PagesObj, Join, References, KidsFrom;
    CatalogShown();
    FontShown();
    JoinedReferences(|pages|, 0);
    assert References(|pages|)[0..] == References(|pages|);
    PagesShown(Join(References(|pages|)), |pages|);
  }

  /** The list of object texts; the page list goes into its reserved place last, when its kids are known. */
  method BuildObjects(w: Writer, pages: seq<seq<string>>) returns (objects: seq<string>)
    ensures objects == ShowAll(Bodies(w, pages))
  {
    hide StreamText, PageText, PagesText, CatalogText, FontText, BodyAt, ShowBody, Join, PageContent;
    objects := [CatalogText(), "", FontText()];
    var references := [];
    FirstBodiesShown(w, pages);
    for p := 0 to |pages|
      invariant |objects| == 3 + 2 * p
      invariant references == References(|pages|)[..p]
      invariant forall i :: 0 <= i < |objects| && i != 1 ==> objects[i] == ShowBody(BodyAt(w, pages, i))
    {
      PageBodiesShown(w, pages, p);
      var content := ContentOf(w, p, pages[p]);
      objects := objects + [StreamText(content)];
      var contentObject := |objects|;
      objects := objects + [PageText(contentObject)];
      references := references + [Dec(|objects|) + " 0 R"];
    }
    assert references == References(|pages|);
    objects := objects[1 := PagesText(Join(references), |references|)];
  }

  // ----- the file -----

  lemma TrailerShown(size: nat)
    ensures Show(Trailer(size)) == "<< " + "/Size " + Dec(size) + " " + "/Root 1 0 R " + ">>"
  {
    hide Show, ShowEntries, Dec;
    var root := Entry("Root", Ref(1), NoEntries);
    NothingShown();
    DigitShown(1);
    ArrayShown(NoItems, size);
    EntryShown("Root", Ref(1), NoEntries, "/Root 1 0 R ", "");
    EntryShown("Size", Num(size), root, "/Size " + Dec(size) + " ", "/Root 1 0 R " + "");
    SizeRegroup("<< ", "/Size ", Dec(size), "/Root 1 0 R ", ">>");
  }

  lemma SizeRegroup(open: string, size: string, n: string, root: string, close: string)
    ensures open + ((size + n + " ") + (root + "")) + close == open + size + n + " " + root + close
  {
  }

  lemma PrefixStep(objects: seq<string>, i: nat)
    requires i < |objects|
    ensures Prefix(objects, i + 1) == Prefix(objects, i) + Dec(i + 1) + " 0 obj\n" + objects[i] + "\nendobj\n"
  {
    hide Dec;
  }

  lemma NothingWritten(objects: seq<string>)
    ensures Prefix(objects, 0) == "%PDF-1.4\n" && TableText(objects, 1) == "0000000000 65535 f \n"
  {
    assert TableText(objects, 1) == "" + "0000000000 65535 f \n";
  }

  lemma TableStep(objects: seq<string>, i: nat, before: string, head: string)
    requires 0 < i <= |objects|
    ensures before + (head + TableText(objects, i + 1))
         == before + (head + TableText(objects, i)) + PadStart(Dec(|Prefix(objects, i - 1)|), 10) + " 00000 n \n"
  {
    hide Dec, PadStart, Prefix;
    TableRegroup(before, head, TableText(objects, i), PadStart(Dec(|Prefix(objects, i - 1)|), 10));
  }

  lemma TableRegroup(before: string, head: string, table: string, digits: string)
    ensures before + (head + (table + (digits + " 00000 n \n"))) == before + (head + table) + digits + " 00000 n \n"
  {
  }

  lemma EndingRegroup(before: string, head: string, table: string, open: string, size: string, n: string, root: string,
    close: string, xref: string)
    ensures before + (head + table) + "trailer\n" + open + size + n + " " + root + close + "\nstartxref\n" + xref + "\n%%EOF"
         == before + (head + table
              + ("trailer\n" + (open + size + n + " " + root + close) + "\nstartxref\n" + xref + "\n%%EOF"))
  {
  }

  /** Bodies, then the table of their offsets, then the trailer. */
  method Assemble(objects: seq<string>) returns (pdf: string)
    ensures pdf == FileText(objects)
  {
    hide Dec, Show, PadStart, Prefix, TableText, EntryText, ObjectText, Trailer;
    var n := |objects|;
    pdf := "%PDF-1.4\n";
    NothingWritten(objects);
    var offsets := [0];
    for i := 0 to n
      invariant pdf == Prefix(objects, i)
      invariant |offsets| == i + 1
      invariant forall j :: 1 <= j <= i ==> offsets[j] == |Prefix(objects, j - 1)|
    {
      offsets := offsets + [|pdf|];
      PrefixStep(objects, i);
      pdf := pdf + Dec(i + 1) + " 0 obj\n" + objects[i] + "\nendobj\n";
    }
    var xref := |pdf|;
    var head := "xref\n0 " + Dec(n + 1) + "\n";
    pdf := pdf + (head + "0000000000 65535 f \n");
    for i := 1 to n + 1
      invariant pdf == Prefix(objects, n) + (head + TableText(objects, i))
    {
      TableStep(objects, i, Prefix(objects, n), head);
      pdf := pdf + PadStart(Dec(offsets[i]), 10) + " 00000 n \n";
    }
    TrailerShown(n + 1);
    EndingRegroup(Prefix(objects, n), head, TableText(objects, n + 1), "<< ", "/Size ", Dec(n + 1), "/Root 1 0 R ", ">>",
      Dec(xref));
    pdf := pdf + "trailer\n" + "<< " + "/Size " + Dec(n + 1) + " " + "/Root 1 0 R " + ">>" + "\nstartxref\n" + Dec(xref)
      + "\n%%EOF";
  }

  // ----- the two writers -----

  const DEFAULT_LINE := "AviaSurveil360 Demo Report"

  lemma {:induction false} PrintedConcat(a: seq<string>, b: seq<string>)
    ensures Printed(a + b) == Printed(a) + Printed(b)
    decreases |a|
  {
    if a == [] {
      assert a + b == b;
    } else {
      assert (a + b)[1..] == a[1..] + b;
      PrintedConcat(a[1..], b);
    }
  }

  lemma PrintedStep(lines: seq<string>, i: nat)
    requires i < |lines|
    ensures Printed(lines[..i + 1]) == Printed(lines[..i]) + PdfWrap(lines[i], LINE)
  {
    hide PdfWrap;
    assert lines[..i + 1] == lines[..i] + [lines[i]];
    PrintedConcat(lines[..i], [lines[i]]);
    assert [lines[i]][1..] == [];
  }

  lemma {:induction false} FirstChunk(lines: seq<string>, k: nat)
    requires lines != [] && k == if |lines| < PAGE then |lines| else PAGE
    ensures Chunks(lines) == [lines[..k]] + Chunks(lines[k..])
  {
    if |lines| <= PAGE {
      assert lines[..k] == lines;
      assert lines[k..] == [];
    }
  }

  lemma {:induction false} ChunksStep(pages: seq<seq<string>>, lines: seq<string>, k: nat)
    requires lines != [] && k == if |lines| < PAGE then |lines| else PAGE
    ensures pages + Chunks(lines) == (pages + [lines[..k]]) + Chunks(lines[k..])
  {
    hide Chunks;
    FirstChunk(lines, k);
  }

  /** The workspace writer: a default line when there are none, and pages cut off the front of the list. */
  method BuildWorkspacePdf(lines: seq<string>) returns (pdf: string)
    ensures pdf == Document(Workspace, if lines == [] then [DEFAULT_LINE] else lines)
  {
    hide PdfWrap, FileText, Bodies, BodyAt, Chunks, Printed;
    var source := if lines == [] then [DEFAULT_LINE] else lines;
    var printable := [];
    assert printable == Printed(source[..0]) by { NothingPrinted(source[..0]); }
    for i := 0 to |source|
      invariant printable == Printed(source[..i])
    {
      PrintedStep(source, i);
      printable := printable + PdfWrap(source[i], LINE);
    }
    assert source[..|source|] == source;
    var pages := [];
    assert pages + Chunks(printable) == Chunks(printable);
    while printable != []
      invariant pages + Chunks(printable) == Chunks(Printed(source))
      decreases |printable|
    {
      var k := if |printable| < PAGE then |printable| else PAGE;
      ChunksStep(pages, printable, k);
      pages, printable := pages + [printable[..k]], printable[k..];
    }
    NoChunks();
    assert pages + Chunks(printable) == pages;
    var objects := BuildObjects(Workspace, pages);
    pdf := Assemble(objects);
  }

  lemma NothingPrinted(lines: seq<string>)
    requires lines == []
    ensures Printed(lines) == []
  {
  }

  lemma NoChunks()
    ensures Chunks([]) == []
  {
  }

  lemma ChunkFull(pages: seq<seq<string>>, current: seq<string>, rest: seq<string>)
    requires |current| == PAGE && rest != []
    ensures pages + Chunks(current + rest) == (pages + [current]) + Chunks([] + rest)
  {
    assert (current + rest)[..PAGE] == current && (current + rest)[PAGE..] == rest;
    assert [] + rest == rest;
  }

  lemma {:induction false} LastChunk(pages: seq<seq<string>>, current: seq<string>)
    requires |current| <= PAGE
    ensures pages + Chunks(current + []) == if current == [] then pages else pages + [current]
  {
    assert current + [] == current;
  }

  lemma NextLine(current: seq<string>, lines: seq<string>, i: nat)
    requires i < |lines|
    ensures current + lines[i..] == (current + [lines[i]]) + lines[i + 1..]
  {
  }

  /** The Final Report writer: its own wrapping loop, and a page filled line by line. */
  method BuildFinalReportPdf(lines: seq<string>) returns (pdf: string)
    ensures pdf == Document(FinalReport, lines)
  {
    hide PdfWrap, FileText, Bodies, BodyAt, Chunks, Printed;
    var printable := [];
    assert printable == Printed(lines[..0]) by { NothingPrinted(lines[..0]); }
    for i := 0 to |lines|
      invariant printable == Printed(lines[..i])
    {
      PrintedStep(lines, i);
      var wrapped := WrapLoop(lines[i], LINE);
      printable := printable + wrapped;
    }
    assert lines[..|lines|] == lines;
    var pages: seq<seq<string>> := [];
    var current: seq<string> := [];
    assert [] + printable[0..] == printable;
    for i := 0 to |printable|
      invariant |current| <= PAGE
      invariant pages + Chunks(current + printable[i..]) == Chunks(Printed(lines))
    {
      if |current| >= PAGE {
        ChunkFull(pages, current, printable[i..]);
        pages, current := pages + [current], [];
      }
      NextLine(current, printable, i);
      current := current + [printable[i]];
    }
    assert printable[|printable|..] == [];
    LastChunk(pages, current);
    if current != [] { pages := pages + [current]; }
    var objects := BuildObjects(FinalReport, pages);
    pdf := Assemble(objects);
  }
}
