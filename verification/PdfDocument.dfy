/** The whole document: the objects the report writers emit, and a reader that follows the trailer's root through the page
    tree to each page's contents (sections 7.7.2, 7.7.3.2 and 7.7.3.3 of ISO 32000-1). */
module PdfDocument {
  import opened Basics
  import opened Decimals
  import opened TextWrap
  import opened PdfSyntax
  import opened PdfContent
  import opened PdfFile

  // ----- lines and pages -----

  const LINE: nat := 96
  const PAGE: nat := 43
  const TOP: int := 792

  /** Every source line wrapped, one after the other. */
  function Printed(lines: seq<string>): seq<string> {
    if lines == [] then [] else PdfWrap(lines[0], LINE) + Printed(lines[1..])
  }

  function Chunks(lines: seq<string>): (pages: seq<seq<string>>)
    ensures forall p :: 0 <= p < |pages| ==> 0 < |pages[p]| <= PAGE
  {
    if lines == [] then [] else if |lines| <= PAGE then [lines] else [lines[..PAGE]] + Chunks(lines[PAGE..])
  }

  function Flatten<T>(pages: seq<seq<T>>): seq<T> { if pages == [] then [] else pages[0] + Flatten(pages[1..]) }

  lemma {:induction false} ChunksFlatten(lines: seq<string>)
    ensures Flatten(Chunks(lines)) == lines
    decreases |lines|
  {
    if 0 < |lines| <= PAGE {
      assert Chunks(lines)[1..] == [];
    } else if lines != [] {
      ChunksFlatten(lines[PAGE..]);
      assert Chunks(lines)[1..] == Chunks(lines[PAGE..]);
    }
  }

  predicate PagesClean(pages: seq<seq<string>>) { forall p :: 0 <= p < |pages| ==> AllClean(pages[p]) }

  lemma {:induction false} PrintedClean(lines: seq<string>)
    ensures AllClean(Printed(lines))
    decreases |lines|
  {
    if lines != [] {
      WrapSound(lines[0], LINE);
      PrintedClean(lines[1..]);
    }
  }

  lemma {:induction false} ChunksClean(lines: seq<string>)
    requires AllClean(lines)
    ensures PagesClean(Chunks(lines))
    decreases |lines|
  {
    if |lines| > PAGE { ChunksClean(lines[PAGE..]); }
  }

  // ----- the objects -----

  const CATALOG := Dict(Entry("Type", Name("Catalog"), Entry("Pages", Ref(2), NoEntries)))
  const FONT := Dict(Entry("Type", Name("Font"), Entry("Subtype", Name("Type1"), Entry("BaseFont", Name("Helvetica"), NoEntries))))
  const MEDIA_BOX := Arr(Item(Num(0), Item(Num(0), Item(Num(612), Item(Num(842), NoItems)))))
  const RESOURCES := Dict(Entry("Font", Dict(Entry("F1", Ref(3), NoEntries)), NoEntries))

  function ContentNumber(p: nat): nat { 4 + 2 * p }

  function PageNumber(p: nat): nat { 5 + 2 * p }

  function KidsFrom(p: nat, n: nat): Items
    requires p <= n
    decreases n - p
  {
    if p == n then NoItems else Item(Ref(PageNumber(p)), KidsFrom(p + 1, n))
  }

  function PagesObj(n: nat): Obj {
    Dict(Entry("Type", Name("Pages"), Entry("Kids", Arr(KidsFrom(0, n)), Entry("Count", Num(n), NoEntries))))
  }

  function PageObj(content: nat): Obj {
    Dict(Entry("Type", Name("Page"), Entry("Parent", Ref(2), Entry("MediaBox", MEDIA_BOX,
      Entry("Resources", RESOURCES, Entry("Contents", Ref(content), NoEntries))))))
  }

  function PageStream(w: Writer, pages: seq<seq<string>>, p: nat): string
    requires p < |pages|
  {
    PageContent(w, p, pages[p], 0, TOP)
  }

  /** Object number i + 1 of the document. */
  function BodyAt(w: Writer, pages: seq<seq<string>>, i: nat): Body
    requires i < 3 + 2 * |pages|
  {
    if i == 0 then Plain(CATALOG)
    else if i == 1 then Plain(PagesObj(|pages|))
    else if i == 2 then Plain(FONT)
    else if i % 2 == 1 then Stream(PageStream(w, pages, (i - 3) / 2))
    else Plain(PageObj(i))
  }

  function Bodies(w: Writer, pages: seq<seq<string>>): (bodies: seq<Body>)
    ensures |bodies| == 3 + 2 * |pages|
    ensures forall i :: 0 <= i < |bodies| ==> bodies[i] == BodyAt(w, pages, i)
  {
    seq(3 + 2 * |pages|, i requires 0 <= i < 3 + 2 * |pages| => BodyAt(w, pages, i))
  }

  function PdfText(w: Writer, pages: seq<seq<string>>): string { FileText(ShowAll(Bodies(w, pages))) }

  // ----- reading the document -----

  function ReadDict(pdf: string, x: Xref, number: nat): Option<Entries> {
    match ReadBody(pdf, x, number)
    case Some(Plain(Dict(entries))) => Some(entries)
    case _ => None
  }

  predicate HasType(entries: Entries, kind: string) { Find(entries, "Type") == Some(Name(kind)) }

  function CountItems(items: Items): nat { if items.NoItems? then 0 else 1 + CountItems(items.tail) }

  /** The page's resources name a font object under `F1`. */
  predicate FontFound(pdf: string, x: Xref, page: Entries) {
    match Find(page, "Resources")
    case Some(Dict(resources)) =>
      (match Find(resources, "Font")
       case Some(Dict(fonts)) =>
         (match Find(fonts, "F1")
          case Some(Ref(f)) => ReadDict(pdf, x, f).Some? && HasType(ReadDict(pdf, x, f).value, "Font")
          case _ => false)
       case _ => false)
    case _ => false
  }

  /** The contents a page dictionary names, if it is a page of the given parent. */
  function ContentsOf(page: Entries, parent: nat): Option<nat> {
    if !HasType(page, "Page") || Find(page, "Parent") != Some(Ref(parent)) || Find(page, "MediaBox") != Some(MEDIA_BOX)
    then None
    else match Find(page, "Contents")
      case Some(Ref(c)) => Some(c)
      case _ => None
  }

  function ReadPage(pdf: string, x: Xref, parent: nat, number: nat): Option<seq<Shown>> {
    match ReadDict(pdf, x, number)
    case None => None
    case Some(page) =>
      match ContentsOf(page, parent)
      case None => None
      case Some(c) =>
        match ReadBody(pdf, x, c)
        case Some(Stream(data)) => if FontFound(pdf, x, page) then ReadContent(data) else None
        case _ => None
  }

  function ReadKids(pdf: string, x: Xref, parent: nat, kids: Items): Option<seq<seq<Shown>>> {
    match kids
    case NoItems => Some([])
    case Item(Ref(number), tail) =>
      (match (ReadPage(pdf, x, parent, number), ReadKids(pdf, x, parent, tail))
       case (Some(page), Some(more)) => Some([page] + more)
       case _ => None)
    case _ => None
  }

  function ReadPageTree(pdf: string, x: Xref, number: nat): Option<seq<seq<Shown>>> {
    match ReadDict(pdf, x, number)
    case None => None
    case Some(tree) =>
      if !HasType(tree, "Pages") then None
      else match Find(tree, "Kids")
        case Some(Arr(kids)) =>
          if Find(tree, "Count") == Some(Num(CountItems(kids))) then ReadKids(pdf, x, number, kids) else None
        case _ => None
  }

  /** What a viewer shows, page by page. */
  function ReadDocument(pdf: string): Option<seq<seq<Shown>>> {
    match ReadXref(pdf)
    case None => None
    case Some(x) =>
      match ReadDict(pdf, x, x.root)
      case None => None
      case Some(catalog) =>
        if !HasType(catalog, "Catalog") then None
        else match Find(catalog, "Pages")
          case Some(Ref(tree)) => ReadPageTree(pdf, x, tree)
          case _ => None
  }

  // ----- the document comes back -----

  lemma {:induction false} KidsValid(p: nat, n: nat)
    requires p <= n
    ensures ValidItems(KidsFrom(p, n)) && CountItems(KidsFrom(p, n)) == n - p
    decreases n - p
  {
    if p < n { KidsValid(p + 1, n); }
  }

  lemma EntryValid(key: string, value: Obj, tail: Entries)
    requires IsToken(key) && ValidObj(value) && ValidEntries(tail)
    ensures ValidEntries(Entry(key, value, tail)) && ValidObj(Dict(Entry(key, value, tail)))
  {
  }

  lemma TypeNames()
    ensures IsToken("Type") && IsToken("Page") && IsToken("Font") && IsToken("Subtype") && IsToken("Type1")
    ensures ValidEntries(NoEntries)
  {
  }

  lemma PagesNames()
    ensures IsToken("Pages") && IsToken("Kids") && IsToken("Count")
  {
  }

  lemma FontNames()
    ensures IsToken("BaseFont") && IsToken("Helvetica")
  {
  }

  lemma PageNames()
    ensures IsToken("Parent") && IsToken("Contents")
  {
  }

  lemma PartNames()
    ensures IsToken("MediaBox") && IsToken("Resources")
  {
  }

  lemma ResourcesValid()
    ensures ValidObj(RESOURCES)
  {
    EntryValid("F1", Ref(3), NoEntries);
    EntryValid("Font", Dict(Entry("F1", Ref(3), NoEntries)), NoEntries);
  }

  lemma MediaBoxValid()
    ensures ValidObj(MEDIA_BOX)
  {
    assert ValidItems(Item(Num(612), Item(Num(842), NoItems)));
  }

  lemma PageObjValid(content: nat)
    ensures ValidObj(PageObj(content))
  {
    hide RESOURCES, MEDIA_BOX, IsToken, ValidEntries;
    TypeNames();
    PageNames();
    PartNames();
    MediaBoxValid();
    ResourcesValid();
    var contents := Entry("Contents", Ref(content), NoEntries);
    var resources := Entry("Resources", RESOURCES, contents);
    var mediaBox := Entry("MediaBox", MEDIA_BOX, resources);
    EntryValid("Contents", Ref(content), NoEntries);
    EntryValid("Resources", RESOURCES, contents);
    EntryValid("MediaBox", MEDIA_BOX, resources);
    EntryValid("Parent", Ref(2), mediaBox);
    EntryValid("Type", Name("Page"), Entry("Parent", Ref(2), mediaBox));
  }

  lemma CatalogValid()
    ensures ValidObj(CATALOG)
  {
    EntryValid("Pages", Ref(2), NoEntries);
    EntryValid("Type", Name("Catalog"), Entry("Pages", Ref(2), NoEntries));
  }

  lemma FontValid()
    ensures ValidObj(FONT)
  {
    hide IsToken, ValidEntries;
    TypeNames();
    FontNames();
    var base := Entry("BaseFont", Name("Helvetica"), NoEntries);
    EntryValid("BaseFont", Name("Helvetica"), NoEntries);
    EntryValid("Subtype", Name("Type1"), base);
    EntryValid("Type", Name("Font"), Entry("Subtype", Name("Type1"), base));
  }

  lemma PagesObjValid(n: nat)
    ensures ValidObj(PagesObj(n))
  {
    hide KidsFrom, IsToken, ValidEntries;
    TypeNames();
    PagesNames();
    KidsValid(0, n);
    var count := Entry("Count", Num(n), NoEntries);
    EntryValid("Count", Num(n), NoEntries);
    EntryValid("Kids", Arr(KidsFrom(0, n)), count);
    EntryValid("Type", Name("Pages"), Entry("Kids", Arr(KidsFrom(0, n)), count));
  }

  lemma BodiesValid(w: Writer, pages: seq<seq<string>>)
    ensures AllValid(Bodies(w, pages))
  {
    hide ValidObj, PagesObj, PageObj, CATALOG, FONT, PageStream;
    forall i | 0 <= i < 3 + 2 * |pages| ensures ValidBody(Bodies(w, pages)[i]) {
      CatalogValid();
      FontValid();
      PageObjValid(i);
      PagesObjValid(|pages|);
    }
  }

  /** The writer's output fits: every offset is below ten billion. */
  ghost predicate Fits(w: Writer, pages: seq<seq<string>>) { Small(ShowAll(Bodies(w, pages))) }

  ghost function TableOf(w: Writer, pages: seq<seq<string>>): Xref {
    var texts := ShowAll(Bodies(w, pages));
    Xref(TableText(texts, |texts| + 1), |texts| + 1, 1)
  }

  lemma TableFound(w: Writer, pages: seq<seq<string>>)
    requires Fits(w, pages)
    ensures ReadXref(PdfText(w, pages)) == Some(TableOf(w, pages))
  {
    hide FileText, Prefix, TableText, ShowAll, Small, ReadXref;
    XrefBack(ShowAll(Bodies(w, pages)));
  }

  lemma ObjectBack(w: Writer, pages: seq<seq<string>>, number: nat)
    requires Fits(w, pages) && 0 < number <= 3 + 2 * |pages|
    ensures ReadBody(PdfText(w, pages), TableOf(w, pages), number) == Some(BodyAt(w, pages, number - 1))
  {
    hide FileText, Prefix, TableText, ShowAll, Small, ReadXref, ReadBody, ValidBody, AllValid;
    BodiesValid(w, pages);
    EveryObjectBack(Bodies(w, pages), number - 1);
    TableFound(w, pages);
  }

  lemma CatalogFinds()
    ensures CATALOG.Dict?
    ensures Find(CATALOG.entries, "Type") == Some(Name("Catalog")) && Find(CATALOG.entries, "Pages") == Some(Ref(2))
  {
    assert Find(Entry("Pages", Ref(2), NoEntries), "Pages") == Some(Ref(2));
  }

  lemma PagesFinds(n: nat)
    ensures PagesObj(n).Dict?
    ensures var tree := PagesObj(n).entries;
            && Find(tree, "Type") == Some(Name("Pages")) && Find(tree, "Kids") == Some(Arr(KidsFrom(0, n)))
            && Find(tree, "Count") == Some(Num(n))
  {
    hide KidsFrom;
    var count := Entry("Count", Num(n), NoEntries);
    assert Find(count, "Count") == Some(Num(n));
    assert Find(Entry("Kids", Arr(KidsFrom(0, n)), count), "Count") == Some(Num(n));
    assert Find(Entry("Kids", Arr(KidsFrom(0, n)), count), "Kids") == Some(Arr(KidsFrom(0, n)));
  }

  lemma FindSkips(entry: string, value: Obj, tail: Entries, key: string)
    requires entry != key
    ensures Find(Entry(entry, value, tail), key) == Find(tail, key)
  {
  }

  lemma PageFinds(content: nat)
    ensures PageObj(content).Dict?
    ensures var page := PageObj(content).entries;
            && HasType(page, "Page") && Find(page, "Parent") == Some(Ref(2))
            && Find(page, "MediaBox") == Some(MEDIA_BOX) && Find(page, "Resources") == Some(RESOURCES)
            && Find(page, "Contents") == Some(Ref(content))
  {
    hide MEDIA_BOX, RESOURCES;
    var contents := Entry("Contents", Ref(content), NoEntries);
    var resources := Entry("Resources", RESOURCES, contents);
    var mediaBox := Entry("MediaBox", MEDIA_BOX, resources);
    var parent := Entry("Parent", Ref(2), mediaBox);
    FindSkips("Resources", RESOURCES, contents, "Contents");
    FindSkips("MediaBox", MEDIA_BOX, resources, "Contents");
    FindSkips("Parent", Ref(2), mediaBox, "Contents");
    FindSkips("Type", Name("Page"), parent, "Contents");
    FindSkips("MediaBox", MEDIA_BOX, resources, "Resources");
    FindSkips("Parent", Ref(2), mediaBox, "Resources");
    FindSkips("Type", Name("Page"), parent, "Resources");
    FindSkips("Parent", Ref(2), mediaBox, "MediaBox");
    FindSkips("Type", Name("Page"), parent, "MediaBox");
    FindSkips("Type", Name("Page"), parent, "Parent");
  }

  lemma PageContentsOf(content: nat)
    ensures PageObj(content).Dict? && ContentsOf(PageObj(content).entries, 2) == Some(content)
  {
    hide MEDIA_BOX, Find, PageObj, RESOURCES;
    PageFinds(content);
  }

  lemma FontIsFound(w: Writer, pages: seq<seq<string>>, content: nat)
    requires Fits(w, pages)
    ensures FontFound(PdfText(w, pages), TableOf(w, pages), PageObj(content).entries)
  {
    hide ReadBody, PdfText, TableOf, Fits, PageObj;
    PageFinds(content);
    ObjectBack(w, pages, 3);
    assert Find(RESOURCES.entries, "Font") == Some(Dict(Entry("F1", Ref(3), NoEntries)));
    assert Find(Entry("F1", Ref(3), NoEntries), "F1") == Some(Ref(3));
    assert Find(FONT.entries, "Type") == Some(Name("Font"));
  }

  function PageSeen(w: Writer, pages: seq<seq<string>>, p: nat): seq<Shown>
    requires p < |pages|
  {
    PageShown(w, p, pages[p], 0, TOP)
  }

  lemma PageBodies(w: Writer, pages: seq<seq<string>>, p: nat)
    requires p < |pages|
    ensures BodyAt(w, pages, PageNumber(p) - 1) == Plain(PageObj(ContentNumber(p)))
    ensures BodyAt(w, pages, ContentNumber(p) - 1) == Stream(PageStream(w, pages, p))
  {
    hide PageObj, PageStream;
  }

  lemma StreamBackSeen(w: Writer, pages: seq<seq<string>>, p: nat)
    requires PagesClean(pages) && p < |pages|
    ensures ReadContent(PageStream(w, pages, p)) == Some(PageSeen(w, pages, p))
  {
    hide Clean, PageContent, PageShown, Tokens, Interpret;
    ContentBack(w, p, pages[p], 0, TOP, START);
  }

  lemma PageDict(w: Writer, pages: seq<seq<string>>, p: nat)
    requires Fits(w, pages) && p < |pages|
    ensures PageObj(ContentNumber(p)).Dict?
    ensures ReadDict(PdfText(w, pages), TableOf(w, pages), PageNumber(p)) == Some(PageObj(ContentNumber(p)).entries)
  {
    hide ReadBody, PdfText, TableOf, Fits, PageObj, Find, BodyAt, PageStream;
    ObjectBack(w, pages, PageNumber(p));
    PageBodies(w, pages, p);
    PageFinds(ContentNumber(p));
  }

  lemma PageBack(w: Writer, pages: seq<seq<string>>, p: nat)
    requires PagesClean(pages) && Fits(w, pages) && p < |pages|
    ensures ReadPage(PdfText(w, pages), TableOf(w, pages), 2, PageNumber(p)) == Some(PageSeen(w, pages, p))
  {
    hide ReadDict, ReadBody, PdfText, TableOf, Fits, PageObj, ContentsOf, FontFound, BodyAt, PageStream, PageSeen;
    hide PagesClean, ReadContent;
    var c := ContentNumber(p);
    PageDict(w, pages, p);
    PageBodies(w, pages, p);
    PageContentsOf(c);
    FontIsFound(w, pages, c);
    StreamBackSeen(w, pages, p);
    ObjectBack(w, pages, c);
  }

  function SeenFrom(w: Writer, pages: seq<seq<string>>, p: nat): (seen: seq<seq<Shown>>)
    requires p <= |pages|
    ensures |seen| == |pages| - p
    ensures forall q :: p <= q < |pages| ==> seen[q - p] == PageSeen(w, pages, q)
    decreases |pages| - p
  {
    if p == |pages| then [] else [PageSeen(w, pages, p)] + SeenFrom(w, pages, p + 1)
  }

  lemma {:induction false} KidsBack(w: Writer, pages: seq<seq<string>>, p: nat)
    requires PagesClean(pages) && Fits(w, pages) && p <= |pages|
    ensures ReadKids(PdfText(w, pages), TableOf(w, pages), 2, KidsFrom(p, |pages|)) == Some(SeenFrom(w, pages, p))
    decreases |pages| - p
  {
    hide PdfText, TableOf, Fits, ReadPage, PageSeen, PagesClean;
    if p < |pages| {
      PageBack(w, pages, p);
      KidsBack(w, pages, p + 1);
    }
  }

  /** For any pages of clean lines whose file fits, a reader that knows only the file's bytes recovers every page: every
      non-blank line in order, with its font size and its position. */
  lemma DocumentBack(w: Writer, pages: seq<seq<string>>)
    requires PagesClean(pages) && Fits(w, pages)
    ensures ReadDocument(PdfText(w, pages)) == Some(SeenFrom(w, pages, 0))
  {
    hide ReadBody, ReadXref, PdfText, Fits, PagesObj, Find, CATALOG, KidsFrom, ReadKids, SeenFrom, PagesClean, TableText, ShowAll;
    TableFound(w, pages);
    ObjectBack(w, pages, 1);
    ObjectBack(w, pages, 2);
    CatalogFinds();
    PagesFinds(|pages|);
    KidsValid(0, |pages|);
    KidsBack(w, pages, 0);
  }

  // ----- and so does the text -----

  function NonBlank(lines: seq<string>): seq<string> {
    if lines == [] then [] else (if lines[0] == "" then [] else [lines[0]]) + NonBlank(lines[1..])
  }

  function Texts(shown: seq<Shown>): seq<string> { if shown == [] then [] else [shown[0].text] + Texts(shown[1..]) }

  lemma {:induction false} NonBlankConcat(a: seq<string>, b: seq<string>)
    ensures NonBlank(a + b) == NonBlank(a) + NonBlank(b)
    decreases |a|
  {
    if a == [] {
      assert a + b == b;
    } else {
      assert (a + b)[1..] == a[1..] + b;
      NonBlankConcat(a[1..], b);
    }
  }

  lemma {:induction false} TextsConcat(a: seq<Shown>, b: seq<Shown>)
    ensures Texts(a + b) == Texts(a) + Texts(b)
    decreases |a|
  {
    if a == [] {
      assert a + b == b;
    } else {
      assert (a + b)[1..] == a[1..] + b;
      TextsConcat(a[1..], b);
    }
  }

  lemma {:induction false} PageTexts(w: Writer, page: nat, lines: seq<string>, index: nat, y: int)
    requires index <= |lines|
    ensures Texts(PageShown(w, page, lines, index, y)) == NonBlank(lines[index..])
    decreases |lines| - index
  {
    hide FontSize, Leading, ShowInt;
    if index < |lines| {
      var more := lines[index + 1..];
      assert lines[index..][1..] == more;
      if lines[index] == "" {
        PageTexts(w, page, lines, index + 1, y - 8);
      } else {
        var y' := y - Leading(w, page, index, lines[index]);
        PageTexts(w, page, lines, index + 1, y');
        assert PageShown(w, page, lines, index, y)[1..] == PageShown(w, page, lines, index + 1, y');
      }
    }
  }

  lemma {:induction false} SeenTexts(w: Writer, pages: seq<seq<string>>, p: nat)
    requires p <= |pages|
    ensures Texts(Flatten(SeenFrom(w, pages, p))) == NonBlank(Flatten(pages[p..]))
    decreases |pages| - p
  {
    hide PageShown;
    if p < |pages| {
      var tail := SeenFrom(w, pages, p + 1);
      SeenTexts(w, pages, p + 1);
      PageTexts(w, p, pages[p], 0, TOP);
      assert pages[p][0..] == pages[p];
      assert SeenFrom(w, pages, p)[1..] == tail;
      assert pages[p..][1..] == pages[p + 1..];
      TextsConcat(PageSeen(w, pages, p), Flatten(tail));
      NonBlankConcat(pages[p], Flatten(pages[p + 1..]));
    }
  }

  /** A file under ten billion characters fits. */
  lemma ShortFits(w: Writer, pages: seq<seq<string>>)
    requires |PdfText(w, pages)| < 10_000_000_000
    ensures Fits(w, pages)
  {
    hide FileText, Prefix, ShowAll, Bodies;
    var texts := ShowAll(Bodies(w, pages));
    FileHasPrefix(texts, |texts|);
  }

  /** The document a writer makes of its source lines. */
  function Document(w: Writer, lines: seq<string>): string { PdfText(w, Chunks(Printed(lines))) }

  /** End to end, for any source lines whose file stays under ten billion bytes: the text a reader shows is exactly the
      wrapped lines, in order, the blank ones aside. */
  lemma TextBack(w: Writer, lines: seq<string>)
    requires |Document(w, lines)| < 10_000_000_000
    ensures ReadDocument(Document(w, lines)).Some?
    ensures Texts(Flatten(ReadDocument(Document(w, lines)).value)) == NonBlank(Printed(lines))
  {
    hide ReadDocument, PdfText, Fits, PagesClean, AllClean, Printed, Chunks, SeenFrom;
    var pages := Chunks(Printed(lines));
    ShortFits(w, pages);
    PrintedClean(lines);
    ChunksClean(Printed(lines));
    ChunksFlatten(Printed(lines));
    DocumentBack(w, pages);
    SeenTexts(w, pages, 0);
    assert pages[0..] == pages;
  }

  /** What a reader finds in a page: the media box 612 by 842, and Helvetica, a Type 1 font, under the name the text
      uses. */
  lemma PageSays(content: nat)
    ensures PageObj(content).Dict? && FONT.Dict? && RESOURCES.Dict?
    ensures Find(PageObj(content).entries, "MediaBox") == Some(Arr(Item(Num(0), Item(Num(0), Item(Num(612), Item(Num(842), NoItems))))))
    ensures Find(FONT.entries, "Subtype") == Some(Name("Type1")) && Find(FONT.entries, "BaseFont") == Some(Name("Helvetica"))
    ensures Find(PageObj(content).entries, "Resources") == Some(Dict(Entry("Font", Dict(Entry("F1", Ref(3), NoEntries)), NoEntries)))
  {
    PageFinds(content);
    hide PageObj;
    var base := Entry("BaseFont", Name("Helvetica"), NoEntries);
    var sub := Entry("Subtype", Name("Type1"), base);
    FindSkips("Type", Name("Font"), sub, "Subtype");
    FindSkips("Type", Name("Font"), sub, "BaseFont");
    FindSkips("Subtype", Name("Type1"), base, "BaseFont");
  }
}
