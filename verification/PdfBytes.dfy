/** Positions in the file text are positions in the file: every character written is one byte of UTF-8. */
module PdfBytes {
  import opened Decimals
  import opened TextWrap
  import opened PdfSyntax
  import opened PdfContent
  import opened PdfFile
  import opened PdfDocument

  predicate Ascii(s: string) { forall i :: 0 <= i < |s| ==> s[i] as int < 128 }

  /** Bytes of UTF-8 a character takes. */
  function Utf8Width(c: char): nat {
    if c as int < 0x80 then 1 else if c as int < 0x800 then 2 else if c as int < 0x1_0000 then 3 else 4
  }

  function Utf8Length(s: string): nat { if s == "" then 0 else Utf8Length(s[..|s| - 1]) + Utf8Width(s[|s| - 1]) }

  lemma {:induction false} AsciiIsOneByteEach(s: string)
    requires Ascii(s)
    ensures Utf8Length(s) == |s|
  {
    if s != "" { AsciiIsOneByteEach(s[..|s| - 1]); }
  }

  // ----- objects -----

  lemma {:induction false} ShowAscii(o: Obj)
    requires ValidObj(o)
    ensures Ascii(Show(o))
  {
    hide Dec;
    match o
    case Num(_) =>
    case Name(_) =>
    case Ref(_) =>
    case Arr(items) => ItemsAscii(items);
    case Dict(entries) => EntriesAscii(entries);
  }

  lemma {:induction false} ItemsAscii(items: Items)
    requires ValidItems(items)
    ensures Ascii(ShowItems(items))
  {
    if items.Item? {
      ShowAscii(items.head);
      ItemsAscii(items.tail);
    }
  }

  lemma {:induction false} EntriesAscii(entries: Entries)
    requires ValidEntries(entries)
    ensures Ascii(ShowEntries(entries))
  {
    if entries.Entry? {
      ShowAscii(entries.value);
      EntriesAscii(entries.tail);
    }
  }

  // ----- contents -----

  lemma {:induction false} EscapeAscii(s: string)
    requires Ascii(s)
    ensures Ascii(EscapeEach(s))
    decreases |s|
  {
    if s != "" { EscapeAscii(s[1..]); }
  }

  lemma CommandAscii(size: string, y: int, line: string)
    requires Ascii(size)
    ensures Ascii(Command(size, y, line))
  {
    hide SafeText, EscapeEach, ReplaceChar;
    SafeTextCleans(line);
    ThreeReplacesEscapeEach(SafeText(line));
    EscapeAscii(SafeText(line));
    assert Ascii(ShowInt(y));
    hide ShowInt;
  }

  lemma {:induction false} ContentAscii(w: Writer, page: nat, lines: seq<string>, index: nat, y: int)
    requires index <= |lines|
    ensures Ascii(PageContent(w, page, lines, index, y))
    decreases |lines| - index
  {
    hide Command, Heading, ShowInt;
    if index < |lines| {
      var line := lines[index];
      CommandAscii(FontSize(w, page, index, line), y, line);
      ContentAscii(w, page, lines, index + 1, if line == "" then y - 8 else y - Leading(w, page, index, line));
    }
  }

  lemma BodyAscii(w: Writer, pages: seq<seq<string>>, i: nat)
    requires i < 3 + 2 * |pages|
    ensures Ascii(ShowBody(BodyAt(w, pages, i)))
  {
    hide PageContent, PageObj, PagesObj, CATALOG, FONT, Show, ValidObj;
    BodiesValid(w, pages);
    if i >= 3 && i % 2 == 1 {
      var p := (i - 3) / 2;
      var data := PageStream(w, pages, p);
      ContentAscii(w, p, pages[p], 0, TOP);
      StreamDictValid(|data|);
      ShowAscii(StreamDict(|data|));
    } else {
      ShowAscii(BodyAt(w, pages, i).o);
    }
  }

  lemma StreamDictValid(n: nat)
    ensures ValidObj(StreamDict(n))
  {
    EntryValid("Length", Num(n), NoEntries);
  }

  lemma TrailerValid(n: nat)
    ensures ValidObj(Trailer(n))
  {
    hide IsToken, ValidEntries;
    TrailerNames();
    TypeNames();
    var root := Entry("Root", Ref(1), NoEntries);
    EntryValid("Root", Ref(1), NoEntries);
    EntryValid("Size", Num(n), root);
  }

  lemma TrailerNames()
    ensures IsToken("Root") && IsToken("Size")
  {
  }

  // ----- the file -----

  predicate AllAscii(bodies: seq<string>) { forall i :: 0 <= i < |bodies| ==> Ascii(bodies[i]) }

  lemma {:induction false} PrefixAscii(bodies: seq<string>, i: nat)
    requires AllAscii(bodies) && i <= |bodies|
    ensures Ascii(Prefix(bodies, i))
  {
    if i > 0 { PrefixAscii(bodies, i - 1); }
  }

  lemma EntryAscii(bodies: seq<string>, i: nat)
    requires i <= |bodies|
    ensures Ascii(EntryText(bodies, i))
  {
    hide Prefix;
  }

  lemma {:induction false} TableAscii(bodies: seq<string>, k: nat)
    requires k <= |bodies| + 1
    ensures Ascii(TableText(bodies, k))
  {
    hide Prefix, EntryText;
    if k > 0 {
      EntryAscii(bodies, k - 1);
      TableAscii(bodies, k - 1);
    }
  }

  lemma FileAscii(bodies: seq<string>)
    requires AllAscii(bodies)
    ensures Ascii(FileText(bodies))
  {
    hide Prefix, TableText, Show;
    PrefixAscii(bodies, |bodies|);
    TableAscii(bodies, |bodies| + 1);
    TrailerValid(|bodies| + 1);
    ShowAscii(Trailer(|bodies| + 1));
  }

  /** Whatever the source lines contain, cutting the written file after k characters is cutting it after k bytes; so the
      offsets, the table's position and the stream lengths, all counted in characters, are byte counts. */
  lemma PositionsAreBytes(w: Writer, lines: seq<string>, k: nat)
    requires k <= |Document(w, lines)|
    ensures Utf8Length(Document(w, lines)[..k]) == k
  {
    hide BodyAt, ShowBody, FileText, Chunks, Printed, Utf8Length;
    var pages := Chunks(Printed(lines));
    var texts := ShowAll(Bodies(w, pages));
    forall i | 0 <= i < |texts| ensures Ascii(texts[i]) { BodyAscii(w, pages, i); }
    FileAscii(texts);
    AsciiIsOneByteEach(Document(w, lines)[..k]);
  }
}
