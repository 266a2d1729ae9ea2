/** Where on the page each line lands: when every line of a page stays on it, and a report whose lines do not. */
module PdfHeights {
  import opened Basics
  import opened Decimals
  import opened TextWrap
  import opened PdfContent
  import opened PdfDocument
  import PdfWriter

  // ----- heights -----

  /** How far a line moves the pen down. */
  function Drop(w: Writer, page: nat, index: nat, line: string): nat { if line == "" then 8 else Leading(w, page, index, line) }

  /** The height of line `index`: the top less what the lines before it take. */
  function Height(w: Writer, page: nat, lines: seq<string>, index: nat): int
    requires index <= |lines|
  {
    if index == 0 then TOP else Height(w, page, lines, index - 1) - Drop(w, page, index - 1, lines[index - 1])
  }

  lemma {:induction false} HeightsFall(w: Writer, page: nat, lines: seq<string>, i: nat, k: nat)
    requires i <= k <= |lines|
    ensures Height(w, page, lines, k) <= Height(w, page, lines, i) <= TOP
  {
    hide Drop;
    if i < k {
      HeightsFall(w, page, lines, i, k - 1);
    } else if i > 0 {
      HeightsFall(w, page, lines, i - 1, k - 1);
    }
  }

  /** A shown line stands on the page: its height is written as a number from 1 to the top. */
  ghost predicate OnPage(shown: Shown) { exists y: int :: 1 <= y <= TOP && shown.y == ShowInt(y) }

  ghost predicate AllOnPage(shown: seq<Shown>) { forall i :: 0 <= i < |shown| ==> OnPage(shown[i]) }

  lemma HeightWritten(shown: Shown, h: int)
    requires shown.y == ShowInt(h) && h <= TOP
    ensures OnPage(shown) <==> h >= 1
  {
    hide Dec;
    if OnPage(shown) {
      var y: int :| 1 <= y <= TOP && shown.y == ShowInt(y);
      assert Dec(y)[0] != '-';
      if h >= 0 { DecInjective(y, h); }
    }
  }

  /** The lines of a page that show something. */
  predicate LowOnes(w: Writer, page: nat, lines: seq<string>, from: nat)
    requires from <= |lines|
  {
    forall i :: from <= i < |lines| && lines[i] != "" ==> Height(w, page, lines, i) >= 1
  }

  lemma OneMore(head: Shown, tail: seq<Shown>)
    ensures AllOnPage([head] + tail) <==> OnPage(head) && AllOnPage(tail)
  {
    hide OnPage;
    var all := [head] + tail;
    assert all[0] == head && forall i :: 0 <= i < |tail| ==> all[i + 1] == tail[i];
  }

  lemma {:induction false} ShownFrom(w: Writer, page: nat, lines: seq<string>, index: nat)
    requires index <= |lines|
    ensures AllOnPage(PageShown(w, page, lines, index, Height(w, page, lines, index))) <==> LowOnes(w, page, lines, index)
    decreases |lines| - index
  {
    hide OnPage, ShowInt, AllOnPage, Leading, FontSize;
    if index < |lines| {
      var line, h := lines[index], Height(w, page, lines, index);
      ShownFrom(w, page, lines, index + 1);
      if line != "" {
        var shown := Shown("F1", FontSize(w, page, index, line), "54", ShowInt(h), line);
        HeightsFall(w, page, lines, index, index);
        HeightWritten(shown, h);
        OneMore(shown, PageShown(w, page, lines, index + 1, h - Leading(w, page, index, line)));
      }
    } else {
      assert AllOnPage([]) by { NothingShown(); }
    }
  }

  lemma NothingShown()
    ensures AllOnPage([])
  {
  }

  /** How many lines a page has up to its last one that is not blank. */
  function Shows(lines: seq<string>): (n: nat)
    ensures n <= |lines| && (n > 0 ==> lines[n - 1] != "") && forall i :: n <= i < |lines| ==> lines[i] == ""
  {
    if lines == [] then 0 else if lines[|lines| - 1] != "" then |lines| else Shows(lines[..|lines| - 1])
  }

  /** For both writers and every page: every line shown stands on the page exactly when the last line that is not blank does,
      that is when the drops before it leave at least 1 of the 792. */
  lemma StaysOnPageExactly(w: Writer, page: nat, lines: seq<string>)
    ensures AllOnPage(PageShown(w, page, lines, 0, TOP))
            <==> Shows(lines) == 0 || Height(w, page, lines, Shows(lines) - 1) >= 1
  {
    hide PageShown, AllOnPage, Drop;
    ShownFrom(w, page, lines, 0);
    var n := Shows(lines);
    if n > 0 {
      forall i | 0 <= i < |lines| && lines[i] != ""
        ensures Height(w, page, lines, n - 1) <= Height(w, page, lines, i)
      {
        HeightsFall(w, page, lines, i, n - 1);
      }
    }
  }

  // ----- sizes and drops, written out -----

  /** A numbered heading, or one of the two fixed ones. */
  predicate HeadingText(line: string) {
    || line == "Final Report" || line == "Report Signatures"
    || exists k :: 0 < k < |line| && line[k] == '.' && forall i :: 0 <= i < k ==> '0' <= line[i] <= '9'
  }

  lemma HeadingMeans(line: string)
    ensures Heading(line) <==> HeadingText(line)
  {
    var n := DigitRun(line);
    if HeadingText(line) && line != "Final Report" && line != "Report Signatures" {
      var k :| 0 < k < |line| && line[k] == '.' && forall i :: 0 <= i < k ==> '0' <= line[i] <= '9';
      assert forall i :: 0 <= i < n ==> IsDigit(line[i]) by { assert forall i :: 0 <= i < n ==> line[i] == line[..n][i]; }
      assert n < |line| ==> !IsDigit(line[n]);
      assert n == k;
    }
    if 0 < n < |line| && line[n] == '.' {
      assert forall i :: 0 <= i < n ==> line[i] == line[..n][i];
    }
  }

  /** The first line of a document is set in 18 and takes 24; a heading of a Final Report is set in 13 and takes 20; any other line
      takes 14, in 10 or, in a Final Report, in 9.5; a blank line takes 8. */
  lemma LayoutMeans(w: Writer, page: nat, index: nat, line: string)
    ensures var first, heading := page == 0 && index == 0, w == FinalReport && HeadingText(line);
            && FontSize(w, page, index, line)
                 == (if first then "18" else if heading then "13" else if w == FinalReport then "9.5" else "10")
            && Drop(w, page, index, line) == (if line == "" then 8 else if first then 24 else if heading then 20 else 14)
  {
    HeadingMeans(line);
    hide Heading, HeadingText;
  }

  lemma StartsAtTop(w: Writer, page: nat, lines: seq<string>)
    ensures Height(w, page, lines, 0) == 792 && LINE == 96 && PAGE == 43
  {
  }

  // ----- a bound by the number of headings -----

  function HeadingsIn(w: Writer, lines: seq<string>): nat {
    if lines == [] then 0 else HeadingsIn(w, lines[..|lines| - 1]) + if w.FinalReport? && Heading(lines[|lines| - 1]) then 1 else 0
  }

  lemma {:induction false} HeadingsGrow(w: Writer, lines: seq<string>, k: nat)
    requires k <= |lines|
    ensures HeadingsIn(w, lines[..k]) <= HeadingsIn(w, lines)
    decreases |lines| - k
  {
    hide Heading;
    if k < |lines| {
      assert lines[..k + 1][..k] == lines[..k];
      HeadingsGrow(w, lines, k + 1);
    } else {
      assert lines[..k] == lines;
    }
  }

  lemma {:induction false} HeightBounded(w: Writer, page: nat, lines: seq<string>, k: nat)
    requires k <= |lines|
    ensures Height(w, page, lines, k) >= TOP - 10 - 14 * k - 6 * HeadingsIn(w, lines[..k])
    ensures k == 0 ==> Height(w, page, lines, k) == TOP
  {
    hide Heading;
    if k > 0 {
      HeightBounded(w, page, lines, k - 1);
      assert lines[..k][..k - 1] == lines[..k - 1];
    }
  }

  lemma {:induction false} NoWorkspaceHeadings(lines: seq<string>)
    ensures HeadingsIn(Workspace, lines) == 0
  {
    if lines != [] { NoWorkspaceHeadings(lines[..|lines| - 1]); }
  }

  /** So lines always stay on the page with the workspace writer, and with the Final Report writer whenever a page has at most
      32 headings. */
  lemma LinesStayOnPage(w: Writer, page: nat, lines: seq<string>)
    requires |lines| <= PAGE && (w.Workspace? || HeadingsIn(w, lines) <= 32)
    ensures AllOnPage(PageShown(w, page, lines, 0, TOP))
  {
    hide PageShown, AllOnPage, Heading, Height;
    StaysOnPageExactly(w, page, lines);
    NoWorkspaceHeadings(lines);
    var n := Shows(lines);
    if n > 0 {
      HeightBounded(w, page, lines, n - 1);
      HeadingsGrow(w, lines, n - 1);
    }
  }

  // ----- whole documents -----

  /** The condition for a whole document, on the lines it is made of. */
  predicate PagesHold(w: Writer, pages: seq<seq<string>>) {
    forall p :: 0 <= p < |pages| ==> Shows(pages[p]) == 0 || Height(w, p, pages[p], Shows(pages[p]) - 1) >= 1
  }

  ghost predicate AllPagesOnPage(seen: seq<seq<Shown>>) { forall p :: 0 <= p < |seen| ==> AllOnPage(seen[p]) }

  /** For any source lines: what a reader of the written file shows stays on its pages exactly when the pages hold. */
  lemma DocumentStaysOnPages(w: Writer, lines: seq<string>)
    requires |Document(w, lines)| < 10_000_000_000
    ensures ReadDocument(Document(w, lines)).Some?
    ensures AllPagesOnPage(ReadDocument(Document(w, lines)).value) <==> PagesHold(w, Chunks(Printed(lines)))
  {
    hide ReadDocument, PdfText, Printed, Chunks, AllOnPage, Height, Shows, PageShown, Fits, PagesClean;
    var pages := Chunks(Printed(lines));
    SeenBack(w, lines);
    forall p | 0 <= p < |pages|
      ensures AllOnPage(PageSeen(w, pages, p))
              <==> Shows(pages[p]) == 0 || Height(w, p, pages[p], Shows(pages[p]) - 1) >= 1
    {
      StaysOnPageExactly(w, p, pages[p]);
    }
    var seen := SeenFrom(w, pages, 0);
    assert forall p :: 0 <= p < |pages| ==> seen[p] == PageSeen(w, pages, p);
  }

  lemma SeenBack(w: Writer, lines: seq<string>)
    requires |Document(w, lines)| < 10_000_000_000
    ensures ReadDocument(Document(w, lines)) == Some(SeenFrom(w, Chunks(Printed(lines)), 0))
  {
    hide ReadDocument, PdfText, Printed, Chunks, SeenFrom, Fits, PagesClean, AllClean;
    var pages := Chunks(Printed(lines));
    ShortFits(w, pages);
    PrintedClean(lines);
    ChunksClean(Printed(lines));
    DocumentBack(w, pages);
  }

  // ----- a report that runs off the page -----

  lemma {:induction false} HeadingHeights(page: nat, lines: seq<string>, k: nat)
    requires page > 0 && k <= |lines| && forall i :: 0 <= i < |lines| ==> Heading(lines[i])
    ensures Height(FinalReport, page, lines, k) == TOP - 20 * k
  {
    if k > 0 { HeadingHeights(page, lines, k - 1); }
  }

  /** A full page of headings, other than the first, runs off the bottom: its last line stands at -48. */
  lemma HeadingsRunOff(page: nat, lines: seq<string>)
    requires page > 0 && |lines| == PAGE && forall i :: 0 <= i < |lines| ==> Heading(lines[i])
    ensures Shows(lines) == PAGE && Height(FinalReport, page, lines, PAGE - 1) == -48
    ensures !AllOnPage(PageShown(FinalReport, page, lines, 0, TOP))
  {
    hide PageShown, AllOnPage, Height;
    assert Shows(lines) == PAGE;
    HeadingHeights(page, lines, PAGE - 1);
    StaysOnPageExactly(FinalReport, page, lines);
  }

  /** A word as long as a line that begins like a numbered heading. */
  function LongWord(): string { "1." + seq(94, i => 'a') }

  /** The word n times. */
  function Copies(n: nat): (ws: seq<string>)
    ensures |ws| == n && forall i :: 0 <= i < n ==> ws[i] == LongWord()
  {
    seq(n, i => LongWord())
  }

  lemma WordFacts()
    ensures |LongWord()| == LINE && IsWord(LongWord()) && Heading(LongWord())
  {
    assert !IsDigit(LongWord()[1]) && LongWord()[0] == '1';
    assert DigitRun(LongWord()[1..]) == 0;
    assert DigitRun(LongWord()) == 1;
  }

  lemma {:induction false} OneWordLines(n: nat)
    ensures JoinEach(Greedy([LongWord()], Copies(n), LINE)) == Copies(n + 1)
  {
    hide LongWord;
    WordFacts();
    if n == 0 {
      JoinEachCons([LongWord()], []);
    } else {
      assert Copies(n)[0] == LongWord() && Copies(n)[1..] == Copies(n - 1);
      assert |Join([LongWord()] + [LongWord()])| > LINE by { JoinAppend([LongWord()], [LongWord()]); }
      OneWordLines(n - 1);
      JoinEachCons([LongWord()], Greedy([LongWord()], Copies(n - 1), LINE));
      assert [LongWord()] + Copies(n) == Copies(n + 1);
    }
  }

  /** A text of n such words. */
  function LongText(n: nat): string { Join(Copies(n)) }

  lemma LongTextWraps(n: nat)
    requires n > 0
    ensures PdfWrap(LongText(n), LINE) == Copies(n)
  {
    hide LongWord, PdfWrap, Split, SafeText, Clean;
    WordFacts();
    JoinNonEmpty(Copies(n));
    SafeTextCleans(LongText(n));
    SplitJoin(Copies(n));
    WrapIsGreedy(LongText(n), LINE);
    assert Copies(n)[1..] == Copies(n - 1);
    OneWordLines(n - 1);
  }

  lemma {:induction false} FullChunk(lines: seq<string>, q: nat)
    requires PAGE * (q + 1) <= |lines|
    ensures q < |Chunks(lines)| && Chunks(lines)[q] == lines[PAGE * q..PAGE * (q + 1)]
  {
    if q > 0 {
      assert Chunks(lines) == [lines[..PAGE]] + Chunks(lines[PAGE..]);
      hide Chunks;
      FullChunk(lines[PAGE..], q - 1);
      assert lines[PAGE..][PAGE * (q - 1)..PAGE * q] == lines[PAGE * q..PAGE * (q + 1)];
    } else if |lines| == PAGE {
      assert lines[..PAGE] == lines;
    }
  }

  /** The lines of any words followed by n long ones: some lines, then one for each of the long words. */
  lemma {:induction false} LongWordsLast(current: seq<string>, words: seq<string>, n: nat) returns (lead: seq<string>)
    requires current != [] && AllWords(current) && AllWords(words) && n > 0
    ensures JoinEach(Greedy(current, words + Copies(n), LINE)) == lead + Copies(n)
    decreases |words|
  {
    hide LongWord, Join, JoinEach, IsWord;
    WordFacts();
    var all := words + Copies(n);
    if words == [] {
      assert all == Copies(n) && all[0] == LongWord() && all[1..] == Copies(n - 1);
      assert |Join(current + [LongWord()])| > LINE by { JoinAppend(current, [LongWord()]); OneLong(); }
      OneWordLines(n - 1);
      JoinEachCons(current, Greedy([LongWord()], Copies(n - 1), LINE));
      lead := [Join(current)];
    } else {
      assert all[0] == words[0] && all[1..] == words[1..] + Copies(n);
      if |Join(current + [words[0]])| > LINE {
        var rest := LongWordsLast([words[0]], words[1..], n);
        JoinEachCons(current, Greedy([words[0]], words[1..] + Copies(n), LINE));
        lead := [Join(current)] + rest;
      } else {
        lead := LongWordsLast(current + [words[0]], words[1..], n);
      }
    }
  }

  lemma OneLong()
    ensures |Join([LongWord()])| == LINE
  {
    hide LongWord;
    WordFacts();
  }

  lemma LongTextClean(n: nat)
    requires n > 0
    ensures LongText(n) != "" && Clean(LongText(n)) && AllWords(Copies(n))
  {
    hide LongWord;
    WordFacts();
    JoinNonEmpty(Copies(n));
  }

  lemma FrontAndLongText(front: string, n: nat)
    requires front != "" && Clean(front) && n > 0
    ensures Split(front) != [] && AllWords(Split(front)) && Split(front + " " + LongText(n)) == Split(front) + Copies(n)
  {
    hide Clean, Split, LongWord, IsWord;
    LongTextClean(n);
    SplitClean(front);
    var words := Split(front);
    JoinAppend(words, Copies(n));
    SplitJoin(words + Copies(n));
  }

  /** So whatever stands before a long text on its line, the long text ends up on lines of its own. */
  lemma FreeTextWraps(prefix: string, n: nat) returns (lead: seq<string>)
    requires n > 0
    ensures PdfWrap(prefix + " " + LongText(n), LINE) == lead + Copies(n)
  {
    hide LongWord, LongText, PdfWrap, Split, SafeText, Clean, Greedy, IsWord, Copies, JoinEach;
    var line := prefix + " " + LongText(n);
    LongTextClean(n);
    var front := SafeTextThen(prefix, LongText(n));
    if front == "" {
      SafeTextCleans(LongText(n));
      LongTextWraps(n);
      assert PdfWrap(line, LINE) == PdfWrap(LongText(n), LINE) by { SameWrap(line, LongText(n)); }
      lead := [];
      assert [] + Copies(n) == Copies(n);
    } else {
      FrontAndLongText(front, n);
      var words := Split(front);
      WrapIsGreedy(line, LINE);
      assert (words + Copies(n))[1..] == words[1..] + Copies(n);
      lead := LongWordsLast([words[0]], words[1..], n);
    }
  }

  lemma SameWrap(a: string, b: string)
    requires SafeText(a) == SafeText(b)
    ensures PdfWrap(a, LINE) == PdfWrap(b, LINE)
  {
    hide SafeText, Split, FoldWords;
  }

  /** A document whose printed lines hold enough long words in a row: a page has nothing but headings, so the file shows a line
      below the page. */
  lemma LongWordsRunOff(lines: seq<string>, a: seq<string>, z: seq<string>)
    requires Printed(lines) == a + Copies(2 * PAGE) + z && |Document(FinalReport, lines)| < 10_000_000_000
    ensures ReadDocument(Document(FinalReport, lines)).Some?
    ensures !AllPagesOnPage(ReadDocument(Document(FinalReport, lines)).value)
  {
    hide ReadDocument, Printed, Chunks, PdfText, Height, LongWord, Heading, PagesHold, AllPagesOnPage;
    DocumentStaysOnPages(FinalReport, lines);
    var pages := Chunks(Printed(lines));
    var q := HeadingPage(a, z);
    HeadingsRunOff(q, pages[q]);
    assert !PagesHold(FinalReport, pages) by { LowPage(pages, q); }
  }

  lemma LowPage(pages: seq<seq<string>>, q: nat)
    requires q < |pages| && Shows(pages[q]) > 0 && Height(FinalReport, q, pages[q], Shows(pages[q]) - 1) < 1
    ensures !PagesHold(FinalReport, pages)
  {
    hide Height, Shows;
  }

  lemma HeadingPage(a: seq<string>, z: seq<string>) returns (q: nat)
    ensures var pages := Chunks(a + Copies(2 * PAGE) + z);
            0 < q < |pages| && |pages[q]| == PAGE && forall i :: 0 <= i < PAGE ==> Heading(pages[q][i])
  {
    hide Chunks, LongWord, Heading;
    var n := 2 * PAGE;
    var all := a + Copies(n) + z;
    q := (|a| + PAGE - 1) / PAGE;
    if q == 0 { q := 1; }
    assert |a| <= PAGE * q && PAGE * (q + 1) <= |a| + n;
    FullChunk(all, q);
    WordFacts();
    forall i | 0 <= i < PAGE ensures Heading(Chunks(all)[q][i]) {
      assert Chunks(all)[q][i] == all[PAGE * q + i] == Copies(n)[PAGE * q + i - |a|] == LongWord();
    }
  }

  lemma PrintedAround(before: seq<string>, line: string, after: seq<string>)
    ensures Printed(before + [line] + after) == Printed(before) + PdfWrap(line, LINE) + Printed(after)
  {
    hide PdfWrap;
    PdfWriter.PrintedConcat(before, [line]);
    PdfWriter.PrintedConcat(before + [line], after);
    assert [line][1..] == [];
  }

  /** Whatever else a Final Report says, before its executive summary and after it, there is such a summary, one line of source
      text. */
  lemma SummaryRunsOff(before: seq<string>, after: seq<string>)
    requires |Document(FinalReport, before + [LongText(2 * PAGE)] + after)| < 10_000_000_000
    ensures var file := Document(FinalReport, before + [LongText(2 * PAGE)] + after);
            ReadDocument(file).Some? && !AllPagesOnPage(ReadDocument(file).value)
  {
    hide ReadDocument, Printed, Chunks, PdfText, PdfWrap, LongText, AllPagesOnPage;
    PrintedAround(before, LongText(2 * PAGE), after);
    LongTextWraps(2 * PAGE);
    LongWordsRunOff(before + [LongText(2 * PAGE)] + after, Printed(before), Printed(after));
  }

  /** And there is such a title for any Finding: whatever its line of the report says before the title, and whatever the other
      lines are. */
  lemma TitleRunsOff(before: seq<string>, prefix: string, after: seq<string>)
    requires |Document(FinalReport, before + [prefix + " " + LongText(2 * PAGE)] + after)| < 10_000_000_000
    ensures var file := Document(FinalReport, before + [prefix + " " + LongText(2 * PAGE)] + after);
            ReadDocument(file).Some? && !AllPagesOnPage(ReadDocument(file).value)
  {
    hide ReadDocument, Printed, Chunks, PdfText, PdfWrap, LongText, AllPagesOnPage;
    var line := prefix + " " + LongText(2 * PAGE);
    PrintedAround(before, line, after);
    var lead := FreeTextWraps(prefix, 2 * PAGE);
    var a, z := Printed(before), Printed(after);
    assert a + (lead + Copies(2 * PAGE)) + z == (a + lead) + Copies(2 * PAGE) + z;
    LongWordsRunOff(before + [line] + after, a + lead, z);
  }
}
