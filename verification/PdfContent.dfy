/** Page contents: how the writers put lines of text on a page, and a reader for the operators they use
    (sections 7.3.4.2, 7.8.2 and 9.4 of ISO 32000-1). */
module PdfContent {
  import opened Basics
  import opened Decimals
  import opened TextWrap
  import opened PdfSyntax

  // ----- escaping -----

  /** `s.replace(/c/g, sub)`. */
  function ReplaceChar(s: string, c: char, sub: string): string {
    if s == "" then "" else (if s[0] == c then sub else [s[0]]) + ReplaceChar(s[1..], c, sub)
  }

  function PdfEscape(text: string): string {
    ReplaceChar(ReplaceChar(ReplaceChar(SafeText(text), '\\', "\\\\"), '(', "\\("), ')', "\\)")
  }

  predicate Special(c: char) { c == '\\' || c == '(' || c == ')' }

  function EscapeEach(s: string): string {
    if s == "" then "" else (if Special(s[0]) then ['\\', s[0]] else [s[0]]) + EscapeEach(s[1..])
  }

  lemma {:induction false} ReplaceCharConcat(a: string, b: string, c: char, sub: string)
    ensures ReplaceChar(a + b, c, sub) == ReplaceChar(a, c, sub) + ReplaceChar(b, c, sub)
  {
    if a == "" {
      assert a + b == b;
    } else {
      assert (a + b)[1..] == a[1..] + b;
      ReplaceCharConcat(a[1..], b, c, sub);
    }
  }

  lemma ReplaceTwo(x: char, y: char, c: char, sub: string)
    ensures ReplaceChar([x, y], c, sub) == (if x == c then sub else [x]) + (if y == c then sub else [y])
  {
    assert [x, y] == [x] + [y];
    ReplaceCharConcat([x], [y], c, sub);
  }

  /** Replacing the two parentheses after the backslashes, on the image of one character. */
  lemma EscapeOne(x: char)
    ensures var head := if x == '\\' then "\\\\" else [x];
            ReplaceChar(ReplaceChar(head, '(', "\\("), ')', "\\)") == if Special(x) then ['\\', x] else [x]
  {
    if x == '\\' {
      ReplaceTwo('\\', '\\', '(', "\\(");
      ReplaceTwo('\\', '\\', ')', "\\)");
    } else if x == '(' {
      ReplaceTwo('\\', '(', ')', "\\)");
    }
  }

  /** The three replacements one after the other escape each special character once. */
  lemma {:induction false} ThreeReplacesEscapeEach(s: string)
    ensures ReplaceChar(ReplaceChar(ReplaceChar(s, '\\', "\\\\"), '(', "\\("), ')', "\\)") == EscapeEach(s)
  {
    if s != "" {
      var t := ReplaceChar(s[1..], '\\', "\\\\");
      var head := if s[0] == '\\' then "\\\\" else [s[0]];
      ThreeReplacesEscapeEach(s[1..]);
      ReplaceCharConcat(head, t, '(', "\\(");
      ReplaceCharConcat(ReplaceChar(head, '(', "\\("), ReplaceChar(t, '(', "\\("), ')', "\\)");
      EscapeOne(s[0]);
    }
  }

  predicate Octal(c: char) { '0' <= c <= '7' }

  /** The digits of an octal escape: at most three. */
  function OctalRun(s: string, limit: nat): (k: nat)
    ensures k <= |s| && k <= limit && forall i :: 0 <= i < k ==> Octal(s[i])
    ensures limit > 0 && s != "" && Octal(s[0]) ==> k > 0
  {
    if limit == 0 || s == "" || !Octal(s[0]) then 0 else 1 + OctalRun(s[1..], limit - 1)
  }

  function OctalValue(s: string): nat
    requires forall i :: 0 <= i < |s| ==> Octal(s[i])
  {
    if s == "" then 0
    else
      assert Octal(s[|s| - 1]);
      OctalValue(s[..|s| - 1]) * 8 + DigitValue(s[|s| - 1])
  }

  function Unescaped(c: char): char {
    if c == 'n' then '\n' else if c == 'r' then '\r' else if c == 't' then '\t'
    else if c == 'b' then '\U{0008}' else if c == 'f' then '\U{000C}' else c
  }

  function Prepend(c: char, r: Option<(string, string)>): Option<(string, string)> {
    match r
    case None => None
    case Some((text, rest)) => Some(([c] + text, rest))
  }

  /** A literal string after its opening parenthesis; `depth` counts unescaped parentheses still open inside it. */
  function ReadLiteral(s: string, depth: nat): (r: Option<(string, string)>)
    ensures r.Some? ==> |r.value.1| < |s|
    decreases |s|
  {
    if s == "" then None
    else if s[0] == ')' then
      if depth == 0 then Some(("", s[1..])) else Prepend(')', ReadLiteral(s[1..], depth - 1))
    else if s[0] == '(' then Prepend('(', ReadLiteral(s[1..], depth + 1))
    else if s[0] != '\\' then Prepend(s[0], ReadLiteral(s[1..], depth))
    else if |s| == 1 then None
    else if s[1] == '\n' then ReadLiteral(s[2..], depth)
    else if Octal(s[1]) then
      var k := OctalRun(s[1..], 3);
      Prepend((OctalValue(s[1..][..k]) % 256) as char, ReadLiteral(s[1 + k..], depth))
    else Prepend(Unescaped(s[1]), ReadLiteral(s[2..], depth))
  }

  /** Reading an escaped text gives the text back. */
  lemma {:induction false} LiteralBack(text: string, rest: string)
    ensures ReadLiteral(EscapeEach(text) + ")" + rest, 0) == Some((text, rest))
  {
    var s := EscapeEach(text) + ")" + rest;
    if text == "" {
      assert s == ")" + rest;
    } else {
      var tail := EscapeEach(text[1..]) + ")" + rest;
      LiteralBack(text[1..], rest);
      assert text == [text[0]] + text[1..];
      if Special(text[0]) {
        assert s == ['\\', text[0]] + tail && s[2..] == tail;
      } else {
        assert s == [text[0]] + tail && s[1..] == tail;
      }
    }
  }

  // ----- tokens -----

  datatype Token = Word(w: string) | NameToken(name: string) | Text(text: string)

  function ReadOne(s: string): (r: Option<(Token, string)>)
    ensures r.Some? ==> |r.value.1| < |s|
  {
    var t := SkipWhite(s);
    if "(" <= t then
      (match ReadLiteral(t[1..], 0)
       case None => None
       case Some((text, rest)) => Some((Text(text), rest)))
    else if "/" <= t then
      (var (name, rest) := ReadToken(t[1..]);
       if name == "" then None else Some((NameToken(name), rest)))
    else
      var (w, rest) := ReadToken(t);
      if w == "" then None else Some((Word(w), rest))
  }

  function Tokens(s: string): Option<seq<Token>>
    decreases |s|
  {
    if SkipWhite(s) == "" then Some([])
    else match ReadOne(s)
      case None => None
      case Some((token, rest)) =>
        match Tokens(rest)
        case None => None
        case Some(more) => Some([token] + more)
  }

  // ----- operators -----

  /** A piece of text as a viewer shows it: font, size, position and characters. */
  datatype Shown = Shown(font: string, size: string, x: string, y: string, text: string)

  /** `moved`: the current text object has been positioned. */
  datatype TextState = TextState(font: string, size: string, x: string, y: string, moved: bool)

  predicate IsOperator(t: Token) { t.Word? && t.w in {"BT", "ET", "Tf", "Td", "Tj"} }

  /** Runs the text operators over the tokens; operands wait until their operator comes. */
  function Interpret(tokens: seq<Token>, operands: seq<Token>, st: TextState): Option<seq<Shown>>
    decreases |tokens|
  {
    if tokens == [] then (if operands == [] then Some([]) else None)
    else if !IsOperator(tokens[0]) then Interpret(tokens[1..], operands + [tokens[0]], st)
    else
      match tokens[0].w
      case "BT" => if operands != [] then None else Interpret(tokens[1..], [], st.(x := "0", y := "0", moved := false))
      case "ET" => if operands != [] then None else Interpret(tokens[1..], [], st)
      case "Tf" =>
        if |operands| == 2 && operands[0].NameToken? && operands[1].Word?
        then Interpret(tokens[1..], [], st.(font := operands[0].name, size := operands[1].w)) else None
      case "Td" =>
        if |operands| == 2 && operands[0].Word? && operands[1].Word? && !st.moved
        then Interpret(tokens[1..], [], st.(x := operands[0].w, y := operands[1].w, moved := true)) else None
      case _ =>
        if |operands| == 1 && operands[0].Text? then
          match Interpret(tokens[1..], [], st)
          case None => None
          case Some(more) => Some([Shown(st.font, st.size, st.x, st.y, operands[0].text)] + more)
        else None
  }

  const START := TextState("", "", "0", "0", false)

  function ReadContent(s: string): Option<seq<Shown>> {
    match Tokens(s)
    case None => None
    case Some(tokens) => Interpret(tokens, [], START)
  }

  // ----- the writer -----

  /** `String(y)` for an integer that may be negative. */
  function ShowInt(y: int): string { if y < 0 then "-" + Dec(-y) else Dec(y) }

  function Command(size: string, y: int, line: string): string {
    "BT /F1 " + size + " Tf 54 " + ShowInt(y) + " Td (" + PdfEscape(line) + ") Tj ET\n"
  }

  // ----- reading gives back what was put on the page -----

  function Then(t: Token, more: Option<seq<Token>>): Option<seq<Token>> {
    match more
    case None => None
    case Some(ts) => Some([t] + ts)
  }

  lemma WordThen(w: string, c: char, s: string)
    requires IsToken(w) && White(c)
    ensures Tokens(w + ([c] + s)) == Then(Word(w), Tokens(s))
  {
    var t := w + ([c] + s);
    assert SkipWhite(t) == t;
    TokenBack(w, [c] + s);
  }

  lemma NameThen(name: string, c: char, s: string)
    requires IsToken(name) && White(c)
    ensures Tokens("/" + (name + ([c] + s))) == Then(NameToken(name), Tokens(s))
  {
    var t := "/" + (name + ([c] + s));
    assert SkipWhite(t) == t && t[1..] == name + ([c] + s);
    TokenBack(name, [c] + s);
  }

  lemma TextThen(text: string, c: char, s: string)
    requires White(c)
    ensures Tokens("(" + (EscapeEach(text) + ")" + ([c] + s))) == Then(Text(text), Tokens(s))
  {
    var t := "(" + (EscapeEach(text) + ")" + ([c] + s));
    assert SkipWhite(t) == t && t[1..] == EscapeEach(text) + ")" + ([c] + s);
    LiteralBack(text, [c] + s);
  }

  function ShowTextTokens(text: string): seq<Token> { [Text(text), Word("Tj"), Word("ET")] }

  function PlaceTokens(size: string, y: int): seq<Token> {
    [Word(size), Word("Tf"), Word("54"), Word(ShowInt(y)), Word("Td")]
  }

  lemma Unfold2<T>(a: T, b: T, more: seq<T>)
    ensures [a, b] + more == [a] + ([b] + more)
  {
  }

  lemma Unfold3<T>(a: T, b: T, c: T, more: seq<T>)
    ensures [a, b, c] + more == [a] + ([b] + ([c] + more))
  {
  }

  lemma ShowTextRegroup(e: string, rest: string)
    ensures "(" + e + ") Tj ET\n" + rest == "(" + (e + ")" + (" " + ("Tj" + (" " + ("ET" + ("\n" + rest))))))
  {
    assert ") Tj ET\n" == ")" + " " + "Tj" + " " + "ET" + "\n";
  }

  lemma ShowTextTokensBack(text: string, rest: string, more: seq<Token>)
    requires Tokens(rest) == Some(more)
    ensures Tokens("(" + EscapeEach(text) + ") Tj ET\n" + rest) == Some(ShowTextTokens(text) + more)
  {
    var s1 := "ET" + ("\n" + rest);
    var s2 := "Tj" + (" " + s1);
    WordThen("ET", '\n', rest);
    WordThen("Tj", ' ', s1);
    TextThen(text, ' ', s2);
    ShowTextRegroup(EscapeEach(text), rest);
    Unfold3(Text(text), Word("Tj"), Word("ET"), more);
  }

  lemma MoveRegroup(rest: string)
    ensures " Td " + rest == " " + ("Td" + (" " + rest))
  {
    assert " Td " == " " + "Td" + " ";
  }

  lemma PositionBack(y: int, rest: string, more: seq<Token>)
    requires Tokens(rest) == Some(more)
    ensures Tokens(ShowInt(y) + (" Td " + rest)) == Some([Word(ShowInt(y)), Word("Td")] + more)
  {
    hide Tokens;
    WordThen("Td", ' ', rest);
    WordThen(ShowInt(y), ' ', "Td" + (" " + rest));
    hide ShowInt;
    MoveRegroup(rest);
    Unfold2(Word(ShowInt(y)), Word("Td"), more);
  }

  lemma SizeRegroup(rest: string)
    ensures " Tf 54 " + rest == " " + ("Tf" + (" " + ("54" + (" " + rest))))
  {
    assert " Tf 54 " == " " + "Tf" + " " + "54" + " ";
  }

  lemma {:induction false} SizeBack(size: string, rest: string, more: seq<Token>)
    requires IsToken(size) && Tokens(rest) == Some(more)
    ensures Tokens(size + (" Tf 54 " + rest)) == Some([Word(size), Word("Tf"), Word("54")] + more)
  {
    var s3 := "54" + (" " + rest);
    WordThen("54", ' ', rest);
    WordThen("Tf", ' ', s3);
    WordThen(size, ' ', "Tf" + (" " + s3));
    SizeRegroup(rest);
    Unfold3(Word(size), Word("Tf"), Word("54"), more);
  }

  lemma PlaceTokensBack(size: string, y: int, rest: string, more: seq<Token>)
    requires IsToken(size) && Tokens(rest) == Some(more)
    ensures Tokens(size + (" Tf 54 " + ShowInt(y) + " Td " + rest)) == Some(PlaceTokens(size, y) + more)
  {
    hide Tokens, ShowInt, IsToken;
    PositionBack(y, rest, more);
    SizeBack(size, ShowInt(y) + (" Td " + rest), [Word(ShowInt(y)), Word("Td")] + more);
    assert " Tf 54 " + ShowInt(y) + " Td " + rest == " Tf 54 " + (ShowInt(y) + (" Td " + rest));
    assert PlaceTokens(size, y) + more == [Word(size), Word("Tf"), Word("54")] + ([Word(ShowInt(y)), Word("Td")] + more);
  }

  lemma FontRegroup(rest: string)
    ensures "BT /F1 " + rest == "BT" + (" " + ("/" + ("F1" + (" " + rest))))
  {
    assert "BT /F1 " == "BT" + " " + "/" + "F1" + " ";
  }

  lemma FontTokensBack(rest: string, more: seq<Token>)
    requires Tokens(rest) == Some(more)
    ensures Tokens("BT /F1 " + rest) == Some([Word("BT"), NameToken("F1")] + more)
  {
    var s1 := "/" + ("F1" + (" " + rest));
    NameThen("F1", ' ', rest);
    WordThen("BT", ' ', s1);
    FontRegroup(rest);
    Unfold2(Word("BT"), NameToken("F1"), more);
  }

  function CommandTokens(size: string, y: int, text: string): seq<Token> {
    [Word("BT"), NameToken("F1")] + PlaceTokens(size, y) + ShowTextTokens(text)
  }

  lemma CommandRegroup(size: string, y: string, e: string, rest: string)
    ensures "BT /F1 " + size + " Tf 54 " + y + " Td (" + e + ") Tj ET\n" + rest
         == "BT /F1 " + (size + (" Tf 54 " + y + " Td " + ("(" + e + ") Tj ET\n" + rest)))
  {
    assert " Td (" == " Td " + "(";
  }

  /** The tokens of one printed line, followed by those of whatever comes after it. */
  lemma CommandTokensBack(size: string, y: int, line: string, rest: string, more: seq<Token>)
    requires IsToken(size) && Clean(line) && Tokens(rest) == Some(more)
    ensures Tokens(Command(size, y, line) + rest) == Some(CommandTokens(size, y, line) + more)
  {
    SafeTextCleans(line);
    ThreeReplacesEscapeEach(line);
    CommandRegroup(size, ShowInt(y), EscapeEach(line), rest);
    var shown := "(" + EscapeEach(line) + ") Tj ET\n" + rest;
    ShowTextTokensBack(line, rest, more);
    PlaceTokensBack(size, y, shown, ShowTextTokens(line) + more);
    FontTokensBack(size + (" Tf 54 " + ShowInt(y) + " Td " + shown), PlaceTokens(size, y) + (ShowTextTokens(line) + more));
    assert CommandTokens(size, y, line) + more
        == [Word("BT"), NameToken("F1")] + (PlaceTokens(size, y) + (ShowTextTokens(line) + more));
  }

  // ----- a page -----

  /** The two writers: the workspace exports and the Final Report. */
  datatype Writer = Workspace | FinalReport

  /** `/^\d+\./` or one of the two fixed headings. */
  predicate Heading(line: string) {
    (0 < DigitRun(line) < |line| && line[DigitRun(line)] == '.') || line == "Final Report" || line == "Report Signatures"
  }

  predicate Title(page: nat, index: nat) { page == 0 && index == 0 }

  /** A token that is a number is never mistaken for an operator. */
  predicate IsSize(size: string) { IsToken(size) && IsDigit(size[0]) }

  function FontSize(w: Writer, page: nat, index: nat, line: string): (size: string)
    ensures IsSize(size)
  {
    if Title(page, index) then "18" else if w.Workspace? then "10" else if Heading(line) then "13" else "9.5"
  }

  function Leading(w: Writer, page: nat, index: nat, line: string): nat {
    if Title(page, index) then 24 else if w.FinalReport? && Heading(line) then 20 else 14
  }

  /** The content stream of a page from its `index`-th line on, the next line going at height y. */
  function PageContent(w: Writer, page: nat, lines: seq<string>, index: nat, y: int): string
    requires index <= |lines|
    decreases |lines| - index
  {
    if index == |lines| then ""
    else if lines[index] == "" then PageContent(w, page, lines, index + 1, y - 8)
    else
      Command(FontSize(w, page, index, lines[index]), y, lines[index])
      + PageContent(w, page, lines, index + 1, y - Leading(w, page, index, lines[index]))
  }

  /** What a viewer should show of it: every non-blank line, with its size and height. */
  function PageShown(w: Writer, page: nat, lines: seq<string>, index: nat, y: int): seq<Shown>
    requires index <= |lines|
    decreases |lines| - index
  {
    if index == |lines| then []
    else if lines[index] == "" then PageShown(w, page, lines, index + 1, y - 8)
    else
      [Shown("F1", FontSize(w, page, index, lines[index]), "54", ShowInt(y), lines[index])]
      + PageShown(w, page, lines, index + 1, y - Leading(w, page, index, lines[index]))
  }

  lemma OperandStep(t: Token, more: seq<Token>, operands: seq<Token>, st: TextState)
    requires !IsOperator(t)
    ensures Interpret([t] + more, operands, st) == Interpret(more, operands + [t], st)
  {
    assert ([t] + more)[1..] == more;
  }

  lemma InterpretFont(size: string, more: seq<Token>, st: TextState)
    requires IsSize(size)
    ensures Interpret([Word("BT"), NameToken("F1"), Word(size), Word("Tf")] + more, [], st)
         == Interpret(more, [], TextState("F1", size, "0", "0", false))
  {
    var t3 := [Word("Tf")] + more;
    var t2 := [Word(size)] + t3;
    var t1 := [NameToken("F1")] + t2;
    var st1 := st.(x := "0", y := "0", moved := false);
    assert [Word("BT"), NameToken("F1"), Word(size), Word("Tf")] + more == [Word("BT")] + t1;
    assert ([Word("BT")] + t1)[1..] == t1;
    OperandStep(NameToken("F1"), t2, [], st1);
    OperandStep(Word(size), t3, [NameToken("F1")], st1);
    assert [] + [NameToken("F1")] == [NameToken("F1")];
    assert [NameToken("F1")] + [Word(size)] == [NameToken("F1"), Word(size)];
    assert t3[1..] == more;
  }

  lemma InterpretMove(y: int, more: seq<Token>, st: TextState)
    requires !st.moved
    ensures Interpret([Word("54"), Word(ShowInt(y)), Word("Td")] + more, [], st)
         == Interpret(more, [], st.(x := "54", y := ShowInt(y), moved := true))
  {
    var t2 := [Word("Td")] + more;
    var t1 := [Word(ShowInt(y))] + t2;
    assert [Word("54"), Word(ShowInt(y)), Word("Td")] + more == [Word("54")] + t1;
    assert ShowInt(y)[0] == '-' || IsDigit(ShowInt(y)[0]);
    OperandStep(Word("54"), t1, [], st);
    OperandStep(Word(ShowInt(y)), t2, [Word("54")], st);
    assert [] + [Word("54")] == [Word("54")];
    assert [Word("54")] + [Word(ShowInt(y))] == [Word("54"), Word(ShowInt(y))];
    assert t2[1..] == more;
  }

  lemma InterpretShow(text: string, more: seq<Token>, st: TextState, rest: seq<Shown>)
    requires Interpret(more, [], st) == Some(rest)
    ensures Interpret(ShowTextTokens(text) + more, [], st) == Some([Shown(st.font, st.size, st.x, st.y, text)] + rest)
  {
    var t2 := [Word("ET")] + more;
    var t1 := [Word("Tj")] + t2;
    assert ShowTextTokens(text) + more == [Text(text)] + t1;
    OperandStep(Text(text), t1, [], st);
    assert [] + [Text(text)] == [Text(text)];
    assert t1[1..] == t2 && t2[1..] == more;
  }

  lemma InterpretCommand(size: string, y: int, text: string, more: seq<Token>, st: TextState, rest: seq<Shown>)
    requires IsSize(size)
    requires Interpret(more, [], TextState("F1", size, "54", ShowInt(y), true)) == Some(rest)
    ensures Interpret(CommandTokens(size, y, text) + more, [], st)
         == Some([Shown("F1", size, "54", ShowInt(y), text)] + rest)
  {
    var shown := ShowTextTokens(text) + more;
    var moved := [Word("54"), Word(ShowInt(y)), Word("Td")] + shown;
    InterpretShow(text, more, TextState("F1", size, "54", ShowInt(y), true), rest);
    InterpretMove(y, shown, TextState("F1", size, "0", "0", false));
    InterpretFont(size, moved, st);
    assert CommandTokens(size, y, text) + more
        == [Word("BT"), NameToken("F1"), Word(size), Word("Tf")] + moved;
  }

  predicate AllClean(lines: seq<string>) { forall i :: 0 <= i < |lines| ==> Clean(lines[i]) }

  /** Reading a page's content stream recovers every non-blank line with its font, size and position. */
  lemma {:induction false} ContentBack(w: Writer, page: nat, lines: seq<string>, index: nat, y: int, st: TextState)
    requires AllClean(lines) && index <= |lines|
    ensures var tokens := Tokens(PageContent(w, page, lines, index, y));
            tokens.Some? && Interpret(tokens.value, [], st) == Some(PageShown(w, page, lines, index, y))
    decreases |lines| - index
  {
    hide Command, FontSize, Leading, ShowInt, Clean, CommandTokens;
    if index < |lines| {
      hide Tokens, Interpret;
      var line := lines[index];
      if line == "" {
        ContentBack(w, page, lines, index + 1, y - 8, st);
      } else {
        var size, y' := FontSize(w, page, index, line), y - Leading(w, page, index, line);
        var rest := PageContent(w, page, lines, index + 1, y');
        ContentBack(w, page, lines, index + 1, y', TextState("F1", size, "54", ShowInt(y), true));
        var more := Tokens(rest).value;
        CommandTokensBack(size, y, line, rest, more);
        InterpretCommand(size, y, line, more, st, PageShown(w, page, lines, index + 1, y'));
      }
    }
  }
}
