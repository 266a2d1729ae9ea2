/** Cleaning and greedy wrapping of report text, in the two forms the program has. */
module TextWrap {

  // ----- cleaning -----

  predicate Printable(c: char) { ' ' <= c <= '~' }

  predicate Visible(c: char) { '!' <= c <= '~' }

  /** The character replacements of `pdfSafeText`. */
  function Replaced(c: char): (r: char)
    ensures Printable(r) && (Printable(c) ==> r == c)
  {
    if c == '\U{2013}' || c == '\U{2014}' then '-'
    else if c == '\U{201C}' || c == '\U{201D}' then '"'
    else if c == '\U{2018}' || c == '\U{2019}' then '\''
    else if Printable(c) then c
    else ' '
  }

  function ReplaceAll(s: string): string {
    if s == "" then "" else [Replaced(s[0])] + ReplaceAll(s[1..])
  }

  /** Every run of blanks becomes one blank. */
  function Collapse(s: string): string {
    if s == "" then ""
    else if s[0] == ' ' && |s| > 1 && s[1] == ' ' then Collapse(s[1..])
    else [s[0]] + Collapse(s[1..])
  }

  function TrimStart(s: string): string {
    if s != "" && s[0] == ' ' then TrimStart(s[1..]) else s
  }

  function TrimEnd(s: string): string {
    if s != "" && s[|s| - 1] == ' ' then TrimEnd(s[..|s| - 1]) else s
  }

  function SafeText(s: string): string {
    TrimEnd(TrimStart(Collapse(ReplaceAll(s))))
  }

  predicate AllPrintable(s: string) { forall i :: 0 <= i < |s| ==> Printable(s[i]) }

  predicate NoDoubleBlank(s: string) { forall i :: 0 <= i < |s| - 1 ==> s[i] != ' ' || s[i + 1] != ' ' }

  /** Printable ASCII with single blanks between words and none at the ends. */
  predicate Clean(s: string) {
    && AllPrintable(s) && NoDoubleBlank(s)
    && (s != "" ==> s[0] != ' ' && s[|s| - 1] != ' ')
  }

  lemma {:induction false} ReplaceAllPrintable(s: string)
    ensures AllPrintable(ReplaceAll(s)) && |ReplaceAll(s)| == |s|
    ensures AllPrintable(s) ==> ReplaceAll(s) == s
  {
    if s != "" {
      ReplaceAllPrintable(s[1..]);
      assert s == [s[0]] + s[1..];
      assert AllPrintable(s) ==> AllPrintable(s[1..]);
    }
  }

  lemma {:induction false} CollapseKeeps(s: string)
    requires AllPrintable(s)
    ensures AllPrintable(Collapse(s)) && NoDoubleBlank(Collapse(s))
    ensures s != "" ==> Collapse(s) != "" && Collapse(s)[0] == s[0]
    ensures NoDoubleBlank(s) ==> Collapse(s) == s
  {
    if s != "" {
      assert AllPrintable(s[1..]) by { assert forall i :: 0 <= i < |s| - 1 ==> s[1..][i] == s[i + 1]; }
      CollapseKeeps(s[1..]);
      assert NoDoubleBlank(s) ==> NoDoubleBlank(s[1..]) by {
        assert forall i :: 0 <= i < |s| - 1 ==> s[1..][i] == s[i + 1];
      }
      assert s == [s[0]] + s[1..];
    }
  }

  lemma {:induction false} TrimStartKeeps(s: string)
    requires AllPrintable(s) && NoDoubleBlank(s)
    ensures AllPrintable(TrimStart(s)) && NoDoubleBlank(TrimStart(s))
    ensures TrimStart(s) != "" ==> TrimStart(s)[0] != ' '
  {
    if s != "" && s[0] == ' ' {
      assert forall i :: 0 <= i < |s| - 1 ==> s[1..][i] == s[i + 1];
      TrimStartKeeps(s[1..]);
    }
  }

  lemma {:induction false} TrimEndKeeps(s: string)
    requires AllPrintable(s) && NoDoubleBlank(s) && (s != "" ==> s[0] != ' ')
    ensures Clean(TrimEnd(s))
  {
    if s != "" && s[|s| - 1] == ' ' {
      TrimEndKeeps(s[..|s| - 1]);
    }
  }

  /** Whatever the input, the cleaned text is clean; and cleaning a clean text changes nothing. */
  lemma SafeTextCleans(s: string)
    ensures Clean(SafeText(s))
    ensures Clean(s) ==> SafeText(s) == s
  {
    ReplaceAllPrintable(s);
    CollapseKeeps(ReplaceAll(s));
    TrimStartKeeps(Collapse(ReplaceAll(s)));
    TrimEndKeeps(TrimStart(Collapse(ReplaceAll(s))));
  }

  // ----- cleaning a text behind a prefix -----

  lemma {:induction false} ReplaceAllConcat(a: string, b: string)
    ensures ReplaceAll(a + b) == ReplaceAll(a) + ReplaceAll(b)
    decreases |a|
  {
    if a == "" {
      assert a + b == b;
    } else {
      assert (a + b)[1..] == a[1..] + b;
      ReplaceAllConcat(a[1..], b);
    }
  }

  lemma {:induction false} TrimEndStops(y: string)
    requires y != "" && y[0] != ' '
    ensures TrimEnd(y) != ""
  {
    if y[|y| - 1] == ' ' { TrimEndStops(y[..|y| - 1]); }
  }

  lemma {:induction false} TrimEndCons(c: char, y: string)
    requires c != ' ' || TrimEnd(y) != ""
    ensures TrimEnd([c] + y) == [c] + TrimEnd(y)
    decreases |y|
  {
    var z := [c] + y;
    if y == "" {
      assert z == [c];
    } else if y[|y| - 1] == ' ' {
      assert z[..|z| - 1] == [c] + y[..|y| - 1];
      TrimEndCons(c, y[..|y| - 1]);
    }
  }

  /** Blanks before a clean text shrink to the one that separates it. */
  lemma {:induction false} CollapseThen(x: string, s: string)
    requires AllPrintable(x) && Clean(s) && s != ""
    ensures Collapse(x + " " + s) == TrimEnd(Collapse(x)) + " " + s
    decreases |x|
  {
    hide Clean, TrimEnd;
    var t := x + " " + s;
    if x == "" {
      assert t == " " + s && t[1..] == s;
      CleanCollapses(s);
      assert TrimEnd(Collapse(x)) == "" by { TrimNothing(); }
    } else {
      var rest := x[1..] + " " + s;
      assert t[1..] == rest && t == [x[0]] + rest;
      assert AllPrintable(x[1..]);
      CollapseThen(x[1..], s);
      if x == " " {
        assert t[1] == ' ';
        assert TrimEnd(Collapse(x)) == "" && TrimEnd(Collapse("")) == "" by { TrimNothing(); }
      } else if x[0] == ' ' && x[1] == ' ' {
        assert t[1] == ' ';
      } else {
        var y := Collapse(x[1..]);
        if x[0] == ' ' {
          assert t[1] == x[1];
          CollapseKeeps(x[1..]);
          TrimEndStops(y);
        }
        TrimEndCons(x[0], y);
        assert Collapse(x) == [x[0]] + y;
        assert Collapse(t) == [x[0]] + Collapse(rest);
        assert [x[0]] + (TrimEnd(y) + " " + s) == ([x[0]] + TrimEnd(y)) + " " + s;
      }
    }
  }

  lemma TrimNothing()
    ensures TrimEnd(Collapse("")) == "" && TrimEnd(Collapse(" ")) == ""
  {
    assert Collapse(" ") == " ";
    assert " "[..0] == "";
  }

  lemma CleanCollapses(s: string)
    requires Clean(s) && s != ""
    ensures Collapse(s) == s && s[0] != ' ' && s[|s| - 1] != ' ' && AllPrintable(s)
  {
    CollapseKeeps(s);
  }

  lemma {:induction false} TrimStartThen(x: string, s: string)
    requires s != "" && s[0] != ' '
    ensures TrimStart(x + " " + s) == if TrimStart(x) == "" then s else TrimStart(x) + " " + s
    decreases |x|
  {
    var t := x + " " + s;
    if x == "" {
      assert t == " " + s && t[1..] == s;
    } else {
      assert t[1..] == x[1..] + " " + s;
      TrimStartThen(x[1..], s);
    }
  }

  lemma CleanFront(a: string, s: string)
    requires Clean(a + " " + s) && a != ""
    ensures Clean(a)
  {
    var t := a + " " + s;
    assert forall i :: 0 <= i < |a| ==> a[i] == t[i];
    assert t[|a|] == ' ' && t[|a| - 1] == a[|a| - 1];
  }

  /** A clean text behind any prefix and a blank comes out whole, behind what is left of the prefix. */
  lemma SafeTextThen(prefix: string, s: string) returns (front: string)
    requires Clean(s) && s != ""
    ensures SafeText(prefix + " " + s) == (if front == "" then s else front + " " + s) && Clean(front)
  {
    hide Collapse, ReplaceAll, TrimStart, TrimEnd, Clean;
    var x := ReplaceAll(prefix);
    ReplaceAllPrintable(prefix);
    CleanCollapses(s);
    assert ReplaceAll(prefix + " " + s) == x + " " + s by { ReplacedThen(prefix, s); }
    CollapseThen(x, s);
    var y := TrimEnd(Collapse(x));
    TrimStartThen(y, s);
    front := TrimStart(y);
    var t := if front == "" then s else front + " " + s;
    assert TrimEnd(t) == t by { EndsInText(t); }
    SafeTextCleans(prefix + " " + s);
    if front == "" {
      assert Clean(front) by { NothingIsClean(); }
    } else {
      CleanFront(front, s);
    }
  }

  lemma NothingIsClean()
    ensures Clean("")
  {
  }

  lemma EndsInText(t: string)
    requires t != "" && t[|t| - 1] != ' '
    ensures TrimEnd(t) == t
  {
  }

  lemma ReplacedThen(prefix: string, s: string)
    requires AllPrintable(s)
    ensures ReplaceAll(prefix + " " + s) == ReplaceAll(prefix) + " " + s
  {
    ReplaceAllConcat(prefix + " ", s);
    ReplaceAllConcat(prefix, " ");
    ReplaceAllPrintable(s);
    ReplaceAllPrintable(" ");
  }

  // ----- words -----

  predicate IsWord(w: string) { w != "" && forall i :: 0 <= i < |w| ==> Visible(w[i]) }

  predicate AllWords(ws: seq<string>) { forall i :: 0 <= i < |ws| ==> IsWord(ws[i]) }

  /** Joins with single blanks. */
  function Join(ws: seq<string>): string {
    if ws == [] then "" else if |ws| == 1 then ws[0] else ws[0] + " " + Join(ws[1..])
  }

  function BlankIndex(s: string): (k: nat)
    ensures k <= |s| && forall i :: 0 <= i < k ==> s[i] != ' '
    ensures k < |s| ==> s[k] == ' '
  {
    if s == "" || s[0] == ' ' then 0 else 1 + BlankIndex(s[1..])
  }

  /** `s.split(' ')`. */
  function Split(s: string): seq<string>
    decreases |s|
  {
    var k := BlankIndex(s);
    if k == |s| then [s] else [s[..k]] + Split(s[k + 1..])
  }

  lemma CleanAfterBlank(s: string, k: nat)
    requires Clean(s) && k < |s| && s[k] == ' '
    ensures s[k + 1..] != "" && Clean(s[k + 1..])
  {
    var rest := s[k + 1..];
    assert forall i :: 0 <= i < |rest| ==> rest[i] == s[k + 1 + i];
    assert s[k + 1] != ' ';
  }

  lemma CleanFirstWord(s: string, k: nat)
    requires Clean(s) && 0 < k <= |s| && forall i :: 0 <= i < k ==> s[i] != ' '
    ensures IsWord(s[..k])
  {
    forall i | 0 <= i < k ensures Visible(s[..k][i]) {
      assert Printable(s[i]) && s[i] != ' ';
    }
  }

  lemma NoBlankFirst(s: string)
    requires Clean(s) && s != ""
    ensures s[0] != ' '
  {
  }

  lemma PrependWord(w: string, ws: seq<string>)
    requires IsWord(w) && AllWords(ws) && ws != []
    ensures AllWords([w] + ws) && Join([w] + ws) == w + " " + Join(ws)
  {
    assert ([w] + ws)[1..] == ws;
  }

  lemma {:induction false} SplitClean(s: string)
    requires Clean(s) && s != ""
    ensures Split(s) != [] && AllWords(Split(s)) && Join(Split(s)) == s
    decreases |s|
  {
    hide Clean, IsWord;
    var k := BlankIndex(s);
    var w := s[..k];
    assert s[0] != ' ' by { NoBlankFirst(s); }
    CleanFirstWord(s, k);
    if k == |s| {
      assert w == s;
    } else {
      CleanAfterBlank(s, k);
      var rest := s[k + 1..];
      SplitClean(rest);
      PrependWord(w, Split(rest));
      assert s == w + " " + rest;
    }
  }

  lemma {:induction false} JoinAppend(a: seq<string>, b: seq<string>)
    requires a != [] && b != []
    ensures Join(a + b) == Join(a) + " " + Join(b)
  {
    assert (a + b)[1..] == a[1..] + b;
    if |a| > 1 {
      JoinAppend(a[1..], b);
    }
  }

  lemma {:induction false} JoinNonEmpty(ws: seq<string>)
    requires AllWords(ws) && ws != []
    ensures Join(ws) != "" && Clean(Join(ws))
  {
    if |ws| > 1 {
      JoinNonEmpty(ws[1..]);
      var head, rest := ws[0], Join(ws[1..]);
      var s := head + " " + rest;
      forall i | 0 <= i < |s| - 1 ensures s[i] != ' ' || s[i + 1] != ' ' {
        if i > |head| { assert s[i] == rest[i - |head| - 1] && s[i + 1] == rest[i - |head|]; }
      }
    }
  }

  // ----- the fold form -----

  /** One step of the fold in `pdfWrap`: the word joins the last line, or opens a new one when it no longer fits. */
  function AddWord(lines: seq<string>, word: string, max: nat): seq<string>
    requires lines != []
  {
    var current := lines[|lines| - 1];
    var candidate := if current != "" then current + " " + word else word;
    if |candidate| > max && current != "" then lines + [word] else lines[..|lines| - 1] + [candidate]
  }

  function FoldWords(lines: seq<string>, words: seq<string>, max: nat): seq<string>
    requires lines != []
    decreases |words|
  {
    if words == [] then lines else FoldWords(AddWord(lines, words[0], max), words[1..], max)
  }

  function PdfWrap(text: string, max: nat): seq<string> {
    var clean := SafeText(text);
    if clean == "" then [""] else FoldWords([""], Split(clean), max)
  }

  lemma AddWordPrefix(done: seq<string>, current: string, word: string, max: nat)
    ensures AddWord(done + [current], word, max) == done + AddWord([current], word, max)
  {
    assert (done + [current])[..|done|] == done;
  }

  lemma FoldStep(lines: seq<string>, current: string, words: seq<string>, i: nat, max: nat)
    requires i < |words|
    ensures FoldWords(lines + [current], words[i..], max)
         == FoldWords(lines + AddWord([current], words[i], max), words[i + 1..], max)
  {
    AddWordPrefix(lines, current, words[i], max);
    assert words[i..][1..] == words[i + 1..];
  }

  lemma FoldNothing(lines: seq<string>, words: seq<string>, max: nat)
    requires lines != [] && words == []
    ensures FoldWords(lines, words, max) == lines
  {
  }

  // ----- the loop form -----

  /** The wrapping loop of the Final Report writer gives the same lines as the fold, for every input. */
  method WrapLoop(text: string, max: nat) returns (lines: seq<string>)
    ensures lines == PdfWrap(text, max)
  {
    hide SafeText, Clean, Split, Join, FoldWords;
    var clean := SafeText(text);
    if clean == "" { return [""]; }
    SafeTextCleans(text);
    SplitClean(clean);
    var words := Split(clean);
    lines := [];
    var current := "";
    assert [] + [current] == [""] && words[0..] == words;
    for i := 0 to |words|
      invariant i > 0 ==> current != ""
      invariant i == 0 ==> lines == [] && current == ""
      invariant FoldWords([""], words, max) == FoldWords(lines + [current], words[i..], max)
    {
      var word := words[i];
      assert IsWord(word);
      FoldStep(lines, current, words, i, max);
      var test := if current != "" then current + " " + word else word;
      if |test| > max && current != "" {
        assert lines + ([current] + [word]) == lines + [current] + [word];
        lines := lines + [current];
        current := word;
      } else {
        assert [current][..0] + [test] == [test];
        current := test;
      }
    }
    FoldNothing(lines + [current], words[|words|..], max);
    if current != "" { lines := lines + [current]; }
  }

  // ----- what greedy wrapping achieves -----

  /** A group of words may stand on one line: it fits, or it is a single word. */
  predicate Admissible(group: seq<string>, max: nat) {
    group != [] && (|Join(group)| <= max || |group| == 1)
  }

  predicate AllAdmissible(groups: seq<seq<string>>, max: nat) {
    forall i :: 0 <= i < |groups| ==> Admissible(groups[i], max)
  }

  function Concat(groups: seq<seq<string>>): seq<string> {
    if groups == [] then [] else groups[0] + Concat(groups[1..])
  }

  function JoinEach(groups: seq<seq<string>>): (lines: seq<string>)
    ensures |lines| == |groups| && forall i :: 0 <= i < |groups| ==> lines[i] == Join(groups[i])
  {
    if groups == [] then [] else [Join(groups[0])] + JoinEach(groups[1..])
  }

  /** The greedy groups when `current` is already on the line. */
  function Greedy(current: seq<string>, words: seq<string>, max: nat): (groups: seq<seq<string>>)
    ensures groups != []
    decreases |words|
  {
    if words == [] then [current]
    else if |Join(current + [words[0]])| > max then [current] + Greedy([words[0]], words[1..], max)
    else Greedy(current + [words[0]], words[1..], max)
  }

  lemma {:induction false} FoldPrefix(done: seq<string>, lines: seq<string>, words: seq<string>, max: nat)
    requires lines != []
    ensures FoldWords(done + lines, words, max) == done + FoldWords(lines, words, max)
    decreases |words|
  {
    if words != [] {
      var front, current := lines[..|lines| - 1], lines[|lines| - 1];
      assert lines == front + [current] && done + lines == (done + front) + [current];
      AddWordPrefix(front, current, words[0], max);
      AddWordPrefix(done + front, current, words[0], max);
      assert AddWord(done + lines, words[0], max) == done + AddWord(lines, words[0], max);
      FoldPrefix(done, AddWord(lines, words[0], max), words[1..], max);
    }
  }

  lemma JoinEachCons(group: seq<string>, rest: seq<seq<string>>)
    ensures JoinEach([group] + rest) == [Join(group)] + JoinEach(rest)
  {
    assert ([group] + rest)[1..] == rest;
  }

  lemma {:induction false} FoldIsGreedy(current: seq<string>, words: seq<string>, max: nat)
    requires current != [] && AllWords(current) && AllWords(words)
    ensures FoldWords([Join(current)], words, max) == JoinEach(Greedy(current, words, max))
    decreases |words|
  {
    if words == [] {
      JoinEachCons(current, []);
    } else {
      var w := words[0];
      JoinNonEmpty(current);
      JoinAppend(current, [w]);
      if |Join(current + [w])| > max {
        FoldIsGreedy([w], words[1..], max);
        FoldPrefix([Join(current)], [w], words[1..], max);
        JoinEachCons(current, Greedy([w], words[1..], max));
      } else {
        assert AddWord([Join(current)], w, max) == [Join(current + [w])];
        FoldIsGreedy(current + [w], words[1..], max);
      }
    }
  }

  lemma {:induction false} GreedySound(current: seq<string>, words: seq<string>, max: nat)
    requires Admissible(current, max)
    ensures Concat(Greedy(current, words, max)) == current + words
    ensures AllAdmissible(Greedy(current, words, max), max)
    decreases |words|
  {
    if words == [] {
      assert Concat([current]) == current + Concat([]);
    } else {
      assert words == [words[0]] + words[1..];
      if |Join(current + [words[0]])| > max {
        GreedySound([words[0]], words[1..], max);
        var rest := Greedy([words[0]], words[1..], max);
        assert ([current] + rest)[1..] == rest;
      } else {
        GreedySound(current + [words[0]], words[1..], max);
        assert current + [words[0]] + words[1..] == current + words;
      }
    }
  }

  lemma {:induction false} SuffixJoin(ws: seq<string>, n: nat)
    requires n < |ws|
    ensures |Join(ws[n..])| <= |Join(ws)|
  {
    if n > 0 {
      assert ws[1..][n - 1..] == ws[n..];
      SuffixJoin(ws[1..], n - 1);
    }
  }

  lemma SuffixAdmissible(group: seq<string>, n: nat, max: nat)
    requires Admissible(group, max) && n < |group|
    ensures Admissible(group[n..], max)
  {
    SuffixJoin(group, n);
  }

  lemma PrefixJoin(ws: seq<string>, n: nat)
    requires 0 < n <= |ws|
    ensures |Join(ws[..n])| <= |Join(ws)|
  {
    if n < |ws| {
      JoinAppend(ws[..n], ws[n..]);
      assert ws[..n] + ws[n..] == ws;
    } else {
      assert ws[..n] == ws;
    }
  }

  /** A split of a text is a split of any tail of it, with no more lines. */
  lemma {:induction false} DropWords(split: seq<seq<string>>, n: nat, max: nat) returns (rest: seq<seq<string>>)
    requires AllAdmissible(split, max) && n <= |Concat(split)|
    ensures AllAdmissible(rest, max) && |rest| <= |split| && Concat(rest) == Concat(split)[n..]
    decreases |split|
  {
    hide Admissible;
    if n == 0 {
      rest := split;
    } else {
      var head, tail := split[0], split[1..];
      if n >= |head| {
        rest := DropWords(tail, n - |head|, max);
      } else {
        assert Admissible(head[n..], max) by { SuffixAdmissible(head, n, max); }
        rest := [head[n..]] + tail;
        assert rest[1..] == tail;
      }
    }
  }

  lemma SomethingThere(group: seq<string>, max: nat)
    requires Admissible(group, max)
    ensures group != []
  {
  }

  lemma NextAdmissible(current: seq<string>, w: string, max: nat)
    ensures Admissible([w], max) && (|Join(current + [w])| <= max ==> Admissible(current + [w], max))
  {
  }

  /** No admissible split of the same words has fewer lines than the greedy one. */
  lemma {:induction false} GreedyFewest(current: seq<string>, words: seq<string>, max: nat, split: seq<seq<string>>)
    requires Admissible(current, max)
    requires AllAdmissible(split, max) && Concat(split) == current + words
    ensures |Greedy(current, words, max)| <= |split|
    decreases |words|
  {
    hide Join, Admissible;
    assert split != [] by { SomethingThere(current, max); }
    if words != [] {
      var w := words[0];
      assert words == [w] + words[1..];
      assert Admissible([w], max) && (|Join(current + [w])| <= max ==> Admissible(current + [w], max)) by {
        NextAdmissible(current, w, max);
      }
      if |Join(current + [w])| <= max {
        assert current + [w] + words[1..] == current + words;
        GreedyFewest(current + [w], words[1..], max, split);
      } else {
        var head, tail := split[0], split[1..];
        assert |head| <= |current| by {
          SomethingThere(current, max);
          LineEndsBefore(current, words, max, head, Concat(tail));
        }
        assert Concat(tail) == (head + Concat(tail))[|head|..] == (current + words)[|head|..];
        var rest := DropWords(tail, |current| - |head|, max);
        assert Concat(rest) == [w] + words[1..];
        GreedyFewest([w], words[1..], max, rest);
      }
    }
  }

  /** No admissible first line reaches past the words that greedy put on its own. */
  lemma LineEndsBefore(current: seq<string>, words: seq<string>, max: nat, head: seq<string>, tail: seq<string>)
    requires current != [] && words != [] && |Join(current + [words[0]])| > max
    requires Admissible(head, max) && head + tail == current + words
    ensures |head| <= |current|
  {
    var n := |current| + 1;
    if |head| >= n {
      assert head[..n] == (head + tail)[..n] == current + [words[0]];
      PrefixJoin(head, n);
    }
  }

  // ----- the promises -----

  /** The lines joined back with blanks are the cleaned text; every line is clean, and longer than the limit only when
      it is a single word. */
  lemma WrapSound(text: string, max: nat)
    ensures Join(PdfWrap(text, max)) == SafeText(text)
    ensures forall i :: 0 <= i < |PdfWrap(text, max)| ==>
              var line := PdfWrap(text, max)[i];
              Clean(line) && (|line| > max ==> forall j :: 0 <= j < |line| ==> line[j] != ' ')
  {
    hide Split, SafeText, Greedy;
    var clean := SafeText(text);
    SafeTextCleans(text);
    if clean != "" {
      hide PdfWrap, Clean, IsWord, Join;
      SplitClean(clean);
      var words := Split(clean);
      var groups := Greedy([words[0]], words[1..], max);
      assert words == [words[0]] + words[1..];
      WrapIsGreedy(text, max);
      GreedySound([words[0]], words[1..], max);
      ConcatWords(groups);
      JoinConcat(groups, max);
      forall i | 0 <= i < |groups|
        ensures Clean(Join(groups[i])) && (|Join(groups[i])| > max ==> IsWord(Join(groups[i])))
      {
        LineSound(groups[i], max);
      }
      assert forall i :: 0 <= i < |groups| && IsWord(Join(groups[i])) ==>
        forall j :: 0 <= j < |Join(groups[i])| ==> Join(groups[i])[j] != ' ' by { WordHasNoBlank(); }
    }
  }

  lemma LineSound(group: seq<string>, max: nat)
    requires AllWords(group) && Admissible(group, max)
    ensures Clean(Join(group)) && (|Join(group)| > max ==> IsWord(Join(group)))
  {
    JoinNonEmpty(group);
  }

  lemma WordHasNoBlank()
    ensures forall w, j :: IsWord(w) && 0 <= j < |w| ==> w[j] != ' '
  {
  }

  // ----- splitting what was joined -----

  lemma SplitWord(w: string)
    requires IsWord(w)
    ensures Split(w) == [w]
  {
    hide Visible;
    assert BlankIndex(w) == |w| by { WordHasNoBlank(); }
  }

  lemma SplitFirst(w: string, rest: string)
    requires IsWord(w)
    ensures Split(w + " " + rest) == [w] + Split(rest)
  {
    hide Visible;
    var s := w + " " + rest;
    assert forall i :: 0 <= i < |w| ==> s[i] == w[i] && w[i] != ' ' by { WordHasNoBlank(); }
    assert s[|w|] == ' ';
    assert BlankIndex(s) == |w|;
    assert s[..|w|] == w && s[|w| + 1..] == rest;
  }

  lemma {:induction false} SplitJoin(ws: seq<string>)
    requires ws != [] && AllWords(ws)
    ensures Split(Join(ws)) == ws
    decreases |ws|
  {
    hide Split, IsWord;
    if |ws| == 1 {
      SplitWord(ws[0]);
    } else {
      SplitFirst(ws[0], Join(ws[1..]));
      SplitJoin(ws[1..]);
    }
  }

  lemma WrapIsGreedy(text: string, max: nat)
    requires SafeText(text) != ""
    ensures var words := Split(SafeText(text));
            words != [] && PdfWrap(text, max) == JoinEach(Greedy([words[0]], words[1..], max))
  {
    var words := Split(SafeText(text));
    SafeTextCleans(text);
    SplitClean(SafeText(text));
    assert AddWord([""], words[0], max) == [Join([words[0]])];
    FoldIsGreedy([words[0]], words[1..], max);
  }

  lemma {:induction false} ConcatWords(groups: seq<seq<string>>)
    requires AllWords(Concat(groups))
    ensures forall i :: 0 <= i < |groups| ==> AllWords(groups[i])
  {
    if groups != [] {
      var rest := Concat(groups[1..]);
      assert forall i :: 0 <= i < |groups[0]| ==> Concat(groups)[i] == groups[0][i];
      assert forall i :: 0 <= i < |rest| ==> Concat(groups)[|groups[0]| + i] == rest[i];
      ConcatWords(groups[1..]);
    }
  }

  lemma {:induction false} JoinConcat(groups: seq<seq<string>>, max: nat)
    requires groups != [] && AllAdmissible(groups, max)
    ensures Concat(groups) != [] && Join(JoinEach(groups)) == Join(Concat(groups))
  {
    if |groups| == 1 {
      assert Concat(groups[1..]) == [] && groups[0] + [] == groups[0];
    } else {
      JoinConcat(groups[1..], max);
      JoinAppend(groups[0], Concat(groups[1..]));
      assert JoinEach(groups)[1..] == JoinEach(groups[1..]);
    }
  }

  /** Greedy wrapping uses the fewest lines of any admissible way to split the words. */
  lemma WrapFewest(text: string, max: nat, split: seq<seq<string>>)
    requires SafeText(text) != "" && AllAdmissible(split, max) && Concat(split) == Split(SafeText(text))
    ensures |PdfWrap(text, max)| <= |split|
  {
    var words := Split(SafeText(text));
    WrapIsGreedy(text, max);
    assert words == [words[0]] + words[1..];
    GreedyFewest([words[0]], words[1..], max, split);
  }

  // ----- what cleaning keeps -----

  /** Dashes and curly quotes become plain ones, and everything else outside printable ASCII a blank. */
  lemma ReplacedMeans(c: char)
    ensures Replaced(c) ==
      if c as int == 0x2013 || c as int == 0x2014 then '-'
      else if c as int == 0x201C || c as int == 0x201D then '"'
      else if c as int == 0x2018 || c as int == 0x2019 then '\''
      else if 32 <= c as int <= 126 then c else ' '
  {
  }

  lemma {:induction false} ReplaceAllAt(s: string, i: nat)
    requires i < |s|
    ensures |ReplaceAll(s)| == |s| && ReplaceAll(s)[i] == Replaced(s[i])
  {
    if i > 0 {
      ReplaceAllAt(s[1..], i - 1);
    } else {
      ReplaceAllPrintable(s[1..]);
    }
  }

  /** The runs of characters that are not blank, in order. */
  function WordsOf(s: string): seq<string>
    decreases |s|
  {
    if s == "" then []
    else if s[0] == ' ' then WordsOf(s[1..])
    else [s[..BlankIndex(s)]] + WordsOf(s[BlankIndex(s)..])
  }

  /** A character put in front of a text stands alone or joins its first word. */
  lemma ConsWord(c: char, y: string)
    requires c != ' '
    ensures y == "" || y[0] == ' ' ==> WordsOf([c] + y) == [[c]] + WordsOf(y)
    ensures y != "" && y[0] != ' ' ==>
              WordsOf(y) != [] && WordsOf([c] + y) == [[c] + WordsOf(y)[0]] + WordsOf(y)[1..]
  {
    var s := [c] + y;
    assert s[1..] == y;
    var k := BlankIndex(y);
    assert BlankIndex(s) == 1 + k;
    assert s[..1 + k] == [c] + y[..k] && s[1 + k..] == y[k..];
  }

  lemma {:induction false} WordsCollapse(s: string)
    requires AllPrintable(s)
    ensures WordsOf(Collapse(s)) == WordsOf(s)
  {
    hide WordsOf, Collapse;
    if s != "" {
      var rest := s[1..];
      assert AllPrintable(rest) && s == [s[0]] + rest;
      WordsCollapse(rest);
      CollapseStep(s);
      CollapseStarts(rest);
      if s[0] == ' ' {
        BlankFirst(rest);
        BlankFirst(Collapse(rest));
      } else {
        ConsWord(s[0], rest);
        ConsWord(s[0], Collapse(rest));
      }
    } else {
      assert Collapse("") == "" by { CollapseNothing(); }
    }
  }

  lemma CollapseNothing()
    ensures Collapse("") == ""
  {
  }

  lemma CollapseStep(s: string)
    requires s != ""
    ensures Collapse(s) == if s[0] == ' ' && |s| > 1 && s[1] == ' ' then Collapse(s[1..]) else [s[0]] + Collapse(s[1..])
  {
  }

  lemma CollapseStarts(s: string)
    requires AllPrintable(s)
    ensures (s == "" <==> Collapse(s) == "") && (s != "" ==> Collapse(s)[0] == s[0])
  {
    CollapseKeeps(s);
  }

  lemma BlankFirst(s: string)
    ensures WordsOf([' '] + s) == WordsOf(s)
  {
    assert ([' '] + s)[1..] == s;
  }

  lemma {:induction false} BlankLast(s: string)
    ensures WordsOf(s + " ") == WordsOf(s)
    decreases |s|
  {
    hide WordsOf;
    if s == "" {
      assert s + " " == [' '] + "";
      BlankFirst("");
    } else {
      var rest := s[1..];
      assert s == [s[0]] + rest && s + " " == [s[0]] + (rest + " ");
      BlankLast(rest);
      if s[0] == ' ' {
        BlankFirst(rest);
        BlankFirst(rest + " ");
      } else {
        ConsWord(s[0], rest);
        ConsWord(s[0], rest + " ");
      }
    }
  }

  lemma {:induction false} WordsTrimStart(s: string)
    ensures WordsOf(TrimStart(s)) == WordsOf(s)
  {
    if s != "" && s[0] == ' ' { WordsTrimStart(s[1..]); }
  }

  lemma {:induction false} WordsTrimEnd(s: string)
    ensures WordsOf(TrimEnd(s)) == WordsOf(s)
  {
    hide WordsOf;
    if s != "" && s[|s| - 1] == ' ' {
      var front := s[..|s| - 1];
      assert s == front + " ";
      BlankLast(front);
      WordsTrimEnd(front);
    }
  }

  /** A clean text is its words, joined with single blanks. */
  lemma {:induction false} CleanIsItsWords(s: string)
    requires Clean(s)
    ensures Join(WordsOf(s)) == s
    decreases |s|
  {
    hide Clean;
    if s != "" {
      assert s[0] != ' ' by { NoBlankFirst(s); }
      var k := BlankIndex(s);
      if k == |s| {
        assert s[..k] == s && s[k..] == "";
        assert WordsOf(s) == [s];
      } else {
        CleanAfterBlank(s, k);
        var rest := s[k + 1..];
        assert s[k..] == [' '] + rest && s == s[..k] + " " + rest;
        BlankFirst(rest);
        CleanIsItsWords(rest);
        assert WordsOf(s) == [s[..k]] + WordsOf(rest);
        assert WordsOf(rest) != [];
      }
    }
  }

  /** For every text: cleaning keeps all its words, in order and with nothing but the replacements, and puts one blank between
      them. */
  lemma CleaningKeepsWords(s: string)
    ensures SafeText(s) == Join(WordsOf(ReplaceAll(s)))
  {
    hide WordsOf, Join, ReplaceAll, Collapse, TrimStart, TrimEnd, Clean;
    var x := ReplaceAll(s);
    ReplaceAllPrintable(s);
    WordsCollapse(x);
    WordsTrimStart(Collapse(x));
    WordsTrimEnd(TrimStart(Collapse(x)));
    SafeTextCleans(s);
    CleanIsItsWords(SafeText(s));
  }
}
