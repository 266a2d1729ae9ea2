/** The PDF objects the report writers use, how they are printed, and a reader for them
    (section 7.3 of ISO 32000-1: names, non-negative integers, references, arrays and dictionaries). */
module PdfSyntax {
  import opened Basics
  import opened Decimals

  datatype Obj = Num(n: nat) | Name(name: string) | Ref(number: nat) | Arr(items: Items) | Dict(entries: Entries)
  datatype Items = NoItems | Item(head: Obj, tail: Items)
  datatype Entries = NoEntries | Entry(key: string, value: Obj, tail: Entries)

  // ----- characters (section 7.2.2) -----

  predicate White(c: char) { c == ' ' || c == '\n' || c == '\r' || c == '\t' || c == '\0' || c == '\U{000C}' }

  predicate Delimiter(c: char) {
    c == '(' || c == ')' || c == '<' || c == '>' || c == '[' || c == ']' || c == '{' || c == '}' || c == '/' || c == '%'
  }

  predicate Regular(c: char) { !White(c) && !Delimiter(c) }

  predicate AllRegular(s: string) { forall i :: 0 <= i < |s| ==> Regular(s[i]) }

  /** A name or number as it must be printed: regular characters, none above `~` (section 7.3.5). */
  predicate IsToken(s: string) { s != "" && AllRegular(s) && forall i :: 0 <= i < |s| ==> s[i] <= '~' }

  predicate StartsRegular(s: string) { s != "" && Regular(s[0]) }

  // ----- printing -----

  function Show(o: Obj): string {
    match o
    case Num(n) => Dec(n)
    case Name(s) => "/" + s
    case Ref(n) => Dec(n) + " 0 R"
    case Arr(items) => "[" + ShowItems(items) + "]"
    case Dict(entries) => "<< " + ShowEntries(entries) + ">>"
  }

  function ShowItems(items: Items): string {
    match items
    case NoItems => ""
    case Item(head, NoItems) => Show(head)
    case Item(head, tail) => Show(head) + " " + ShowItems(tail)
  }

  function ShowEntries(entries: Entries): string {
    match entries
    case NoEntries => ""
    case Entry(key, value, tail) => "/" + key + " " + Show(value) + " " + ShowEntries(tail)
  }

  predicate ValidObj(o: Obj) {
    match o
    case Num(_) => true
    case Name(s) => IsToken(s)
    case Ref(_) => true
    case Arr(items) => ValidItems(items)
    case Dict(entries) => ValidEntries(entries)
  }

  predicate ValidItems(items: Items) { items.Item? ==> ValidObj(items.head) && ValidItems(items.tail) }

  predicate ValidEntries(entries: Entries) {
    entries.Entry? ==> IsToken(entries.key) && ValidObj(entries.value) && ValidEntries(entries.tail)
  }

  // ----- reading -----

  function SkipWhite(s: string): (r: string)
    ensures |r| <= |s| && (r != "" ==> !White(r[0]))
    ensures s != "" && White(s[0]) ==> |r| < |s|
  {
    if s != "" && White(s[0]) then SkipWhite(s[1..]) else s
  }

  /** The regular characters at the front of `s`, and what follows them. */
  function ReadToken(s: string): (r: (string, string))
    ensures |r.1| == |s| - |r.0| && AllRegular(r.0)
  {
    if !StartsRegular(s) then ("", s)
    else
      var (t, rest) := ReadToken(s[1..]);
      ([s[0]] + t, rest)
  }

  /** The `0 R` that turns an integer into a reference. */
  function RefTail(s: string): (r: Option<string>)
    ensures r.Some? ==> |r.value| < |s|
  {
    var t := SkipWhite(s);
    if |t| == |s| then None
    else match ReadNat(t)
      case None => None
      case Some((_, u)) =>
        var v := SkipWhite(u);
        if |v| < |u| && v != "" && v[0] == 'R' && !StartsRegular(v[1..]) then Some(v[1..]) else None
  }

  function ReadObj(s: string): (r: Option<(Obj, string)>)
    ensures r.Some? ==> |r.value.1| < |s|
    decreases |s|, 0
  {
    var t := SkipWhite(s);
    if "<<" <= t then
      (match ReadEntries(t[2..])
       case None => None
       case Some((entries, rest)) => Some((Dict(entries), rest)))
    else if "[" <= t then
      (match ReadItems(t[1..])
       case None => None
       case Some((items, rest)) => Some((Arr(items), rest)))
    else if "/" <= t then
      (var (name, rest) := ReadToken(t[1..]);
       if name == "" then None else Some((Name(name), rest)))
    else
      match ReadNat(t)
      case None => None
      case Some((n, rest)) =>
        match RefTail(rest)
        case None => Some((Num(n), rest))
        case Some(after) => Some((Ref(n), after))
  }

  function ReadItems(s: string): (r: Option<(Items, string)>)
    ensures r.Some? ==> |r.value.1| < |s|
    decreases |s|, 1
  {
    var t := SkipWhite(s);
    if "]" <= t then Some((NoItems, t[1..]))
    else match ReadObj(t)
      case None => None
      case Some((head, rest)) =>
        match ReadItems(rest)
        case None => None
        case Some((tail, after)) => Some((Item(head, tail), after))
  }

  function ReadEntries(s: string): (r: Option<(Entries, string)>)
    ensures r.Some? ==> |r.value.1| < |s|
    decreases |s|, 1
  {
    var t := SkipWhite(s);
    if ">>" <= t then Some((NoEntries, t[2..]))
    else if !("/" <= t) then None
    else
      var (key, u) := ReadToken(t[1..]);
      if key == "" then None
      else match ReadObj(u)
        case None => None
        case Some((value, rest)) =>
          match ReadEntries(rest)
          case None => None
          case Some((tail, after)) => Some((Entry(key, value, tail), after))
  }

  // ----- reading gives back what was printed -----

  lemma {:induction false} TokenBack(t: string, rest: string)
    requires AllRegular(t) && !StartsRegular(rest)
    ensures ReadToken(t + rest) == (t, rest)
  {
    if t == "" {
      assert t + rest == rest;
    } else {
      assert (t + rest)[1..] == t[1..] + rest;
      TokenBack(t[1..], rest);
      assert t == [t[0]] + t[1..];
    }
  }

  /** A printed object starts with a visible character that is not the R of a reference. */
  lemma ShowStart(o: Obj)
    ensures Show(o) != "" && !White(Show(o)[0]) && Show(o)[0] != 'R' && Show(o)[0] != ']' && Show(o)[0] != '>'
    ensures StartsWithDigit(Show(o)) <==> o.Num? || o.Ref?
  {
    match o
    case Num(n) =>
    case Ref(n) => assert Show(o)[0] == Dec(n)[0];
    case Name(_) =>
    case Arr(items) => assert Show(o)[0] == '[';
    case Dict(entries) => assert Show(o)[0] == '<';
  }

  /** What may follow a printed object without being mistaken for a part of it. */
  predicate Safe(rest: string) { !StartsRegular(rest) && RefTail(rest).None? }

  lemma NotDigitSafe(rest: string)
    requires !StartsRegular(rest) && !StartsWithDigit(SkipWhite(rest))
    ensures Safe(rest)
  {
  }

  lemma BlankThen(c: char, t: string)
    requires White(c) && t != "" && !White(t[0])
    ensures SkipWhite([c] + t) == t
  {
    assert ([c] + t)[1..] == t;
  }

  /** The character a reader would meet next is not the R of a reference. */
  predicate NoLoneR(more: string) { !StartsRegular(more) && (SkipWhite(more) != "" ==> SkipWhite(more)[0] != 'R') }

  lemma NumItemSafe(n: nat, more: string)
    requires NoLoneR(more)
    ensures Safe(" " + (Dec(n) + more))
  {
    BlankThen(' ', Dec(n) + more);
    ReadDec(n, more);
  }

  lemma RefItemSafe(n: nat, more: string)
    ensures Safe(" " + (Dec(n) + (" 0 R" + more)))
  {
    var tail := " 0 R" + more;
    BlankThen(' ', Dec(n) + tail);
    ReadDec(n, tail);
    BlankThen(' ', "0 R" + more);
    assert tail == " " + ("0 R" + more);
  }

  /** After an integer in an array, the next element never reads as the rest of a reference. */
  lemma ItemSafe(o: Obj, more: string)
    requires NoLoneR(more)
    ensures Safe(" " + (Show(o) + more))
  {
    ShowStart(o);
    match o
    case Num(n) => NumItemSafe(n, more);
    case Ref(n) =>
      RefItemSafe(n, more);
      assert Show(o) + more == Dec(n) + (" 0 R" + more);
    case _ =>
      BlankThen(' ', Show(o) + more);
      NotDigitSafe(" " + (Show(o) + more));
  }

  lemma NumBack(n: nat, rest: string)
    requires Safe(rest)
    ensures ReadObj(Dec(n) + rest) == Some((Num(n), rest))
  {
    ReadDec(n, rest);
    assert SkipWhite(Dec(n) + rest) == Dec(n) + rest;
  }

  lemma RefTailBack(rest: string)
    requires !StartsRegular(rest)
    ensures RefTail(" 0 R" + rest) == Some(rest)
  {
    var r := "R" + rest;
    var g := Dec(0) + (" " + r);
    assert Dec(0) == "0";
    assert " 0 R" + rest == " " + g;
    BlankThen(' ', g);
    ReadDec(0, " " + r);
    BlankThen(' ', r);
    assert r[1..] == rest;
  }

  lemma RefBack(n: nat, rest: string)
    requires !StartsRegular(rest)
    ensures ReadObj(Dec(n) + (" 0 R" + rest)) == Some((Ref(n), rest))
  {
    var tail := " 0 R" + rest;
    ReadDec(n, tail);
    RefTailBack(rest);
    assert SkipWhite(Dec(n) + tail) == Dec(n) + tail;
  }

  lemma NameBack(name: string, rest: string)
    requires IsToken(name) && !StartsRegular(rest)
    ensures ReadObj("/" + name + rest) == Some((Name(name), rest))
  {
    var s := "/" + name + rest;
    assert s[1..] == name + rest && SkipWhite(s) == s;
    TokenBack(name, rest);
  }

  lemma Regroup(a: string, b: string, c: string)
    ensures a + b + c == a + (b + c)
  {
  }

  lemma Regroup3(a: string, b: string, c: string, d: string)
    ensures a + b + c + d == a + (b + c + d)
  {
  }

  lemma ArrBack(s: string)
    requires ReadItems(s).Some?
    ensures ReadObj("[" + s) == Some((Arr(ReadItems(s).value.0), ReadItems(s).value.1))
  {
    assert ("[" + s)[1..] == s;
    assert SkipWhite("[" + s) == "[" + s;
  }

  lemma DictBack(s: string)
    requires ReadEntries(s).Some?
    ensures ReadObj("<< " + s) == Some((Dict(ReadEntries(s).value.0), ReadEntries(s).value.1))
  {
    assert ("<< " + s)[2..] == " " + s;
    assert SkipWhite("<< " + s) == "<< " + s;
    EntriesSkipBlank(s);
  }

  /** Reading a printed object gives it back and stops right after it. */
  lemma {:induction false} ObjBack(o: Obj, rest: string)
    requires ValidObj(o) && Safe(rest)
    ensures ReadObj(Show(o) + rest) == Some((o, rest))
    decreases o, 0
  {
    match o
    case Num(n) => NumBack(n, rest);
    case Ref(n) =>
      RefBack(n, rest);
      Regroup(Dec(n), " 0 R", rest);
    case Name(name) => NameBack(name, rest);
    case Arr(items) =>
      ItemsBack(items, rest);
      ArrBack(ShowItems(items) + "]" + rest);
      Regroup3("[", ShowItems(items), "]", rest);
    case Dict(entries) =>
      EntriesBack(entries, rest);
      DictBack(ShowEntries(entries) + ">>" + rest);
      Regroup3("<< ", ShowEntries(entries), ">>", rest);
  }

  /** What stands after one element of an array whose remaining elements are `tail`. */
  function AfterItem(tail: Items, rest: string): string {
    if tail.NoItems? then "]" + rest else " " + (ShowItems(tail) + "]" + rest)
  }

  lemma ShowFirstItem(head: Obj, tail: Items, rest: string)
    ensures ShowItems(Item(head, tail)) + "]" + rest == Show(head) + AfterItem(tail, rest)
  {
    if tail.NoItems? {
      Regroup(Show(head), "]", rest);
    } else {
      hide Show;
      Regroup(Show(head) + " ", ShowItems(tail) + "]", rest);
      Regroup(Show(head), " ", ShowItems(tail) + "]" + rest);
      assert Show(head) + " " + ShowItems(tail) + "]" == Show(head) + " " + (ShowItems(tail) + "]");
    }
  }

  lemma AfterItemNoLoneR(tail: Items, rest: string)
    ensures NoLoneR(AfterItem(tail, rest))
  {
    if tail.Item? {
      ShowFirstItem(tail.head, tail.tail, rest);
      ShowStart(tail.head);
      BlankThen(' ', Show(tail.head) + AfterItem(tail.tail, rest));
    }
  }

  lemma AfterItemSafe(tail: Items, rest: string)
    ensures Safe(AfterItem(tail, rest))
  {
    if tail.Item? {
      AfterItemNoLoneR(tail.tail, rest);
      ItemSafe(tail.head, AfterItem(tail.tail, rest));
      ShowFirstItem(tail.head, tail.tail, rest);
    } else {
      NotDigitSafe("]" + rest);
    }
  }

  lemma ItemsSkipBlank(x: string)
    ensures ReadItems(" " + x) == ReadItems(x)
  {
    assert (" " + x)[1..] == x;
    assert SkipWhite(" " + x) == SkipWhite(x);
  }

  lemma {:induction false} ItemsBack(items: Items, rest: string)
    requires ValidItems(items)
    ensures ReadItems(ShowItems(items) + "]" + rest) == Some((items, rest))
    decreases items, 1
  {
    match items
    case NoItems =>
      assert ShowItems(items) + "]" + rest == "]" + rest;
      assert ("]" + rest)[1..] == rest;
    case Item(head, tail) =>
      var after := AfterItem(tail, rest);
      ShowFirstItem(head, tail, rest);
      AfterItemSafe(tail, rest);
      ObjBack(head, after);
      ItemsBack(tail, rest);
      ItemsSkipBlank(ShowItems(tail) + "]" + rest);
      ShowStart(head);
      assert ShowItems(tail) + "]" + rest == "]" + rest || tail.Item?;
      assert SkipWhite(Show(head) + after) == Show(head) + after;
  }

  lemma EntriesSkipBlank(x: string)
    ensures ReadEntries(" " + x) == ReadEntries(x)
  {
    assert (" " + x)[1..] == x;
    assert SkipWhite(" " + x) == SkipWhite(x);
  }

  lemma ObjSkipBlank(x: string)
    ensures ReadObj(" " + x) == ReadObj(x)
  {
    assert (" " + x)[1..] == x;
    assert SkipWhite(" " + x) == SkipWhite(x);
  }

  lemma AfterEntrySafe(tail: Entries, rest: string)
    ensures Safe(" " + (ShowEntries(tail) + ">>" + rest))
  {
    var t := ShowEntries(tail) + ">>" + rest;
    assert t[0] == if tail.NoEntries? then '>' else '/';
    BlankThen(' ', t);
    NotDigitSafe(" " + t);
  }

  lemma ShowFirstEntry(key: string, value: Obj, tail: Entries, rest: string)
    ensures ShowEntries(Entry(key, value, tail)) + ">>" + rest
         == "/" + (key + (" " + (Show(value) + (" " + (ShowEntries(tail) + ">>" + rest)))))
  {
    hide Show;
    EntryRegroup(key, Show(value), ShowEntries(tail), rest);
  }

  lemma EntryRegroup(key: string, value: string, tail: string, rest: string)
    ensures "/" + key + " " + value + " " + tail + ">>" + rest
         == "/" + (key + (" " + (value + (" " + (tail + ">>" + rest)))))
  {
  }

  lemma {:induction false} EntriesBack(entries: Entries, rest: string)
    requires ValidEntries(entries)
    ensures ReadEntries(ShowEntries(entries) + ">>" + rest) == Some((entries, rest))
    decreases entries, 1
  {
    match entries
    case NoEntries =>
      assert ShowEntries(entries) + ">>" + rest == ">>" + rest;
      assert (">>" + rest)[2..] == rest;
    case Entry(key, value, tail) =>
      var more := ShowEntries(tail) + ">>" + rest;
      var valueOn := Show(value) + (" " + more);
      var s := "/" + (key + (" " + valueOn));
      ShowFirstEntry(key, value, tail, rest);
      assert s[1..] == key + (" " + valueOn) && SkipWhite(s) == s;
      TokenBack(key, " " + valueOn);
      AfterEntrySafe(tail, rest);
      ObjSkipBlank(valueOn);
      ObjBack(value, " " + more);
      EntriesSkipBlank(more);
      EntriesBack(tail, rest);
  }
}
