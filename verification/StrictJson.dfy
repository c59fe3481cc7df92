/**
 The strict JSON parser and the canonical serializer.  A value's object members are listed in the order
 JavaScript enumerates them; the parser refuses duplicate keys, fractions, exponents and unsafe integers.
 */
module StrictJson {
  import opened Wrappers
  import opened JsonText

  datatype Json =
    | Null
    | Bool(b: bool)
    | Num(n: int)
    | Str(s: Text)
    | Arr(items: seq<Json>)
    | Obj(members: seq<Member>)

  datatype Member = Member(key: Text, value: Json)

  const TRUE: Text := [0x74, 0x72, 0x75, 0x65]
  const FALSE: Text := [0x66, 0x61, 0x6C, 0x73, 0x65]
  const NULL: Text := [0x6E, 0x75, 0x6C, 0x6C]
  const COMMA: Unit := 0x2C
  const COLON: Unit := 0x3A
  const OPEN_ARRAY: Unit := 0x5B
  const CLOSE_ARRAY: Unit := 0x5D
  const OPEN_OBJECT: Unit := 0x7B
  const CLOSE_OBJECT: Unit := 0x7D

  // ---- Printing ----

  function Print(v: Json): Text {
    match v
    case Null => NULL
    case Bool(b) => if b then TRUE else FALSE
    case Num(n) => PrintNumber(n)
    case Str(s) => Quoted(s)
    case Arr(items) => [OPEN_ARRAY] + PrintItems(items) + [CLOSE_ARRAY]
    case Obj(members) => [OPEN_OBJECT] + PrintMembers(members) + [CLOSE_OBJECT]
  }

  function PrintItems(items: seq<Json>): Text {
    if items == [] then []
    else if |items| == 1 then Print(items[0])
    else Print(items[0]) + [COMMA] + PrintItems(items[1..])
  }

  function PrintMember(m: Member): Text {
    Quoted(m.key) + [COLON] + Print(m.value)
  }

  function PrintMembers(members: seq<Member>): Text {
    if members == [] then []
    else if |members| == 1 then PrintMember(members[0])
    else PrintMember(members[0]) + [COMMA] + PrintMembers(members[1..])
  }

  // ---- Well-formed values ----

  predicate DistinctKeys(members: seq<Member>) {
    forall i, j :: 0 <= i < j < |members| ==> members[i].key != members[j].key
  }

  /** Integers are safe and keys are distinct, at every depth. */
  predicate Printable(v: Json) {
    match v
    case Num(n) => Safe(n)
    case Arr(items) => forall i :: 0 <= i < |items| ==> Printable(items[i])
    case Obj(members) => DistinctKeys(members) && forall i :: 0 <= i < |members| ==> Printable(members[i].value)
    case _ => true
  }

  // ---- Parsing, as a function of the source and an index ----

  predicate White(c: Unit) {
    || 0x09 <= c <= 0x0D || c == 0x20 || c == 0xA0 || c == 0x1680 || 0x2000 <= c <= 0x200A
    || c == 0x2028 || c == 0x2029 || c == 0x202F || c == 0x205F || c == 0x3000 || c == 0xFEFF
  }

  function SkipWhite(src: Text, i: nat): (j: nat)
    requires i <= |src|
    ensures i <= j <= |src|
    ensures forall k :: i <= k < j ==> White(src[k])
    ensures j < |src| ==> !White(src[j])
    decreases |src| - i
  {
    if i < |src| && White(src[i]) then SkipWhite(src, i + 1) else i
  }

  datatype Parsed<T> = Parsed(value: T, next: nat)

  predicate StartsWith(src: Text, i: nat, t: Text) {
    i + |t| <= |src| && src[i..i + |t|] == t
  }

  function ParseString(src: Text, i: nat): (r: Option<Parsed<Text>>)
    requires i < |src| && src[i] == QUOTE
    ensures r.Some? ==> i < r.value.next <= |src|
  {
    ClosingQuoteBounds(src, i + 1);
    match ClosingQuote(src, i + 1)
    case None => None
    case Some(end) =>
      match Unescape(src[i + 1..end])
      case None => None
      case Some(s) => Some(Parsed(s, end + 1))
  }

  function ParseValue(src: Text, i: nat): (r: Option<Parsed<Json>>)
    requires i <= |src|
    ensures r.Some? ==> i < r.value.next <= |src|
    decreases |src| - i, 0
  {
    var j := SkipWhite(src, i);
    if j == |src| then None
    else if src[j] == OPEN_OBJECT then
      var k := SkipWhite(src, j + 1);
      if k < |src| && src[k] == CLOSE_OBJECT then Some(Parsed(Obj([]), k + 1))
      else
        match ParseMembers(src, k, [])
        case None => None
        case Some(p) => Some(Parsed(Obj(p.value), p.next))
    else if src[j] == OPEN_ARRAY then
      var k := SkipWhite(src, j + 1);
      if k < |src| && src[k] == CLOSE_ARRAY then Some(Parsed(Arr([]), k + 1))
      else
        match ParseItems(src, k, [])
        case None => None
        case Some(p) => Some(Parsed(Arr(p.value), p.next))
    else if src[j] == QUOTE then
      match ParseString(src, j)
      case None => None
      case Some(p) => Some(Parsed(Str(p.value), p.next))
    else if StartsWith(src, j, TRUE) then Some(Parsed(Bool(true), j + 4))
    else if StartsWith(src, j, FALSE) then Some(Parsed(Bool(false), j + 5))
    else if StartsWith(src, j, NULL) then Some(Parsed(Null, j + 4))
    else
      match ScanNumber(src, j)
      case None => None
      case Some(n) => Some(Parsed(Num(n.value), n.next))
  }

  /** The items of an array from one of them on, behind those already read. */
  function ParseItems(src: Text, i: nat, items: seq<Json>): (r: Option<Parsed<seq<Json>>>)
    requires i <= |src|
    ensures r.Some? ==> i < r.value.next <= |src|
    decreases |src| - i, 1
  {
    if i == |src| then None
    else
      match ParseValue(src, i)
      case None => None
      case Some(p) =>
        var j := SkipWhite(src, p.next);
        if j == |src| then None
        else if src[j] == CLOSE_ARRAY then Some(Parsed(items + [p.value], j + 1))
        else if src[j] != COMMA then None
        else ParseItems(src, j + 1, items + [p.value])
  }

  predicate HasKey(members: seq<Member>, key: Text) {
    exists i :: 0 <= i < |members| && members[i].key == key
  }

  /** One member of an object: a key that is new, a colon and a value. */
  function ParseMember(src: Text, i: nat, members: seq<Member>): (r: Option<Parsed<Member>>)
    requires i <= |src|
    ensures r.Some? ==> i < r.value.next <= |src|
    decreases |src| - i, 1
  {
    var j := SkipWhite(src, i);
    if j == |src| || src[j] != QUOTE then None
    else
      match ParseString(src, j)
      case None => None
      case Some(key) =>
        if HasKey(members, key.value) then None
        else
          var k := SkipWhite(src, key.next);
          if k == |src| || src[k] != COLON then None
          else
            match ParseValue(src, k + 1)
            case None => None
            case Some(p) => Some(Parsed(Member(key.value, p.value), p.next))
  }

  /** The members of an object from one of them on, behind those already read. */
  function ParseMembers(src: Text, i: nat, members: seq<Member>): (r: Option<Parsed<seq<Member>>>)
    requires i <= |src|
    ensures r.Some? ==> i < r.value.next <= |src|
    decreases |src| - i, 2
  {
    match ParseMember(src, i, members)
    case None => None
    case Some(p) =>
      var j := SkipWhite(src, p.next);
      if j == |src| then None
      else if src[j] == CLOSE_OBJECT then Some(Parsed(members + [p.value], j + 1))
      else if src[j] != COMMA then None
      else ParseMembers(src, j + 1, members + [p.value])
  }

  /** The whole text; members are listed as they are written. */
  function Parse(src: Text): Option<Json> {
    match ParseValue(src, 0)
    case None => None
    case Some(p) => if SkipWhite(src, p.next) == |src| then Some(p.value) else None
  }

  // ---- What is printed is parsed back ----

  lemma NoWhite(src: Text, i: nat)
    requires i < |src| && !White(src[i])
    ensures SkipWhite(src, i) == i
  {
  }

  predicate Mark(c: Unit) {
    c in {COMMA, COLON, OPEN_ARRAY, CLOSE_ARRAY, OPEN_OBJECT, CLOSE_OBJECT, QUOTE}
  }

  /** A punctuation mark is not skipped and ends a number. */
  lemma AtMark(src: Text, i: nat, c: Unit, rest: Text)
    requires Mark(c) && At(src, i, [c] + rest)
    ensures i < |src| && src[i] == c && SkipWhite(src, i) == i && Stops(src, i) && At(src, i + 1, rest)
  {
    AtUnit(src, i, c, rest);
    NoWhite(src, i);
  }

  lemma StringPrinted(src: Text, i: nat, s: Text)
    requires At(src, i, Quoted(s))
    ensures src[i] == QUOTE && ParseString(src, i) == Some(Parsed(s, i + |Quoted(s)|))
  {
    hide Escape, Unescape;
    assert Quoted(s) == [QUOTE] + (Escape(s) + [QUOTE]);
    AtUnit(src, i, QUOTE, Escape(s) + [QUOTE]);
    ClosingFound(src, i + 1, s);
    AtParts(src, i + 1, Escape(s), [QUOTE]);
    UnescapeEscape(s);
  }

  /** The first unit of a printed value tells its kind. */
  predicate Heads(v: Json, c: Unit) {
    match v
    case Null => c == 0x6E
    case Bool(b) => c == if b then 0x74 else 0x66
    case Num(n) => Digit(c) || c == MINUS
    case Str(_) => c == QUOTE
    case Arr(_) => c == OPEN_ARRAY
    case Obj(_) => c == OPEN_OBJECT
  }

  lemma PrintHead(v: Json)
    ensures |Print(v)| > 0 && Heads(v, Print(v)[0]) && !White(Print(v)[0])
  {
  }

  lemma HeadAt(src: Text, i: nat, t: Text)
    requires At(src, i, t) && |t| > 0
    ensures src[i] == t[0]
  {
    assert src[i..i + |t|][0] == src[i];
  }

  lemma {:induction false} ValuePrinted(src: Text, i: nat, v: Json)
    requires Printable(v) && At(src, i, Print(v)) && Stops(src, i + |Print(v)|)
    ensures ParseValue(src, i) == Some(Parsed(v, i + |Print(v)|))
    decreases v
  {
    hide Escape, Unescape, ParseString, PrintItems, PrintMembers, DistinctKeys;
    PrintHead(v);
    HeadAt(src, i, Print(v));
    NoWhite(src, i);
    match v
    case Null => WordPrinted(src, i, v);
    case Bool(b) => WordPrinted(src, i, v);
    case Num(n) =>
      NotWords(src, i);
      NumberRoundTrip(src, i, n);
    case Str(s) => StringPrinted(src, i, s);
    case Arr(items) => ArrayPrinted(src, i, items);
    case Obj(members) => ObjectPrinted(src, i, members);
  }

  lemma WordPrinted(src: Text, i: nat, v: Json)
    requires (v.Null? || v.Bool?) && At(src, i, Print(v))
    ensures ParseValue(src, i) == Some(Parsed(v, i + |Print(v)|))
  {
    hide ScanNumber, ParseString, ParseItems, ParseMembers;
    PrintHead(v);
    HeadAt(src, i, Print(v));
    NoWhite(src, i);
    if !v.Bool? || !v.b {
      OtherWord(src, i, TRUE, Print(v));
    }
    if v.Null? {
      OtherWord(src, i, FALSE, Print(v));
    }
  }

  lemma OtherWord(src: Text, i: nat, t: Text, u: Text)
    requires At(src, i, u) && |t| > 0 && |u| > 0 && t[0] != u[0]
    ensures !StartsWith(src, i, t)
  {
    HeadAt(src, i, u);
    if StartsWith(src, i, t) {
      HeadAt(src, i, t);
    }
  }

  lemma NotWords(src: Text, i: nat)
    requires i < |src| && (Digit(src[i]) || src[i] == MINUS)
    ensures !StartsWith(src, i, TRUE) && !StartsWith(src, i, FALSE) && !StartsWith(src, i, NULL)
  {
    if StartsWith(src, i, TRUE) {
      HeadAt(src, i, TRUE);
    }
    if StartsWith(src, i, FALSE) {
      HeadAt(src, i, FALSE);
    }
    if StartsWith(src, i, NULL) {
      HeadAt(src, i, NULL);
    }
  }

  /** An array is its opening bracket and then either a closing one or items. */
  lemma ArrayCase(src: Text, i: nat)
    requires i < |src| && src[i] == OPEN_ARRAY && SkipWhite(src, i) == i
    ensures var k := SkipWhite(src, i + 1);
            ParseValue(src, i) ==
            if k < |src| && src[k] == CLOSE_ARRAY then Some(Parsed(Arr([]), k + 1))
            else match ParseItems(src, k, []) case None => None case Some(p) => Some(Parsed(Arr(p.value), p.next))
  {
  }

  lemma ObjectCase(src: Text, i: nat)
    requires i < |src| && src[i] == OPEN_OBJECT && SkipWhite(src, i) == i
    ensures var k := SkipWhite(src, i + 1);
            ParseValue(src, i) ==
            if k < |src| && src[k] == CLOSE_OBJECT then Some(Parsed(Obj([]), k + 1))
            else match ParseMembers(src, k, []) case None => None case Some(p) => Some(Parsed(Obj(p.value), p.next))
  {
  }

  lemma {:induction false} ArrayPrinted(src: Text, i: nat, items: seq<Json>)
    requires (forall k :: 0 <= k < |items| ==> Printable(items[k])) && At(src, i, Print(Arr(items)))
    ensures ParseValue(src, i) == Some(Parsed(Arr(items), i + |Print(Arr(items))|))
    decreases items, 1
  {
    hide Printable, ParseValue, ParseItems, ParseMembers, White, SkipWhite, At, DistinctKeys;
    var body := PrintItems(items) + [CLOSE_ARRAY];
    assert Print(Arr(items)) == [OPEN_ARRAY] + body;
    AtMark(src, i, OPEN_ARRAY, body);
    ArrayCase(src, i);
    if items == [] {
      assert body == [CLOSE_ARRAY] + [];
      AtMark(src, i + 1, CLOSE_ARRAY, []);
    } else {
      PrintHead(items[0]);
      assert body[0] == Print(items[0])[0];
      FitsAt(src, i + 1, body);
      HeadAt(src, i + 1, body);
      NoWhite(src, i + 1);
      ItemsPrinted(src, i + 1, [], items);
      assert [] + items == items;
    }
  }

  lemma FitsAt(src: Text, i: nat, t: Text)
    requires At(src, i, t)
    ensures i + |t| <= |src|
  {
  }

  lemma {:induction false} ItemsPrinted(src: Text, i: nat, done: seq<Json>, items: seq<Json>)
    requires items != [] && (forall k :: 0 <= k < |items| ==> Printable(items[k]))
    requires At(src, i, PrintItems(items) + [CLOSE_ARRAY])
    ensures ParseItems(src, i, done) == Some(Parsed(done + items, i + |PrintItems(items)| + 1))
    decreases items, 0
  {
    hide Printable, ParseValue, Print, White, SkipWhite, At, Stops;
    var first := Print(items[0]);
    FitsAt(src, i, PrintItems(items) + [CLOSE_ARRAY]);
    if |items| == 1 {
      AtParts(src, i, first, [CLOSE_ARRAY]);
      assert [CLOSE_ARRAY] == [CLOSE_ARRAY] + [];
      AtMark(src, i + |first|, CLOSE_ARRAY, []);
      ValuePrinted(src, i, items[0]);
      assert items == [items[0]];
    } else {
      var rest := PrintItems(items[1..]) + [CLOSE_ARRAY];
      assert PrintItems(items) + [CLOSE_ARRAY] == first + ([COMMA] + rest);
      AtParts(src, i, first, [COMMA] + rest);
      AtMark(src, i + |first|, COMMA, rest);
      ValuePrinted(src, i, items[0]);
      ItemsPrinted(src, i + |first| + 1, done + [items[0]], items[1..]);
      assert done + [items[0]] + items[1..] == done + items;
    }
  }

  lemma {:induction false} ObjectPrinted(src: Text, i: nat, members: seq<Member>)
    requires DistinctKeys(members) && (forall k :: 0 <= k < |members| ==> Printable(members[k].value))
    requires At(src, i, Print(Obj(members)))
    ensures ParseValue(src, i) == Some(Parsed(Obj(members), i + |Print(Obj(members))|))
    decreases members, 1
  {
    hide Printable, ParseValue, ParseItems, ParseMembers, White, SkipWhite, At, DistinctKeys, Escape;
    var body := PrintMembers(members) + [CLOSE_OBJECT];
    assert Print(Obj(members)) == [OPEN_OBJECT] + body;
    AtMark(src, i, OPEN_OBJECT, body);
    ObjectCase(src, i);
    if members == [] {
      assert body == [CLOSE_OBJECT] + [];
      AtMark(src, i + 1, CLOSE_OBJECT, []);
    } else {
      assert PrintMember(members[0])[0] == QUOTE;
      assert PrintMembers(members)[0] == QUOTE;
      assert body == [QUOTE] + body[1..];
      AtMark(src, i + 1, QUOTE, body[1..]);
      assert [] + members == members;
      MembersPrinted(src, i + 1, [], members);
    }
  }

  /** One printed member: key, colon, value, and the mark behind the value. */
  lemma {:induction false} MemberPrinted(src: Text, i: nat, done: seq<Member>, m: Member, mark: Unit, tail: Text)
    requires Printable(m.value) && At(src, i, PrintMember(m) + ([mark] + tail)) && Mark(mark)
    requires !HasKey(done, m.key)
    ensures i <= |src| && ParseMember(src, i, done) == Some(Parsed(m, i + |PrintMember(m)|))
    ensures var l := i + |PrintMember(m)|; l < |src| && SkipWhite(src, l) == l && src[l] == mark && At(src, l + 1, tail)
    decreases m, 0
  {
    hide Printable, ParseValue, ParseString, Print, Escape, White, SkipWhite, At, Stops, Mark;
    var key, value := Quoted(m.key), Print(m.value);
    assert PrintMember(m) + ([mark] + tail) == key + ([COLON] + (value + ([mark] + tail)));
    AtParts(src, i, key, [COLON] + (value + ([mark] + tail)));
    StringPrinted(src, i, m.key);
    FitsAt(src, i, key);
    NoWhite(src, i) by { QuoteNotWhite(); }
    ColonIsMark();
    AtMark(src, i + |key|, COLON, value + ([mark] + tail));
    AtParts(src, i + |key| + 1, value, [mark] + tail);
    AtMark(src, i + |PrintMember(m)|, mark, tail);
    ValuePrinted(src, i + |key| + 1, m.value);
  }

  lemma QuoteNotWhite()
    ensures !White(QUOTE)
  {
  }

  lemma ColonIsMark()
    ensures Mark(COLON) && Mark(COMMA) && Mark(CLOSE_OBJECT)
  {
  }

  lemma {:induction false} MembersPrinted(src: Text, i: nat, done: seq<Member>, members: seq<Member>)
    requires members != [] && (forall k :: 0 <= k < |members| ==> Printable(members[k].value))
    requires DistinctKeys(done + members)
    requires At(src, i, PrintMembers(members) + [CLOSE_OBJECT])
    ensures ParseMembers(src, i, done) == Some(Parsed(done + members, i + |PrintMembers(members)| + 1))
    decreases members, 0
  {
    hide Printable, ParseMember, PrintMember, White, SkipWhite, At, Mark, DistinctKeys, HasKey;
    var m := members[0];
    NewKey(done, members);
    ColonIsMark();
    FitsAt(src, i, PrintMembers(members) + [CLOSE_OBJECT]);
    if |members| == 1 {
      assert PrintMembers(members) + [CLOSE_OBJECT] == PrintMember(m) + ([CLOSE_OBJECT] + []);
      MemberPrinted(src, i, done, m, CLOSE_OBJECT, []);
      assert members == [m];
    } else {
      var rest := PrintMembers(members[1..]) + [CLOSE_OBJECT];
      assert PrintMembers(members) + [CLOSE_OBJECT] == PrintMember(m) + ([COMMA] + rest);
      MemberPrinted(src, i, done, m, COMMA, rest);
      assert done + [m] + members[1..] == done + members;
      MembersPrinted(src, i + |PrintMember(m)| + 1, done + [m], members[1..]);
    }
  }

  lemma NewKey(done: seq<Member>, members: seq<Member>)
    requires members != [] && DistinctKeys(done + members)
    ensures !HasKey(done, members[0].key)
  {
    var all := done + members;
    assert all[|done|] == members[0];
    forall k | 0 <= k < |done|
      ensures done[k].key != members[0].key
    {
      assert all[k] == done[k];
    }
  }

  /** Printing and parsing a value with safe integers and distinct keys gives the value back, at any depth. */
  lemma PrintParse(v: Json)
    requires Printable(v)
    ensures Parse(Print(v)) == Some(v)
  {
    assert Print(v)[0..|Print(v)|] == Print(v);
    ValuePrinted(Print(v), 0, v);
  }

  // ---- What the parser accepts ----

  lemma {:induction false} ParsedPrintable(src: Text, i: nat)
    requires i <= |src| && ParseValue(src, i).Some?
    ensures Printable(ParseValue(src, i).value.value)
    decreases |src| - i, 0
  {
    hide ParseString, ParseItems, ParseMembers, StartsWith;
    var j := SkipWhite(src, i);
    if src[j] == OPEN_OBJECT {
      var k := SkipWhite(src, j + 1);
      if !(k < |src| && src[k] == CLOSE_OBJECT) {
        MembersParsed(src, k, []);
      }
    } else if src[j] == OPEN_ARRAY {
      var k := SkipWhite(src, j + 1);
      if !(k < |src| && src[k] == CLOSE_ARRAY) {
        ItemsParsed(src, k, []);
      }
    }
  }

  lemma {:induction false} ItemsParsed(src: Text, i: nat, items: seq<Json>)
    requires i <= |src| && ParseItems(src, i, items).Some?
    requires forall k :: 0 <= k < |items| ==> Printable(items[k])
    ensures forall k :: 0 <= k < |ParseItems(src, i, items).value.value| ==> Printable(ParseItems(src, i, items).value.value[k])
    decreases |src| - i, 1
  {
    hide ParseValue, Printable;
    ParsedPrintable(src, i);
    var p := ParseValue(src, i).value;
    var j := SkipWhite(src, p.next);
    if src[j] == COMMA {
      ItemsParsed(src, j + 1, items + [p.value]);
    }
  }

  lemma {:induction false} MemberParsed(src: Text, i: nat, members: seq<Member>)
    requires i <= |src| && ParseMember(src, i, members).Some?
    ensures Printable(ParseMember(src, i, members).value.value.value)
    ensures !HasKey(members, ParseMember(src, i, members).value.value.key)
    decreases |src| - i, 1
  {
    hide ParseValue, ParseString, Printable, White;
    var key := ParseString(src, SkipWhite(src, i)).value;
    ParsedPrintable(src, SkipWhite(src, key.next) + 1);
  }

  lemma {:induction false} MembersParsed(src: Text, i: nat, members: seq<Member>)
    requires i <= |src| && ParseMembers(src, i, members).Some?
    requires DistinctKeys(members) && forall k :: 0 <= k < |members| ==> Printable(members[k].value)
    ensures DistinctKeys(ParseMembers(src, i, members).value.value)
    ensures forall k :: 0 <= k < |ParseMembers(src, i, members).value.value| ==>
                          Printable(ParseMembers(src, i, members).value.value[k].value)
    decreases |src| - i, 2
  {
    hide ParseMember, Printable, White;
    MemberParsed(src, i, members);
    var p := ParseMember(src, i, members).value;
    var j := SkipWhite(src, p.next);
    if src[j] == COMMA {
      MembersParsed(src, j + 1, members + [p.value]);
    }
  }

  /** An accepted text has no duplicate key at any depth and no unsafe integer. */
  lemma AcceptedIsStrict(src: Text)
    requires Parse(src).Some?
    ensures Printable(Parse(src).value)
  {
    ParsedPrintable(src, 0);
  }

  /** Printing puts nothing between the parts of a value but one comma or colon. */
  lemma PrintedLiterally(k: Text, l: Text, v: Json, w: Json)
    ensures Print(Obj([Member(k, v), Member(l, w)])) ==
            [0x7B] + Quoted(k) + [0x3A] + Print(v) + [0x2C] + Quoted(l) + [0x3A] + Print(w) + [0x7D]
    ensures Print(Arr([v, w])) == [0x5B] + Print(v) + [0x2C] + Print(w) + [0x5D]
    ensures Print(Arr([])) == [0x5B, 0x5D] && Print(Obj([])) == [0x7B, 0x7D]
    ensures Print(Null) == [0x6E, 0x75, 0x6C, 0x6C] && Print(Bool(true)) == [0x74, 0x72, 0x75, 0x65]
    ensures Print(Bool(false)) == [0x66, 0x61, 0x6C, 0x73, 0x65]
  {
    hide Quoted;
    var a, b := Member(k, v), Member(l, w);
    assert [a, b][1..] == [b] && [v, w][1..] == [w];
    assert PrintMembers([b]) == PrintMember(b) && PrintItems([w]) == Print(w);
    assert PrintMembers([a, b]) == PrintMember(a) + [COMMA] + PrintMember(b);
    assert PrintMember(a) == Quoted(k) + [COLON] + Print(v) && PrintMember(b) == Quoted(l) + [COLON] + Print(w);
  }

  /** White space is what JavaScript's pattern for it matches, and the safe integers are those below 2^53. */
  lemma WhiteSpace(c: Unit)
    ensures White(c) <==> c in {0x09, 0x0A, 0x0B, 0x0C, 0x0D, 0x20, 0xA0, 0x1680, 0x2000, 0x2001, 0x2002, 0x2003, 0x2004, 0x2005,
                                0x2006, 0x2007, 0x2008, 0x2009, 0x200A, 0x2028, 0x2029, 0x202F, 0x205F, 0x3000, 0xFEFF}
    ensures Safe(c) && Safe(0x1F_FFFF_FFFF_FFFF) && Safe(-0x1F_FFFF_FFFF_FFFF)
    ensures !Safe(0x20_0000_0000_0000) && !Safe(-0x20_0000_0000_0000)
  {
  }
}
