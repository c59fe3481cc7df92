/**
 The accepted JSON texts as a grammar, apart from any parser: strings as in section 7 of RFC 8259, numbers as the
 integer subset of section 6 in the safe range, object keys distinct, and JavaScript's white space around every
 token.  A derivation is a tree that keeps its white space and its escapes, so it flattens to the exact text.
 */
module JsonGrammar {
  import opened Wrappers
  import opened JsonText
  import opened StrictJson

  // ---- Strings ----

  /** One unit of a string: as it is, a short escape, or four hex digits. */
  datatype Piece = Plain(c: Unit) | Short(letter: Unit) | Code(a: Unit, b: Unit, c: Unit, d: Unit)

  predicate IsHex(c: Unit) {
    Digit(c) || 0x61 <= c <= 0x66 || 0x41 <= c <= 0x46
  }

  const SHORT_ESCAPES: map<Unit, Unit> :=
    map[0x22 := 0x22, 0x5C := 0x5C, 0x2F := 0x2F, 0x62 := 0x08, 0x66 := 0x0C, 0x6E := 0x0A, 0x72 := 0x0D, 0x74 := 0x09]

  predicate PieceOk(p: Piece) {
    match p
    case Plain(c) => c >= 0x20 && c != QUOTE && c != BACKSLASH
    case Short(letter) => letter in SHORT_ESCAPES
    case Code(a, b, c, d) => IsHex(a) && IsHex(b) && IsHex(c) && IsHex(d)
  }

  function PieceText(p: Piece): Text {
    match p
    case Plain(c) => [c]
    case Short(letter) => [BACKSLASH, letter]
    case Code(a, b, c, d) => [BACKSLASH, 0x75, a, b, c, d]
  }

  function HexOf(c: Unit): (d: int)
    requires IsHex(c)
    ensures 0 <= d < 16
  {
    if Digit(c) then c - 0x30 else if c >= 0x61 then c - 0x61 + 10 else c - 0x41 + 10
  }

  function PieceValue(p: Piece): Unit
    requires PieceOk(p)
  {
    match p
    case Plain(c) => c
    case Short(letter) => SHORT_ESCAPES[letter]
    case Code(a, b, c, d) => ((HexOf(a) * 16 + HexOf(b)) * 16 + HexOf(c)) * 16 + HexOf(d)
  }

  predicate PiecesOk(s: seq<Piece>) {
    forall i :: 0 <= i < |s| ==> PieceOk(s[i])
  }

  function Raw(s: seq<Piece>): Text {
    if s == [] then [] else PieceText(s[0]) + Raw(s[1..])
  }

  function Content(s: seq<Piece>): Text
    requires PiecesOk(s)
  {
    if s == [] then [] else [PieceValue(s[0])] + Content(s[1..])
  }

  function Literal(s: seq<Piece>): Text {
    [QUOTE] + Raw(s) + [QUOTE]
  }

  // ---- Values ----

  datatype Tree =
    | Word(value: Json)
    | Number(negative: bool, digits: Text)
    | String(pieces: seq<Piece>)
    | Array(blank: Text, elements: seq<Element>)
    | Object(blank: Text, pairs: seq<Pair>)

  /** A value with the white space around it. */
  datatype Element = Element(before: Text, tree: Tree, after: Text)

  datatype Pair = Pair(before: Text, key: seq<Piece>, middle: Text, element: Element)

  predicate Blank(t: Text) {
    forall i :: 0 <= i < |t| ==> White(t[i])
  }

  /** Decimal digits without a leading zero. */
  predicate DigitsOk(t: Text) {
    t != [] && (forall i :: 0 <= i < |t| ==> Digit(t[i])) && (t[0] == 0x30 ==> |t| == 1)
  }

  predicate TreeOk(t: Tree) {
    match t
    case Word(value) => value.Null? || value.Bool?
    case Number(_, digits) => DigitsOk(digits) && DecimalValue(digits) <= MAX_SAFE
    case String(pieces) => PiecesOk(pieces)
    case Array(blank, elements) => Blank(blank) && forall i :: 0 <= i < |elements| ==> ElementOk(elements[i])
    case Object(blank, pairs) =>
      && Blank(blank) && (forall i :: 0 <= i < |pairs| ==> PairOk(pairs[i]))
      && forall i, j :: 0 <= i < j < |pairs| ==> KeyOf(pairs[i]) != KeyOf(pairs[j])
  }

  predicate ElementOk(e: Element) {
    Blank(e.before) && TreeOk(e.tree) && Blank(e.after)
  }

  function KeyOf(p: Pair): Text {
    if PiecesOk(p.key) then Content(p.key) else []
  }

  predicate PairOk(p: Pair) {
    Blank(p.before) && PiecesOk(p.key) && Blank(p.middle) && ElementOk(p.element)
  }

  function Flatten(t: Tree): Text {
    match t
    case Word(value) => if value.Null? then NULL else if value == Bool(true) then TRUE else FALSE
    case Number(negative, digits) => if negative then [MINUS] + digits else digits
    case String(pieces) => Literal(pieces)
    case Array(blank, elements) => [OPEN_ARRAY] + (if elements == [] then blank else FlattenElements(elements)) + [CLOSE_ARRAY]
    case Object(blank, pairs) => [OPEN_OBJECT] + (if pairs == [] then blank else FlattenPairs(pairs)) + [CLOSE_OBJECT]
  }

  function FlattenElement(e: Element): Text {
    e.before + (Flatten(e.tree) + e.after)
  }

  function FlattenElements(s: seq<Element>): Text {
    if s == [] then []
    else if |s| == 1 then FlattenElement(s[0])
    else FlattenElement(s[0]) + ([COMMA] + FlattenElements(s[1..]))
  }

  function FlattenPair(p: Pair): Text {
    p.before + (Literal(p.key) + (p.middle + ([COLON] + FlattenElement(p.element))))
  }

  function FlattenPairs(s: seq<Pair>): Text {
    if s == [] then []
    else if |s| == 1 then FlattenPair(s[0])
    else FlattenPair(s[0]) + ([COMMA] + FlattenPairs(s[1..]))
  }

  function Signed(negative: bool, magnitude: int): int {
    if negative then -magnitude else magnitude
  }

  function Meaning(t: Tree): Json
    requires TreeOk(t)
  {
    match t
    case Word(value) => value
    case Number(negative, digits) => Num(Signed(negative, DecimalValue(digits)))
    case String(pieces) => Str(Content(pieces))
    case Array(_, elements) => Arr(seq(|elements|, i requires 0 <= i < |elements| => ElementMeaning(elements[i])))
    case Object(_, pairs) => Obj(seq(|pairs|, i requires 0 <= i < |pairs| => PairMeaning(pairs[i])))
  }

  function ElementMeaning(e: Element): Json
    requires ElementOk(e)
  {
    Meaning(e.tree)
  }

  function PairMeaning(p: Pair): Member
    requires PairOk(p)
  {
    Member(Content(p.key), ElementMeaning(p.element))
  }

  // ---- Reading strings ----

  lemma PieceReads(p: Piece, rest: Text)
    requires PieceOk(p)
    ensures Unescape(PieceText(p) + rest) ==
            match Unescape(rest) case None => None case Some(r) => Some([PieceValue(p)] + r)
  {
    var s := PieceText(p) + rest;
    assert s[|PieceText(p)|..] == rest;
    if p.Short? {
      assert s[1] == p.letter;
    } else if p.Code? {
      assert s[2] == p.a && s[3] == p.b && s[4] == p.c && s[5] == p.d;
    }
  }

  lemma {:induction false} RawReads(s: seq<Piece>)
    requires PiecesOk(s)
    ensures Unescape(Raw(s)) == Some(Content(s))
  {
    hide Unescape, PieceText, PieceValue, PieceOk;
    if s == [] {
      NothingReads();
    } else {
      RawReads(s[1..]);
      PieceReads(s[0], Raw(s[1..]));
    }
  }

  lemma NothingReads()
    ensures Unescape([]) == Some([])
  {
  }

  lemma PieceSkipped(src: Text, i: nat, p: Piece, rest: Text)
    requires PieceOk(p) && At(src, i, PieceText(p) + rest)
    ensures ClosingQuote(src, i) == ClosingQuote(src, i + |PieceText(p)|) && At(src, i + |PieceText(p)|, rest)
  {
    var t := PieceText(p);
    AtParts(src, i, t, rest);
    assert forall k :: 0 <= k < |t| ==> src[i + k] == src[i..i + |t|][k] == t[k];
    if p.Code? {
      assert src[i + 2] == p.a && src[i + 3] == p.b && src[i + 4] == p.c && src[i + 5] == p.d;
      assert ClosingQuote(src, i + 2) == ClosingQuote(src, i + 3) == ClosingQuote(src, i + 4);
      assert ClosingQuote(src, i + 4) == ClosingQuote(src, i + 5) == ClosingQuote(src, i + 6);
    }
  }

  lemma {:induction false} RawCloses(src: Text, i: nat, s: seq<Piece>)
    requires PiecesOk(s) && At(src, i, Raw(s) + [QUOTE])
    ensures ClosingQuote(src, i) == Some(i + |Raw(s)|)
    decreases |s|
  {
    hide PieceText, PieceOk, At, ClosingQuote;
    if s == [] {
      assert Raw(s) + [QUOTE] == [QUOTE] + [];
      AtUnit(src, i, QUOTE, []);
      FitsAt(src, i, [QUOTE] + []);
      QuoteCloses(src, i);
    } else {
      assert Raw(s) + [QUOTE] == PieceText(s[0]) + (Raw(s[1..]) + [QUOTE]);
      PieceSkipped(src, i, s[0], Raw(s[1..]) + [QUOTE]);
      RawCloses(src, i + |PieceText(s[0])|, s[1..]);
    }
  }

  lemma LiteralRead(src: Text, i: nat, s: seq<Piece>, rest: Text)
    requires PiecesOk(s) && At(src, i, Literal(s) + rest)
    ensures i < |src| && src[i] == QUOTE
    ensures ParseString(src, i) == Some(Parsed(Content(s), i + |Literal(s)|))
    ensures At(src, i + |Literal(s)|, rest)
  {
    hide Raw, Content, Unescape, PieceOk;
    AtParts(src, i, Literal(s), rest);
    assert Literal(s) == [QUOTE] + (Raw(s) + [QUOTE]);
    AtUnit(src, i, QUOTE, Raw(s) + [QUOTE]);
    RawCloses(src, i + 1, s);
    AtParts(src, i + 1, Raw(s), [QUOTE]);
    RawReads(s);
  }

  /** Every accepted string inside is a list of pieces. */
  lemma {:induction false} PiecesOf(s: Text) returns (pieces: seq<Piece>)
    requires Unescape(s).Some?
    ensures PiecesOk(pieces) && Raw(pieces) == s && Content(pieces) == Unescape(s).value
    decreases |s|
  {
    hide PieceText, PieceValue, PieceOk, ReadEscape;
    if s == [] {
      pieces := [];
    } else {
      var p := FirstPiece(s);
      var rest := PiecesOf(s[|PieceText(p)|..]);
      PieceReads(p, s[|PieceText(p)|..]);
      pieces := [p] + rest;
      assert pieces[1..] == rest;
    }
  }

  lemma FirstPiece(s: Text) returns (p: Piece)
    requires s != [] && Unescape(s).Some?
    ensures PieceOk(p) && 0 < |PieceText(p)| <= |s| && s == PieceText(p) + s[|PieceText(p)|..]
    ensures Unescape(s[|PieceText(p)|..]).Some?
  {
    if s[0] != BACKSLASH {
      p := Plain(s[0]);
    } else if s[1] == 0x75 {
      p := Code(s[2], s[3], s[4], s[5]);
      assert s[..6] == PieceText(p);
    } else {
      p := Short(s[1]);
      assert s[..2] == PieceText(p);
    }
  }

  // ---- Every derivation is parsed ----

  lemma {:induction false} SkipBlank(src: Text, i: nat, blank: Text, rest: Text)
    requires Blank(blank) && At(src, i, blank + rest)
    requires if rest == [] then i + |blank| == |src| else !White(rest[0])
    ensures i <= |src| && SkipWhite(src, i) == i + |blank| && At(src, i + |blank|, rest)
    decreases |blank|
  {
    hide White;
    AtParts(src, i, blank, rest);
    FitsAt(src, i, blank);
    if blank == [] {
      if rest != [] {
        HeadAt(src, i, rest);
      }
    } else {
      assert blank + rest == [blank[0]] + (blank[1..] + rest);
      AtUnit(src, i, blank[0], blank[1..] + rest);
      SkipBlank(src, i + 1, blank[1..], rest);
    }
  }

  lemma SkipTwice(src: Text, i: nat)
    requires i <= |src|
    ensures SkipWhite(src, SkipWhite(src, i)) == SkipWhite(src, i)
  {
    hide White;
  }

  lemma ValueStart(src: Text, i: nat)
    requires i <= |src|
    ensures ParseValue(src, SkipWhite(src, i)) == ParseValue(src, i)
  {
    hide White, SkipWhite, ParseString, StartsWith, ScanNumber, ParseItems, ParseMembers;
    SkipTwice(src, i);
  }

  lemma ItemsStart(src: Text, i: nat, items: seq<Json>)
    requires i <= |src|
    ensures ParseItems(src, SkipWhite(src, i), items) == ParseItems(src, i, items)
  {
    hide White, SkipWhite, ParseValue;
    ValueStart(src, i);
    if SkipWhite(src, i) == |src| {
      NothingLeft(src, i);
    }
  }

  lemma NothingLeft(src: Text, i: nat)
    requires i <= |src| && SkipWhite(src, i) == |src|
    ensures ParseValue(src, i).None?
  {
  }

  lemma MembersStart(src: Text, i: nat, members: seq<Member>)
    requires i <= |src|
    ensures ParseMembers(src, SkipWhite(src, i), members) == ParseMembers(src, i, members)
  {
    hide White, SkipWhite, ParseValue, ParseString, HasKey;
    SkipTwice(src, i);
    assert ParseMember(src, SkipWhite(src, i), members) == ParseMember(src, i, members);
  }

  lemma NumberCase(src: Text, i: nat)
    requires i < |src| && (Digit(src[i]) || src[i] == MINUS)
    ensures ParseValue(src, i) == match ScanNumber(src, i) case None => None case Some(n) => Some(Parsed(Num(n.value), n.next))
  {
    hide ScanNumber, ParseItems, ParseMembers, ParseString;
    NotWords(src, i);
    NoWhite(src, i);
  }

  lemma StringCase(src: Text, i: nat)
    requires i < |src| && src[i] == QUOTE
    ensures ParseValue(src, i) == match ParseString(src, i) case None => None case Some(p) => Some(Parsed(Str(p.value), p.next))
  {
    hide ScanNumber, ParseItems, ParseMembers, ParseString;
    NoWhite(src, i);
  }

  lemma DigitsScanned(src: Text, i: nat, negative: bool, digits: Text)
    requires DigitsOk(digits) && DecimalValue(digits) <= MAX_SAFE
    requires At(src, i, Flatten(Number(negative, digits))) && Stops(src, i + |Flatten(Number(negative, digits))|)
    ensures i < |src| && (Digit(src[i]) || src[i] == MINUS)
    ensures ScanNumber(src, i) == Some(Scanned(Signed(negative, DecimalValue(digits)), i + |Flatten(Number(negative, digits))|))
  {
    hide DigitsEnd, DecimalValue;
    var start := if negative then i + 1 else i;
    if negative {
      AtUnit(src, i, MINUS, digits);
    }
    AllDigits(src, start, digits);
    DigitsEndIs(src, start, start + |digits|);
  }

  lemma TreeHead(t: Tree)
    requires TreeOk(t)
    ensures |Flatten(t)| > 0 && !White(Flatten(t)[0]) && Flatten(t)[0] != CLOSE_ARRAY && Flatten(t)[0] != CLOSE_OBJECT
  {
    hide FlattenElements, FlattenPairs, Raw;
  }

  lemma WhiteStops(src: Text, i: nat)
    requires i < |src| && (White(src[i]) || Mark(src[i]))
    ensures Stops(src, i)
  {
  }

  lemma {:induction false} ValueParsed(src: Text, i: nat, blank: Text, t: Tree)
    requires Blank(blank) && TreeOk(t) && At(src, i, blank + Flatten(t)) && Stops(src, i + |blank| + |Flatten(t)|)
    ensures i <= |src| && ParseValue(src, i) == Some(Parsed(Meaning(t), i + |blank| + |Flatten(t)|))
    decreases t
  {
    hide ParseValue, Blank, ParseString, ScanNumber, White, SkipWhite, At, Stops, FlattenElements, FlattenPairs, Literal,
         DigitsOk, PiecesOk, ParseItems, ParseMembers;
    TreeHead(t);
    SkipBlank(src, i, blank, Flatten(t));
    ValueStart(src, i);
    var j := i + |blank|;
    match t
    case Word(value) => WordPrinted(src, j, value);
    case Number(negative, digits) =>
      DigitsScanned(src, j, negative, digits);
      NumberCase(src, j);
    case String(pieces) =>
      assert Literal(pieces) + [] == Literal(pieces);
      LiteralRead(src, j, pieces, []);
      StringCase(src, j);
    case Array(inner, elements) => ArrayParsed(src, j, inner, elements);
    case Object(inner, pairs) => ObjectParsed(src, j, inner, pairs);
  }

  function Meanings(elements: seq<Element>): (r: seq<Json>)
    requires forall i :: 0 <= i < |elements| ==> ElementOk(elements[i])
    ensures |r| == |elements|
  {
    seq(|elements|, i requires 0 <= i < |elements| => ElementMeaning(elements[i]))
  }

  lemma ElementParsed(src: Text, i: nat, e: Element, mark: Unit, tail: Text)
    requires ElementOk(e) && Mark(mark) && At(src, i, FlattenElement(e) + ([mark] + tail))
    ensures i < |src| && ParseValue(src, i).Some? && ParseValue(src, i).value.value == ElementMeaning(e)
    ensures var l := i + |FlattenElement(e)|;
            && SkipWhite(src, ParseValue(src, i).value.next) == l && l < |src| && src[l] == mark && At(src, l + 1, tail)
    decreases e
  {
    hide ParseValue, Blank, White, SkipWhite, At, Stops, Flatten, Mark, Meaning;
    var text := Flatten(e.tree);
    var behind := e.after + ([mark] + tail);
    TreeHead(e.tree);
    assert FlattenElement(e) + ([mark] + tail) == (e.before + text) + behind;
    AtParts(src, i, e.before + text, behind);
    var p := i + |e.before + text|;
    MarkNotWhite(mark);
    FitsAt(src, p, behind);
    SkipBlank(src, p, e.after, [mark] + tail);
    AtMark(src, p + |e.after|, mark, tail);
    HeadAt(src, p, behind);
    assert White(behind[0]) || Mark(behind[0]) by { BlankHead(e.after, mark, tail); }
    WhiteStops(src, p);
    ValueParsed(src, i, e.before, e.tree);
  }

  lemma MarkNotWhite(mark: Unit)
    requires Mark(mark)
    ensures !White(mark)
  {
  }

  lemma BlankHead(blank: Text, mark: Unit, tail: Text)
    requires Blank(blank) && Mark(mark)
    ensures White((blank + ([mark] + tail))[0]) || Mark((blank + ([mark] + tail))[0])
  {
    hide White, Mark;
    if blank != [] {
      assert (blank + ([mark] + tail))[0] == blank[0];
    }
  }

  lemma {:induction false} ElementsParsed(src: Text, i: nat, done: seq<Json>, elements: seq<Element>)
    requires elements != [] && (forall k :: 0 <= k < |elements| ==> ElementOk(elements[k]))
    requires At(src, i, FlattenElements(elements) + [CLOSE_ARRAY])
    ensures i <= |src|
    ensures ParseItems(src, i, done) == Some(Parsed(done + Meanings(elements), i + |FlattenElements(elements)| + 1))
    decreases elements, 0
  {
    hide ElementOk, ParseValue, FlattenElement, ElementMeaning, White, SkipWhite, At, Mark;
    var e := elements[0];
    assert Mark(CLOSE_ARRAY) && Mark(COMMA) by { ArrayMarks(); }
    if |elements| == 1 {
      assert FlattenElements(elements) + [CLOSE_ARRAY] == FlattenElement(e) + ([CLOSE_ARRAY] + []);
      ElementParsed(src, i, e, CLOSE_ARRAY, []);
      assert Meanings(elements) == [ElementMeaning(e)];
    } else {
      var rest := FlattenElements(elements[1..]) + [CLOSE_ARRAY];
      assert FlattenElements(elements) + [CLOSE_ARRAY] == FlattenElement(e) + ([COMMA] + rest);
      ElementParsed(src, i, e, COMMA, rest);
      ElementsParsed(src, i + |FlattenElement(e)| + 1, done + [ElementMeaning(e)], elements[1..]);
      assert Meanings(elements) == [ElementMeaning(e)] + Meanings(elements[1..]);
      assert done + [ElementMeaning(e)] + Meanings(elements[1..]) == done + Meanings(elements);
    }
  }

  lemma ArrayMarks()
    ensures Mark(CLOSE_ARRAY) && Mark(COMMA) && Mark(CLOSE_OBJECT) && Mark(COLON) && Mark(OPEN_ARRAY) && Mark(OPEN_OBJECT)
    ensures Mark(QUOTE)
  {
  }

  lemma {:induction false} ArrayParsed(src: Text, i: nat, blank: Text, elements: seq<Element>)
    requires TreeOk(Array(blank, elements)) && At(src, i, Flatten(Array(blank, elements)))
    ensures i < |src|
    ensures ParseValue(src, i) ==
            Some(Parsed(Meaning(Array(blank, elements)), i + |Flatten(Array(blank, elements))|))
    decreases elements, 1
  {
    hide ParseValue, ParseItems, White, SkipWhite, At, Mark, FlattenElements, ElementOk, ElementMeaning, Blank;
    assert Mark(OPEN_ARRAY) && Mark(CLOSE_ARRAY) by { ArrayMarks(); }
    var body := (if elements == [] then blank else FlattenElements(elements)) + [CLOSE_ARRAY];
    assert Flatten(Array(blank, elements)) == [OPEN_ARRAY] + body;
    AtMark(src, i, OPEN_ARRAY, body);
    ArrayCase(src, i);
    if elements == [] {
      MarkNotWhite(CLOSE_ARRAY);
      SkipBlank(src, i + 1, blank, [CLOSE_ARRAY]);
      HeadAt(src, i + 1 + |blank|, [CLOSE_ARRAY]);
      FitsAt(src, i + 1 + |blank|, [CLOSE_ARRAY]);
      assert Meaning(Array(blank, elements)) == Arr([]);
    } else {
      FirstElement(src, i + 1, elements);
      ItemsStart(src, i + 1, []);
      ElementsParsed(src, i + 1, [], elements);
      assert [] + Meanings(elements) == Meanings(elements);
      assert Meaning(Array(blank, elements)) == Arr(Meanings(elements));
    }
  }

  /** What stands behind the white space of a first element is no closing bracket. */
  lemma FirstElement(src: Text, i: nat, elements: seq<Element>)
    requires elements != [] && ElementOk(elements[0]) && At(src, i, FlattenElements(elements) + [CLOSE_ARRAY])
    ensures i <= |src| && SkipWhite(src, i) < |src| && src[SkipWhite(src, i)] != CLOSE_ARRAY
  {
    hide White, SkipWhite, At, Flatten, Blank;
    var e := elements[0];
    var text := Flatten(e.tree);
    TreeHead(e.tree);
    var whole := FlattenElements(elements) + [CLOSE_ARRAY];
    var rest := whole[|e.before|..];
    assert |whole| > |e.before| + |text| && whole[..|e.before|] == e.before && rest[0] == text[0] by {
      assert whole[..|FlattenElement(e)|] == FlattenElement(e);
    }
    assert whole == e.before + rest;
    SkipBlank(src, i, e.before, rest);
    FitsAt(src, i + |e.before|, rest);
    HeadAt(src, i + |e.before|, rest);
  }

  function MeaningsOf(pairs: seq<Pair>): (r: seq<Member>)
    requires forall i :: 0 <= i < |pairs| ==> PairOk(pairs[i])
    ensures |r| == |pairs|
  {
    seq(|pairs|, i requires 0 <= i < |pairs| => PairMeaning(pairs[i]))
  }

  lemma PairParsed(src: Text, i: nat, done: seq<Member>, p: Pair, mark: Unit, tail: Text)
    requires PairOk(p) && Mark(mark) && At(src, i, FlattenPair(p) + ([mark] + tail)) && !HasKey(done, Content(p.key))
    ensures i < |src| && ParseMember(src, i, done).Some? && ParseMember(src, i, done).value.value == PairMeaning(p)
    ensures var l := i + |FlattenPair(p)|;
            && SkipWhite(src, ParseMember(src, i, done).value.next) == l && l < |src| && src[l] == mark && At(src, l + 1, tail)
    decreases p
  {
    hide ParseValue, ParseString, Blank, White, SkipWhite, At, Mark, FlattenElement, ElementOk, ElementMeaning, Literal, PiecesOk,
         HasKey, Content;
    assert Mark(COLON) && Mark(QUOTE) by { ArrayMarks(); }
    var value := FlattenElement(p.element) + ([mark] + tail);
    var colon := p.middle + ([COLON] + value);
    var key := Literal(p.key) + colon;
    assert FlattenPair(p) + ([mark] + tail) == p.before + key;
    assert Literal(p.key) != [] && key[0] == QUOTE by { LiteralHead(p.key, colon); }
    MarkNotWhite(QUOTE);
    MarkNotWhite(COLON);
    SkipBlank(src, i, p.before, key);
    var j := i + |p.before|;
    LiteralRead(src, j, p.key, colon);
    var k := j + |Literal(p.key)|;
    SkipBlank(src, k, p.middle, [COLON] + value);
    AtMark(src, k + |p.middle|, COLON, value);
    ElementParsed(src, k + |p.middle| + 1, p.element, mark, tail);
    FitsAt(src, k, colon);
  }

  lemma LiteralHead(s: seq<Piece>, rest: Text)
    ensures Literal(s) != [] && (Literal(s) + rest)[0] == QUOTE
  {
  }

  lemma {:induction false} PairsParsed(src: Text, i: nat, done: seq<Member>, pairs: seq<Pair>)
    requires pairs != [] && (forall k :: 0 <= k < |pairs| ==> PairOk(pairs[k]))
    requires DistinctKeys(done + MeaningsOf(pairs))
    requires At(src, i, FlattenPairs(pairs) + [CLOSE_OBJECT])
    ensures i <= |src|
    ensures ParseMembers(src, i, done) == Some(Parsed(done + MeaningsOf(pairs), i + |FlattenPairs(pairs)| + 1))
    decreases pairs, 0
  {
    hide PairOk, ParseMember, FlattenPair, White, SkipWhite, At, Mark, DistinctKeys, HasKey, PairMeaning;
    var p := pairs[0];
    assert Mark(CLOSE_OBJECT) && Mark(COMMA) by { ArrayMarks(); }
    NewKey(done, MeaningsOf(pairs));
    PairKey(p);
    if |pairs| == 1 {
      assert FlattenPairs(pairs) + [CLOSE_OBJECT] == FlattenPair(p) + ([CLOSE_OBJECT] + []);
      PairParsed(src, i, done, p, CLOSE_OBJECT, []);
      assert MeaningsOf(pairs) == [PairMeaning(p)];
    } else {
      var rest := FlattenPairs(pairs[1..]) + [CLOSE_OBJECT];
      assert FlattenPairs(pairs) + [CLOSE_OBJECT] == FlattenPair(p) + ([COMMA] + rest);
      PairParsed(src, i, done, p, COMMA, rest);
      assert MeaningsOf(pairs) == [PairMeaning(p)] + MeaningsOf(pairs[1..]);
      assert done + [PairMeaning(p)] + MeaningsOf(pairs[1..]) == done + MeaningsOf(pairs);
      PairsParsed(src, i + |FlattenPair(p)| + 1, done + [PairMeaning(p)], pairs[1..]);
    }
  }

  lemma PairKey(p: Pair)
    requires PairOk(p)
    ensures PiecesOk(p.key) && PairMeaning(p).key == Content(p.key) == KeyOf(p)
  {
  }

  lemma {:induction false} ObjectParsed(src: Text, i: nat, blank: Text, pairs: seq<Pair>)
    requires TreeOk(Object(blank, pairs)) && At(src, i, Flatten(Object(blank, pairs)))
    ensures i < |src|
    ensures ParseValue(src, i) == Some(Parsed(Meaning(Object(blank, pairs)), i + |Flatten(Object(blank, pairs))|))
    decreases pairs, 1
  {
    hide ParseValue, ParseMembers, White, SkipWhite, At, Mark, FlattenPairs, PairOk, PairMeaning, Blank, DistinctKeys;
    assert Mark(OPEN_OBJECT) && Mark(CLOSE_OBJECT) by { ArrayMarks(); }
    var body := (if pairs == [] then blank else FlattenPairs(pairs)) + [CLOSE_OBJECT];
    assert Flatten(Object(blank, pairs)) == [OPEN_OBJECT] + body;
    AtMark(src, i, OPEN_OBJECT, body);
    ObjectCase(src, i);
    if pairs == [] {
      MarkNotWhite(CLOSE_OBJECT);
      SkipBlank(src, i + 1, blank, [CLOSE_OBJECT]);
      HeadAt(src, i + 1 + |blank|, [CLOSE_OBJECT]);
      FitsAt(src, i + 1 + |blank|, [CLOSE_OBJECT]);
      assert Meaning(Object(blank, pairs)) == Obj([]);
    } else {
      FirstPair(src, i + 1, pairs);
      MembersStart(src, i + 1, []);
      DistinctMeanings(blank, pairs);
      assert [] + MeaningsOf(pairs) == MeaningsOf(pairs);
      PairsParsed(src, i + 1, [], pairs);
      assert Meaning(Object(blank, pairs)) == Obj(MeaningsOf(pairs));
    }
  }

  lemma DistinctMeanings(blank: Text, pairs: seq<Pair>)
    requires TreeOk(Object(blank, pairs))
    ensures DistinctKeys(MeaningsOf(pairs))
  {
    hide PairOk, KeyOf, PairMeaning;
    forall i | 0 <= i < |pairs|
      ensures MeaningsOf(pairs)[i].key == KeyOf(pairs[i])
    {
      PairKey(pairs[i]);
    }
  }

  lemma FirstPair(src: Text, i: nat, pairs: seq<Pair>)
    requires pairs != [] && PairOk(pairs[0]) && At(src, i, FlattenPairs(pairs) + [CLOSE_OBJECT])
    ensures i <= |src| && SkipWhite(src, i) < |src| && src[SkipWhite(src, i)] != CLOSE_OBJECT
  {
    hide White, SkipWhite, At, Blank, FlattenElement, Literal, ElementOk, PiecesOk;
    var p := pairs[0];
    var whole := FlattenPairs(pairs) + [CLOSE_OBJECT];
    var rest := whole[|p.before|..];
    LiteralHead(p.key, []);
    assert Literal(p.key) + [] == Literal(p.key);
    assert whole[..|FlattenPair(p)|] == FlattenPair(p);
    assert |whole| > |p.before| && whole[..|p.before|] == p.before && rest[0] == QUOTE;
    assert whole == p.before + rest;
    assert !White(QUOTE) by { QuoteNotWhite(); }
    SkipBlank(src, i, p.before, rest);
    FitsAt(src, i + |p.before|, rest);
    HeadAt(src, i + |p.before|, rest);
  }

  /** Every text the grammar derives is parsed to its meaning. */
  lemma DerivedParsed(e: Element)
    requires ElementOk(e)
    ensures Parse(FlattenElement(e)) == Some(ElementMeaning(e))
  {
    hide ParseValue, Flatten, White, Blank, SkipWhite, Meaning;
    var src, text := FlattenElement(e), Flatten(e.tree);
    assert src[0..|e.before + text|] == e.before + text;
    assert src[|e.before + text|..|src|] == e.after == e.after + [];
    var p := |e.before| + |text|;
    assert Stops(src, p) by {
      if e.after != [] {
        assert src[p] == e.after[0];
        BlankStops(src, p, e.after);
      }
    }
    ValueParsed(src, 0, e.before, e.tree);
    SkipBlank(src, p, e.after, []);
  }

  lemma BlankStops(src: Text, i: nat, blank: Text)
    requires blank != [] && Blank(blank) && i < |src| && src[i] == blank[0]
    ensures Stops(src, i)
  {
    WhiteStops(src, i);
  }

  // ---- Every parsed text is derived ----

  lemma {:induction false} ValueDerived(src: Text, i: nat) returns (blank: Text, t: Tree)
    requires i <= |src| && ParseValue(src, i).Some?
    ensures Blank(blank) && TreeOk(t) && Meaning(t) == ParseValue(src, i).value.value
    ensures src[i..ParseValue(src, i).value.next] == blank + Flatten(t)
    decreases |src| - i, 4
  {
    hide ParseValue, ParseString, White, Flatten, TreeOk, Meaning;
    var j := SkipWhite(src, i);
    blank := src[i..j];
    ValueStart(src, i);
    SkipTwice(src, i);
    if j == |src| {
      NothingLeft(src, i);
    } else if src[j] == OPEN_OBJECT {
      t := ObjectDerived(src, j);
    } else if src[j] == OPEN_ARRAY {
      t := ArrayDerived(src, j);
    } else if src[j] == QUOTE {
      StringCase(src, j);
      t := StringDerived(src, j);
    } else {
      t := WordOrNumber(src, j);
    }
    var next := ParseValue(src, i).value.next;
    assert src[i..next] == src[i..j] + src[j..next];
  }

  lemma WordOrNumber(src: Text, j: nat) returns (t: Tree)
    requires j < |src| && SkipWhite(src, j) == j && src[j] !in {OPEN_OBJECT, OPEN_ARRAY, QUOTE} && ParseValue(src, j).Some?
    ensures TreeOk(t) && Meaning(t) == ParseValue(src, j).value.value
    ensures src[j..ParseValue(src, j).value.next] == Flatten(t)
  {
    hide ScanNumber, ParseItems, ParseMembers, ParseString, FlattenElements, FlattenPairs, Literal, DigitsOk, PiecesOk;
    if StartsWith(src, j, TRUE) || StartsWith(src, j, FALSE) || StartsWith(src, j, NULL) {
      t := Word(ParseValue(src, j).value.value);
    } else {
      t := NumberDerived(src, j);
    }
  }

  lemma StringDerived(src: Text, j: nat) returns (t: Tree)
    requires j < |src| && src[j] == QUOTE && ParseString(src, j).Some?
    ensures TreeOk(t) && Meaning(t) == Str(ParseString(src, j).value.value)
    ensures src[j..ParseString(src, j).value.next] == Flatten(t)
  {
    hide Unescape, ClosingQuote, Raw, Content, PiecesOk;
    ClosingQuoteBounds(src, j + 1);
    var end := ClosingQuote(src, j + 1).value;
    ClosedByQuote(src, j + 1);
    var pieces := PiecesOf(src[j + 1..end]);
    t := String(pieces);
    assert src[j..end + 1] == [QUOTE] + src[j + 1..end] + [QUOTE];
  }

  lemma {:induction false} ClosedByQuote(src: Text, i: nat)
    requires ClosingQuote(src, i).Some?
    ensures ClosingQuote(src, i).value < |src| && src[ClosingQuote(src, i).value] == QUOTE
    decreases |src| - i
  {
    if src[i] == BACKSLASH {
      ClosedByQuote(src, i + 2);
    } else if src[i] != QUOTE {
      ClosedByQuote(src, i + 1);
    }
  }

  lemma NumberDerived(src: Text, j: nat) returns (t: Tree)
    requires j < |src| && ScanNumber(src, j).Some?
    ensures TreeOk(t) && Meaning(t) == Num(ScanNumber(src, j).value.value)
    ensures j < ScanNumber(src, j).value.next <= |src| && src[j..ScanNumber(src, j).value.next] == Flatten(t)
  {
    hide DecimalValue;
    var negative := src[j] == MINUS;
    var start := if negative then j + 1 else j;
    var end := ScanNumber(src, j).value.next;
    var digits := src[start..end];
    t := Number(negative, digits);
    assert src[j..end] == src[j..start] + digits;
    assert digits[0] == src[start];
  }

  lemma {:induction false} ArrayDerived(src: Text, j: nat) returns (t: Tree)
    requires j < |src| && src[j] == OPEN_ARRAY && SkipWhite(src, j) == j && ParseValue(src, j).Some?
    ensures TreeOk(t) && Meaning(t) == ParseValue(src, j).value.value && src[j..ParseValue(src, j).value.next] == Flatten(t)
    decreases |src| - j, 3
  {
    hide ParseValue, ParseItems, White, FlattenElements, ElementOk, ElementMeaning;
    ArrayCase(src, j);
    var k := SkipWhite(src, j + 1);
    var next := ParseValue(src, j).value.next;
    if k < |src| && src[k] == CLOSE_ARRAY {
      t := Array(src[j + 1..k], []);
      assert src[j..next] == [OPEN_ARRAY] + src[j + 1..k] + [CLOSE_ARRAY];
      assert Meaning(t) == Arr([]);
    } else {
      ItemsStart(src, j + 1, []);
      var elements := ElementsDerived(src, j + 1, []);
      t := Array([], elements);
      assert src[j..next] == [OPEN_ARRAY] + src[j + 1..next];
      assert [OPEN_ARRAY] + (FlattenElements(elements) + [CLOSE_ARRAY]) == Flatten(t);
      assert Meaning(t) == Arr(Meanings(elements));
      assert [] + Meanings(elements) == Meanings(elements);
    }
  }

  lemma {:induction false} ElementDerived(src: Text, i: nat) returns (e: Element)
    requires i <= |src| && ParseValue(src, i).Some?
    ensures ElementOk(e) && ElementMeaning(e) == ParseValue(src, i).value.value
    ensures src[i..SkipWhite(src, ParseValue(src, i).value.next)] == FlattenElement(e)
    decreases |src| - i, 5
  {
    hide ParseValue, White, Flatten, TreeOk, Meaning;
    var next := ParseValue(src, i).value.next;
    var blank, tree := ValueDerived(src, i);
    var j := SkipWhite(src, next);
    e := Element(blank, tree, src[next..j]);
    assert src[i..j] == src[i..next] + src[next..j];
  }

  lemma {:induction false} ElementsDerived(src: Text, i: nat, done: seq<Json>) returns (elements: seq<Element>)
    requires i <= |src| && ParseItems(src, i, done).Some?
    ensures elements != [] && forall k :: 0 <= k < |elements| ==> ElementOk(elements[k])
    ensures ParseItems(src, i, done).value.value == done + Meanings(elements)
    ensures src[i..ParseItems(src, i, done).value.next] == FlattenElements(elements) + [CLOSE_ARRAY]
    decreases |src| - i, 6
  {
    hide ParseValue, White, SkipWhite, ElementOk, ElementMeaning, FlattenElement;
    var p := ParseValue(src, i).value;
    var e := ElementDerived(src, i);
    var j := SkipWhite(src, p.next);
    var next := ParseItems(src, i, done).value.next;
    if src[j] == CLOSE_ARRAY {
      elements := [e];
      assert src[i..next] == src[i..j] + [CLOSE_ARRAY];
      assert Meanings(elements) == [p.value];
    } else {
      var rest := ElementsDerived(src, j + 1, done + [p.value]);
      elements := [e] + rest;
      MoreElements(done, e, rest);
      assert src[i..next] == src[i..j] + ([COMMA] + src[j + 1..next]);
    }
  }

  lemma MoreElements(done: seq<Json>, e: Element, rest: seq<Element>)
    requires ElementOk(e) && rest != [] && forall k :: 0 <= k < |rest| ==> ElementOk(rest[k])
    ensures forall k :: 0 <= k < |[e] + rest| ==> ElementOk(([e] + rest)[k])
    ensures done + [ElementMeaning(e)] + Meanings(rest) == done + Meanings([e] + rest)
    ensures FlattenElement(e) + ([COMMA] + (FlattenElements(rest) + [CLOSE_ARRAY])) == FlattenElements([e] + rest) + [CLOSE_ARRAY]
  {
    hide ElementOk, ElementMeaning, FlattenElement;
    assert ([e] + rest)[1..] == rest;
    assert Meanings([e] + rest) == [ElementMeaning(e)] + Meanings(rest);
  }

  lemma {:induction false} ObjectDerived(src: Text, j: nat) returns (t: Tree)
    requires j < |src| && src[j] == OPEN_OBJECT && SkipWhite(src, j) == j && ParseValue(src, j).Some?
    ensures TreeOk(t) && Meaning(t) == ParseValue(src, j).value.value && src[j..ParseValue(src, j).value.next] == Flatten(t)
    decreases |src| - j, 3
  {
    hide ParseValue, ParseMembers, White, FlattenPairs, PairOk, PairMeaning, DistinctKeys, KeyOf;
    ObjectCase(src, j);
    var k := SkipWhite(src, j + 1);
    var next := ParseValue(src, j).value.next;
    if k < |src| && src[k] == CLOSE_OBJECT {
      t := Object(src[j + 1..k], []);
      assert src[j..next] == [OPEN_OBJECT] + src[j + 1..k] + [CLOSE_OBJECT];
      assert Meaning(t) == Obj([]);
    } else {
      MembersStart(src, j + 1, []);
      var pairs := PairsDerived(src, j + 1, []);
      assert DistinctKeys([]) by { NoKeys(); }
      MembersParsed(src, j + 1, []);
      assert [] + MeaningsOf(pairs) == MeaningsOf(pairs);
      KeysDiffer(pairs);
      t := Object([], pairs);
      assert src[j..next] == [OPEN_OBJECT] + src[j + 1..next];
      assert [OPEN_OBJECT] + (FlattenPairs(pairs) + [CLOSE_OBJECT]) == Flatten(t);
      assert Meaning(t) == Obj(MeaningsOf(pairs));
    }
  }

  lemma NoKeys()
    ensures DistinctKeys([])
  {
  }

  lemma KeysDiffer(pairs: seq<Pair>)
    requires (forall k :: 0 <= k < |pairs| ==> PairOk(pairs[k])) && DistinctKeys(MeaningsOf(pairs))
    ensures forall i, j :: 0 <= i < j < |pairs| ==> KeyOf(pairs[i]) != KeyOf(pairs[j])
  {
    hide PairOk, KeyOf, PairMeaning;
    forall i | 0 <= i < |pairs|
      ensures MeaningsOf(pairs)[i].key == KeyOf(pairs[i])
    {
      PairKey(pairs[i]);
    }
  }

  lemma {:induction false} PairDerived(src: Text, i: nat, done: seq<Member>) returns (p: Pair)
    requires i <= |src| && ParseMember(src, i, done).Some?
    ensures PairOk(p) && p.element.after == [] && PairMeaning(p) == ParseMember(src, i, done).value.value
    ensures src[i..ParseMember(src, i, done).value.next] == FlattenPair(p)
    decreases |src| - i, 1
  {
    hide Literal, ParseValue, ParseString, White, Flatten, TreeOk, Meaning, HasKey, PiecesOk, Content;
    var j := SkipWhite(src, i);
    var key := ParseString(src, j).value;
    var t := StringDerived(src, j);
    StringIsLiteral(t, key.value);
    var k := SkipWhite(src, key.next);
    var blank, tree := ValueDerived(src, k + 1);
    var next := ParseValue(src, k + 1).value.next;
    p := Pair(src[i..j], t.pieces, src[key.next..k], Element(blank, tree, []));
    FiveParts(src, i, j, key.next, k, next);
    assert Flatten(tree) + [] == Flatten(tree);
  }

  lemma FiveParts(src: Text, i: nat, j: nat, k: nat, l: nat, m: nat)
    requires i <= j <= k <= l < m <= |src|
    ensures src[i..m] == src[i..j] + (src[j..k] + (src[k..l] + ([src[l]] + src[l + 1..m])))
  {
    assert src[l..m] == [src[l]] + src[l + 1..m];
    assert src[k..m] == src[k..l] + src[l..m];
    assert src[j..m] == src[j..k] + src[k..m];
  }

  lemma StringIsLiteral(t: Tree, s: Text)
    requires TreeOk(t) && Meaning(t) == Str(s)
    ensures t.String? && PiecesOk(t.pieces) && Content(t.pieces) == s && Flatten(t) == Literal(t.pieces)
  {
    hide Content, PiecesOk;
  }

  lemma {:induction false} PairsDerived(src: Text, i: nat, done: seq<Member>) returns (pairs: seq<Pair>)
    requires i <= |src| && ParseMembers(src, i, done).Some?
    ensures pairs != [] && forall k :: 0 <= k < |pairs| ==> PairOk(pairs[k])
    ensures ParseMembers(src, i, done).value.value == done + MeaningsOf(pairs)
    ensures src[i..ParseMembers(src, i, done).value.next] == FlattenPairs(pairs) + [CLOSE_OBJECT]
    decreases |src| - i, 2
  {
    hide ParseMember, White, PairMeaning, FlattenPair;
    var m := ParseMember(src, i, done).value;
    var q := PairDerived(src, i, done);
    var j := SkipWhite(src, m.next);
    var p := Padded(q, src[m.next..j]);
    assert src[i..j] == src[i..m.next] + src[m.next..j];
    var next := ParseMembers(src, i, done).value.next;
    if src[j] == CLOSE_OBJECT {
      pairs := [p];
      assert src[i..next] == src[i..j] + [CLOSE_OBJECT];
      assert MeaningsOf(pairs) == [m.value];
    } else {
      var rest := PairsDerived(src, j + 1, done + [m.value]);
      pairs := [p] + rest;
      MorePairs(done, p, rest);
      assert src[i..next] == src[i..j] + ([COMMA] + src[j + 1..next]);
    }
  }

  /** The pair with white space behind its value. */
  lemma Padded(q: Pair, blank: Text) returns (p: Pair)
    requires PairOk(q) && q.element.after == [] && Blank(blank)
    ensures PairOk(p) && PairMeaning(p) == PairMeaning(q) && FlattenPair(p) == FlattenPair(q) + blank
  {
    hide White, TreeOk, Flatten, Meaning, Literal, PiecesOk, Content;
    p := q.(element := q.element.(after := blank));
    var text := Flatten(q.element.tree);
    assert FlattenElement(q.element) == q.element.before + text;
    assert FlattenElement(p.element) == FlattenElement(q.element) + blank;
  }

  lemma MorePairs(done: seq<Member>, p: Pair, rest: seq<Pair>)
    requires PairOk(p) && rest != [] && forall k :: 0 <= k < |rest| ==> PairOk(rest[k])
    ensures forall k :: 0 <= k < |[p] + rest| ==> PairOk(([p] + rest)[k])
    ensures done + [PairMeaning(p)] + MeaningsOf(rest) == done + MeaningsOf([p] + rest)
    ensures FlattenPair(p) + ([COMMA] + (FlattenPairs(rest) + [CLOSE_OBJECT])) == FlattenPairs([p] + rest) + [CLOSE_OBJECT]
  {
    hide PairOk, PairMeaning, FlattenPair;
    assert ([p] + rest)[1..] == rest;
    assert MeaningsOf([p] + rest) == [PairMeaning(p)] + MeaningsOf(rest);
  }

  lemma ParsedDerived(src: Text) returns (e: Element)
    requires Parse(src).Some?
    ensures ElementOk(e) && FlattenElement(e) == src && ElementMeaning(e) == Parse(src).value
  {
    hide ParseValue, White, Flatten, TreeOk, Meaning;
    var blank, tree := ValueDerived(src, 0);
    var p := ParseValue(src, 0).value;
    e := Element(blank, tree, src[p.next..]);
    assert src == src[0..p.next] + src[p.next..];
    assert FlattenElement(e) == (blank + Flatten(tree)) + src[p.next..];
  }

  // ---- The theorem ----

  ghost predicate Derives(src: Text, v: Json) {
    exists e :: ElementOk(e) && FlattenElement(e) == src && ElementMeaning(e) == v
  }

  /** The parser accepts exactly the texts of the grammar, and gives each its meaning. */
  lemma ParsesExactly(src: Text, v: Json)
    ensures Parse(src) == Some(v) <==> Derives(src, v)
  {
    hide Parse, ElementOk, FlattenElement, ElementMeaning;
    if Parse(src) == Some(v) {
      var e := ParsedDerived(src);
    }
    if e :| ElementOk(e) && FlattenElement(e) == src && ElementMeaning(e) == v {
      DerivedParsed(e);
    }
  }

  /** So two derivations of one text never disagree about its meaning. */
  lemma Unambiguous(a: Element, b: Element)
    requires ElementOk(a) && ElementOk(b) && FlattenElement(a) == FlattenElement(b)
    ensures ElementMeaning(a) == ElementMeaning(b)
  {
    hide Parse, ElementOk, FlattenElement, ElementMeaning;
    DerivedParsed(a);
    DerivedParsed(b);
  }
}
