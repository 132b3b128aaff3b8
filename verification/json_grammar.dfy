/**
 The grammar of RFC 8259 (sections 2 to 7) written down from the writer's side, apart from the parser:
 documents with explicit blanks, digits, signs and escapes, and how each is spelled. A text loads if and
 only if it spells a document, and loads as that document's value.
 */
module JsonGrammar {
  import opened Options
  import opened Json
  import opened JsonLocality
  import opened JsonTexts

  // ---------------------------------------------------------------- the grammar

  /** One character of a string, or one escape. */
  datatype Chunk = Plain(c: char) | Pair(c: char) | Unicode(h1: char, h2: char, h3: char, h4: char)

  datatype Exponent = Exponent(letter: char, sign: string, digits: string)

  datatype Numeral = Numeral(minus: bool, whole: string, fraction: Option<string>, exponent: Option<Exponent>)

  /** A value as it is laid out; `gap`, `before` and `after` are blanks. */
  datatype Syntax =
    | Word(word: string)
    | Number(numeral: Numeral)
    | Quoted(chunks: seq<Chunk>)
    | EmptyArray(gap: string)
    | Array(elements: Elements)
    | EmptyObject(gap: string)
    | Object(fields: Fields)
  datatype Elements =
    | LastElement(before: string, value: Syntax, after: string)
    | Element(before: string, value: Syntax, after: string, rest: Elements)
  datatype Fields =
    | LastField(before: string, key: seq<Chunk>, afterKey: string, beforeValue: string, value: Syntax, after: string)
    | Field(before: string, key: seq<Chunk>, afterKey: string, beforeValue: string, value: Syntax, after: string,
            rest: Fields)

  datatype Document = Document(before: string, root: Syntax, after: string)

  // ---------------------------------------------------------------- spelling

  function SpellChunk(k: Chunk): string {
    match k
    case Plain(c) => [c]
    case Pair(c) => ['\\', c]
    case Unicode(h1, h2, h3, h4) => ['\\', 'u', h1, h2, h3, h4]
  }

  function SpellChunks(ks: seq<Chunk>): string {
    if ks == [] then "" else SpellChunk(ks[0]) + SpellChunks(ks[1..])
  }

  function SpellFraction(n: Numeral): string {
    if n.fraction.Some? then "." + n.fraction.value else ""
  }

  function SpellExponent(n: Numeral): string {
    if n.exponent.Some? then [n.exponent.value.letter] + n.exponent.value.sign + n.exponent.value.digits else ""
  }

  function SpellNumeral(n: Numeral): string {
    (if n.minus then "-" else "") + n.whole + (SpellFraction(n) + SpellExponent(n))
  }

  function Spell(x: Syntax): string {
    match x
    case Word(word) => word
    case Number(numeral) => SpellNumeral(numeral)
    case Quoted(chunks) => "\"" + SpellChunks(chunks) + "\""
    case EmptyArray(gap) => "[" + gap + "]"
    case Array(elements) => "[" + SpellElements(elements) + "]"
    case EmptyObject(gap) => "{" + gap + "}"
    case Object(fields) => "{" + SpellFields(fields) + "}"
  }

  function SpellElements(es: Elements): string {
    es.before + Spell(es.value) + es.after + (if es.LastElement? then "" else "," + SpellElements(es.rest))
  }

  function SpellFields(fs: Fields): string {
    fs.before + "\"" + SpellChunks(fs.key) + "\"" + fs.afterKey + ":" + fs.beforeValue + Spell(fs.value) + fs.after
    + (if fs.LastField? then "" else "," + SpellFields(fs.rest))
  }

  function SpellDocument(d: Document): string {
    d.before + Spell(d.root) + d.after
  }

  // ---------------------------------------------------------------- what is legal

  const DIGITS := "0123456789"
  const HEX_DIGITS := "0123456789abcdefABCDEF"
  const WORDS: set<string> := {"null", "true", "false", "NaN", "Infinity", "-Infinity"}

  predicate Gap(s: string) {
    forall i | 0 <= i < |s| :: s[i] in " \t\n\r"
  }

  predicate LegalChunk(k: Chunk) {
    match k
    case Plain(c) => c as int >= 0x20 && c != '"' && c != '\\'
    case Pair(c) => c in "\"\\/bfnrt"
    case Unicode(h1, h2, h3, h4) => h1 in HEX_DIGITS && h2 in HEX_DIGITS && h3 in HEX_DIGITS && h4 in HEX_DIGITS
  }

  predicate LegalChunks(ks: seq<Chunk>) {
    forall i | 0 <= i < |ks| :: LegalChunk(ks[i])
  }

  /** One digit or more. */
  predicate AllDigits(s: string) {
    s != "" && forall i | 0 <= i < |s| :: s[i] in DIGITS
  }

  predicate LegalNumeral(n: Numeral) {
    && AllDigits(n.whole) && (n.whole[0] == '0' ==> |n.whole| == 1)
    && (n.fraction.Some? ==> AllDigits(n.fraction.value))
    && (n.exponent.Some? ==>
          && n.exponent.value.letter in "eE"
          && (n.exponent.value.sign == "" || n.exponent.value.sign == "+" || n.exponent.value.sign == "-")
          && AllDigits(n.exponent.value.digits))
  }

  predicate Legal(x: Syntax) {
    match x
    case Word(word) => word in WORDS
    case Number(numeral) => LegalNumeral(numeral)
    case Quoted(chunks) => LegalChunks(chunks)
    case EmptyArray(gap) => Gap(gap)
    case Array(elements) => LegalElements(elements)
    case EmptyObject(gap) => Gap(gap)
    case Object(fields) => LegalFields(fields)
  }

  predicate LegalElements(es: Elements) {
    && Gap(es.before) && Legal(es.value) && Gap(es.after)
    && (es.Element? ==> LegalElements(es.rest))
  }

  predicate LegalFields(fs: Fields) {
    && Gap(fs.before) && LegalChunks(fs.key) && Gap(fs.afterKey) && Gap(fs.beforeValue)
    && Legal(fs.value) && Gap(fs.after)
    && (fs.Field? ==> LegalFields(fs.rest))
  }

  predicate LegalDocument(d: Document) {
    Gap(d.before) && Legal(d.root) && Gap(d.after)
  }

  // ---------------------------------------------------------------- what it stands for

  /** The value, its numbers and strings as they are spelled. */
  function Meaning(x: Syntax): Json {
    match x
    case Word(word) => Lit(word)
    case Number(numeral) => Num(SpellNumeral(numeral))
    case Quoted(chunks) => Str(SpellChunks(chunks))
    case EmptyArray(_) => Arr(NoItems)
    case Array(elements) => Arr(MeaningOfElements(elements))
    case EmptyObject(_) => Obj(NoMembers)
    case Object(fields) => Obj(MeaningOfFields(fields))
  }

  function MeaningOfElements(es: Elements): Items {
    Item(Meaning(es.value), if es.LastElement? then NoItems else MeaningOfElements(es.rest))
  }

  function MeaningOfFields(fs: Fields): Members {
    Member(SpellChunks(fs.key), Meaning(fs.value), if fs.LastField? then NoMembers else MeaningOfFields(fs.rest))
  }

  // ---------------------------------------------------------------- every document loads: lexemes

  /** The parser's view of one chunk in front of `y`. */
  predicate ReadAs(k: Chunk, y: string) {
    var s := SpellChunk(k) + y;
    s[0] != '"' && ChunkLength(s) == |SpellChunk(k)|
  }

  lemma PlainRead(c: char, y: string)
    requires LegalChunk(Plain(c))
    ensures ReadAs(Plain(c), y)
  {
    var s := [c] + y;
    assert s[0] == c;
  }

  lemma PairRead(c: char, y: string)
    requires LegalChunk(Pair(c))
    ensures ReadAs(Pair(c), y)
  {
    var s := ['\\', c] + y;
    assert s[0] == '\\' && s[1] == c && |s| >= 2;
  }

  lemma HexDigit(c: char)
    ensures c in HEX_DIGITS <==> IsHex(c)
  {
  }

  lemma UnicodeRead(k: Chunk, y: string)
    requires LegalChunk(k) && k.Unicode?
    ensures ReadAs(k, y)
  {
    HexDigit(k.h1);
    HexDigit(k.h2);
    HexDigit(k.h3);
    HexDigit(k.h4);
    SixRead(k.h1, k.h2, k.h3, k.h4, y);
  }

  lemma SixRead(h1: char, h2: char, h3: char, h4: char, y: string)
    requires IsHex(h1) && IsHex(h2) && IsHex(h3) && IsHex(h4)
    ensures var s := ['\\', 'u', h1, h2, h3, h4] + y; s[0] != '"' && ChunkLength(s) == 6
  {
    var s := ['\\', 'u', h1, h2, h3, h4] + y;
    assert s[0] == '\\' && s[1] == 'u' && s[2] == h1 && s[3] == h2 && s[4] == h3 && s[5] == h4;
  }

  lemma ChunkRead(k: Chunk, y: string)
    requires LegalChunk(k)
    ensures ReadAs(k, y)
  {
    match k
    case Plain(c) => PlainRead(c, y);
    case Pair(c) => PairRead(c, y);
    case Unicode(_, _, _, _) => UnicodeRead(k, y);
  }

  lemma ChunkBefore(k: string, body: string, rest: string, y: string)
    requires k != "" && (k + rest)[0] != '"' && ChunkLength(k + rest) == |k| && ScanString(rest) == Some((body, y))
    ensures ScanString(k + rest) == Some((k + body, y))
  {
    assert (k + rest)[..|k|] == k && (k + rest)[|k|..] == rest;
  }

  lemma Assoc(a: string, b: string, d: string)
    ensures (a + b) + d == a + (b + d)
  {
  }

  lemma {:induction false} ChunksRead(ks: seq<Chunk>, y: string)
    requires LegalChunks(ks)
    ensures ScanString(SpellChunks(ks) + ("\"" + y)) == Some((SpellChunks(ks), y))
  {
    var close := "\"" + y;
    if ks == [] {
      assert "" + close == close && close[1..] == y;
    } else {
      var first, body := SpellChunk(ks[0]), SpellChunks(ks[1..]);
      ChunksRead(ks[1..], y);
      ChunkRead(ks[0], body + close);
      ChunkBefore(first, body, body + close, y);
      Assoc(first, body, close);
    }
  }

  lemma {:induction false} DigitsRead(d: string, y: string)
    requires (forall i | 0 <= i < |d| :: d[i] in DIGITS) && NoDigit(y)
    ensures Digits(d + y) == |d|
  {
    if d == "" {
      assert d + y == y;
    } else {
      assert (d + y)[1..] == d[1..] + y && (d + y)[0] == d[0];
      DigitsRead(d[1..], y);
    }
  }

  lemma UnsignedRead(letter: char, digits: string, y: string)
    requires letter in "eE" && AllDigits(digits) && NoDigit(y)
    ensures var s := [letter] + (digits + y); ExponentLength(s) == 1 + |digits|
  {
    Head(letter, digits + y);
    DigitsRead(digits, y);
    assert (digits + y)[0] == digits[0];
    DigitIsDigit(digits[0]);
  }

  lemma DigitIsDigit(c: char)
    ensures c in DIGITS <==> IsDigit(c)
  {
  }

  lemma SignedRead(letter: char, sign: char, digits: string, y: string)
    requires letter in "eE" && sign in "+-" && AllDigits(digits) && NoDigit(y)
    ensures var s := [letter] + ([sign] + (digits + y)); ExponentLength(s) == 2 + |digits|
  {
    Head(letter, [sign] + (digits + y));
    Head(sign, digits + y);
    DigitsRead(digits, y);
    var s := [letter] + ([sign] + (digits + y));
    assert s[1] == sign && s[2..] == digits + y;
  }

  /** The exponent's first character neither continues a row of digits nor starts a fraction. */
  lemma LetterSeparates(letter: char, rest: string)
    requires letter in "eE"
    ensures var s := [letter] + rest; NoDigit(s) && s[0] != '.'
  {
    Head(letter, rest);
  }

  lemma ExponentRead(n: Numeral, y: string)
    requires LegalNumeral(n) && Separates(y)
    ensures var s := SpellExponent(n) + y;
      ExponentLength(s) == |SpellExponent(n)| && NoDigit(s) && (s != "" ==> s[0] != '.')
  {
    if n.exponent.Some? {
      var e := n.exponent.value;
      SignShape(e.letter, e.sign, e.digits, y);
      LetterSeparates(e.letter, e.sign + (e.digits + y));
      if e.sign == "" {
        assert e.sign + (e.digits + y) == e.digits + y;
        UnsignedRead(e.letter, e.digits, y);
      } else {
        assert e.sign == [e.sign[0]];
        SignedRead(e.letter, e.sign[0], e.digits, y);
      }
    } else {
      assert SpellExponent(n) + y == y;
    }
  }

  lemma SignShape(letter: char, sign: string, digits: string, y: string)
    ensures [letter] + sign + digits + y == [letter] + (sign + (digits + y))
  {
  }

  lemma PointRead(fraction: string, y: string)
    requires AllDigits(fraction) && NoDigit(y)
    ensures var s := ['.'] + (fraction + y); FractionLength(s) == 1 + |fraction| && NoDigit(s)
  {
    Head('.', fraction + y);
    DigitsRead(fraction, y);
  }

  lemma FractionRead(n: Numeral, y: string)
    requires LegalNumeral(n) && NoDigit(y) && (y != "" ==> y[0] != '.')
    ensures var s := SpellFraction(n) + y; FractionLength(s) == |SpellFraction(n)| && NoDigit(s)
  {
    if n.fraction.Some? {
      PointRead(n.fraction.value, y);
      assert SpellFraction(n) + y == ['.'] + (n.fraction.value + y);
    } else {
      assert SpellFraction(n) + y == y;
    }
  }

  lemma WholeRead(n: Numeral, y: string)
    requires LegalNumeral(n) && NoDigit(y)
    ensures var sign := if n.minus then "-" else ""; IntegerLength(sign + n.whole + y) == |sign + n.whole|
  {
    DigitsRead(n.whole, y);
    var s := n.whole + y;
    assert s[0] == n.whole[0];
    if n.minus {
      assert ("-" + n.whole + y)[1..] == s && ("-" + n.whole + y)[0] == '-';
    } else {
      assert "" + n.whole + y == s;
    }
  }

  lemma NumeralRead(n: Numeral, y: string)
    requires LegalNumeral(n) && Separates(y)
    ensures NumberLength(SpellNumeral(n) + y) == |SpellNumeral(n)| > 0
  {
    var whole := (if n.minus then "-" else "") + n.whole;
    var b := SpellExponent(n) + y;
    ExponentRead(n, y);
    FractionRead(n, b);
    WholeRead(n, SpellFraction(n) + b);
    PartsRead(whole, SpellFraction(n), SpellExponent(n), y);
  }

  lemma PartsRead(whole: string, fraction: string, exponent: string, y: string)
    requires var b := exponent + y;
      && |whole| > 0 && IntegerLength(whole + (fraction + b)) == |whole|
      && FractionLength(fraction + b) == |fraction| && ExponentLength(b) == |exponent|
    ensures NumberLength(whole + (fraction + exponent) + y) == |whole + (fraction + exponent)|
  {
    var b := exponent + y;
    assert whole + (fraction + exponent) + y == whole + (fraction + b);
    assert (whole + (fraction + b))[|whole|..] == fraction + b;
    assert (fraction + b)[|fraction|..] == b;
  }

  /** A scalar is a value. */
  lemma ScalarParsed(s: string)
    requires WordLength(s) > 0 || NumberLength(s) > 0
    ensures ParseValue(s) == ParseScalar(s)
  {
    ScalarOpens(s);
  }

  lemma NumberParsed(n: Numeral, y: string)
    requires LegalNumeral(n) && Separates(y)
    ensures ParseValue(SpellNumeral(n) + y) == Some((Num(SpellNumeral(n)), y))
  {
    NumeralRead(n, y);
    LexemeParsed(SpellNumeral(n), y);
  }

  lemma LexemeParsed(lexeme: string, y: string)
    requires NumberLength(lexeme + y) == |lexeme| > 0 && Separates(y)
    ensures ParseValue(lexeme + y) == Some((Num(lexeme), y))
  {
    var s := lexeme + y;
    assert s[..|lexeme|] == lexeme;
    NumberScalarLocal(s, y);
    ScalarParsed(s);
  }

  lemma WordRead(w: string, y: string)
    requires w in WORDS
    ensures WordLength(w + y) == |w| > 0
  {
    var s := w + y;
    assert s[..|w|] == w;
    WordByFirst(s);
    assert s[0] == w[0];
  }

  lemma WordParsed(w: string, y: string)
    requires w in WORDS
    ensures ParseValue(w + y) == Some((Lit(w), y))
  {
    WordRead(w, y);
    assert (w + y)[..|w|] == w && (w + y)[|w|..] == y;
    ScalarOpens(w + y);
  }

  lemma QuotedParsed(ks: seq<Chunk>, y: string)
    requires LegalChunks(ks)
    ensures ParseValue("\"" + SpellChunks(ks) + "\"" + y) == Some((Str(SpellChunks(ks)), y))
  {
    ChunksRead(ks, y);
    QuoteParsed(SpellChunks(ks), y);
  }

  lemma QuoteParsed(raw: string, y: string)
    requires ScanString(raw + ("\"" + y)) == Some((raw, y))
    ensures ParseValue("\"" + raw + "\"" + y) == Some((Str(raw), y))
  {
    OpenShape('"', raw, "\"", y);
    Head('"', raw + ("\"" + y));
  }

  /** An opening character, what it encloses, the closing text and what follows. */
  lemma OpenShape(open: char, inner: string, close: string, y: string)
    ensures [open] + inner + close + y == [open] + (inner + (close + y))
  {
  }

  // ---------------------------------------------------------------- every document loads: values

  /** The first character of a spelled value. */
  lemma SpellOpens(x: Syntax)
    requires Legal(x)
    ensures var s := Spell(x); s != "" && Opens(s[0])
  {
    match x
    case Word(word) =>
      WordRead(word, "");
      assert word + "" == word;
      ScalarOpens(word);
    case Number(numeral) =>
      NumeralRead(numeral, "");
      assert SpellNumeral(numeral) + "" == SpellNumeral(numeral);
      ScalarOpens(SpellNumeral(numeral));
    case _ =>
  }

  lemma SkipTo(gap: string, s: string)
    requires Gap(gap) && s != "" && !IsBlank(s[0])
    ensures Skip(gap + s) == s
  {
    SkipBlanks(gap, s);
  }

  /** An array or object, from what stands between its brackets. */
  lemma ArrayParsed(inner: string, items: Items, y: string)
    requires ParseArray(Skip(inner + ("]" + y))) == Some((items, y))
    ensures ParseValue("[" + inner + "]" + y) == Some((Arr(items), y))
  {
    OpenShape('[', inner, "]", y);
    Head('[', inner + ("]" + y));
  }

  lemma ObjectParsed(inner: string, ms: Members, y: string)
    requires ParseObject(Skip(inner + ("}" + y))) == Some((ms, y))
    ensures ParseValue("{" + inner + "}" + y) == Some((Obj(ms), y))
  {
    OpenShape('{', inner, "}", y);
    Head('{', inner + ("}" + y));
  }

  lemma EmptyParsed(gap: string, y: string)
    requires Gap(gap)
    ensures ParseArray(Skip(gap + ("]" + y))) == Some((NoItems, y))
    ensures ParseObject(Skip(gap + ("}" + y))) == Some((NoMembers, y))
  {
    SkipTo(gap, "]" + y);
    SkipTo(gap, "}" + y);
    Head(']', y);
    Head('}', y);
  }

  lemma {:induction false} ValueParsed(x: Syntax, y: string)
    requires Legal(x) && (x.Number? ==> Separates(y))
    ensures ParseValue(Spell(x) + y) == Some((Meaning(x), y))
    decreases x, 0
  {
    match x
    case Word(word) => WordParsed(word, y);
    case Number(numeral) => NumberParsed(numeral, y);
    case Quoted(chunks) => QuotedParsed(chunks, y);
    case EmptyArray(gap) =>
      EmptyParsed(gap, y);
      ArrayParsed(gap, NoItems, y);
    case Array(elements) =>
      ElementsParsed(elements, y);
      ArrayParsed(SpellElements(elements), MeaningOfElements(elements), y);
    case EmptyObject(gap) =>
      EmptyParsed(gap, y);
      ObjectParsed(gap, NoMembers, y);
    case Object(fields) =>
      FieldsParsed(fields, y);
      ObjectParsed(SpellFields(fields), MeaningOfFields(fields), y);
  }

  /** What follows a value in a list, up to the bracket or the next element. */
  lemma AfterValue(after: string, c: char, y: string)
    requires Gap(after) && c in ",]}"
    ensures Separates(after + ([c] + y)) && Skip(after + ([c] + y)) == [c] + y
  {
    SkipTo(after, [c] + y);
    if after != "" {
      assert (after + ([c] + y))[0] == after[0];
    }
  }

  /** A list whose first value is `v`, from the first character of that value on. */
  lemma ItemsFrom(s: string, v: Json, tail: string)
    requires s != "" && Opens(s[0]) && ParseValue(s) == Some((v, tail)) && Skip(tail) != ""
    ensures ParseArray(s) == ParseItems(s)
    ensures Skip(tail)[0] == ']' ==> ParseItems(s) == Some((Item(v, NoItems), Skip(tail)[1..]))
    ensures Skip(tail)[0] == ',' && ParseItems(Skip(Skip(tail)[1..])).Some? ==>
      var (items, rest) := ParseItems(Skip(Skip(tail)[1..])).value; ParseItems(s) == Some((Item(v, items), rest))
  {
  }

  lemma LastElementParsed(before: string, value: string, v: Json, after: string, y: string)
    requires Gap(before) && Gap(after) && value != "" && Opens(value[0])
    requires ParseValue(value + (after + ([']'] + y))) == Some((v, after + ([']'] + y)))
    ensures var s := Skip(before + value + after + ("]" + y));
      ParseArray(s) == ParseItems(s) == Some((Item(v, NoItems), y))
  {
    var s := value + (after + ([']'] + y));
    ElementShape(before, value, after, "", y);
    SkipTo(before, s);
    AfterValue(after, ']', y);
    Head(']', y);
    ItemsFrom(s, v, after + ([']'] + y));
  }

  lemma ElementShape(before: string, value: string, after: string, rest: string, y: string)
    ensures before + value + after + ("," + rest) + ("]" + y) ==
      before + (value + (after + ([','] + (rest + ("]" + y)))))
    ensures before + value + after + ("]" + y) == before + (value + (after + ([']'] + y)))
  {
  }

  lemma ElementParsed(before: string, value: string, v: Json, after: string, rest: string, items: Items, y: string)
    requires Gap(before) && Gap(after) && value != "" && Opens(value[0])
    requires ParseItems(Skip(rest + ("]" + y))) == Some((items, y))
    requires var tail := after + ([','] + (rest + ("]" + y))); ParseValue(value + tail) == Some((v, tail))
    ensures var s := Skip(before + value + after + ("," + rest) + ("]" + y));
      ParseArray(s) == ParseItems(s) == Some((Item(v, items), y))
  {
    var more := rest + ("]" + y);
    var s := value + (after + ([','] + more));
    ElementShape(before, value, after, rest, y);
    SkipTo(before, s);
    AfterValue(after, ',', more);
    Head(',', more);
    ItemsFrom(s, v, after + ([','] + more));
  }

  lemma {:induction false} ElementsParsed(es: Elements, y: string)
    requires LegalElements(es)
    ensures ParseArray(Skip(SpellElements(es) + ("]" + y))) == Some((MeaningOfElements(es), y))
    ensures ParseItems(Skip(SpellElements(es) + ("]" + y))) == Some((MeaningOfElements(es), y))
    decreases es, 1
  {
    var value := Spell(es.value);
    SpellOpens(es.value);
    if es.LastElement? {
      AfterValue(es.after, ']', y);
      ValueParsed(es.value, es.after + ([']'] + y));
      LastElementParsed(es.before, value, Meaning(es.value), es.after, y);
      assert SpellElements(es) == es.before + value + es.after;
    } else {
      var rest := SpellElements(es.rest);
      ElementsParsed(es.rest, y);
      AfterValue(es.after, ',', rest + ("]" + y));
      ValueParsed(es.value, es.after + ([','] + (rest + ("]" + y))));
      ElementParsed(es.before, value, Meaning(es.value), es.after, rest, MeaningOfElements(es.rest), y);
    }
  }

  /** A quoted key and its colon in front of a value. */
  function KeyText(key: string, afterKey: string, beforeValue: string, value: string): string {
    ['"'] + (key + ("\"" + (afterKey + ([':'] + (beforeValue + value)))))
  }

  lemma KeyParsed(key: seq<Chunk>, afterKey: string, beforeValue: string, value: string)
    requires LegalChunks(key) && Gap(afterKey) && Gap(beforeValue) && value != "" && !IsBlank(value[0])
    ensures var s := KeyText(SpellChunks(key), afterKey, beforeValue, value);
      && s[0] == '"' && ScanString(s[1..]) == Some((SpellChunks(key), afterKey + ([':'] + (beforeValue + value))))
      && Skip(afterKey + ([':'] + (beforeValue + value))) == [':'] + (beforeValue + value)
      && Skip(([':'] + (beforeValue + value))[1..]) == value
  {
    var colon := [':'] + (beforeValue + value);
    ChunksRead(key, afterKey + colon);
    Head('"', SpellChunks(key) + ("\"" + (afterKey + colon)));
    Head(':', beforeValue + value);
    SkipTo(afterKey, colon);
    SkipTo(beforeValue, value);
  }

  /** One member: key, colon, value, blanks, and a closing brace or a comma. */
  lemma MemberParsed(key: seq<Chunk>, afterKey: string, beforeValue: string, value: string, v: Json, tail: string)
    requires LegalChunks(key) && Gap(afterKey) && Gap(beforeValue) && value != "" && !IsBlank(value[0])
    requires ParseValue(value) == Some((v, tail)) && Skip(tail) != ""
    ensures var s := KeyText(SpellChunks(key), afterKey, beforeValue, value);
      var next := Skip(tail);
      && s != "" && s[0] == '"'
      && (next[0] == '}' ==> ParseMembers(s) == Some((Member(SpellChunks(key), v, NoMembers), next[1..])))
      && (next[0] == ',' && ParseMembers(Skip(next[1..])).Some? ==>
            var (ms, rest) := ParseMembers(Skip(next[1..])).value;
            ParseMembers(s) == Some((Member(SpellChunks(key), v, ms), rest)))
  {
    KeyParsed(key, afterKey, beforeValue, value);
  }

  /** A field with whatever stands before and after it. */
  lemma FieldShape(before: string, key: string, afterKey: string, beforeValue: string, value: string, after: string,
                   tail: string)
    ensures before + "\"" + key + "\"" + afterKey + ":" + beforeValue + value + after + tail ==
      before + KeyText(key, afterKey, beforeValue, value + (after + tail))
  {
  }

  lemma TailShape(front: string, rest: string, y: string)
    ensures front + ("," + rest) + ("}" + y) == front + ([','] + (rest + ("}" + y)))
    ensures front + "" + ("}" + y) == front + (['}'] + y)
  {
  }

  lemma FieldFront(fs: Fields, tail: string) returns (s: string)
    requires LegalFields(fs) && tail != "" && tail[0] in ",}"
    requires ParseValue(Spell(fs.value) + (fs.after + tail)) == Some((Meaning(fs.value), fs.after + tail))
    ensures s == KeyText(SpellChunks(fs.key), fs.afterKey, fs.beforeValue, Spell(fs.value) + (fs.after + tail))
    ensures Skip(fs.before + "\"" + SpellChunks(fs.key) + "\"" + fs.afterKey + ":" + fs.beforeValue + Spell(fs.value)
                 + fs.after + tail) == s
    ensures s != "" && s[0] == '"'
    ensures tail[0] == '}' ==>
      ParseMembers(s) == Some((Member(SpellChunks(fs.key), Meaning(fs.value), NoMembers), tail[1..]))
    ensures tail[0] == ',' && ParseMembers(Skip(tail[1..])).Some? ==>
      var (ms, rest) := ParseMembers(Skip(tail[1..])).value;
      ParseMembers(s) == Some((Member(SpellChunks(fs.key), Meaning(fs.value), ms), rest))
  {
    var value := Spell(fs.value) + (fs.after + tail);
    SpellOpens(fs.value);
    assert value[0] == Spell(fs.value)[0];
    s := KeyText(SpellChunks(fs.key), fs.afterKey, fs.beforeValue, value);
    FieldShape(fs.before, SpellChunks(fs.key), fs.afterKey, fs.beforeValue, Spell(fs.value), fs.after, tail);
    SkipTo(fs.before, s);
    SkipTo(fs.after, tail);
    MemberParsed(fs.key, fs.afterKey, fs.beforeValue, value, Meaning(fs.value), fs.after + tail);
  }

  lemma {:induction false} FieldsParsed(fs: Fields, y: string)
    requires LegalFields(fs)
    ensures ParseObject(Skip(SpellFields(fs) + ("}" + y))) == Some((MeaningOfFields(fs), y))
    ensures ParseMembers(Skip(SpellFields(fs) + ("}" + y))) == Some((MeaningOfFields(fs), y))
    decreases fs, 1
  {
    var front := fs.before + "\"" + SpellChunks(fs.key) + "\"" + fs.afterKey + ":" + fs.beforeValue + Spell(fs.value)
      + fs.after;
    if fs.LastField? {
      AfterValue(fs.after, '}', y);
      ValueParsed(fs.value, fs.after + (['}'] + y));
      var s := FieldFront(fs, ['}'] + y);
      TailShape(front, "", y);
    } else {
      var rest := SpellFields(fs.rest);
      FieldsParsed(fs.rest, y);
      AfterValue(fs.after, ',', rest + ("}" + y));
      ValueParsed(fs.value, fs.after + ([','] + (rest + ("}" + y))));
      Head(',', rest + ("}" + y));
      var s := FieldFront(fs, [','] + (rest + ("}" + y)));
      TailShape(front, rest, y);
    }
  }

  /** Every document loads, as its value. */
  lemma EveryDocumentLoads(d: Document)
    requires LegalDocument(d)
    ensures Parse(SpellDocument(d)) == Some(Meaning(d.root))
  {
    SpellOpens(d.root);
    ValueParsed(d.root, d.after) by {
      assert d.after != "" ==> d.after[0] in " \t\n\r";
    }
    Surrounded(d.before, Spell(d.root), Meaning(d.root), d.after);
  }

  lemma Surrounded(before: string, value: string, v: Json, after: string)
    requires Gap(before) && Gap(after) && value != "" && Opens(value[0])
    requires ParseValue(value + after) == Some((v, after))
    ensures Parse(before + value + after) == Some(v)
  {
    assert before + value + after == before + (value + after);
    SkipTo(before, value + after);
    AllBlank(after);
  }

  // ---------------------------------------------------------------- any string can be written

  function HexDigitOf(n: nat): char
    requires n < 16
  {
    if n < 10 then ('0' as int + n) as char else ('a' as int + n - 10) as char
  }

  /** A control character without an escape of its own. */
  function ControlEscape(n: nat): Chunk
    requires n < 0x20
  {
    Unicode('0', '0', HexDigitOf(n / 16), HexDigitOf(n % 16))
  }

  /** How `json.dumps` writes a character. */
  function Escape(c: char): Chunk {
    var n := c as int;
    if c == '"' || c == '\\' then Pair(c)
    else if c == '\n' then Pair('n')
    else if c == '\r' then Pair('r')
    else if c == '\t' then Pair('t')
    else if n == 8 then Pair('b')
    else if n == 12 then Pair('f')
    else if n < 0x20 then ControlEscape(n)
    else Plain(c)
  }

  function Escaped(chars: string): seq<Chunk> {
    seq(|chars|, i requires 0 <= i < |chars| => Escape(chars[i]))
  }

  function HexValue(c: char): nat {
    if '0' <= c <= '9' then c as int - '0' as int
    else if 'a' <= c <= 'f' then c as int - 'a' as int + 10
    else if 'A' <= c <= 'F' then c as int - 'A' as int + 10
    else 0
  }

  /** The character a chunk stands for (RFC 8259, section 7), None for half of a surrogate pair. */
  function StandsFor(k: Chunk): Option<char> {
    match k
    case Plain(c) => Some(c)
    case Pair(c) =>
      Some(if c == 'n' then '\n' else if c == 'r' then '\r' else if c == 't' then '\t'
           else if c == 'b' then 8 as char else if c == 'f' then 12 as char else c)
    case Unicode(h1, h2, h3, h4) =>
      var n := HexValue(h1) * 0x1000 + HexValue(h2) * 0x100 + HexValue(h3) * 0x10 + HexValue(h4);
      if n < 0xD800 || 0xE000 <= n < 0x10000 then Some(n as char) else None
  }

  predicate Rendered(c: char, k: Chunk) {
    LegalChunk(k) && StandsFor(k) == Some(c)
  }

  lemma EscapeStandsFor(c: char)
    ensures Rendered(c, Escape(c))
  {
    if Escape(c).Plain? {
      PlainStandsFor(c);
    } else if Escape(c).Pair? {
      PairStandsFor(c);
    } else {
      ControlStandsFor(c);
    }
  }

  lemma PlainStandsFor(c: char)
    requires Escape(c).Plain?
    ensures Rendered(c, Escape(c))
  {
  }

  lemma PairIsLegal(e: char)
    requires e == '"' || e == '\\' || e == 'n' || e == 'r' || e == 't' || e == 'b' || e == 'f'
    ensures e in "\"\\/bfnrt"
  {
    var all := ['"', '\\', '/', 'b', 'f', 'n', 'r', 't'];
    assert "\"\\/bfnrt" == all;
    assert e in {all[0], all[1], all[3], all[4], all[5], all[6], all[7]};
  }

  lemma PairStandsFor(c: char)
    requires Escape(c).Pair?
    ensures Rendered(c, Escape(c))
  {
    PairIsLegal(Escape(c).c);
  }

  lemma ControlStandsFor(c: char)
    requires c as int < 0x20
    ensures Rendered(c, ControlEscape(c as int))
  {
    var n := c as int;
    HexBack(n / 16);
    HexBack(n % 16);
    HexBack(0);
  }

  lemma HexBack(n: nat)
    requires n < 16
    ensures HexDigitOf(n) in HEX_DIGITS && HexValue(HexDigitOf(n)) == n
  {
    HexDigit(HexDigitOf(n));
  }

  /** Any string of characters, written as `json.dumps` does, loads, and its chunks stand for these characters. */
  lemma AnyStringLoads(chars: string)
    ensures var ks := Escaped(chars);
      && Parse("\"" + SpellChunks(ks) + "\"") == Some(Str(SpellChunks(ks)))
      && |ks| == |chars| && forall i | 0 <= i < |chars| :: StandsFor(ks[i]) == Some(chars[i])
  {
    var ks := Escaped(chars);
    forall i | 0 <= i < |chars|
      ensures Rendered(chars[i], ks[i])
    {
      EscapeStandsFor(chars[i]);
    }
    var d := Document("", Quoted(ks), "");
    EveryDocumentLoads(d);
    assert SpellDocument(d) == "\"" + SpellChunks(ks) + "\"";
  }
}
