/**
 The other direction: what loads spells a document of the grammar. Together with `EveryDocumentLoads` it says
 which texts load, and as what.
 */
module JsonLoads {
  import opened Options
  import opened Json
  import opened JsonLocality
  import opened JsonTexts
  import opened JsonGrammar

  // ---------------------------------------------------------------- nothing else loads: lexemes

  lemma {:induction false} ChunksSpelled(s: string) returns (ks: seq<Chunk>)
    requires ScanString(s).Some?
    ensures LegalChunks(ks) && SpellChunks(ks) == ScanString(s).value.0
    decreases |s|
  {
    if s[0] == '"' {
      ks := [];
    } else {
      var n := ChunkLength(s);
      var k := ChunkSpelled(s);
      ks := ChunksSpelled(s[n..]);
      ks := [k] + ks;
      assert ks[1..] == ks[1..] && ks[0] == k;
    }
  }

  lemma ChunkSpelled(s: string) returns (k: Chunk)
    requires ChunkLength(s) > 0
    ensures LegalChunk(k) && SpellChunk(k) == s[..ChunkLength(s)]
  {
    var n := ChunkLength(s);
    if n == 1 {
      k := Plain(s[0]);
    } else if n == 2 {
      k := Pair(s[1]);
    } else {
      HexDigit(s[2]);
      HexDigit(s[3]);
      HexDigit(s[4]);
      HexDigit(s[5]);
      k := Unicode(s[2], s[3], s[4], s[5]);
    }
  }

  lemma {:induction false} DigitsSpelled(s: string)
    ensures forall i | 0 <= i < Digits(s) :: s[i] in DIGITS
  {
    if s != "" && IsDigit(s[0]) {
      DigitsSpelled(s[1..]);
      assert forall i | 1 <= i < Digits(s) :: s[i] == s[1..][i - 1];
    }
  }

  lemma WholeSpelled(s: string) returns (minus: bool, whole: string)
    requires IntegerLength(s) > 0
    ensures AllDigits(whole) && (whole[0] == '0' ==> |whole| == 1)
    ensures (if minus then "-" else "") + whole == s[..IntegerLength(s)]
  {
    minus := s[0] == '-';
    var t := if minus then s[1..] else s;
    DigitsSpelled(t);
    whole := t[..NaturalLength(t)];
  }

  lemma FractionSpelled(s: string) returns (fraction: Option<string>)
    ensures fraction.Some? ==> AllDigits(fraction.value)
    ensures (if fraction.Some? then "." + fraction.value else "") == s[..FractionLength(s)]
  {
    fraction := None;
    if FractionLength(s) > 0 {
      DigitsSpelled(s[1..]);
      fraction := Some(s[1..][..Digits(s[1..])]);
    }
  }

  lemma ExponentSpelled(s: string) returns (e: Option<Exponent>)
    ensures e.Some? ==>
      && e.value.letter in "eE" && (e.value.sign == "" || e.value.sign == "+" || e.value.sign == "-")
      && AllDigits(e.value.digits)
    ensures (if e.Some? then [e.value.letter] + e.value.sign + e.value.digits else "") == s[..ExponentLength(s)]
  {
    e := None;
    if ExponentLength(s) > 0 {
      var sign := if |s| >= 2 && s[1] in "+-" then 1 else 0;
      var d := s[1 + sign..];
      DigitsSpelled(d);
      e := Some(Exponent(s[0], s[1..1 + sign], d[..Digits(d)]));
    }
  }

  lemma NumeralSpelled(s: string) returns (n: Numeral)
    requires NumberLength(s) > 0
    ensures LegalNumeral(n) && SpellNumeral(n) == s[..NumberLength(s)]
  {
    var b := s[IntegerLength(s)..];
    var d := b[FractionLength(b)..];
    var minus, whole := WholeSpelled(s);
    var fraction := FractionSpelled(b);
    var exponent := ExponentSpelled(d);
    n := Numeral(minus, whole, fraction, exponent);
    assert SpellFraction(n) == b[..FractionLength(b)];
    assert SpellExponent(n) == d[..ExponentLength(d)];
    ThreeParts(s);
  }

  /** A number is its integer, fraction and exponent parts in this order. */
  lemma ThreeParts(s: string)
    requires NumberLength(s) > 0
    ensures var b := s[IntegerLength(s)..];
      var d := b[FractionLength(b)..];
      s[..NumberLength(s)] == s[..IntegerLength(s)] + (b[..FractionLength(b)] + d[..ExponentLength(d)])
  {
    var b := s[IntegerLength(s)..];
    Joined(s, IntegerLength(s), FractionLength(b), ExponentLength(b[FractionLength(b)..]));
  }

  lemma Joined(s: string, i: nat, f: nat, e: nat)
    requires i + f + e <= |s|
    ensures s[..i] + (s[i..][..f] + s[i..][f..][..e]) == s[..i + (f + e)]
  {
  }

  lemma WordSpelled(s: string)
    requires WordLength(s) > 0
    ensures s[..WordLength(s)] in WORDS
  {
  }

  // ---------------------------------------------------------------- nothing else loads: values

  lemma GapTaken(s: string) returns (gap: string)
    ensures Gap(gap) && s == gap + Skip(s)
  {
    SkipSuffix(s);
    gap := s[..|s| - |Skip(s)|];
    SkippedIsGap(s);
  }

  lemma {:induction false} SkippedIsGap(s: string)
    ensures Gap(s[..|s| - |Skip(s)|])
  {
    if s != "" && IsBlank(s[0]) {
      SkippedIsGap(s[1..]);
      var gap := s[..|s| - |Skip(s)|];
      assert gap == [s[0]] + s[1..][..|s[1..]| - |Skip(s)|];
    }
  }

  lemma ScalarSpelled(s: string) returns (x: Syntax)
    requires ParseScalar(s).Some?
    ensures Legal(x) && Meaning(x) == ParseScalar(s).value.0 && s == Spell(x) + ParseScalar(s).value.1
  {
    if WordLength(s) > 0 {
      WordSpelled(s);
      x := Word(s[..WordLength(s)]);
    } else {
      var n := NumeralSpelled(s);
      x := Number(n);
    }
  }

  lemma QuotedSpelled(s: string) returns (x: Syntax)
    requires s != "" && s[0] == '"' && ParseValue(s).Some?
    ensures Legal(x) && Meaning(x) == ParseValue(s).value.0 && s == Spell(x) + ParseValue(s).value.1
  {
    var ks := ChunksSpelled(s[1..]);
    x := Quoted(ks);
    QuoteShape(s, SpellChunks(ks), ParseValue(s).value.1);
  }

  lemma QuoteShape(s: string, body: string, rest: string)
    requires s != "" && s[0] == '"' && s[1..] == body + "\"" + rest
    ensures s == "\"" + body + "\"" + rest
  {
    assert s == ['"'] + s[1..];
  }

  lemma {:induction false} ValueSpelled(s: string) returns (x: Syntax)
    requires ParseValue(s).Some?
    ensures Legal(x) && Meaning(x) == ParseValue(s).value.0 && s == Spell(x) + ParseValue(s).value.1
    decreases |s|, 1
  {
    if s[0] == '"' {
      x := QuotedSpelled(s);
    } else if s[0] == '{' {
      x := ObjectSpelled(s);
    } else if s[0] == '[' {
      x := ArraySpelled(s);
    } else {
      x := ScalarSpelled(s);
    }
  }

  lemma {:induction false} ObjectSpelled(s: string) returns (x: Syntax)
    requires s != "" && s[0] == '{' && ParseValue(s).Some?
    ensures Legal(x) && Meaning(x) == ParseValue(s).value.0 && s == Spell(x) + ParseValue(s).value.1
    decreases |s|, 0
  {
    var gap := GapTaken(s[1..]);
    var inner := Skip(s[1..]);
    if inner[0] == '}' {
      x := EmptyObject(gap);
      NothingBracketed(s, '{', gap, '}', inner);
    } else {
      var fs := FieldsSpelled(inner);
      x := Object(fs.(before := gap));
      Bracketed(s, '{', gap, SpellFields(fs), '}', ParseValue(s).value.1);
      FieldsBefore(fs, gap);
    }
  }

  lemma {:induction false} ArraySpelled(s: string) returns (x: Syntax)
    requires s != "" && s[0] == '[' && ParseValue(s).Some?
    ensures Legal(x) && Meaning(x) == ParseValue(s).value.0 && s == Spell(x) + ParseValue(s).value.1
    decreases |s|, 0
  {
    var gap := GapTaken(s[1..]);
    var inner := Skip(s[1..]);
    if inner[0] == ']' {
      x := EmptyArray(gap);
      NothingBracketed(s, '[', gap, ']', inner);
    } else {
      var es := ElementsSpelled(inner);
      x := Array(es.(before := gap));
      Bracketed(s, '[', gap, SpellElements(es), ']', ParseValue(s).value.1);
      ElementsBefore(es, gap);
    }
  }

  lemma NothingBracketed(s: string, open: char, gap: string, close: char, inner: string)
    requires s != "" && s[0] == open && s[1..] == gap + inner && inner != "" && inner[0] == close
    ensures s == [open] + gap + [close] + inner[1..]
  {
    assert inner == [close] + inner[1..];
  }

  lemma Bracketed(s: string, open: char, gap: string, inner: string, close: char, rest: string)
    requires s != "" && s[0] == open && s[1..] == gap + (inner + ([close] + rest))
    ensures s == [open] + (gap + inner) + [close] + rest
  {
  }

  lemma ElementsBefore(es: Elements, gap: string)
    requires es.before == ""
    ensures SpellElements(es.(before := gap)) == gap + SpellElements(es)
  {
    var value := Spell(es.value);
    var tail := if es.LastElement? then "" else "," + SpellElements(es.rest);
    assert gap + value + es.after + tail == gap + ("" + value + es.after + tail);
  }

  lemma FieldsBefore(fs: Fields, gap: string)
    requires fs.before == ""
    ensures SpellFields(fs.(before := gap)) == gap + SpellFields(fs)
  {
    var tail := if fs.LastField? then "" else "," + SpellFields(fs.rest);
    BeforeShape(gap, SpellChunks(fs.key), fs.afterKey, fs.beforeValue, Spell(fs.value), fs.after, tail);
  }

  lemma BeforeShape(
    gap: string, key: string, afterKey: string, beforeValue: string, value: string, after: string, tail: string)
    ensures gap + "\"" + key + "\"" + afterKey + ":" + beforeValue + value + after + tail ==
      gap + ("" + "\"" + key + "\"" + afterKey + ":" + beforeValue + value + after + tail)
  {
    FieldShape(gap, key, afterKey, beforeValue, value, after, tail);
    FieldShape("", key, afterKey, beforeValue, value, after, tail);
    assert "" + KeyText(key, afterKey, beforeValue, value + (after + tail)) ==
      KeyText(key, afterKey, beforeValue, value + (after + tail));
  }

  lemma {:induction false} ElementsSpelled(s: string) returns (es: Elements)
    requires ParseItems(s).Some?
    ensures LegalElements(es) && es.before == "" && MeaningOfElements(es) == ParseItems(s).value.0
    ensures s == SpellElements(es) + ([']'] + ParseItems(s).value.1)
    decreases |s|, 2
  {
    var x := ValueSpelled(s);
    var after := ParseValue(s).value.1;
    var gap := GapTaken(after);
    var next := Skip(after);
    if next[0] == ']' {
      es := LastElement("", x, gap);
      LastElementShape(s, Spell(x), gap, next);
    } else {
      var rest := MoreElements(s, next);
      es := Element("", x, gap, rest);
      NextElementShape(s, Spell(x), gap, next, SpellElements(rest), ParseItems(s).value.1);
    }
  }

  /** The elements after a comma. */
  lemma {:induction false} MoreElements(s: string, next: string) returns (es: Elements)
    requires next != "" && |next| < |s| && ParseItems(Skip(next[1..])).Some?
    ensures LegalElements(es) && MeaningOfElements(es) == ParseItems(Skip(next[1..])).value.0
    ensures next[1..] == SpellElements(es) + ([']'] + ParseItems(Skip(next[1..])).value.1)
    decreases |s|, 1
  {
    var more := Skip(next[1..]);
    var before := GapTaken(next[1..]);
    var rest := ElementsSpelled(more);
    es := rest.(before := before);
    ElementsBefore(rest, before);
    Assoc(before, SpellElements(rest), [']'] + ParseItems(more).value.1);
  }

  lemma LastElementShape(s: string, value: string, gap: string, next: string)
    requires s == value + (gap + next) && next != "" && next[0] == ']'
    ensures s == "" + value + gap + "" + ([']'] + next[1..])
  {
    assert next == [']'] + next[1..];
  }

  lemma NextElementShape(s: string, value: string, gap: string, next: string, rest: string, y: string)
    requires s == value + (gap + next) && next != "" && next[0] == ',' && next[1..] == rest + ([']'] + y)
    ensures s == "" + value + gap + ("," + rest) + ([']'] + y)
  {
    assert next == [','] + next[1..];
  }

  lemma {:induction false} FieldsSpelled(s: string) returns (fs: Fields)
    requires ParseMembers(s).Some?
    ensures LegalFields(fs) && fs.before == "" && MeaningOfFields(fs) == ParseMembers(s).value.0
    ensures s == SpellFields(fs) + (['}'] + ParseMembers(s).value.1)
    decreases |s|, 2
  {
    var key := ChunksSpelled(s[1..]);
    var afterKey := ScanString(s[1..]).value.1;
    var gap1 := GapTaken(afterKey);
    var colon := Skip(afterKey);
    var gap2 := GapTaken(colon[1..]);
    var start := Skip(colon[1..]);
    var x := ValueSpelled(start);
    var after := ParseValue(start).value.1;
    var gap3 := GapTaken(after);
    var next := Skip(after);
    KeySpelled(s, SpellChunks(key), gap1, gap2, start);
    if next[0] == '}' {
      fs := LastField("", key, gap1, gap2, x, gap3);
      LastShape(SpellChunks(key), gap1, gap2, Spell(x), gap3, next);
    } else {
      var more := Skip(next[1..]);
      var before := GapTaken(next[1..]);
      var rest := FieldsSpelled(more);
      fs := Field("", key, gap1, gap2, x, gap3, rest.(before := before));
      FieldsBefore(rest, before);
      NextShape(SpellChunks(key), gap1, gap2, Spell(x), gap3, next, before, SpellFields(rest), ParseMembers(s).value.1);
    }
  }

  lemma KeySpelled(s: string, key: string, gap1: string, gap2: string, start: string)
    requires s != "" && s[0] == '"' && ScanString(s[1..]).Some? && ScanString(s[1..]).value.0 == key
    requires var afterKey := ScanString(s[1..]).value.1;
      var colon := Skip(afterKey);
      afterKey == gap1 + colon && colon != "" && colon[0] == ':' && colon[1..] == gap2 + start
    ensures s == KeyText(key, gap1, gap2, start)
  {
    var afterKey := ScanString(s[1..]).value.1;
    KeyShape(s, key, gap1, Skip(afterKey), gap2, start);
  }

  lemma KeyShape(s: string, key: string, gap1: string, colon: string, gap2: string, start: string)
    requires s != "" && s[0] == '"' && s[1..] == key + "\"" + (gap1 + colon)
    requires colon != "" && colon[0] == ':' && colon[1..] == gap2 + start
    ensures s == KeyText(key, gap1, gap2, start)
  {
    assert colon == [':'] + (gap2 + start);
    assert s == ['"'] + s[1..];
    Assoc(key, "\"", gap1 + colon);
  }

  lemma LastShape(key: string, gap1: string, gap2: string, value: string, gap3: string, next: string)
    requires next != "" && next[0] == '}'
    ensures KeyText(key, gap1, gap2, value + (gap3 + next)) ==
      "" + "\"" + key + "\"" + gap1 + ":" + gap2 + value + gap3 + "" + (['}'] + next[1..])
  {
    FieldShape("", key, gap1, gap2, value, gap3, next);
    assert next == ['}'] + next[1..];
  }

  lemma NextShape(key: string, gap1: string, gap2: string, value: string, gap3: string, next: string, before: string,
                  rest: string, y: string)
    requires next != "" && next[0] == ',' && next[1..] == before + (rest + (['}'] + y))
    ensures KeyText(key, gap1, gap2, value + (gap3 + next)) ==
      "" + "\"" + key + "\"" + gap1 + ":" + gap2 + value + gap3 + ("," + (before + rest)) + (['}'] + y)
  {
    FieldShape("", key, gap1, gap2, value, gap3, next);
    assert next == [','] + next[1..];
  }

  /** Every text that loads spells a document with that value. */
  lemma OnlyDocumentsLoad(t: string) returns (d: Document)
    requires Parse(t).Some?
    ensures LegalDocument(d) && SpellDocument(d) == t && Meaning(d.root) == Parse(t).value
  {
    var before := GapTaken(t);
    var x := ValueSpelled(Skip(t));
    var rest := ParseValue(Skip(t)).value.1;
    var after := GapTaken(rest);
    Ending(rest, after);
    Assoc(before, Spell(x), after);
    d := Document(before, x, after);
  }

  lemma Ending(rest: string, after: string)
    requires Skip(rest) == "" && rest == after + Skip(rest)
    ensures rest == after
  {
  }

  // ---------------------------------------------------------------- the theorem

  /** A text loads as a value if and only if it spells a document of the grammar that stands for this value. */
  lemma LoadsIff(t: string, v: Json)
    ensures Parse(t) == Some(v) <==>
      exists d: Document :: LegalDocument(d) && SpellDocument(d) == t && Meaning(d.root) == v
  {
    if Parse(t) == Some(v) {
      var d := OnlyDocumentsLoad(t);
    }
    forall d: Document | LegalDocument(d) && SpellDocument(d) == t && Meaning(d.root) == v
      ensures Parse(t) == Some(v)
    {
      EveryDocumentLoads(d);
    }
  }

  // ---------------------------------------------------------------- dumps in the grammar

  /** The same document laid out as a dump: `gap` after every comma and colon, and no other blanks. */
  function Restyled(x: Syntax, gap: string): Syntax {
    match x
    case EmptyArray(_) => EmptyArray("")
    case Array(elements) => Array(RestyledElements(elements, "", gap))
    case EmptyObject(_) => EmptyObject("")
    case Object(fields) => Object(RestyledFields(fields, "", gap))
    case _ => x
  }

  function RestyledElements(es: Elements, before: string, gap: string): Elements {
    if es.LastElement? then LastElement(before, Restyled(es.value, gap), "")
    else Element(before, Restyled(es.value, gap), "", RestyledElements(es.rest, gap, gap))
  }

  function RestyledFields(fs: Fields, before: string, gap: string): Fields {
    if fs.LastField? then LastField(before, fs.key, "", gap, Restyled(fs.value, gap), "")
    else Field(before, fs.key, "", gap, Restyled(fs.value, gap), "", RestyledFields(fs.rest, gap, gap))
  }

  /** `json.dumps` writes the value of a document as this document. */
  lemma {:induction false} DumpIsSpelled(x: Syntax, gap: string)
    ensures Text(Meaning(x), gap) == Spell(Restyled(x, gap))
    decreases x, 0
  {
    match x
    case Array(elements) =>
      ElementsDumped(elements, "", gap);
      assert "" + ItemsText(MeaningOfElements(elements), gap) == ItemsText(MeaningOfElements(elements), gap);
    case Object(fields) =>
      FieldsDumped(fields, "", gap);
      assert "" + MembersText(MeaningOfFields(fields), gap) == MembersText(MeaningOfFields(fields), gap);
    case _ =>
  }

  lemma {:induction false} ElementsDumped(es: Elements, before: string, gap: string)
    ensures before + ItemsText(MeaningOfElements(es), gap) == SpellElements(RestyledElements(es, before, gap))
    decreases es, 1
  {
    DumpIsSpelled(es.value, gap);
    var value := Text(Meaning(es.value), gap);
    if es.LastElement? {
      assert before + (value + "") == before + value + "" + "";
    } else {
      ElementsDumped(es.rest, gap, gap);
      var rest := ItemsText(MeaningOfElements(es.rest), gap);
      ElementDumpShape(before, value, gap, rest);
    }
  }

  lemma ElementDumpShape(before: string, value: string, gap: string, rest: string)
    ensures before + (value + ("," + gap + rest)) == before + value + "" + ("," + (gap + rest))
  {
  }

  lemma {:induction false} FieldsDumped(fs: Fields, before: string, gap: string)
    ensures before + MembersText(MeaningOfFields(fs), gap) == SpellFields(RestyledFields(fs, before, gap))
    decreases fs, 1
  {
    DumpIsSpelled(fs.value, gap);
    var key, value := SpellChunks(fs.key), Text(Meaning(fs.value), gap);
    if fs.LastField? {
      FieldDumpShape(before, key, gap, value, "", "");
    } else {
      FieldsDumped(fs.rest, gap, gap);
      var rest := MembersText(MeaningOfFields(fs.rest), gap);
      FieldDumpShape(before, key, gap, value, "," + gap + rest, "," + (gap + rest));
      assert "," + gap + rest == "," + (gap + rest);
    }
  }

  lemma FieldDumpShape(before: string, key: string, gap: string, value: string, tail: string, tail': string)
    requires tail == tail'
    ensures before + ("\"" + key + "\":" + gap + value + tail) ==
      before + "\"" + key + "\"" + "" + ":" + gap + value + "" + tail'
  {
    assert "\"" + key + "\":" == "\"" + key + "\"" + "" + ":";
  }

  /** The dump of what a document stands for, in any style, loads as the same value. */
  lemma DumpLoads(x: Syntax, gap: string)
    requires Legal(x) && Blank(gap)
    ensures Parse(Text(Meaning(x), gap)) == Some(Meaning(x))
  {
    EveryDocumentLoads(Document("", x, ""));
    ReadWriteRead(SpellDocument(Document("", x, "")), gap);
  }
}
