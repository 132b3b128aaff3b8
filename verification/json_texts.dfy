/**
 Writing a tree and reading it back, and what every readable text looks like from outside: its first
 and last character, and the blanks around it.
 */
module JsonTexts {
  import opened Options
  import opened Json
  import opened JsonLocality

  predicate Blank(s: string) {
    forall i | 0 <= i < |s| :: IsBlank(s[i])
  }

  lemma {:induction false} SkipBlanks(gap: string, s: string)
    requires Blank(gap)
    ensures Skip(gap + s) == Skip(s)
  {
    if gap == "" {
      assert gap + s == s;
    } else {
      assert (gap + s)[1..] == gap[1..] + s;
      SkipBlanks(gap[1..], s);
    }
  }

  lemma {:induction false} AllBlank(s: string)
    ensures Skip(s) == "" <==> Blank(s)
  {
    if s != "" && IsBlank(s[0]) {
      AllBlank(s[1..]);
      assert forall i | 1 <= i < |s| :: s[i] == s[1..][i - 1];
    }
  }

  // ---------------------------------------------------------------- first characters

  /** A character that can start a value. */
  predicate Opens(c: char) {
    c == '"' || c == '{' || c == '[' || OpensScalar(c)
  }

  predicate OpensScalar(c: char) {
    IsDigit(c) || c == '-' || c == 'n' || c == 't' || c == 'f' || c == 'N' || c == 'I'
  }

  lemma ScalarOpens(s: string)
    requires WordLength(s) > 0 || NumberLength(s) > 0
    ensures OpensScalar(s[0])
  {
    if s != "" {
      WordByFirst(s);
    }
  }

  lemma ValueOpens(s: string)
    requires ParseValue(s).Some?
    ensures Opens(s[0])
  {
    if s[0] != '"' && s[0] != '{' && s[0] != '[' {
      ScalarOpens(s);
    }
  }

  lemma TextOpens(v: Json, gap: string)
    requires WellFormed(v)
    ensures var t := Text(v, gap); t != "" && Opens(t[0])
  {
    if v.Lit? {
      ScalarOpens(v.word);
    } else if v.Num? {
      ScalarOpens(v.lexeme);
    }
  }

  // ---------------------------------------------------------------- reading back what was written

  lemma WordBack(word: string, y: string)
    requires WellFormed(Lit(word))
    ensures ParseValue(word + y) == Some((Lit(word), y))
  {
    WordScalarLocal(word, y);
    ScalarOpens(word);
    assert word[..|word|] == word && (word + y)[0] == word[0];
  }

  lemma NumberBack(lexeme: string, y: string)
    requires WellFormed(Num(lexeme)) && Separates(y)
    ensures ParseValue(lexeme + y) == Some((Num(lexeme), y))
  {
    NumberScalarLocal(lexeme, y);
    ScalarOpens(lexeme);
    assert lexeme[..|lexeme|] == lexeme;
  }

  lemma StringBack(raw: string, y: string)
    requires StringBody(raw)
    ensures ScanString(raw + "\"" + y) == Some((raw, y))
  {
    ScanLocal(raw + "\"", y);
    assert Swap(raw + "\"", "", y) == raw + "\"" + y;
  }

  /** A string starting with `c`. */
  lemma Head(c: char, tail: string)
    ensures var s := [c] + tail; s[0] == c && s[1..] == tail
  {
  }

  /** The next element after a comma and the gap. */
  lemma SkipGap(gap: string, s: string)
    requires Blank(gap) && s != "" && Opens(s[0])
    ensures Skip(gap + s) == s
  {
    SkipBlanks(gap, s);
  }

  /** Writing in any style and reading gives the tree back and leaves what follows. */
  lemma {:induction false} TextBack(v: Json, gap: string, y: string)
    requires WellFormed(v) && Blank(gap) && (v.Num? ==> Separates(y))
    ensures ParseValue(Text(v, gap) + y) == Some((v, y))
    decreases v, 0
  {
    match v
    case Lit(word) => WordBack(word, y);
    case Num(lexeme) => NumberBack(lexeme, y);
    case Str(raw) => StringValue(raw, gap, y);
    case Arr(items) =>
      ArrayBack(items, gap, y);
      ArrayValue(items, gap, y);
    case Obj(members) =>
      ObjectBack(members, gap, y);
      ObjectValue(members, gap, y);
  }

  lemma StringValue(raw: string, gap: string, y: string)
    requires StringBody(raw)
    ensures ParseValue(Text(Str(raw), gap) + y) == Some((Str(raw), y))
  {
    StringBack(raw, y);
    Head('"', raw + "\"" + y);
    assert Text(Str(raw), gap) + y == ['"'] + (raw + "\"" + y);
  }

  lemma ArrayValue(items: Items, gap: string, y: string)
    requires var s := (if items.NoItems? then "" else ItemsText(items, gap)) + "]" + y;
      Skip(s) == s && ParseArray(s) == Some((items, y))
    ensures ParseValue(Text(Arr(items), gap) + y) == Some((Arr(items), y))
  {
    var s := (if items.NoItems? then "" else ItemsText(items, gap)) + "]" + y;
    Head('[', s);
    assert Text(Arr(items), gap) + y == ['['] + s;
  }

  lemma ObjectValue(ms: Members, gap: string, y: string)
    requires var s := (if ms.NoMembers? then "" else MembersText(ms, gap)) + "}" + y;
      Skip(s) == s && ParseObject(s) == Some((ms, y))
    ensures ParseValue(Text(Obj(ms), gap) + y) == Some((Obj(ms), y))
  {
    var s := (if ms.NoMembers? then "" else MembersText(ms, gap)) + "}" + y;
    Head('{', s);
    assert Text(Obj(ms), gap) + y == ['{'] + s;
  }

  lemma {:induction false} ArrayBack(items: Items, gap: string, y: string)
    requires WellFormedItems(items) && Blank(gap)
    ensures var s := (if items.NoItems? then "" else ItemsText(items, gap)) + "]" + y;
      Skip(s) == s && ParseArray(s) == Some((items, y))
    decreases items, 2
  {
    if items.NoItems? {
      Head(']', y);
      assert "" + "]" + y == [']'] + y;
    } else {
      ItemsBack(items, gap, y);
    }
  }

  lemma {:induction false} ObjectBack(ms: Members, gap: string, y: string)
    requires WellFormedMembers(ms) && Blank(gap)
    ensures var s := (if ms.NoMembers? then "" else MembersText(ms, gap)) + "}" + y;
      Skip(s) == s && ParseObject(s) == Some((ms, y))
    decreases ms, 2
  {
    if ms.NoMembers? {
      Head('}', y);
      assert "" + "}" + y == ['}'] + y;
    } else {
      MembersBack(ms, gap, y);
    }
  }

  lemma {:induction false} ItemsBack(items: Items, gap: string, y: string)
    requires items.Item? && WellFormedItems(items) && Blank(gap)
    ensures var s := ItemsText(items, gap) + "]" + y; s != "" && Opens(s[0]) && ParseItems(s) == Some((items, y))
    decreases items, 1
  {
    TextOpens(items.head, gap);
    if items.tail.NoItems? {
      TextBack(items.head, gap, [']'] + y);
      LastItem(items.head, gap, y);
    } else {
      ItemsBack(items.tail, gap, y);
      TextBack(items.head, gap, [','] + (gap + (ItemsText(items.tail, gap) + "]" + y)));
      MoreItems(items, gap, y);
    }
  }

  lemma LastItem(v: Json, gap: string, y: string)
    requires ParseValue(Text(v, gap) + ([']'] + y)) == Some((v, [']'] + y))
    ensures ParseItems(ItemsText(Item(v, NoItems), gap) + "]" + y) == Some((Item(v, NoItems), y))
  {
    Head(']', y);
    assert ItemsText(Item(v, NoItems), gap) + "]" + y == Text(v, gap) + ([']'] + y);
  }

  lemma MoreItems(items: Items, gap: string, y: string)
    requires items.Item? && items.tail.Item? && Blank(gap)
    requires var rest := ItemsText(items.tail, gap) + "]" + y;
      && rest != "" && Opens(rest[0]) && ParseItems(rest) == Some((items.tail, y))
      && ParseValue(Text(items.head, gap) + ([','] + (gap + rest))) == Some((items.head, [','] + (gap + rest)))
    ensures ParseItems(ItemsText(items, gap) + "]" + y) == Some((items, y))
  {
    var rest := ItemsText(items.tail, gap) + "]" + y;
    SkipGap(gap, rest);
    Head(',', gap + rest);
    ItemsShape(Text(items.head, gap), gap, ItemsText(items.tail, gap), y);
  }

  lemma ItemsShape(head: string, gap: string, tail: string, y: string)
    ensures (head + ("," + gap + tail)) + "]" + y == head + ([','] + (gap + (tail + "]" + y)))
  {
  }

  lemma MembersShape(key: string, gap: string, value: string, tail: string, y: string)
    ensures ("\"" + key + "\":" + gap + value + tail) + "}" + y ==
      ['"'] + (key + "\"" + ([':'] + (gap + (value + (tail + "}" + y)))))
  {
  }

  lemma RestShape(gap: string, tail: string, y: string)
    ensures ("," + gap + tail) + "}" + y == [','] + (gap + (tail + "}" + y))
  {
  }

  /** A member up to the end of its value. */
  lemma MemberBack(key: string, gap: string, value: string, after: string)
    requires StringBody(key) && Blank(gap) && value != "" && Opens(value[0])
    ensures var s := ['"'] + (key + "\"" + ([':'] + (gap + (value + after))));
      && s[0] == '"'
      && ScanString(s[1..]) == Some((key, [':'] + (gap + (value + after))))
      && Skip(Skip([':'] + (gap + (value + after)))[1..]) == value + after
  {
    var colon := [':'] + (gap + (value + after));
    StringBack(key, colon);
    Head('"', key + "\"" + colon);
    Head(':', gap + (value + after));
    SkipGap(gap, value + after);
  }

  /** What ParseMembers makes of a first member and what follows it. */
  lemma MemberStep(s: string, key: string, value: string, v: Json, gap: string, after: string)
    requires s == ['"'] + (key + "\"" + ([':'] + (gap + (value + after))))
    requires StringBody(key) && Blank(gap) && value != "" && Opens(value[0])
    requires ParseValue(value + after) == Some((v, after)) && Skip(after) == after != ""
    ensures s != "" && s[0] == '"'
    ensures after[0] == '}' ==> ParseMembers(s) == Some((Member(key, v, NoMembers), after[1..]))
    ensures after[0] == ',' && ParseMembers(Skip(after[1..])).Some? ==>
      var (ms, rest) := ParseMembers(Skip(after[1..])).value; ParseMembers(s) == Some((Member(key, v, ms), rest))
  {
    MemberBack(key, gap, value, after);
  }

  lemma {:induction false} MembersBack(ms: Members, gap: string, y: string)
    requires ms.Member? && WellFormedMembers(ms) && Blank(gap)
    ensures var s := MembersText(ms, gap) + "}" + y; s != "" && s[0] == '"' && ParseMembers(s) == Some((ms, y))
    decreases ms, 1
  {
    var value := Text(ms.value, gap);
    var tail := if ms.rest.NoMembers? then "" else "," + gap + MembersText(ms.rest, gap);
    var after := tail + "}" + y;
    if ms.rest.NoMembers? {
      Head('}', y);
      assert after == ['}'] + y;
    } else {
      var rest := MembersText(ms.rest, gap) + "}" + y;
      MembersBack(ms.rest, gap, y);
      RestShape(gap, MembersText(ms.rest, gap), y);
      Head(',', gap + rest);
      SkipGap(gap, rest);
    }
    TextOpens(ms.value, gap);
    TextBack(ms.value, gap, after);
    MembersShape(ms.key, gap, value, tail, y);
    MemberStep(MembersText(ms, gap) + "}" + y, ms.key, value, ms.value, gap, after);
  }

  /** `loads(dumps(v)) == v`, in any style. */
  lemma RoundTrip(v: Json, gap: string)
    requires WellFormed(v) && Blank(gap)
    ensures Parse(Text(v, gap)) == Some(v)
  {
    TextBack(v, gap, "");
    TextOpens(v, gap);
    assert Text(v, gap) + "" == Text(v, gap);
  }

  // ---------------------------------------------------------------- what is read is well formed

  lemma {:induction false} ValueIsWellFormed(s: string)
    ensures ParseValue(s).Some? ==> WellFormed(ParseValue(s).value.0)
    decreases |s|, 0
  {
    if ParseValue(s).Some? {
      if s[0] == '"' {
        BodyScanned(s[1..]);
      } else if s[0] == '{' {
        MembersAreWellFormed(Skip(s[1..]));
      } else if s[0] == '[' {
        ItemsAreWellFormed(Skip(s[1..]));
      } else {
        ScalarIsWellFormed(s);
      }
    }
  }

  lemma ScalarIsWellFormed(s: string)
    ensures ParseScalar(s).Some? ==> WellFormed(ParseScalar(s).value.0)
  {
    if WordLength(s) > 0 {
      WordLocal(s, "");
      assert s[..WordLength(s)] + "" == s[..WordLength(s)];
    } else if NumberLength(s) > 0 {
      NumberLocal(s, "");
      assert s[..NumberLength(s)] + "" == s[..NumberLength(s)];
    }
  }

  lemma BodyScanned(s: string)
    ensures ScanString(s).Some? ==> StringBody(ScanString(s).value.0)
  {
    if ScanString(s).Some? {
      var (body, rest) := ScanString(s).value;
      ScanLocal(s, "");
      assert s == (body + "\"") + rest;
      assert Swap(s, rest, "") == body + "\"";
    }
  }

  lemma {:induction false} ItemsAreWellFormed(s: string)
    ensures ParseItems(s).Some? ==> WellFormedItems(ParseItems(s).value.0)
    decreases |s|, 1
  {
    if ParseItems(s).Some? {
      ValueIsWellFormed(s);
      var next := Skip(ParseValue(s).value.1);
      if next[0] == ',' {
        ItemsAreWellFormed(Skip(next[1..]));
      }
    }
  }

  lemma {:induction false} MembersAreWellFormed(s: string)
    ensures ParseMembers(s).Some? ==> WellFormedMembers(ParseMembers(s).value.0)
    decreases |s|, 1
  {
    if ParseMembers(s).Some? {
      BodyScanned(s[1..]);
      var start := Skip(Skip(ScanString(s[1..]).value.1)[1..]);
      ValueIsWellFormed(start);
      var next := Skip(ParseValue(start).value.1);
      if next[0] == ',' {
        MembersAreWellFormed(Skip(next[1..]));
      }
    }
  }

  /** Everything `loads` returns can be dumped in any style and loaded again unchanged. */
  lemma ReadWriteRead(t: string, gap: string)
    requires Parse(t).Some? && Blank(gap)
    ensures WellFormed(Parse(t).value) && Parse(Text(Parse(t).value, gap)) == Parse(t)
  {
    ValueIsWellFormed(Skip(t));
    RoundTrip(Parse(t).value, gap);
  }

  // ---------------------------------------------------------------- last characters

  /** The last character before the suffix `rest`. */
  predicate EndsIn(s: string, rest: string, c: char) {
    |rest| < |s| && s[|s| - |rest| - 1] == c
  }

  lemma EndOfSuffix(a: string, b: string, rest: string, c: char)
    requires IsSuffix(b, a) && EndsIn(b, rest, c)
    ensures EndsIn(a, rest, c)
  {
    assert a[|a| - |rest| - 1] == a[|a| - |b|..][|b| - |rest| - 1];
  }

  lemma {:induction false} ItemsClose(s: string)
    requires ParseItems(s).Some?
    ensures EndsIn(s, ParseItems(s).value.1, ']')
  {
    var after := ParseValue(s).value.1;
    var next := Skip(after);
    ValueSuffix(s);
    SkipSuffix(after);
    SuffixOfSuffix(next, after, s);
    if next[0] == ',' {
      NextSuffix(next);
      SuffixOfSuffix(Skip(next[1..]), next, s);
      ItemsClose(Skip(next[1..]));
      EndOfSuffix(s, Skip(next[1..]), ParseItems(s).value.1, ']');
    } else {
      EndOfSuffix(s, next, ParseItems(s).value.1, ']');
    }
  }

  lemma AfterMember(s: string) returns (next: string)
    requires ParseMembers(s).Some?
    ensures IsSuffix(next, s) && next != ""
    ensures var start := Skip(Skip(ScanString(s[1..]).value.1)[1..]); next == Skip(ParseValue(start).value.1)
  {
    var afterKey := ScanString(s[1..]).value.1;
    var colon := Skip(afterKey);
    var start := Skip(colon[1..]);
    var after := ParseValue(start).value.1;
    next := Skip(after);
    ScanSuffix(s[1..]);
    SuffixOfTail(afterKey, s, 1);
    SkipSuffix(afterKey);
    SuffixOfSuffix(colon, afterKey, s);
    NextSuffix(colon);
    SuffixOfSuffix(start, colon, s);
    ValueSuffix(start);
    SuffixOfSuffix(after, start, s);
    SkipSuffix(after);
    SuffixOfSuffix(next, after, s);
  }

  lemma {:induction false} MembersClose(s: string)
    requires ParseMembers(s).Some?
    ensures EndsIn(s, ParseMembers(s).value.1, '}')
  {
    var next := AfterMember(s);
    if next[0] == ',' {
      NextSuffix(next);
      SuffixOfSuffix(Skip(next[1..]), next, s);
      MembersClose(Skip(next[1..]));
      EndOfSuffix(s, Skip(next[1..]), ParseMembers(s).value.1, '}');
    } else {
      EndOfSuffix(s, next, ParseMembers(s).value.1, '}');
    }
  }

  /** A character that can end a value. */
  predicate Closes(c: char) {
    c == '"' || c == '}' || c == ']' || ClosesScalar(c)
  }

  predicate ClosesScalar(c: char) {
    IsDigit(c) || 'a' <= c <= 'z' || c == 'N'
  }

  lemma {:induction false} DigitsEnd(s: string)
    ensures Digits(s) > 0 ==> IsDigit(s[Digits(s) - 1])
  {
    if Digits(s) > 1 {
      DigitsEnd(s[1..]);
    }
  }

  lemma IntegerEnds(s: string)
    ensures IntegerLength(s) > 0 ==> IsDigit(s[IntegerLength(s) - 1])
  {
    DigitsEnd(s);
    if s != "" {
      DigitsEnd(s[1..]);
    }
  }

  lemma FractionEnds(s: string)
    ensures FractionLength(s) > 0 ==> IsDigit(s[FractionLength(s) - 1])
  {
    if s != "" {
      DigitsEnd(s[1..]);
    }
  }

  lemma ExponentEnds(s: string)
    ensures ExponentLength(s) > 0 ==> IsDigit(s[ExponentLength(s) - 1])
  {
    if s != "" {
      DigitsEnd(s[1..]);
      if |s| >= 2 {
        DigitsEnd(s[2..]);
      }
    }
  }

  lemma NumberEnds(s: string)
    requires NumberLength(s) > 0
    ensures IsDigit(s[NumberLength(s) - 1])
  {
    var i := IntegerLength(s);
    var b := s[i..];
    IntegerEnds(s);
    FractionEnds(b);
    ExponentEnds(b[FractionLength(b)..]);
  }

  lemma WordEnds(s: string)
    requires WordLength(s) > 0
    ensures var c := s[WordLength(s) - 1]; 'a' <= c <= 'z' || c == 'N'
  {
    var n := WordLength(s);
    assert s[n - 1] == s[..n][n - 1];
  }

  lemma ScalarEnds(s: string)
    requires ParseScalar(s).Some?
    ensures ClosesScalar(s[|s| - |ParseScalar(s).value.1| - 1])
  {
    if WordLength(s) > 0 {
      WordEnds(s);
    } else {
      NumberEnds(s);
    }
  }

  lemma ObjectCloses(s: string)
    requires s != "" && s[0] == '{' && ParseValue(s).Some?
    ensures EndsIn(s, ParseValue(s).value.1, '}')
  {
    var inner := Skip(s[1..]);
    NextSuffix(s);
    if inner[0] != '}' {
      MembersClose(inner);
    }
    EndOfSuffix(s, inner, ParseValue(s).value.1, '}');
  }

  lemma ArrayCloses(s: string)
    requires s != "" && s[0] == '[' && ParseValue(s).Some?
    ensures EndsIn(s, ParseValue(s).value.1, ']')
  {
    var inner := Skip(s[1..]);
    NextSuffix(s);
    if inner[0] != ']' {
      ItemsClose(inner);
    }
    EndOfSuffix(s, inner, ParseValue(s).value.1, ']');
  }

  lemma StringCloses(s: string)
    requires s != "" && s[0] == '"' && ParseValue(s).Some?
    ensures EndsIn(s, ParseValue(s).value.1, '"')
  {
  }

  /** Objects end in a brace, arrays in a bracket, and no value in a blank. */
  lemma ValueCloses(s: string)
    requires ParseValue(s).Some?
    ensures var rest := ParseValue(s).value.1;
      var c := s[|s| - |rest| - 1];
      Closes(c) && (s[0] == '{' <==> c == '}') && (s[0] == '[' <==> c == ']')
  {
    if s[0] == '"' {
      StringCloses(s);
    } else if s[0] == '{' {
      ObjectCloses(s);
    } else if s[0] == '[' {
      ArrayCloses(s);
    } else {
      ScalarEnds(s);
    }
  }
}
