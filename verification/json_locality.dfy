/**
 Parsing looks only at the characters of the value it reads, and for a number at the one after it:
 what follows a value can be exchanged for anything else.
 */
module JsonLocality {
  import opened Options
  import opened Json

  /** `s` with its suffix `rest` exchanged for `y`. */
  function Swap(s: string, rest: string, y: string): string
    requires |rest| <= |s|
  {
    s[..|s| - |rest|] + y
  }

  // ---------------------------------------------------------------- suffixes

  lemma SuffixOfTail(rest: string, s: string, k: nat)
    requires k <= |s| && IsSuffix(rest, s[k..])
    ensures IsSuffix(rest, s)
  {
    assert s[k..][|s| - k - |rest|..] == s[|s| - |rest|..];
  }

  lemma SuffixOfSuffix(c: string, b: string, a: string)
    requires IsSuffix(c, b) && IsSuffix(b, a)
    ensures IsSuffix(c, a)
  {
    SuffixOfTail(c, a, |a| - |b|);
  }

  lemma {:induction false} SkipSuffix(s: string)
    ensures IsSuffix(Skip(s), s)
  {
    if s != "" && IsBlank(s[0]) {
      SkipSuffix(s[1..]);
      SuffixOfTail(Skip(s), s, 1);
    }
  }

  lemma ScanSuffix(s: string)
    ensures var r := ScanString(s); r.Some? ==> IsSuffix(r.value.1, s)
  {
    var r := ScanString(s);
    if r.Some? {
      assert s == (r.value.0 + "\"") + r.value.1;
    }
  }

  /** Skipping blanks after dropping one character. */
  lemma NextSuffix(s: string)
    requires s != ""
    ensures IsSuffix(Skip(s[1..]), s)
  {
    SkipSuffix(s[1..]);
    SuffixOfTail(Skip(s[1..]), s, 1);
  }

  lemma {:induction false} ValueSuffix(s: string)
    ensures var r := ParseValue(s); r.Some? ==> IsSuffix(r.value.1, s)
    decreases |s|, 0
  {
    if ParseValue(s).Some? {
      if s[0] == '"' {
        ScanSuffix(s[1..]);
        SuffixOfTail(ParseValue(s).value.1, s, 1);
      } else if s[0] == '{' {
        ObjectSuffix(Skip(s[1..]));
        NextSuffix(s);
        SuffixOfSuffix(ParseValue(s).value.1, Skip(s[1..]), s);
      } else if s[0] == '[' {
        ArraySuffix(Skip(s[1..]));
        NextSuffix(s);
        SuffixOfSuffix(ParseValue(s).value.1, Skip(s[1..]), s);
      }
    }
  }

  lemma {:induction false} ArraySuffix(s: string)
    ensures var r := ParseArray(s); r.Some? ==> IsSuffix(r.value.1, s)
    decreases |s|, 2
  {
    if !(s != "" && s[0] == ']') {
      ItemsSuffix(s);
    }
  }

  lemma {:induction false} ObjectSuffix(s: string)
    ensures var r := ParseObject(s); r.Some? ==> IsSuffix(r.value.1, s)
    decreases |s|, 2
  {
    if !(s != "" && s[0] == '}') {
      MembersSuffix(s);
    }
  }

  lemma {:induction false} ItemsSuffix(s: string)
    ensures var r := ParseItems(s); r.Some? ==> IsSuffix(r.value.1, s)
    decreases |s|, 1
  {
    if ParseItems(s).Some? {
      ValueSuffix(s);
      TailSuffix(s, ParseValue(s).value.1, ParseItems(s).value.1) by {
        var next := Skip(ParseValue(s).value.1);
        if next[0] == ',' {
          ItemsSuffix(Skip(next[1..]));
        }
      }
    }
  }

  /** After a value: blanks, then the closing character or a comma and the rest of the list. */
  lemma TailSuffix(s: string, after: string, rest: string)
    requires IsSuffix(after, s)
    requires var next := Skip(after);
      next != "" && (rest == next[1..] || IsSuffix(rest, Skip(next[1..])))
    ensures IsSuffix(rest, s)
  {
    var next := Skip(after);
    SkipSuffix(after);
    SuffixOfSuffix(next, after, s);
    if rest == next[1..] {
      assert IsSuffix(rest, next);
    } else {
      NextSuffix(next);
      SuffixOfSuffix(rest, Skip(next[1..]), next);
    }
    SuffixOfSuffix(rest, next, s);
  }

  lemma {:induction false} MembersSuffix(s: string)
    ensures var r := ParseMembers(s); r.Some? ==> IsSuffix(r.value.1, s)
    decreases |s|, 1
  {
    if ParseMembers(s).Some? {
      var afterKey := ScanString(s[1..]).value.1;
      var colon := Skip(afterKey);
      var start := Skip(colon[1..]);
      var after := ParseValue(start).value.1;
      ScanSuffix(s[1..]);
      SuffixOfTail(afterKey, s, 1);
      SkipSuffix(afterKey);
      SuffixOfSuffix(colon, afterKey, s);
      NextSuffix(colon);
      SuffixOfSuffix(start, colon, s);
      ValueSuffix(start);
      SuffixOfSuffix(after, start, s);
      var next := Skip(after);
      if next[0] == ',' {
        MembersSuffix(Skip(next[1..]));
      }
      TailSuffix(s, after, ParseMembers(s).value.1);
    }
  }

  // ---------------------------------------------------------------- exchanging a suffix

  lemma SwapTail(s: string, rest: string, y: string, k: nat)
    requires k + |rest| <= |s|
    ensures Swap(s, rest, y)[k..] == Swap(s[k..], rest, y)
    ensures k + |rest| < |s| ==> Swap(s, rest, y)[k] == s[k]
  {
  }

  lemma SwapVia(a: string, b: string, rest: string, y: string)
    requires IsSuffix(b, a) && |rest| <= |b|
    ensures Swap(a, rest, y) == Swap(a, b, Swap(b, rest, y))
  {
    assert a == a[..|a| - |b|] + b;
  }

  lemma {:induction false} SkipLocal(s: string, rest: string, y: string)
    requires |rest| < |Skip(s)|
    ensures Skip(Swap(s, rest, y)) == Swap(Skip(s), rest, y)
  {
    SwapTail(s, rest, y, 0);
    if IsBlank(s[0]) {
      SwapTail(s, rest, y, 1);
      SkipLocal(s[1..], rest, y);
    }
  }

  /** One character and the blanks after it stay when the suffix beyond them is exchanged. */
  lemma NextLocal(s: string, rest: string, y: string)
    requires s != "" && |rest| < |Skip(s[1..])|
    ensures var t := Swap(s, rest, y); t != "" && t[0] == s[0] && Skip(t[1..]) == Swap(Skip(s[1..]), rest, y)
  {
    SwapTail(s, rest, y, 0);
    SwapTail(s, rest, y, 1);
    SkipLocal(s[1..], rest, y);
  }

  // ---------------------------------------------------------------- lexemes

  lemma ChunkLocal(s: string, t: string)
    requires var n := ChunkLength(s); n > 0 && n <= |t| && t[..n] == s[..n]
    ensures ChunkLength(t) == ChunkLength(s)
  {
    var n := ChunkLength(s);
    assert forall i | 0 <= i < n :: s[i] == s[..n][i] && t[i] == t[..n][i];
  }

  lemma {:induction false} ScanLocal(s: string, y: string)
    requires ScanString(s).Some?
    ensures var (body, rest) := ScanString(s).value; ScanString(Swap(s, rest, y)) == Some((body, y))
    decreases |s|
  {
    var rest := ScanString(s).value.1;
    SwapTail(s, rest, y, 0);
    if s[0] != '"' {
      var n := ChunkLength(s);
      SwapTail(s, rest, y, n);
      ChunkLocal(s, Swap(s, rest, y));
      ScanLocal(s[n..], y);
    }
  }

  lemma FirstOf(s: string, w: string)
    requires w != "" && StartsWith(s, w)
    ensures s[0] == w[0]
  {
    assert s[0] == s[..|w|][0];
  }

  /** Which word starts here is decided by the first character. */
  lemma WordByFirst(s: string)
    requires s != ""
    ensures StartsWith(s, "null") ==> s[0] == 'n'
    ensures StartsWith(s, "true") ==> s[0] == 't'
    ensures StartsWith(s, "false") ==> s[0] == 'f'
    ensures StartsWith(s, "NaN") ==> s[0] == 'N'
    ensures StartsWith(s, "Infinity") ==> s[0] == 'I'
    ensures StartsWith(s, "-Infinity") ==> s[0] == '-' && s[1] == 'I'
  {
    if StartsWith(s, "-Infinity") {
      assert s[1] == s[..9][1];
    }
    assert forall n | 0 < n <= |s| :: s[..n][0] == s[0];
  }

  lemma WordLocal(s: string, y: string)
    requires WordLength(s) > 0
    ensures WordLength(s[..WordLength(s)] + y) == WordLength(s)
  {
    var n := WordLength(s);
    var t := s[..n] + y;
    WordByFirst(s);
    WordByFirst(t);
    assert t[0] == s[0];
    assert t[..n] == s[..n];
  }

  predicate NoDigit(y: string) {
    y == "" || !IsDigit(y[0])
  }

  /** Text that cannot continue a number. */
  predicate Separates(y: string) {
    y == "" || !Continues(y[0])
  }

  predicate Continues(c: char) {
    IsDigit(c) || c == '.' || c == 'e' || c == 'E'
  }

  lemma {:induction false} DigitsLocal(s: string, y: string)
    requires NoDigit(y)
    ensures Digits(s[..Digits(s)] + y) == Digits(s)
  {
    var n := Digits(s);
    if n > 0 {
      DigitsLocal(s[1..], y);
      assert (s[..n] + y)[1..] == s[1..][..n - 1] + y;
    } else {
      assert s[..0] + y == y;
    }
  }

  lemma NaturalLocal(s: string, y: string)
    requires NaturalLength(s) > 0 && NoDigit(y)
    ensures NaturalLength(s[..NaturalLength(s)] + y) == NaturalLength(s)
  {
    DigitsLocal(s, y);
  }

  lemma IntegerLocal(s: string, y: string)
    requires IntegerLength(s) > 0 && NoDigit(y)
    ensures IntegerLength(s[..IntegerLength(s)] + y) == IntegerLength(s)
  {
    var n := IntegerLength(s);
    if s[0] == '-' {
      NaturalLocal(s[1..], y);
      assert (s[..n] + y)[1..] == s[1..][..n - 1] + y;
    } else {
      NaturalLocal(s, y);
    }
  }

  lemma FractionLocal(s: string, y: string)
    requires FractionLength(s) > 0 && NoDigit(y)
    ensures FractionLength(s[..FractionLength(s)] + y) == FractionLength(s)
  {
    var n := FractionLength(s);
    DigitsLocal(s[1..], y);
    assert (s[..n] + y)[1..] == s[1..][..n - 1] + y;
  }

  lemma ExponentLocal(s: string, y: string)
    requires ExponentLength(s) > 0 && NoDigit(y)
    ensures ExponentLength(s[..ExponentLength(s)] + y) == ExponentLength(s)
  {
    var n := ExponentLength(s);
    var t := s[..n] + y;
    var sign := if |s| >= 2 && s[1] in "+-" then 1 else 0;
    DigitsLocal(s[1 + sign..], y);
    assert t[1 + sign..] == s[1 + sign..][..n - 1 - sign] + y;
    assert t[0] == s[0] && t[1] == s[1];
  }

  /** Exponent, or nothing, after the fraction. */
  lemma ExponentEnd(s: string, y: string)
    requires Separates(y)
    ensures var t := s[..ExponentLength(s)] + y;
      ExponentLength(t) == ExponentLength(s) && NoDigit(t) && (t != "" ==> t[0] != '.')
  {
    if ExponentLength(s) > 0 {
      ExponentLocal(s, y);
    } else {
      assert s[..0] + y == y;
    }
  }

  lemma DecimalsLocal(s: string, y: string)
    requires Separates(y)
    ensures var t := s[..DecimalsLength(s)] + y; NoDigit(t) && DecimalsLength(t) == DecimalsLength(s)
  {
    var f := FractionLength(s);
    var a, b := s[..f], s[f..];
    var e := ExponentLength(b);
    var tail := b[..e] + y;
    ExponentEnd(b, y);
    if f > 0 {
      FractionLocal(s, tail);
    } else {
      assert a + tail == tail;
    }
    Regroup(s, f, e, y);
  }

  lemma NumberLocal(s: string, y: string)
    requires NumberLength(s) > 0 && Separates(y)
    ensures NumberLength(s[..NumberLength(s)] + y) == NumberLength(s)
  {
    var i := IntegerLength(s);
    var a, b := s[..i], s[i..];
    var d := DecimalsLength(b);
    DecimalsLocal(b, y);
    IntegerLocal(s, b[..d] + y);
    Regroup(s, i, d, y);
  }

  lemma Regroup(s: string, i: nat, d: nat, y: string)
    requires i + d <= |s|
    ensures s[..i + d] + y == s[..i] + (s[i..][..d] + y)
  {
  }

  lemma NumberIsNoWord(s: string, y: string)
    requires NumberLength(s) > 0 && Separates(y)
    ensures WordLength(s[..NumberLength(s)] + y) == 0
  {
    var t := s[..NumberLength(s)] + y;
    NumberLocal(s, y);
    WordByFirst(t);
    assert t[0] == '-' ==> IsDigit(t[1..][0]);
  }

  lemma WordScalarLocal(s: string, y: string)
    requires WordLength(s) > 0
    ensures var w := s[..WordLength(s)]; ParseScalar(w + y) == Some((Lit(w), y))
  {
    WordLocal(s, y);
  }

  lemma NumberScalarLocal(s: string, y: string)
    requires NumberLength(s) > 0 && Separates(y)
    ensures var n := s[..NumberLength(s)]; ParseScalar(n + y) == Some((Num(n), y))
  {
    NumberLocal(s, y);
    NumberIsNoWord(s, y);
  }

  lemma ScalarLocal(s: string, y: string)
    requires ParseScalar(s).Some? && (ParseScalar(s).value.0.Num? ==> Separates(y))
    ensures var (v, rest) := ParseScalar(s).value; ParseScalar(Swap(s, rest, y)) == Some((v, y))
  {
    if ParseScalar(s).value.0.Lit? {
      WordScalarLocal(s, y);
    } else {
      NumberScalarLocal(s, y);
    }
  }

  // ---------------------------------------------------------------- values

  lemma {:induction false} ValueLocal(s: string, y: string)
    requires ParseValue(s).Some? && (ParseValue(s).value.0.Num? ==> Separates(y))
    ensures var (v, rest) := ParseValue(s).value; ParseValue(Swap(s, rest, y)) == Some((v, y))
    decreases |s|, 0
  {
    var rest := ParseValue(s).value.1;
    SwapTail(s, rest, y, 0);
    if s[0] == '"' {
      SwapTail(s, rest, y, 1);
      ScanLocal(s[1..], y);
    } else if s[0] == '{' {
      NextLocal(s, rest, y);
      ObjectLocal(Skip(s[1..]), y);
    } else if s[0] == '[' {
      NextLocal(s, rest, y);
      ArrayLocal(Skip(s[1..]), y);
    } else {
      ScalarLocal(s, y);
    }
  }

  lemma {:induction false} ArrayLocal(s: string, y: string)
    requires ParseArray(s).Some?
    ensures var (vs, rest) := ParseArray(s).value; ParseArray(Swap(s, rest, y)) == Some((vs, y))
    decreases |s|, 2
  {
    SwapTail(s, ParseArray(s).value.1, y, 0);
    if s[0] == ']' {
      SwapTail(s, s[1..], y, 1);
    } else {
      ItemsLocal(s, y);
    }
  }

  lemma {:induction false} ObjectLocal(s: string, y: string)
    requires ParseObject(s).Some?
    ensures var (ms, rest) := ParseObject(s).value; ParseObject(Swap(s, rest, y)) == Some((ms, y))
    decreases |s|, 2
  {
    SwapTail(s, ParseObject(s).value.1, y, 0);
    if s[0] == '}' {
      SwapTail(s, s[1..], y, 1);
    } else {
      MembersLocal(s, y);
    }
  }

  /** What stands after a value inside an array or object separates it from what came before. */
  lemma ListLocal(after: string, rest: string, y: string)
    requires |rest| < |Skip(after)| && !Continues(Skip(after)[0])
    ensures var next := Skip(Swap(after, rest, y));
      && Separates(Swap(after, rest, y)) && next == Swap(Skip(after), rest, y)
      && next != "" && next[0] == Skip(after)[0]
      && next[1..] == Swap(Skip(after)[1..], rest, y)
  {
    SkipLocal(after, rest, y);
    SwapTail(after, rest, y, 0);
    SwapTail(Skip(after), rest, y, 0);
    SwapTail(Skip(after), rest, y, 1);
  }

  lemma {:induction false} ItemsLocal(s: string, y: string)
    requires ParseItems(s).Some?
    ensures var (vs, rest) := ParseItems(s).value; ParseItems(Swap(s, rest, y)) == Some((vs, y))
    decreases |s|, 1
  {
    var rest := ParseItems(s).value.1;
    var after := ParseValue(s).value.1;
    var next := Skip(after);
    ListLocal(after, rest, y);
    ValueSuffix(s);
    SwapVia(s, after, rest, y);
    ValueLocal(s, Swap(after, rest, y));
    if next[0] == ',' {
      SkipLocal(next[1..], rest, y);
      ItemsLocal(Skip(next[1..]), y);
    }
  }

  lemma {:induction false} MembersLocal(s: string, y: string)
    requires ParseMembers(s).Some?
    ensures var (ms, rest) := ParseMembers(s).value; ParseMembers(Swap(s, rest, y)) == Some((ms, y))
    decreases |s|, 1
  {
    var rest := ParseMembers(s).value.1;
    var afterKey := ScanString(s[1..]).value.1;
    var colon := Skip(afterKey);
    var start := Skip(colon[1..]);
    var after := ParseValue(start).value.1;
    var next := Skip(after);
    SwapTail(s, rest, y, 0);
    SwapTail(s, rest, y, 1);
    ScanSuffix(s[1..]);
    SwapVia(s[1..], afterKey, rest, y);
    ScanLocal(s[1..], Swap(afterKey, rest, y));
    SkipLocal(afterKey, rest, y);
    NextLocal(colon, rest, y);
    ListLocal(after, rest, y);
    ValueSuffix(start);
    SwapVia(start, after, rest, y);
    ValueLocal(start, Swap(after, rest, y));
    if next[0] == ',' {
      SkipLocal(next[1..], rest, y);
      MembersLocal(Skip(next[1..]), y);
    }
  }
}
