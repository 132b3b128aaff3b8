/**
 Blanks between closing brackets do not matter, so the restoring of missing brackets does not depend
 on how the text is laid out.
 */
module JsonLayout {
  import opened Options
  import opened Json
  import opened JsonLocality
  import opened JsonTexts
  import opened JsonRepair
  import opened JsonCompletion

  /** Closing brackets of one kind and blanks. */
  predicate Closing(close: char, s: string) {
    forall i | 0 <= i < |s| :: IsBlank(s[i]) || s[i] == close
  }

  /** The same brackets without the blanks. */
  function Tight(close: char, s: string): string {
    Repeat(close, Count(close, s))
  }

  /** `s` ends in `tail` and then `y`, and what stands before is neither blank nor a closing bracket. */
  predicate Cut(close: char, s: string, tail: string, y: string) {
    && (close == '}' || close == ']') && Closing(close, tail)
    && IsSuffix(tail + y, s) && |tail + y| < |s|
    && var c := s[|s| - |tail + y| - 1]; !IsBlank(c) && c != close
  }

  /** A suffix that starts with another character starts before the tail or after it. */
  lemma OutsideTail(close: char, s: string, tail: string, y: string, u: string)
    requires Cut(close, s, tail, y) && IsSuffix(u, s) && |u| > |y|
    requires !IsBlank(u[0]) && u[0] != close
    ensures |u| > |tail + y| && Cut(close, u, tail, y)
  {
  }

  lemma {:induction false} SkipClosing(close: char, tail: string, y: string)
    requires tail != "" && Closing(close, tail) && (close == '}' || close == ']')
    requires Skip(tail + y) == [close] + y
    ensures Tight(close, tail) == [close]
    decreases |tail|
  {
    var rest := tail[1..];
    assert (tail + y)[1..] == rest + y;
    if IsBlank(tail[0]) {
      assert |Skip(rest + y)| <= |rest + y|;
      SkipClosing(close, rest, y);
    } else {
      assert |tail| == 1;
      assert tail == [close];
      CountOne(close, close, "");
      assert [close] + "" == [close];
    }
  }

  lemma TightSplit(close: char, a: string, b: string)
    ensures Tight(close, a + b) == Tight(close, a) + Tight(close, b)
  {
    CountAppend(close, a, b);
  }

  lemma PartOfTail(close: char, tail: string, y: string, n: nat)
    requires n < |tail| && Closing(close, tail) && (close == '}' || close == ']')
    requires Skip((tail + y)[n..]) == [close] + y
    ensures (tail + y)[n..] == tail[n..] + y && Tight(close, tail[n..]) == [close]
  {
    assert (tail + y)[n..] == tail[n..] + y;
    SkipClosing(close, tail[n..], y);
  }

  lemma AfterLength(s: string, z: string, after: string, y: string, close: char)
    requires IsSuffix(z, s) && |y| < |z| < |s| && !IsBlank(s[|s| - |z| - 1])
    requires IsSuffix(after, s) && Skip(after) == [close] + y
    ensures |y| < |after| <= |z| && after == z[|z| - |after|..]
  {
  }

  /** The text after the last value of a container is the part of the tail that holds one bracket. */
  lemma AfterLast(close: char, s: string, tail: string, y: string, after: string) returns (n: nat)
    requires Cut(close, s, tail, y) && tail != "" && IsSuffix(after, s) && Skip(after) == [close] + y
    ensures n < |tail| && after == tail[n..] + y && Tight(close, tail[n..]) == [close]
  {
    AfterLength(s, tail + y, after, y, close);
    n := |tail + y| - |after|;
    PartOfTail(close, tail, y, n);
  }

  lemma {:induction false} SkippedAreBlank(s: string, i: nat)
    requires i + |Skip(s)| < |s|
    ensures IsBlank(s[i])
  {
    if i > 0 {
      SkippedAreBlank(s[1..], i - 1);
    }
  }

  lemma SwapTwice(s: string, z: string, a: string, after: string, w: string)
    requires |z| <= |s|
    ensures Swap(Swap(s, z, a + after), after, w) == Swap(s, z, a + w)
  {
    assert s[..|s| - |z|] + (a + after) == s[..|s| - |z|] + a + after;
    assert s[..|s| - |z|] + (a + w) == s[..|s| - |z|] + a + w;
  }

  /** The last value of a container, closed without blanks. */
  lemma {:induction false} LastValue(close: char, s: string, tail: string, y: string)
    requires Cut(close, s, tail, y) && tail != "" && ParseValue(s).Some? && Skip(ParseValue(s).value.1) == [close] + y
    ensures ParseValue(Swap(s, tail + y, Tight(close, tail) + y)) == Some((ParseValue(s).value.0, [close] + y))
    decreases |s|, 3
  {
    var after := ParseValue(s).value.1;
    ValueSuffix(s);
    var n := AfterLast(close, s, tail, y, after);
    if n == 0 {
      assert tail[0..] == tail;
      ValueLocal(s, [close] + y);
    } else {
      InnerCut(close, s, tail, y, n);
      InnerValue(close, s, tail[..n], after, [close] + y);
      TightPlus(close, tail, n, y);
    }
  }

  lemma TightPlus(close: char, tail: string, n: nat, y: string)
    requires n < |tail| && Tight(close, tail[n..]) == [close]
    ensures Tight(close, tail) + y == Tight(close, tail[..n]) + ([close] + y)
  {
    TightSplit(close, tail[..n], tail[n..]);
    assert tail[..n] + tail[n..] == tail;
  }

  /** A value that ends inside the tail, with another text behind it. */
  lemma {:induction false} InnerValue(close: char, s: string, tail: string, after: string, w: string)
    requires Cut(close, s, tail, after) && tail != "" && ParseValue(s).Some? && ParseValue(s).value.1 == after
    requires w != "" && w[0] == close
    ensures ParseValue(Swap(s, tail + after, Tight(close, tail) + w)) == Some((ParseValue(s).value.0, w))
    decreases |s|, 2
  {
    ValueCloses(s);
    assert s[|s| - |after| - 1] == tail[|tail| - 1] by {
      assert s[|s| - |tail + after|..][|tail| - 1] == (tail + after)[|tail| - 1];
    }
    ValueTrim(close, s, tail, after);
    ValueLocal(Swap(s, tail + after, Tight(close, tail) + after), w);
    SwapTwice(s, tail + after, Tight(close, tail), after, w);
  }

  lemma InnerCut(close: char, s: string, tail: string, y: string, n: nat)
    requires Cut(close, s, tail, y) && n <= |tail|
    ensures tail[..n] + (tail[n..] + y) == tail + y && Cut(close, s, tail[..n], tail[n..] + y)
  {
    assert tail[..n] + (tail[n..] + y) == tail + y;
  }

  lemma PairOf(close: char, s: string)
    requires (close == '}' || close == ']') && ParseValue(s).Some?
    requires s[|s| - |ParseValue(s).value.1| - 1] == close
    ensures close == '}' ==> s[0] == '{' && ParseObject(Skip(s[1..])).Some?
    ensures close != '}' ==> s[0] == '[' && ParseArray(Skip(s[1..])).Some?
  {
    ValueCloses(s);
  }

  /** The empty container. */
  lemma EmptyTrim(close: char, s: string, tail: string, y: string)
    requires Cut(close, s, tail, y) && tail != "" && s != "" && Skip(s[1..]) == [close] + y
    ensures Swap(s, tail + y, Tight(close, tail) + y) == [s[0]] + ([close] + y)
  {
    var n := AfterLast(close, s, tail, y, s[1..]);
    assert n == 0 && tail[0..] == tail;
    assert s[..1] == [s[0]];
  }

  /** A value whose text ends in `tail` can be written with the blanks of `tail` left out. */
  lemma {:induction false} ValueTrim(close: char, s: string, tail: string, y: string)
    requires Cut(close, s, tail, y) && LastIs(tail, close)
    requires ParseValue(s).Some? && ParseValue(s).value.1 == y
    ensures ParseValue(Swap(s, tail + y, Tight(close, tail) + y)) == ParseValue(s)
    decreases |s|, 1
  {
    assert s[|s| - |y| - 1] == close by {
      assert s[|s| - |y| - 1] == s[|s| - |tail + y|..][|tail| - 1];
    }
    PairOf(close, s);
    if close == '}' {
      ObjectTrim(s, tail, y);
    } else {
      ArrayTrim(s, tail, y);
    }
  }

  lemma {:induction false} ObjectTrim(s: string, tail: string, y: string)
    requires Cut('}', s, tail, y) && tail != ""
    requires s[0] == '{' && ParseValue(s).Some? && ParseValue(s).value.1 == y
    ensures ParseValue(Swap(s, tail + y, Tight('}', tail) + y)) == ParseValue(s)
    decreases |s|, 0
  {
    var inner := Skip(s[1..]);
    NextSuffix(s);
    if inner[0] == '}' {
      assert inner == ['}'] + y;
      EmptyTrim('}', s, tail, y);
      Head('{', ['}'] + y);
      Head('}', y);
    } else {
      OutsideTail('}', s, tail, y, inner);
      NextLocal(s, tail + y, Tight('}', tail) + y);
      MembersTrim(inner, tail, y);
      SwapTail(inner, tail + y, Tight('}', tail) + y, 0);
    }
  }

  lemma {:induction false} ArrayTrim(s: string, tail: string, y: string)
    requires Cut(']', s, tail, y) && tail != ""
    requires s[0] == '[' && ParseValue(s).Some? && ParseValue(s).value.1 == y
    ensures ParseValue(Swap(s, tail + y, Tight(']', tail) + y)) == ParseValue(s)
    decreases |s|, 0
  {
    var inner := Skip(s[1..]);
    NextSuffix(s);
    if inner[0] == ']' {
      assert inner == [']'] + y;
      EmptyTrim(']', s, tail, y);
      Head('[', [']'] + y);
      Head(']', y);
    } else {
      OutsideTail(']', s, tail, y, inner);
      NextLocal(s, tail + y, Tight(']', tail) + y);
      ItemsTrim(inner, tail, y);
      SwapTail(inner, tail + y, Tight(']', tail) + y, 0);
    }
  }

  /** A value before a comma that stands before the tail. */
  lemma BeforeComma(s: string, z: string, z': string)
    requires ParseValue(s).Some?
    requires var next := Skip(ParseValue(s).value.1); next != "" && next[0] == ',' && |z| < |Skip(next[1..])|
    ensures var (v, after) := ParseValue(s).value;
      && ParseValue(Swap(s, z, z')) == Some((v, Swap(after, z, z')))
      && var n := Skip(Swap(after, z, z'));
         n != "" && n[0] == ',' && Skip(n[1..]) == Swap(Skip(Skip(after)[1..]), z, z')
  {
    var after := ParseValue(s).value.1;
    ValueSuffix(s);
    ListLocal(after, z, z');
    SwapVia(s, after, z, z');
    ValueLocal(s, Swap(after, z, z'));
    SkipLocal(Skip(after)[1..], z, z');
  }

  /** What follows the comma after a value. */
  lemma AfterComma(s: string)
    requires ParseValue(s).Some?
    ensures var next := Skip(ParseValue(s).value.1);
      IsSuffix(next, s) && (next != "" ==> IsSuffix(Skip(next[1..]), s))
  {
    var after := ParseValue(s).value.1;
    var next := Skip(after);
    ValueSuffix(s);
    SkipSuffix(after);
    SuffixOfSuffix(next, after, s);
    if next != "" {
      NextSuffix(next);
      SuffixOfSuffix(Skip(next[1..]), next, s);
    }
  }

  lemma {:induction false} ItemsTrim(s: string, tail: string, y: string)
    requires Cut(']', s, tail, y) && tail != "" && ParseItems(s).Some? && ParseItems(s).value.1 == y
    ensures ParseItems(Swap(s, tail + y, Tight(']', tail) + y)) == ParseItems(s)
    decreases |s|, 4
  {
    var next := Skip(ParseValue(s).value.1);
    AfterComma(s);
    if next[0] == ',' {
      var more := Skip(next[1..]);
      ValueOpens(more);
      OutsideTail(']', s, tail, y, more);
      BeforeComma(s, tail + y, Tight(']', tail) + y);
      ItemsTrim(more, tail, y);
    } else {
      assert next == [']'] + y;
      LastValue(']', s, tail, y);
      Head(']', y);
    }
  }

  /** Key and colon in front of a value that starts before the tail. */
  lemma MemberFront(s: string, z: string, z': string)
    requires s != "" && s[0] == '"' && ScanString(s[1..]).Some?
    requires var colon := Skip(ScanString(s[1..]).value.1); colon != "" && |z| < |Skip(colon[1..])|
    ensures var t := Swap(s, z, z');
      var (key, afterKey) := ScanString(s[1..]).value;
      var colon := Skip(afterKey);
      && t != "" && t[0] == '"' && ScanString(t[1..]) == Some((key, Swap(afterKey, z, z')))
      && var c := Skip(Swap(afterKey, z, z'));
         c != "" && c[0] == colon[0] && Skip(c[1..]) == Swap(Skip(colon[1..]), z, z')
  {
    var afterKey := ScanString(s[1..]).value.1;
    var colon := Skip(afterKey);
    SwapTail(s, z, z', 0);
    SwapTail(s, z, z', 1);
    ScanSuffix(s[1..]);
    SwapVia(s[1..], afterKey, z, z');
    ScanLocal(s[1..], Swap(afterKey, z, z'));
    SkipLocal(afterKey, z, z');
    NextLocal(colon, z, z');
  }

  lemma StartOfMember(s: string) returns (start: string)
    requires ParseMembers(s).Some?
    ensures start == Skip(Skip(ScanString(s[1..]).value.1)[1..]) && IsSuffix(start, s) && ParseValue(start).Some?
  {
    var afterKey := ScanString(s[1..]).value.1;
    var colon := Skip(afterKey);
    start := Skip(colon[1..]);
    ScanSuffix(s[1..]);
    SuffixOfTail(afterKey, s, 1);
    SkipSuffix(afterKey);
    SuffixOfSuffix(colon, afterKey, s);
    NextSuffix(colon);
    SuffixOfSuffix(start, colon, s);
  }

  /** The first value and what follows it, once the rest of the members is done. */
  lemma {:induction false} FirstMember(start: string, tail: string, y: string)
    requires Cut('}', start, tail, y) && tail != "" && ParseValue(start).Some?
    requires var next := Skip(ParseValue(start).value.1);
      next == ['}'] + y
      || (next != "" && next[0] == ',' && ParseMembers(Skip(next[1..])).Some?
          && ParseMembers(Skip(next[1..])).value.1 == y)
    ensures var next := Skip(ParseValue(start).value.1);
      var r := ParseValue(Swap(start, tail + y, Tight('}', tail) + y));
      && r.Some? && r.value.0 == ParseValue(start).value.0
      && var n := Skip(r.value.1);
         n != "" && n[0] == next[0] &&
         if next[0] == ',' then ParseMembers(Skip(n[1..])) == ParseMembers(Skip(next[1..])) else n == next
    decreases |start|, 5
  {
    var next := Skip(ParseValue(start).value.1);
    AfterComma(start);
    if next[0] == ',' {
      var more := Skip(next[1..]);
      OutsideTail('}', start, tail, y, more);
      BeforeComma(start, tail + y, Tight('}', tail) + y);
      MembersTrim(more, tail, y);
    } else {
      LastValue('}', start, tail, y);
      Head('}', y);
    }
  }

  /** Key and value of a first member, and the text behind the value. */
  predicate StartsMember(s: string, key: string, v: Json, after: string) {
    && s != "" && s[0] == '"' && ScanString(s[1..]).Some? && ScanString(s[1..]).value.0 == key
    && var colon := Skip(ScanString(s[1..]).value.1);
       colon != "" && colon[0] == ':' && ParseValue(Skip(colon[1..])) == Some((v, after))
  }

  /** The members go on in the same way. */
  predicate GoOnAlike(after: string, after': string) {
    var next, next' := Skip(after), Skip(after');
    && next != "" && next' != "" && next'[0] == next[0]
    && if next[0] == ',' then ParseMembers(Skip(next'[1..])) == ParseMembers(Skip(next[1..])) else next' == next
  }

  lemma SameMember(s: string, t: string, key: string, v: Json, after: string, after': string)
    ensures
      (StartsMember(s, key, v, after) && StartsMember(t, key, v, after') && GoOnAlike(after, after')
       && ParseMembers(s).Some?)
      ==> ParseMembers(t) == ParseMembers(s)
  {
    if StartsMember(s, key, v, after) && StartsMember(t, key, v, after') {
      MemberParsed(s);
      MemberParsed(t);
    }
  }

  lemma {:induction false} MembersTrim(s: string, tail: string, y: string)
    requires Cut('}', s, tail, y) && tail != "" && ParseMembers(s).Some? && ParseMembers(s).value.1 == y
    ensures ParseMembers(Swap(s, tail + y, Tight('}', tail) + y)) == ParseMembers(s)
    decreases |s|, 4
  {
    var z, z' := tail + y, Tight('}', tail) + y;
    var start := StartOfMember(s);
    var (v, after) := ParseValue(start).value;
    ValueOpens(start);
    OutsideTail('}', s, tail, y, start);
    MemberFront(s, z, z');
    LastOrMore(s, start);
    FirstMember(start, tail, y);
    SameMember(s, Swap(s, z, z'), ScanString(s[1..]).value.0, v, after, ParseValue(Swap(start, z, z')).value.1);
  }

  lemma LastOrMore(s: string, start: string)
    requires ParseMembers(s).Some? && start == Skip(Skip(ScanString(s[1..]).value.1)[1..])
    ensures ParseValue(start).Some?
    ensures var next := Skip(ParseValue(start).value.1);
      var y := ParseMembers(s).value.1;
      && next != "" && (next[0] == ',' || next[0] == '}')
      && (next[0] == ',' ==> ParseMembers(Skip(next[1..])).Some? && ParseMembers(Skip(next[1..])).value.1 == y)
      && (next[0] == '}' ==> next == ['}'] + y)
  {
  }

  /** ParseMembers by its parts. */
  lemma MemberParsed(t: string)
    requires t != "" && t[0] == '"' && ScanString(t[1..]).Some?
    requires var colon := Skip(ScanString(t[1..]).value.1);
      colon != "" && colon[0] == ':' && ParseValue(Skip(colon[1..])).Some?
    ensures var (key, afterKey) := ScanString(t[1..]).value;
      var (v, after) := ParseValue(Skip(Skip(afterKey)[1..])).value;
      var next := Skip(after);
      && (next != "" && next[0] == '}' ==> ParseMembers(t) == Some((Member(key, v, NoMembers), next[1..])))
      && (next != "" && next[0] == ',' && ParseMembers(Skip(next[1..])).Some? ==>
            var (ms, rest) := ParseMembers(Skip(next[1..])).value; ParseMembers(t) == Some((Member(key, v, ms), rest)))
  {
  }

  // ---------------------------------------------------------------- the repair, whatever the layout

  lemma EndsWithValue(t: string)
    requires Parse(t).Some? && t != "" && Opens(t[0]) && !IsBlank(t[|t| - 1])
    ensures ParseValue(t) == Some((Parse(t).value, ""))
  {
    OpensIsNoSpace(t[0]);
    var rest := ParseValue(t).value.1;
    ValueSuffix(t);
    AllBlank(rest);
    if rest != "" {
      LastOfSuffix(t, rest);
    }
  }

  lemma TrimmedText(close: char, p: string, tail: string)
    requires Cut(close, p + tail, tail, "") && LastIs(tail, close)
    requires p != "" && Opens(p[0]) && Parse(p + tail).Some?
    ensures Parse(p + Tight(close, tail)) == Parse(p + tail)
  {
    EndsWithValue(p + tail);
    ValueTrim(close, p + tail, tail, "");
    assert tail + "" == tail && Tight(close, tail) + "" == Tight(close, tail);
    assert Swap(p + tail, tail, Tight(close, tail)) == p + Tight(close, tail);
  }

  /** A cut-off tail: nothing but blanks, or blanks after its last bracket. */
  lemma {:induction false} LastBracket(close: char, s: string) returns (a: string, b: string)
    requires Closing(close, s)
    ensures s == a + b && Blank(b) && (a == "" || LastIs(a, close)) && (a == "" <==> Count(close, s) == 0)
  {
    if s == "" || s[|s| - 1] == close {
      a, b := s, "";
      if s != "" {
        CountLast(close, s[..|s| - 1], close);
        assert s[..|s| - 1] + [close] == s;
      }
    } else {
      var front, last := s[..|s| - 1], s[|s| - 1];
      a, b := LastBracket(close, front);
      CountLast(close, front, last);
      assert front + [last] == s;
      b := b + [last];
    }
  }

  lemma StripsTo(content: string, s: string, gap: string)
    requires content == s + gap && Blank(gap) && s != "" && !IsSpace(s[0]) && !IsSpace(s[|s| - 1])
    ensures QuickRepair(content) == QuickRepair(s)
  {
    StripStops("", s, gap);
    assert "" + s + gap == content;
  }

  lemma {:induction false} NoOpening(open: char, close: char, s: string)
    requires Pair(open, close) && Closing(close, s)
    ensures Count(open, s) == 0
  {
    if s != "" {
      NoOpening(open, close, s[1..]);
    }
  }

  lemma SameBalance(open: char, close: char, p: string, tail: string)
    requires Pair(open, close) && Closing(close, tail)
    ensures Count(open, p + tail) == Count(open, p + Tight(close, tail))
    ensures Count(close, p + tail) == Count(close, p + Tight(close, tail))
  {
    CountAppend(open, p, tail);
    CountAppend(close, p, tail);
    CountAppend(open, p, Tight(close, tail));
    CountAppend(close, p, Tight(close, tail));
    CountRepeat(open, close, Count(close, tail));
    CountRepeat(close, close, Count(close, tail));
    NoOpening(open, close, tail);
  }

  /**
   The text t = p + tail of any JSON object or array, `tail` being its last closing brackets of its own
   kind with any blanks between them, is cut somewhere in `tail`. The repair gives the value of t back
   exactly when no bracket of `tail` is left and t has as many opening brackets as closing ones, those
   inside strings included; otherwise it gives nothing.
   */
  lemma MissingBracketsInAnyLayout(open: char, close: char, p: string, tail: string, m: nat)
    requires Pair(open, close) && FirstIs(p, open) && Bare(p, close)
    requires Closing(close, tail) && LastIs(tail, close) && Parse(p + tail).Some? && m < |tail|
    ensures var t := p + tail;
      QuickRepair(p + tail[..m]) ==
      if Count(close, tail[..m]) == 0 && Count(open, t) == Count(close, t) then Parse(t) else None
  {
    var a, b := LastBracket(close, tail[..m]);
    assert tail == a + b + tail[m..];
    if a == "" {
      assert p + tail[..m] == p + b;
      StripsTo(p + tail[..m], p, b);
      WholeTailMissing(open, close, p, tail);
    } else {
      assert p + tail == (p + a) + (b + tail[m..]);
      assert p + tail[..m] == (p + a) + b;
      SomeBracketLeft(open, close, p + a, b, tail[m..]);
    }
  }

  lemma SomeBracketLeft(open: char, close: char, q: string, b: string, rest: string)
    requires Pair(open, close) && FirstIs(q, open) && LastIs(q, close) && Blank(b)
    requires LastIs(rest, close) && Parse(q + (b + rest)).Some?
    ensures QuickRepair(q + b) == None
  {
    NoProperPrefix(q + (b + rest), |q|);
    CutText(open, close, q);
    StripsTo(q + b, q, b);
  }

  lemma WholeTailMissing(open: char, close: char, p: string, tail: string)
    requires Pair(open, close) && FirstIs(p, open) && Bare(p, close)
    requires Closing(close, tail) && LastIs(tail, close) && Parse(p + tail).Some?
    ensures var t := p + tail;
      QuickRepair(p) == if Count(open, t) == Count(close, t) then Parse(t) else None
  {
    var k := Count(close, tail);
    CountLast(close, tail[..|tail| - 1], close);
    assert tail[..|tail| - 1] + [close] == tail;
    assert tail + "" == tail;
    TrimmedText(close, p, tail);
    SameBalance(open, close, p, tail);
    MissingBrackets(open, close, p, k, 0);
    assert p + Repeat(close, 0) == p;
  }
}
