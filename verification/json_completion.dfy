/**
 Which truncated texts the bracket completion restores: exactly those that lack their whole trailing
 run of closing brackets and contain as many opening as closing ones.
 */
module JsonCompletion {
  import opened Options
  import opened Json
  import opened JsonLocality
  import opened JsonTexts
  import opened JsonRepair

  /** The bracket pairs the repair knows. */
  predicate Pair(open: char, close: char) {
    (open == '{' && close == '}') || (open == '[' && close == ']')
  }

  /** A text whose closing brackets at the end have been taken away. */
  predicate Bare(s: string, close: char) {
    s != "" && s[|s| - 1] != close && !IsSpace(s[|s| - 1])
  }

  // ---------------------------------------------------------------- counting

  lemma {:induction false} CountAppend(c: char, a: string, b: string)
    ensures Count(c, a + b) == Count(c, a) + Count(c, b)
  {
    if a == "" {
      assert a + b == b;
    } else {
      assert (a + b)[1..] == a[1..] + b;
      CountAppend(c, a[1..], b);
    }
  }

  lemma {:induction false} CountRepeat(c: char, d: char, n: nat)
    ensures Count(c, Repeat(d, n)) == if c == d then n else 0
  {
    if n > 0 {
      assert Repeat(d, n)[1..] == Repeat(d, n - 1);
      CountRepeat(c, d, n - 1);
    }
  }

  // ---------------------------------------------------------------- prefixes

  /** No proper prefix of the text of an object or array is a JSON text. */
  lemma NoProperPrefix(t: string, n: nat)
    requires Parse(t).Some? && (FirstIs(t, '{') || FirstIs(t, '[')) && !IsBlank(t[|t| - 1])
    requires n < |t|
    ensures Parse(t[..n]) == None
  {
    var s := t[..n];
    if Parse(s).Some? {
      assert s[0] == t[0];
      var rest := ParseValue(s).value.1;
      var y := rest + t[n..];
      ValueSuffix(s);
      EndsWithout(rest, t[n..]);
      assert Swap(s, rest, y) == t by {
        assert s == s[..|s| - |rest|] + rest;
        assert t == s + t[n..];
      }
      ValueLocal(s, y);
      assert false;
    }
  }

  lemma EndsWithout(a: string, b: string)
    requires b != "" && !IsBlank(b[|b| - 1])
    ensures Skip(a + b) != ""
  {
    AllBlank(a + b);
    assert (a + b)[|a + b| - 1] == b[|b| - 1];
  }

  /** What the repair does to a text cut within its trailing run of closing brackets. */
  lemma CutText(open: char, close: char, s: string)
    requires Pair(open, close) && FirstIs(s, open) && !IsSpace(s[|s| - 1]) && Parse(s) == None
    ensures QuickRepair(s) == if LastIs(s, close) then None else Parse(Completed(open, close, s))
  {
    NoFence(s);
  }

  lemma Glue(s: string, close: char, j: nat, k: nat)
    requires j <= k
    ensures s + Repeat(close, k) == (s + Repeat(close, j)) + Repeat(close, k - j)
    ensures (s + Repeat(close, k))[..|s| + j] == s + Repeat(close, j)
  {
  }

  /** Only the right number of closing brackets completes a text. */
  lemma OneCompletion(open: char, close: char, s: string, run: nat, k: nat)
    requires Pair(open, close) && FirstIs(s, open) && run > 0 && Parse(s + Repeat(close, run)).Some?
    requires k != run
    ensures Parse(s + Repeat(close, k)) == None
  {
    var t := s + Repeat(close, run);
    var u := s + Repeat(close, k);
    if k < run {
      Glue(s, close, k, run);
      NoProperPrefix(t, |u|);
    } else if Parse(u).Some? {
      Glue(s, close, run, k);
      NoProperPrefix(u, |t|);
      assert false;
    }
  }

  lemma CutInside(open: char, close: char, s: string, run: nat, k: nat)
    requires Pair(open, close) && FirstIs(s, open) && Parse(s + Repeat(close, run)).Some? && 0 < k < run
    ensures QuickRepair(s + Repeat(close, k)) == None
  {
    OneCompletion(open, close, s, run, k);
    CutText(open, close, s + Repeat(close, k));
  }

  /** The run is what is missing exactly when the whole text is balanced. */
  lemma Missing(open: char, close: char, s: string, run: nat)
    requires Pair(open, close)
    ensures var t := s + Repeat(close, run);
      Count(open, t) == Count(close, t) <==> Count(open, s) - Count(close, s) == run
  {
    CountAppend(open, s, Repeat(close, run));
    CountAppend(close, s, Repeat(close, run));
    CountRepeat(open, close, run);
    CountRepeat(close, close, run);
  }

  lemma CompletedBy(open: char, close: char, s: string) returns (k: nat)
    ensures Completed(open, close, s) == s + Repeat(close, k)
    ensures k == if Count(open, s) < Count(close, s) then 0 else Count(open, s) - Count(close, s)
  {
    k := if Count(open, s) < Count(close, s) then 0 else Count(open, s) - Count(close, s);
  }

  lemma CutBefore(open: char, close: char, s: string, run: nat)
    requires Pair(open, close) && FirstIs(s, open) && Bare(s, close)
    requires run > 0 && Parse(s + Repeat(close, run)).Some?
    ensures QuickRepair(s) ==
      var t := s + Repeat(close, run);
      if Count(open, t) == Count(close, t) then Parse(t) else None
  {
    var k := CompletedBy(open, close, s);
    OneCompletion(open, close, s, run, 0);
    assert s + Repeat(close, 0) == s;
    CutText(open, close, s);
    Missing(open, close, s, run);
    if k != run {
      OneCompletion(open, close, s, run, k);
    }
  }

  /**
   A JSON object or array text t ends in a run of closing brackets and is cut inside that run. The
   repair gives the value of t back exactly when the whole run is gone (k == 0) and t has as many
   opening brackets as closing ones, those inside strings included; otherwise it gives nothing.
   */
  lemma MissingBrackets(open: char, close: char, s: string, run: nat, k: nat)
    requires Pair(open, close) && FirstIs(s, open) && Bare(s, close)
    requires k < run && Parse(s + Repeat(close, run)).Some?
    ensures var t := s + Repeat(close, run);
      QuickRepair(s + Repeat(close, k)) == if k == 0 && Count(open, t) == Count(close, t) then Parse(t) else None
  {
    if k > 0 {
      CutInside(open, close, s, run, k);
    } else {
      CutBefore(open, close, s, run);
      assert s + Repeat(close, 0) == s;
    }
  }

  // ---------------------------------------------------------------- the texts json.dumps writes

  /** How often `c` occurs in the strings of a value. */
  function InStrings(c: char, v: Json): nat {
    match v
    case Lit(_) => 0
    case Num(_) => 0
    case Str(raw) => Count(c, raw)
    case Arr(items) => InItems(c, items)
    case Obj(members) => InMembers(c, members)
  }

  function InItems(c: char, items: Items): nat {
    if items.NoItems? then 0 else InStrings(c, items.head) + InItems(c, items.tail)
  }

  function InMembers(c: char, ms: Members): nat {
    if ms.NoMembers? then 0 else Count(c, ms.key) + InStrings(c, ms.value) + InMembers(c, ms.rest)
  }

  /** How many values in `v`, itself included, are written with this opening bracket. */
  function Brackets(open: char, v: Json): nat {
    match v
    case Lit(_) => 0
    case Num(_) => 0
    case Str(_) => 0
    case Arr(items) => BracketsOfItems(open, items) + (if open == '[' then 1 else 0)
    case Obj(members) => BracketsOfMembers(open, members) + (if open == '{' then 1 else 0)
  }

  function BracketsOfItems(open: char, items: Items): nat {
    if items.NoItems? then 0 else Brackets(open, items.head) + BracketsOfItems(open, items.tail)
  }

  function BracketsOfMembers(open: char, ms: Members): nat {
    if ms.NoMembers? then 0 else Brackets(open, ms.value) + BracketsOfMembers(open, ms.rest)
  }

  predicate IsBracket(c: char) {
    c == '{' || c == '}' || c == '[' || c == ']'
  }

  /** The opening bracket `c` is or closes. */
  function Opening(c: char): char {
    if c == '}' then '{' else if c == ']' then '[' else c
  }

  lemma {:induction false} DigitsOnly(s: string)
    ensures forall i | 0 <= i < Digits(s) :: IsDigit(s[i])
  {
    if s != "" && IsDigit(s[0]) {
      DigitsOnly(s[1..]);
      assert forall i | 1 <= i < |s| :: s[i] == s[1..][i - 1];
    }
  }

  /** Text without brackets and quotes. */
  predicate Plain(s: string) {
    forall i | 0 <= i < |s| :: !IsBracket(s[i]) && s[i] != '"'
  }

  lemma FractionPlain(s: string)
    ensures Plain(s[..FractionLength(s)])
  {
    if FractionLength(s) > 0 {
      DigitsOnly(s[1..]);
      assert forall i | 1 <= i < |s| :: s[i] == s[1..][i - 1];
    }
  }

  lemma ExponentPlain(s: string)
    ensures Plain(s[..ExponentLength(s)])
  {
    if ExponentLength(s) > 0 {
      var k := if |s| >= 2 && (s[1] == '+' || s[1] == '-') then 2 else 1;
      DigitsOnly(s[k..]);
      assert forall i | k <= i < |s| :: s[i] == s[k..][i - k];
    }
  }

  lemma IntegerPlain(s: string)
    ensures Plain(s[..IntegerLength(s)])
  {
    if IntegerLength(s) > 0 {
      DigitsOnly(s);
      DigitsOnly(s[1..]);
      assert forall i | 1 <= i < |s| :: s[i] == s[1..][i - 1];
    }
  }

  lemma DecimalsPlain(s: string)
    ensures Plain(s[..DecimalsLength(s)])
  {
    var f := FractionLength(s);
    var e := ExponentLength(s[f..]);
    FractionPlain(s);
    ExponentPlain(s[f..]);
    assert s[..f] + s[f..][..e] == s[..f + e];
  }

  lemma NumberPlain(s: string)
    requires NumberLength(s) == |s| > 0
    ensures Plain(s)
  {
    var i := IntegerLength(s);
    IntegerPlain(s);
    DecimalsPlain(s[i..]);
    assert s[i..][..|s| - i] == s[i..] && s[..i] + s[i..] == s;
  }

  lemma WordPlain(s: string)
    requires WordLength(s) == |s| > 0
    ensures Plain(s)
  {
    assert s[..|s|] == s;
  }

  lemma {:induction false} PlainCount(c: char, s: string)
    requires Plain(s) && IsBracket(c)
    ensures Count(c, s) == 0
  {
    if s != "" {
      PlainCount(c, s[1..]);
    }
  }

  lemma BlankCount(c: char, gap: string)
    requires Blank(gap) && IsBracket(c)
    ensures Count(c, gap) == 0
  {
    PlainCount(c, gap);
  }

  lemma CountOne(c: char, d: char, s: string)
    ensures Count(c, [d] + s) == (if c == d then 1 else 0) + Count(c, s)
  {
    Head(d, s);
  }

  lemma CountLast(c: char, s: string, d: char)
    ensures Count(c, s + [d]) == Count(c, s) + (if c == d then 1 else 0)
  {
    CountAppend(c, s, [d]);
    CountOne(c, d, "");
    assert [d] + "" == [d];
  }

  lemma MemberCount(c: char, key: string, gap: string, value: string)
    requires Blank(gap) && IsBracket(c)
    ensures Count(c, "\"" + key + "\":" + gap + value) == Count(c, key) + Count(c, value)
  {
    CountOne(c, '"', "");
    CountOne(c, '"', ":");
    PlainCount(c, ":");
    assert ['"'] + "" == "\"" && ['"'] + ":" == "\":";
    BlankCount(c, gap);
    CountAppend(c, "\"" + key + "\":" + gap, value);
    CountAppend(c, "\"" + key + "\":", gap);
    CountAppend(c, "\"" + key, "\":");
    CountAppend(c, "\"", key);
  }

  lemma TailCount(c: char, gap: string, rest: string)
    requires Blank(gap) && IsBracket(c)
    ensures Count(c, "," + gap + rest) == Count(c, rest)
  {
    PlainCount(c, ",");
    BlankCount(c, gap);
    CountAppend(c, "," + gap, rest);
    CountAppend(c, ",", gap);
  }

  /** The brackets of a text are those of its strings and one for every array or object in it. */
  lemma {:induction false} CountText(c: char, v: Json, gap: string)
    requires WellFormed(v) && Blank(gap) && IsBracket(c)
    ensures Count(c, Text(v, gap)) == InStrings(c, v) + Brackets(Opening(c), v)
    decreases v, 0
  {
    match v
    case Lit(word) =>
      WordPlain(word);
      PlainCount(c, word);
    case Num(lexeme) =>
      NumberPlain(lexeme);
      PlainCount(c, lexeme);
    case Str(raw) =>
      CountOne(c, '"', raw);
      CountLast(c, "\"" + raw, '"');
    case Arr(items) =>
      var inner := if items.NoItems? then "" else ItemsText(items, gap);
      CountItems(c, items, gap);
      CountOne(c, '[', inner);
      CountLast(c, "[" + inner, ']');
    case Obj(members) =>
      var inner := if members.NoMembers? then "" else MembersText(members, gap);
      CountMembers(c, members, gap);
      CountOne(c, '{', inner);
      CountLast(c, "{" + inner, '}');
  }

  lemma {:induction false} CountItems(c: char, items: Items, gap: string)
    requires WellFormedItems(items) && Blank(gap) && IsBracket(c)
    ensures var s := if items.NoItems? then "" else ItemsText(items, gap);
      Count(c, s) == InItems(c, items) + BracketsOfItems(Opening(c), items)
    decreases items, 1
  {
    if items.Item? {
      CountText(c, items.head, gap);
      CountItems(c, items.tail, gap);
      if items.tail.Item? {
        TailCount(c, gap, ItemsText(items.tail, gap));
        CountAppend(c, Text(items.head, gap), "," + gap + ItemsText(items.tail, gap));
      } else {
        assert Text(items.head, gap) + "" == Text(items.head, gap);
      }
    }
  }

  lemma {:induction false} CountMembers(c: char, ms: Members, gap: string)
    requires WellFormedMembers(ms) && Blank(gap) && IsBracket(c)
    ensures var s := if ms.NoMembers? then "" else MembersText(ms, gap);
      Count(c, s) == InMembers(c, ms) + BracketsOfMembers(Opening(c), ms)
    decreases ms, 1
  {
    if ms.Member? {
      var member := "\"" + ms.key + "\":" + gap + Text(ms.value, gap);
      CountText(c, ms.value, gap);
      MemberCount(c, ms.key, gap, Text(ms.value, gap));
      CountMembers(c, ms.rest, gap);
      if ms.rest.Member? {
        TailCount(c, gap, MembersText(ms.rest, gap));
        CountAppend(c, member, "," + gap + MembersText(ms.rest, gap));
      } else {
        assert member + "" == member;
      }
    }
  }

  // ---------------------------------------------------------------- their closing brackets

  /** A scalar's text ends in a character of its own. */
  lemma ScalarBare(v: Json, close: char)
    requires WellFormed(v) && (v.Lit? || v.Num?) && (close == '}' || close == ']')
    ensures Bare(Text(v, ""), close)
  {
    if v.Lit? {
      WordEnds(v.word);
    } else {
      NumberEnds(v.lexeme);
    }
  }

  /** Texts written by dumps have no white space before their closing brackets. */
  lemma {:induction false} TextEnd(v: Json, gap: string, close: char) returns (s: string, run: nat)
    requires WellFormed(v) && (close == '}' || close == ']')
    ensures Text(v, gap) == s + Repeat(close, run) && Bare(s, close)
    decreases v, 0
  {
    if v.Arr? && close == ']' {
      s, run := ArrayEnd(v.items, gap);
    } else if v.Obj? && close == '}' {
      s, run := ObjectEnd(v.members, gap);
    } else {
      s, run := Text(v, gap), 0;
      if v.Lit? || v.Num? {
        ScalarBare(v, close);
      }
    }
  }

  lemma {:induction false} ArrayEnd(items: Items, gap: string) returns (s: string, run: nat)
    requires WellFormedItems(items)
    ensures Text(Arr(items), gap) == s + Repeat(']', run) && Bare(s, ']')
    decreases items, 2
  {
    s, run := "[", 1;
    if items.Item? {
      var p, n := ItemsEnd(items, gap, ']');
      s, run := "[" + p, n + 1;
    }
  }

  lemma {:induction false} ObjectEnd(ms: Members, gap: string) returns (s: string, run: nat)
    requires WellFormedMembers(ms)
    ensures Text(Obj(ms), gap) == s + Repeat('}', run) && Bare(s, '}')
    decreases ms, 2
  {
    s, run := "{", 1;
    if ms.Member? {
      var p, n := MembersEnd(ms, gap, '}');
      s, run := "{" + p, n + 1;
    }
  }

  lemma {:induction false} ItemsEnd(items: Items, gap: string, close: char) returns (s: string, run: nat)
    requires items.Item? && WellFormedItems(items) && (close == '}' || close == ']')
    ensures ItemsText(items, gap) == s + Repeat(close, run) && Bare(s, close)
    decreases items, 1
  {
    var head := Text(items.head, gap);
    if items.tail.NoItems? {
      s, run := TextEnd(items.head, gap, close);
      assert head + "" == head;
    } else {
      s, run := ItemsEnd(items.tail, gap, close);
      s := head + ("," + gap) + s;
      assert ItemsText(items, gap) == head + ("," + gap) + ItemsText(items.tail, gap);
    }
  }

  lemma {:induction false} MembersEnd(ms: Members, gap: string, close: char) returns (s: string, run: nat)
    requires ms.Member? && WellFormedMembers(ms) && (close == '}' || close == ']')
    ensures MembersText(ms, gap) == s + Repeat(close, run) && Bare(s, close)
    decreases ms, 1
  {
    var front := "\"" + ms.key + "\":" + gap;
    if ms.rest.NoMembers? {
      s, run := TextEnd(ms.value, gap, close);
      s := front + s;
      assert front + Text(ms.value, gap) + "" == front + Text(ms.value, gap);
    } else {
      s, run := MembersEnd(ms.rest, gap, close);
      var before := front + Text(ms.value, gap) + ("," + gap);
      s := before + s;
      assert MembersText(ms, gap) == before + MembersText(ms.rest, gap);
    }
  }

  lemma SameRun(s: string, run: nat, p: string, n: nat, close: char)
    requires s + Repeat(close, run) == p + Repeat(close, n)
    requires !LastIs(s, close) && !LastIs(p, close)
    ensures s == p && run == n
  {
    var t := s + Repeat(close, run);
    assert |s| > 0 ==> t[|s| - 1] == s[|s| - 1];
    assert |p| > 0 ==> t[|p| - 1] == p[|p| - 1];
    assert t[..|s|] == s && t[..|p|] == p;
  }

  /**
   The text of an object (or array) as dumps writes it, cut inside its trailing run of closing
   brackets: the repair returns the object exactly when the whole run is missing and its strings
   contain as many opening as closing brackets. In all other cases it returns nothing.
   */
  lemma TruncatedDump(v: Json, gap: string, open: char, close: char, s: string, run: nat, k: nat)
    requires WellFormed(v) && Blank(gap)
    requires Pair(open, close) && (if open == '{' then v.Obj? else v.Arr?)
    requires Text(v, gap) == s + Repeat(close, run) && !LastIs(s, close) && k < run
    ensures QuickRepair(s + Repeat(close, k)) ==
      if k == 0 && InStrings(open, v) == InStrings(close, v) then Some(v) else None
  {
    var p, n := TextEnd(v, gap, close);
    SameRun(s, run, p, n, close);
    RoundTrip(v, gap);
    CountText(open, v, gap);
    CountText(close, v, gap);
    assert Text(v, gap)[0] == open;
    assert s[0] == open;
    MissingBrackets(open, close, s, run, k);
  }
}
