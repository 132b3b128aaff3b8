/** Texts cut inside a string: bracket completion cannot restore any of them. */
module JsonStrings {
  import opened Options
  import opened Json
  import opened JsonLocality
  import opened JsonTexts
  import opened JsonRepair
  import JC = JsonCompletion

  /** Where a reader is: between the strings, in one, or in one right after a backslash. */
  datatype Place = Outside | Inside | Escaped

  function Move(p: Place, c: char): Place {
    match p
    case Outside => if c == '"' then Inside else Outside
    case Inside => if c == '"' then Outside else if c == '\\' then Escaped else Inside
    case Escaped => Inside
  }

  function Read(p: Place, s: string): Place
    decreases s
  {
    if s == "" then p else Read(Move(p, s[0]), s[1..])
  }

  lemma {:induction false} ReadAppend(p: Place, a: string, b: string)
    ensures Read(p, a + b) == Read(Read(p, a), b)
    decreases a
  {
    if a == "" {
      assert a + b == b;
    } else {
      assert (a + b)[1..] == a[1..] + b;
      ReadAppend(Move(p, a[0]), a[1..], b);
    }
  }

  lemma ReadPart(p: Place, s: string, n: nat)
    requires n <= |s|
    ensures Read(p, s) == Read(Read(p, s[..n]), s[n..])
  {
    ReadAppend(p, s[..n], s[n..]);
    assert s == s[..n] + s[n..];
  }

  lemma {:induction false} ReadQuiet(s: string)
    requires forall i | 0 <= i < |s| :: s[i] != '"'
    ensures Read(Outside, s) == Outside
  {
    if s != "" {
      ReadQuiet(s[1..]);
    }
  }

  /** Inside a string, characters that neither end it nor escape. */
  lemma {:induction false} ReadInside(s: string)
    requires forall i | 0 <= i < |s| :: s[i] != '"' && s[i] != '\\'
    ensures Read(Inside, s) == Inside
  {
    if s != "" {
      ReadInside(s[1..]);
    }
  }

  lemma ReadChunk(s: string)
    requires ChunkLength(s) > 0
    ensures Read(Inside, s[..ChunkLength(s)]) == Inside
  {
    var chunk := s[..ChunkLength(s)];
    if |chunk| == 1 {
      ReadInside(chunk);
    } else {
      assert chunk[1..][1..] == chunk[2..];
      assert Read(Inside, chunk) == Read(Inside, chunk[2..]);
      ReadInside(chunk[2..]);
    }
  }

  lemma {:induction false} ReadBody(s: string)
    requires ScanString(s).Some?
    ensures Read(Inside, s) == Read(Outside, ScanString(s).value.1)
    decreases |s|
  {
    if s[0] != '"' {
      var n := ChunkLength(s);
      ReadChunk(s);
      ReadPart(Inside, s, n);
      ReadBody(s[n..]);
    }
  }

  lemma {:induction false} ReadSkip(s: string)
    ensures Read(Outside, s) == Read(Outside, Skip(s))
  {
    if s != "" && IsBlank(s[0]) {
      ReadSkip(s[1..]);
    }
  }

  /** One character that is no quote, and the blanks after it. */
  lemma ReadNext(s: string)
    requires s != "" && s[0] != '"'
    ensures Read(Outside, s) == Read(Outside, Skip(s[1..]))
  {
    ReadSkip(s[1..]);
  }

  lemma ReadPlain(s: string, n: nat)
    requires n <= |s| && JC.Plain(s[..n])
    ensures Read(Outside, s) == Read(Outside, s[n..])
  {
    ReadQuiet(s[..n]);
    ReadPart(Outside, s, n);
  }

  lemma ReadWord(s: string)
    requires WordLength(s) > 0
    ensures Read(Outside, s) == Read(Outside, s[WordLength(s)..])
  {
    WordLocal(s, "");
    assert s[..WordLength(s)] + "" == s[..WordLength(s)];
    JC.WordPlain(s[..WordLength(s)]);
    ReadPlain(s, WordLength(s));
  }

  lemma ReadNumber(s: string)
    requires NumberLength(s) > 0
    ensures Read(Outside, s) == Read(Outside, s[NumberLength(s)..])
  {
    NumberLocal(s, "");
    assert s[..NumberLength(s)] + "" == s[..NumberLength(s)];
    JC.NumberPlain(s[..NumberLength(s)]);
    ReadPlain(s, NumberLength(s));
  }

  lemma ReadScalar(s: string)
    requires ParseScalar(s).Some?
    ensures Read(Outside, s) == Read(Outside, ParseScalar(s).value.1)
  {
    if WordLength(s) > 0 {
      ReadWord(s);
    } else {
      ReadNumber(s);
    }
  }

  /** A parser consumes whole strings only. */
  lemma {:induction false} ReadValue(s: string)
    requires ParseValue(s).Some?
    ensures Read(Outside, s) == Read(Outside, ParseValue(s).value.1)
    decreases |s|, 0
  {
    if s[0] == '"' {
      ReadBody(s[1..]);
    } else if s[0] == '{' {
      ReadNext(s);
      ReadObject(Skip(s[1..]));
    } else if s[0] == '[' {
      ReadNext(s);
      ReadArray(Skip(s[1..]));
    } else {
      ReadScalar(s);
    }
  }

  lemma {:induction false} ReadArray(s: string)
    requires ParseArray(s).Some?
    ensures Read(Outside, s) == Read(Outside, ParseArray(s).value.1)
    decreases |s|, 2
  {
    if s[0] != ']' {
      ReadItems(s);
    }
  }

  lemma {:induction false} ReadObject(s: string)
    requires ParseObject(s).Some?
    ensures Read(Outside, s) == Read(Outside, ParseObject(s).value.1)
    decreases |s|, 2
  {
    if s[0] != '}' {
      ReadMembers(s);
    }
  }

  lemma {:induction false} ReadItems(s: string)
    requires ParseItems(s).Some?
    ensures Read(Outside, s) == Read(Outside, ParseItems(s).value.1)
    decreases |s|, 1
  {
    var after := ParseValue(s).value.1;
    var next := Skip(after);
    ReadValue(s);
    ReadSkip(after);
    if next[0] == ',' {
      ReadNext(next);
      ReadItems(Skip(next[1..]));
    }
  }

  lemma {:induction false} ReadMembers(s: string)
    requires ParseMembers(s).Some?
    ensures Read(Outside, s) == Read(Outside, ParseMembers(s).value.1)
    decreases |s|, 1
  {
    var afterKey := ScanString(s[1..]).value.1;
    var colon := Skip(afterKey);
    var start := Skip(colon[1..]);
    var after := ParseValue(start).value.1;
    var next := Skip(after);
    ReadBody(s[1..]);
    ReadSkip(afterKey);
    ReadNext(colon);
    ReadValue(start);
    ReadSkip(after);
    if next[0] == ',' {
      ReadNext(next);
      ReadMembers(Skip(next[1..]));
    }
  }

  lemma ReadText(t: string)
    requires Parse(t).Some?
    ensures Read(Outside, t) == Outside
  {
    var u := Skip(t);
    var rest := ParseValue(u).value.1;
    ReadSkip(t);
    ReadValue(u);
    ReadSkip(rest);
  }

  // ---------------------------------------------------------------- what the repair does before it parses

  lemma {:induction false} StaysInside(p: Place, close: char, n: int)
    requires p != Outside && close != '"' && close != '\\'
    ensures Read(p, Repeat(close, n)) != Outside
    decreases n
  {
    if n > 0 {
      assert Repeat(close, n)[1..] == Repeat(close, n - 1);
      StaysInside(Inside, close, n - 1);
    }
  }

  lemma {:induction false} ReadStripLeft(s: string)
    ensures Read(Outside, StripLeft(s)) == Read(Outside, s)
  {
    if s != "" && IsSpace(s[0]) {
      ReadStripLeft(s[1..]);
    }
  }

  lemma {:induction false} ReadStripRight(p: Place, s: string)
    requires Read(p, s) != Outside
    ensures Read(p, StripRight(s)) != Outside
  {
    if s != "" && IsSpace(s[|s| - 1]) {
      var front := s[..|s| - 1];
      ReadPart(p, s, |s| - 1);
      assert s[|s| - 1..] == [s[|s| - 1]];
      ReadStripRight(p, front);
    }
  }

  lemma ReadStrip(s: string)
    requires Read(Outside, s) != Outside
    ensures Read(Outside, Strip(s)) != Outside
  {
    ReadStripLeft(s);
    ReadStripRight(Outside, StripLeft(s));
  }

  lemma NotCompleted(s: string, open: char, close: char)
    requires Read(Outside, s) != Outside && JC.Pair(open, close)
    ensures Parse(Completed(open, close, s)) == None
  {
    var tail := Repeat(close, Count(open, s) - Count(close, s));
    ReadAppend(Outside, s, tail);
    StaysInside(Read(Outside, s), close, Count(open, s) - Count(close, s));
    if Parse(s + tail).Some? {
      ReadText(s + tail);
    }
  }

  /**
   A text whose content, the fence around it taken away if there is one, ends inside a string is never
   repaired, although the repair lists truncated strings among the things it handles.
   */
  lemma TruncatedStringIsLost(content: string)
    requires Read(Outside, Unfence(Strip(content))) != Outside
    ensures QuickRepair(content) == None
  {
    var s := Strip(Unfence(Strip(content)));
    ReadStrip(Unfence(Strip(content)));
    if Parse(s).Some? {
      ReadText(s);
    }
    NotCompleted(s, '{', '}');
    NotCompleted(s, '[', ']');
  }

  /** Without a fence it is the text itself that counts. */
  lemma TruncatedWithoutFence(content: string)
    requires Read(Outside, content) != Outside && !StartsWith(Strip(content), FENCE)
    ensures QuickRepair(content) == None
  {
    ReadStrip(content);
    TruncatedStringIsLost(content);
  }
}
