/** The local repair of JSON texts (app/services/json_validator.py, quick_json_repair). */
module JsonRepair {
  import opened Options
  import opened Json
  import opened JsonLocality
  import opened JsonTexts

  // ---------------------------------------------------------------- Python's string operations

  /** `str.isspace`, the characters `str.strip` removes. */
  predicate IsSpace(c: char) {
    var n := c as int;
    || 0x09 <= n <= 0x0D || 0x1C <= n <= 0x20 || n == 0x85 || n == 0xA0 || n == 0x1680
    || 0x2000 <= n <= 0x200A || n == 0x2028 || n == 0x2029 || n == 0x202F || n == 0x205F || n == 0x3000
  }

  /**
   The same by Unicode category: ten control characters, the seventeen space separators, and the line and the
   paragraph separator. The blanks of JSON are among them.
   */
  lemma SpacesByCategory(c: char)
    ensures var n := c as int;
      var control := (9 <= n && n <= 13) || (28 <= n && n <= 31) || n == 133;
      var space := n == 32 || n == 160 || n == 5760 || (8192 <= n && n <= 8202) || n == 8239 || n == 8287 || n == 12288;
      IsSpace(c) <==> control || space || n == 8232 || n == 8233
    ensures IsBlank(c) ==> IsSpace(c)
  {
  }

  function StripLeft(s: string): string {
    if s != "" && IsSpace(s[0]) then StripLeft(s[1..]) else s
  }

  function StripRight(s: string): string {
    if s != "" && IsSpace(s[|s| - 1]) then StripRight(s[..|s| - 1]) else s
  }

  function Strip(s: string): string {
    StripRight(StripLeft(s))
  }

  function EndsWith(s: string, suffix: string): bool {
    IsSuffix(suffix, s)
  }

  function Repeat(c: char, n: int): string {
    if n <= 0 then "" else seq(n, _ => c)
  }

  function Count(c: char, s: string): nat {
    if s == "" then 0 else (if s[0] == c then 1 else 0) + Count(c, s[1..])
  }

  /** `s.split("\n")` */
  function Lines(s: string): (r: seq<string>)
    ensures r != []
  {
    if s == "" then [""]
    else
      var rest := Lines(s[1..]);
      if s[0] == '\n' then [""] + rest else [[s[0]] + rest[0]] + rest[1..]
  }

  /** `"\n".join(lines)` */
  function Join(lines: seq<string>): string {
    if lines == [] then "" else if |lines| == 1 then lines[0] else lines[0] + "\n" + Join(lines[1..])
  }

  const FENCE := "```"

  // ---------------------------------------------------------------- the repair

  /** The text after the first line break, nothing if there is none. */
  function AfterFirstLine(s: string): string {
    if s == "" then "" else if s[0] == '\n' then s[1..] else AfterFirstLine(s[1..])
  }

  function Unfence(s: string): string {
    if !StartsWith(s, FENCE) then s
    else
      var inner := AfterFirstLine(s);
      if EndsWith(inner, FENCE) then inner[..|inner| - 3] else inner
  }

  /** As many closing characters as the text has more opening than closing ones. */
  function Completed(open: char, close: char, s: string): string {
    s + Repeat(close, Count(open, s) - Count(close, s))
  }

  function LastIs(s: string, c: char): bool {
    s != "" && s[|s| - 1] == c
  }

  function FirstIs(s: string, c: char): bool {
    s != "" && s[0] == c
  }

  /** Parse, or complete the brackets and parse again. */
  function Restored(s: string): Option<Json> {
    if Parse(s).Some? then Parse(s)
    else if FirstIs(s, '{') && !LastIs(s, '}') then Parse(Completed('{', '}', s))
    else if FirstIs(s, '[') && !LastIs(s, ']') then Parse(Completed('[', ']', s))
    else None
  }

  function QuickRepair(content: string): Option<Json> {
    Restored(Strip(Unfence(Strip(content))))
  }

  lemma JoinLonger(c: char, lines: seq<string>)
    requires lines != []
    ensures Join([[c] + lines[0]] + lines[1..]) == [c] + Join(lines)
  {
    var longer := [[c] + lines[0]] + lines[1..];
    assert longer[1..] == lines[1..];
    if |lines| > 1 {
      assert [c] + lines[0] + "\n" + Join(lines[1..]) == [c] + (lines[0] + "\n" + Join(lines[1..]));
    }
  }

  lemma JoinBreak(lines: seq<string>)
    requires lines != []
    ensures Join([""] + lines) == ['\n'] + Join(lines)
  {
    assert ([""] + lines)[1..] == lines;
    assert "" + "\n" + Join(lines) == ['\n'] + Join(lines);
  }

  lemma {:induction false} JoinOfLines(s: string)
    ensures Join(Lines(s)) == s
  {
    if s != "" {
      JoinOfLines(s[1..]);
      if s[0] == '\n' {
        JoinBreak(Lines(s[1..]));
      } else {
        JoinLonger(s[0], Lines(s[1..]));
      }
      assert [s[0]] + s[1..] == s;
    }
  }

  lemma {:induction false} DropFirstLine(s: string)
    ensures Join(Lines(s)[1..]) == AfterFirstLine(s)
  {
    if s != "" {
      DropFirstLine(s[1..]);
      JoinOfLines(s[1..]);
      var rest := Lines(s[1..]);
      assert Lines(s)[1..] == if s[0] == '\n' then rest else rest[1..];
    }
  }

  /** The source's own steps. */
  method QuickJsonRepair(content: string) returns (r: Option<Json>)
    ensures r == QuickRepair(content)
  {
    var s := Strip(content);
    if StartsWith(s, FENCE) {
      var lines := Lines(s);
      DropFirstLine(s);
      s := Join(lines[1..]);
      if EndsWith(s, FENCE) {
        s := s[..|s| - 3];
      }
    }
    assert s == Unfence(Strip(content));
    s := Strip(s);
    ghost var target := QuickRepair(content);
    assert target == Restored(s);
    r := Parse(s);
    if r.Some? {
      return;
    }
    if FirstIs(s, '{') && !LastIs(s, '}') {
      r := ParseCompleted(s, '{', '}');
      if r.Some? {
        return;
      }
    }
    if FirstIs(s, '[') && !LastIs(s, ']') {
      r := ParseCompleted(s, '[', ']');
      return;
    }
    return None;
  }

  /** The missing brackets of one kind added, and a second attempt to parse. */
  method ParseCompleted(s: string, open: char, close: char) returns (r: Option<Json>)
    ensures r == Parse(Completed(open, close, s))
  {
    var s2 := s;
    var opens: int := Count(open, s2);
    var closes: int := Count(close, s2);
    s2 := s2 + Repeat(close, opens - closes);
    r := Parse(s2);
  }

  // ---------------------------------------------------------------- stripping

  lemma {:induction false} StripLeftStops(gap: string, s: string)
    requires forall i | 0 <= i < |gap| :: IsSpace(gap[i])
    requires s != "" ==> !IsSpace(s[0])
    ensures StripLeft(gap + s) == s
  {
    if gap == "" {
      assert gap + s == s;
    } else {
      assert (gap + s)[1..] == gap[1..] + s;
      StripLeftStops(gap[1..], s);
    }
  }

  lemma {:induction false} StripRightStops(s: string, gap: string)
    requires forall i | 0 <= i < |gap| :: IsSpace(gap[i])
    requires s != "" ==> !IsSpace(s[|s| - 1])
    ensures StripRight(s + gap) == s
  {
    if gap == "" {
      assert s + gap == s;
    } else {
      assert (s + gap)[..|s + gap| - 1] == s + gap[..|gap| - 1];
      StripRightStops(s, gap[..|gap| - 1]);
    }
  }

  lemma StripStops(before: string, s: string, after: string)
    requires s != "" && !IsSpace(s[0]) && !IsSpace(s[|s| - 1])
    requires forall i | 0 <= i < |before| :: IsSpace(before[i])
    requires forall i | 0 <= i < |after| :: IsSpace(after[i])
    ensures Strip(before + s + after) == s
  {
    assert before + s + after == before + (s + after);
    StripLeftStops(before, s + after);
    StripRightStops(s, after);
  }

  lemma {:induction false} SkipRest(t: string) returns (gap: string)
    ensures t == gap + Skip(t) && Blank(gap)
  {
    if t != "" && IsBlank(t[0]) {
      var g := SkipRest(t[1..]);
      gap := [t[0]] + g;
    } else {
      gap := "";
    }
  }

  /** The characters of the value at the start of a text. */
  lemma ValueCore(u: string) returns (core: string, after: string)
    requires ParseValue(u).Some?
    ensures u == core + after && after == ParseValue(u).value.1
    ensures core != "" && Opens(core[0]) && Closes(core[|core| - 1])
    ensures (core[0] == '{' ==> core[|core| - 1] == '}') && (core[0] == '[' ==> core[|core| - 1] == ']')
    ensures ParseValue(core) == Some((ParseValue(u).value.0, ""))
  {
    after := ParseValue(u).value.1;
    core := u[..|u| - |after|];
    ValueSuffix(u);
    ValueOpens(u);
    ValueCloses(u);
    ValueLocal(u, "");
    assert Swap(u, after, "") == core;
  }

  /** A JSON text is a core between blanks; the core starts and ends with characters of the value. */
  lemma Core(t: string) returns (before: string, core: string, after: string)
    requires Parse(t).Some?
    ensures t == before + core + after && Blank(before) && Blank(after)
    ensures core != "" && Opens(core[0]) && Closes(core[|core| - 1])
    ensures (core[0] == '{' ==> core[|core| - 1] == '}') && (core[0] == '[' ==> core[|core| - 1] == ']')
    ensures ParseValue(core) == Some((Parse(t).value, ""))
  {
    before := SkipRest(t);
    core, after := ValueCore(Skip(t));
    AllBlank(after);
  }

  lemma OpensIsNoSpace(c: char)
    requires Opens(c) || Closes(c)
    ensures !IsSpace(c) && !IsBlank(c) && c != '`'
  {
  }

  /** Stripping a JSON text leaves its core, with the same value. */
  lemma StripText(t: string)
    requires Parse(t).Some?
    ensures Parse(Strip(t)) == Parse(t) && Strip(t) != "" && Opens(Strip(t)[0]) && Closes(Strip(t)[|Strip(t)| - 1])
  {
    var before, core, after := Core(t);
    OpensIsNoSpace(core[0]);
    OpensIsNoSpace(core[|core| - 1]);
    StripStops(before, core, after);
  }

  /** The repair extends parsing: a text that parses gets its own value. */
  lemma ExtendsParsing(t: string)
    requires Parse(t).Some?
    ensures QuickRepair(t) == Parse(t)
  {
    StripText(t);
    OpensIsNoSpace(Strip(t)[0]);
    OpensIsNoSpace(Strip(t)[|Strip(t)| - 1]);
  }

  lemma NoFence(s: string)
    requires s != "" && s[0] != '`'
    ensures Unfence(s) == s
  {
    if StartsWith(s, FENCE) {
      FirstOf(s, FENCE);
    }
  }

  // ---------------------------------------------------------------- fences

  predicate OneLine(s: string) {
    forall i | 0 <= i < |s| :: s[i] != '\n'
  }

  predicate Spaces(s: string) {
    forall i | 0 <= i < |s| :: IsSpace(s[i])
  }

  lemma {:induction false} AfterBreak(line: string, s: string)
    requires OneLine(line)
    ensures AfterFirstLine(line + "\n" + s) == s
  {
    if line == "" {
      assert line + "\n" + s == ['\n'] + s;
      Head('\n', s);
    } else {
      assert (line + "\n" + s)[1..] == line[1..] + "\n" + s;
      AfterBreak(line[1..], s);
    }
  }

  lemma {:induction false} NoBreak(line: string)
    requires OneLine(line)
    ensures AfterFirstLine(line) == ""
  {
    if line != "" {
      NoBreak(line[1..]);
    }
  }

  /** Inside a fence: a JSON text reaches the parser with its own value. */
  lemma InnerText(t: string)
    requires Parse(t).Some?
    ensures Restored(Strip(t)) == Parse(t)
  {
    StripText(t);
  }

  /** A JSON text in a closed fence, with or without a language name, gets its own value. */
  lemma FencedText(before: string, lang: string, t: string, after: string)
    requires Spaces(before) && Spaces(after) && OneLine(lang) && Parse(t).Some?
    ensures QuickRepair(before + (FENCE + lang + "\n" + t + FENCE) + after) == Parse(t)
  {
    var s := FENCE + lang + "\n" + t + FENCE;
    assert s[0] == '`' && s[|s| - 1] == '`';
    StripStops(before, s, after);
    ClosedFence(lang, t);
    InnerText(t);
  }

  lemma ClosedFence(lang: string, t: string)
    requires OneLine(lang)
    ensures Unfence(FENCE + lang + "\n" + t + FENCE) == t
  {
    var s := FENCE + lang + "\n" + t + FENCE;
    assert s == (FENCE + lang) + "\n" + (t + FENCE);
    AfterBreak(FENCE + lang, t + FENCE);
    assert s[..3] == FENCE;
    assert (t + FENCE)[..|t|] == t;
  }

  /** The same when the closing fence is missing. */
  lemma OpenFence(before: string, lang: string, t: string)
    requires Spaces(before) && OneLine(lang) && Parse(t).Some?
    ensures QuickRepair(before + (FENCE + lang + "\n" + t)) == Parse(t)
  {
    var b, core, a := Core(t);
    OpensIsNoSpace(core[|core| - 1]);
    var s := FENCE + lang + "\n" + (b + core);
    assert before + (FENCE + lang + "\n" + t) == before + s + a;
    assert s[0] == '`' && s[|s| - 1] == core[|core| - 1];
    StripStops(before, s, a);
    assert s == (FENCE + lang) + "\n" + (b + core);
    AfterBreak(FENCE + lang, b + core);
    assert s[..3] == FENCE;
    assert !EndsWith(b + core, FENCE) by {
      if EndsWith(b + core, FENCE) {
        LastOfSuffix(b + core, FENCE);
      }
    }
    BlanksAround(b, core, "", Parse(t).value);
    assert b + core + "" == b + core;
    InnerText(b + core);
  }

  lemma LastOfSuffix(s: string, suffix: string)
    requires suffix != "" && IsSuffix(suffix, s)
    ensures s[|s| - 1] == suffix[|suffix| - 1]
  {
    assert s[|s| - 1] == s[|s| - |suffix|..][|suffix| - 1];
  }

  /** Blanks around a value do not matter. */
  lemma BlanksAround(before: string, core: string, after: string, v: Json)
    requires Blank(before) && Blank(after)
    requires ParseValue(core) == Some((v, "")) && core != "" && Opens(core[0])
    ensures Parse(before + core + after) == Some(v)
  {
    OpensIsNoSpace(core[0]);
    assert before + core + after == before + (core + after);
    SkipGap(before, core + after);
    Continued(core, after, v);
    AllBlank(after);
  }

  lemma Continued(core: string, after: string, v: Json)
    requires ParseValue(core) == Some((v, "")) && Blank(after)
    ensures ParseValue(core + after) == Some((v, after))
  {
    SwapEnd(core, after);
    ValueLocal(core, after);
  }

  lemma SwapEnd(s: string, y: string)
    ensures Swap(s, "", y) == s + y
  {
  }

  /** A fence on a single line loses its content. */
  lemma OneLineFence(s: string)
    requires StartsWith(Strip(s), FENCE) && OneLine(Strip(s))
    ensures QuickRepair(s) == None
  {
    NoBreak(Strip(s));
    assert Strip("") == "" && Parse("") == None;
  }
}
