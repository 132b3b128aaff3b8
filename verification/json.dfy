/**
 JSON texts as `json.loads` reads them: the grammar of RFC 8259 (sections 2 to 7) and the three words
 NaN, Infinity and -Infinity. A tree keeps the characters of its numbers and strings, so equal trees
 are equal Python values.
 */
module Json {
  import opened Options

  datatype Json =
    | Lit(word: string)
    | Num(lexeme: string)
    | Str(raw: string)
    | Arr(items: Items)
    | Obj(members: Members)
  datatype Items = NoItems | Item(head: Json, tail: Items)
  datatype Members = NoMembers | Member(key: string, value: Json, rest: Members)

  // ---------------------------------------------------------------- lexical part

  predicate IsBlank(c: char) { c == ' ' || c == '\t' || c == '\n' || c == '\r' }
  predicate IsDigit(c: char) { '0' <= c <= '9' }
  predicate IsHex(c: char) { '0' <= c <= '9' || 'a' <= c <= 'f' || 'A' <= c <= 'F' }

  predicate StartsWith(s: string, prefix: string) {
    |prefix| <= |s| && s[..|prefix|] == prefix
  }

  predicate IsSuffix(rest: string, s: string) {
    |rest| <= |s| && s[|s| - |rest|..] == rest
  }

  function Skip(s: string): (r: string)
    ensures |r| <= |s|
    ensures r != "" ==> !IsBlank(r[0])
  {
    if s != "" && IsBlank(s[0]) then Skip(s[1..]) else s
  }

  /** Length of the first character or escape of a string body, 0 if there is none. */
  function ChunkLength(s: string): (n: nat)
    ensures n <= |s|
  {
    if s == "" || s[0] == '"' || s[0] < ' ' then 0
    else if s[0] != '\\' then 1
    else if |s| >= 2 && s[1] in "\"\\/bfnrt" then 2
    else if |s| >= 6 && s[1] == 'u' && IsHex(s[2]) && IsHex(s[3]) && IsHex(s[4]) && IsHex(s[5]) then 6
    else 0
  }

  /** The body of a string up to its closing quote, and what follows the quote. */
  function ScanString(s: string): (r: Option<(string, string)>)
    ensures r.Some? ==> |r.value.1| < |s| && s == r.value.0 + "\"" + r.value.1
    decreases |s|
  {
    if s != "" && s[0] == '"' then Some(("", s[1..]))
    else
      var n := ChunkLength(s);
      if n == 0 then None
      else
        match ScanString(s[n..])
        case None => None
        case Some((body, rest)) => Some((s[..n] + body, rest))
  }

  function Digits(s: string): (n: nat)
    ensures n <= |s|
  {
    if s != "" && IsDigit(s[0]) then 1 + Digits(s[1..]) else 0
  }

  function NaturalLength(s: string): (n: nat)
    ensures n <= |s|
  {
    if s != "" && s[0] == '0' then 1 else Digits(s)
  }

  function IntegerLength(s: string): (n: nat)
    ensures n <= |s|
  {
    if s != "" && s[0] == '-' then (if NaturalLength(s[1..]) == 0 then 0 else 1 + NaturalLength(s[1..]))
    else NaturalLength(s)
  }

  function FractionLength(s: string): (n: nat)
    ensures n <= |s|
  {
    if s != "" && s[0] == '.' && Digits(s[1..]) > 0 then 1 + Digits(s[1..]) else 0
  }

  function ExponentLength(s: string): (n: nat)
    ensures n <= |s|
  {
    if s == "" || s[0] !in "eE" then 0
    else
      var sign := if |s| >= 2 && s[1] in "+-" then 1 else 0;
      if Digits(s[1 + sign..]) > 0 then 1 + sign + Digits(s[1 + sign..]) else 0
  }

  /** Fraction and exponent. */
  function DecimalsLength(s: string): (n: nat)
    ensures n <= |s|
  {
    FractionLength(s) + ExponentLength(s[FractionLength(s)..])
  }

  /** The longest number at the start of `s`. */
  function NumberLength(s: string): (n: nat)
    ensures n <= |s|
  {
    var i := IntegerLength(s);
    if i == 0 then 0 else i + DecimalsLength(s[i..])
  }

  function WordLength(s: string): (n: nat)
    ensures n <= |s|
  {
    if StartsWith(s, "null") || StartsWith(s, "true") then 4
    else if StartsWith(s, "false") then 5
    else if StartsWith(s, "NaN") then 3
    else if StartsWith(s, "Infinity") then 8
    else if StartsWith(s, "-Infinity") then 9
    else 0
  }

  // ---------------------------------------------------------------- grammar

  function ParseValue(s: string): (r: Option<(Json, string)>)
    ensures r.Some? ==> |r.value.1| < |s|
    decreases |s|, 0
  {
    if s == "" then None
    else if s[0] == '"' then ParseString(s)
    else if s[0] == '{' then
      (match ParseObject(Skip(s[1..])) case None => None case Some((ms, rest)) => Some((Obj(ms), rest)))
    else if s[0] == '[' then
      (match ParseArray(Skip(s[1..])) case None => None case Some((vs, rest)) => Some((Arr(vs), rest)))
    else ParseScalar(s)
  }

  function ParseString(s: string): (r: Option<(Json, string)>)
    requires s != ""
    ensures r.Some? ==> |r.value.1| < |s|
  {
    match ScanString(s[1..]) case None => None case Some((raw, rest)) => Some((Str(raw), rest))
  }

  /** A word or a number. */
  function ParseScalar(s: string): (r: Option<(Json, string)>)
    ensures r.Some? ==> |r.value.1| < |s|
  {
    if WordLength(s) > 0 then Some((Lit(s[..WordLength(s)]), s[WordLength(s)..]))
    else if NumberLength(s) > 0 then Some((Num(s[..NumberLength(s)]), s[NumberLength(s)..]))
    else None
  }

  /** What follows an opening bracket. */
  function ParseArray(s: string): (r: Option<(Items, string)>)
    ensures r.Some? ==> |r.value.1| < |s|
    decreases |s|, 2
  {
    if s != "" && s[0] == ']' then Some((NoItems, s[1..])) else ParseItems(s)
  }

  /** What follows an opening brace. */
  function ParseObject(s: string): (r: Option<(Members, string)>)
    ensures r.Some? ==> |r.value.1| < |s|
    decreases |s|, 2
  {
    if s != "" && s[0] == '}' then Some((NoMembers, s[1..])) else ParseMembers(s)
  }

  /** At least one item, and the closing bracket. */
  function ParseItems(s: string): (r: Option<(Items, string)>)
    ensures r.Some? ==> |r.value.1| < |s|
    decreases |s|, 1
  {
    match ParseValue(s)
    case None => None
    case Some((v, after)) =>
      var next := Skip(after);
      if next == "" then None
      else if next[0] == ']' then Some((Item(v, NoItems), next[1..]))
      else if next[0] == ',' then
        match ParseItems(Skip(next[1..]))
        case None => None
        case Some((vs, rest)) => Some((Item(v, vs), rest))
      else None
  }

  /** At least one member, and the closing brace. */
  function ParseMembers(s: string): (r: Option<(Members, string)>)
    ensures r.Some? ==> |r.value.1| < |s|
    decreases |s|, 1
  {
    if s == "" || s[0] != '"' then None
    else
      match ScanString(s[1..])
      case None => None
      case Some((key, afterKey)) =>
        var colon := Skip(afterKey);
        if colon == "" || colon[0] != ':' then None
        else
          match ParseValue(Skip(colon[1..]))
          case None => None
          case Some((v, after)) =>
            var next := Skip(after);
            if next == "" then None
            else if next[0] == '}' then Some((Member(key, v, NoMembers), next[1..]))
            else if next[0] == ',' then
              match ParseMembers(Skip(next[1..]))
              case None => None
              case Some((ms, rest)) => Some((Member(key, v, ms), rest))
            else None
  }

  /** `json.loads`: one value, blanks around it, nothing else. */
  function Parse(t: string): Option<Json> {
    match ParseValue(Skip(t))
    case None => None
    case Some((v, rest)) => if Skip(rest) == "" then Some(v) else None
  }

  // ---------------------------------------------------------------- texts

  /** `json.dumps` with `gap` after every comma and colon: "" is the compact form, " " the default one. */
  function Text(v: Json, gap: string): string {
    match v
    case Lit(word) => word
    case Num(lexeme) => lexeme
    case Str(raw) => "\"" + raw + "\""
    case Arr(items) => "[" + (if items.NoItems? then "" else ItemsText(items, gap)) + "]"
    case Obj(members) => "{" + (if members.NoMembers? then "" else MembersText(members, gap)) + "}"
  }

  function ItemsText(items: Items, gap: string): string
    requires items.Item?
  {
    Text(items.head, gap) + if items.tail.NoItems? then "" else "," + gap + ItemsText(items.tail, gap)
  }

  function MembersText(ms: Members, gap: string): string
    requires ms.Member?
  {
    "\"" + ms.key + "\":" + gap + Text(ms.value, gap) +
    if ms.rest.NoMembers? then "" else "," + gap + MembersText(ms.rest, gap)
  }

  /** Trees whose leaves are lexemes of the grammar. */
  predicate WellFormed(v: Json) {
    match v
    case Lit(word) => WordLength(word) == |word| > 0
    case Num(lexeme) => NumberLength(lexeme) == |lexeme| > 0
    case Str(raw) => StringBody(raw)
    case Arr(items) => WellFormedItems(items)
    case Obj(members) => WellFormedMembers(members)
  }

  predicate WellFormedItems(items: Items) {
    items.Item? ==> WellFormed(items.head) && WellFormedItems(items.tail)
  }

  predicate WellFormedMembers(ms: Members) {
    ms.Member? ==> StringBody(ms.key) && WellFormed(ms.value) && WellFormedMembers(ms.rest)
  }

  predicate StringBody(raw: string) {
    ScanString(raw + "\"") == Some((raw, ""))
  }
}
