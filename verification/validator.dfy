/** Validation of model output (app/services/json_validator.py, validate_json_output). */
module Validator {
  import opened Options
  import opened StateMachine
  import opened Json
  import opened JsonTexts

  datatype Issue = Issue(loc: seq<string>, msg: string)

  /** What a schema class makes of a value: the dump of a valid instance, or the list of violations. */
  datatype Check = Conforming(dump: Json) | Violations(issues: seq<Issue>)

  type Schemas = (StepId, Json) -> Check

  /** The steps with an entry in SCHEMA_REGISTRY. */
  predicate Registered(s: StepId) {
    s <= MATERIAL_SUGGESTION || s == QUALITY_EVALUATION
  }

  const SCHEMA_VALIDATION_ERROR := "SCHEMA_VALIDATION_ERROR"
  const JSON_PARSE_ERROR := "JSON_PARSE_ERROR"

  datatype Validated =
    | Valid(instance: Json, canonical: string)
    | Invalid(errorType: string, rawContent: string, details: seq<string>)

  function Slashed(loc: seq<string>): string {
    if loc == [] then "" else if |loc| == 1 then loc[0] else loc[0] + "/" + Slashed(loc[1..])
  }

  function Described(issue: Issue): string {
    "loc=" + Slashed(issue.loc) + ": " + issue.msg
  }

  /** The value a text stands for, if the schema accepts it. */
  function Accepted(schemas: Schemas, schema: StepId, content: string): Option<Json> {
    match Parse(content)
    case None => None
    case Some(v) =>
      if !Registered(schema) then None
      else match schemas(schema, v) case Conforming(dump) => Some(dump) case Violations(_) => None
  }

  method ValidateJsonOutput(schemas: Schemas, schema: StepId, content: string) returns (r: Validated)
    ensures r.Valid? <==> Accepted(schemas, schema, content).Some?
    ensures r.Valid? <==>
      && schema in {PRODUCT_ANALYSIS, SCRIPT_GENERATION, STORYBOARD_PLANNING, MATERIAL_SUGGESTION, QUALITY_EVALUATION}
      && Parse(content).Some? && schemas(schema, Parse(content).value).Conforming?
    ensures r.Valid? ==> Accepted(schemas, schema, content) == Some(r.instance) && r.canonical == Text(r.instance, " ")
    ensures r.Invalid? ==> r.rawContent == content
    ensures r.Invalid? ==>
      (r.errorType == JSON_PARSE_ERROR <==> Registered(schema) && Parse(content) == None)
      && (r.errorType != JSON_PARSE_ERROR ==> r.errorType == SCHEMA_VALIDATION_ERROR)
    ensures Registered(schema) && Parse(content).Some? && r.Invalid? ==>
      var issues := schemas(schema, Parse(content).value).issues;
      && |r.details| == |issues|
      && forall i | 0 <= i < |issues| :: r.details[i] == "loc=" + Slashed(issues[i].loc) + ": " + issues[i].msg
    ensures r.Invalid? && (!Registered(schema) || Parse(content) == None) ==> |r.details| == 1
  {
    if !Registered(schema) {
      return Invalid(SCHEMA_VALIDATION_ERROR, content, ["unregistered schema"]);
    }
    var parsed := Parse(content);
    if parsed == None {
      return Invalid(JSON_PARSE_ERROR, content, ["syntax error"]);
    }
    match schemas(schema, parsed.value) {
      case Conforming(dump) =>
        r := Valid(dump, Text(dump, " "));
      case Violations(issues) =>
        var details: seq<string> := [];
        for i := 0 to |issues|
          invariant |details| == i
          invariant forall j | 0 <= j < i :: details[j] == Described(issues[j])
        {
          details := details + [Described(issues[i])];
        }
        r := Invalid(SCHEMA_VALIDATION_ERROR, content, details);
    }
  }

  /** A location is its parts with one slash between neighbours. */
  lemma {:induction false} LocationsJoin(a: seq<string>, b: seq<string>)
    requires a != [] && b != []
    ensures Slashed(a + b) == Slashed(a) + "/" + Slashed(b)
    ensures |a| == 1 ==> Slashed(a) == a[0]
    ensures Slashed([]) == ""
  {
    if |a| == 1 {
      assert (a + b)[1..] == b;
    } else {
      LocationsJoin(a[1..], b);
      assert (a + b)[1..] == a[1..] + b;
      assert a[0] + "/" + (Slashed(a[1..]) + "/" + Slashed(b)) == (a[0] + "/" + Slashed(a[1..])) + "/" + Slashed(b);
    }
  }

  /** Dumping what was read and validating the dump decides as validating the text itself. */
  lemma DumpDecidesAlike(schemas: Schemas, schema: StepId, content: string)
    requires Parse(content).Some?
    ensures Accepted(schemas, schema, Text(Parse(content).value, " ")) == Accepted(schemas, schema, content)
  {
    ReadWriteRead(content, " ");
  }
}
