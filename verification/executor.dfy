/** The governed execution of a prompt agent (app/agents/executor.py). */
module Executor {
  import opened Options
  import opened StateMachine
  import opened Json
  import opened JsonTexts
  import opened JsonRepair
  import opened Validator

  /** What one call of the model client comes to; a deadline is the cancellation of the awaiting coroutine. */
  datatype Reply =
    | Answer(content: string, inputTokens: nat, outputTokens: nat, model: string, promptVersion: string)
    | Refused(errorType: string, retryable: bool)
    | Crashed
    | Deadline

  /** `schema` is None when building the prompts or choosing the schema raises. */
  datatype Agent = Agent(schema: Option<StepId>, enableSchemaRepair: bool, model: string, promptVersion: string)

  datatype RepairPayload = RepairPayload(originalOutput: string, errorDetails: seq<string>, failureReason: string)

  const MODEL_TIMEOUT := "MODEL_TIMEOUT"
  const UNKNOWN_ERROR := "UNKNOWN_ERROR"

  /** The exceptions of the pipeline. */
  datatype Exc =
    | LlmJsonError
    | InvalidJson(errorType: string, rawContent: string, details: seq<string>)
    | LlmError(llmType: string, retryable: bool)
    | OtherError
    | Cancelled

  class AgentResult {
    var success: bool
    var output: Option<Json>
    var rawOutput: Option<string>
    var failureReason: Option<string>
    var inputTokens: nat
    var outputTokens: nat
    var model: string
    var promptVersion: string
    var repairsAttempted: nat
    var needsRetry: bool
    var needsRepairAgent: bool
    var repairPayload: Option<RepairPayload>

    constructor (model: string, promptVersion: string)
      ensures !success && output == None && rawOutput == None && failureReason == None
      ensures inputTokens == 0 && outputTokens == 0 && repairsAttempted == 0
      ensures !needsRetry && !needsRepairAgent && repairPayload == None
      ensures this.model == model && this.promptVersion == promptVersion
    {
      success, output, rawOutput, failureReason := false, None, None, None;
      inputTokens, outputTokens, repairsAttempted := 0, 0, 0;
      needsRetry, needsRepairAgent, repairPayload := false, false, None;
      this.model, this.promptVersion := model, promptVersion;
    }
  }

  // ---------------------------------------------------------------- what an execution comes to

  /** The client returned: it raises on an answer that is not JSON. */
  predicate Returned(r: Reply) {
    r.Answer? && Parse(r.content).Some?
  }

  /** The answer a schema accepts. */
  function Good(schemas: Schemas, schema: StepId, r: Reply): Option<Json> {
    if r.Answer? then Accepted(schemas, schema, r.content) else None
  }

  /** The first call was answered, but with something the pipeline tries to repair. */
  predicate Reparable(schemas: Schemas, a: Agent, first: Reply) {
    a.schema.Some? && first.Answer? && Good(schemas, a.schema.value, first) == None
  }

  /** A second call is made exactly for a registered schema with schema repair switched on. */
  predicate AsksAgain(schemas: Schemas, a: Agent, first: Reply) {
    Reparable(schemas, a, first) && a.enableSchemaRepair && Registered(a.schema.value)
  }

  function Calls(schemas: Schemas, a: Agent, first: Reply): nat {
    if a.schema == None then 0 else if AsksAgain(schemas, a, first) then 2 else 1
  }

  /** The output of the execution, if it succeeds. */
  function Produced(schemas: Schemas, a: Agent, first: Reply, second: Reply): Option<Json> {
    if a.schema == None then None
    else if AsksAgain(schemas, a, first) then Good(schemas, a.schema.value, second)
    else Good(schemas, a.schema.value, first)
  }

  /** The step is handed to the repair agent. */
  predicate NeedsRepairAgent(schemas: Schemas, a: Agent, first: Reply, second: Reply) {
    && Reparable(schemas, a, first)
    && (!a.enableSchemaRepair
        || (Registered(a.schema.value) && Good(schemas, a.schema.value, second) == None && second != Deadline))
  }

  /** Why it failed; after a successful second call this still holds the reason of the first. */
  function Reason(schemas: Schemas, a: Agent, first: Reply, second: Reply): Option<string> {
    if a.schema == None || first == Crashed then Some(UNKNOWN_ERROR)
    else if first == Deadline then Some(MODEL_TIMEOUT)
    else if first.Refused? then Some(first.errorType)
    else if Good(schemas, a.schema.value, first).Some? then None
    else if AsksAgain(schemas, a, first) && second == Deadline then Some(MODEL_TIMEOUT)
    else if a.enableSchemaRepair && !AsksAgain(schemas, a, first) then Some(UNKNOWN_ERROR)
    else if Parse(first.content) == None then Some(JSON_PARSE_ERROR)
    else Some(SCHEMA_VALIDATION_ERROR)
  }

  predicate NeedsRetry(schemas: Schemas, a: Agent, first: Reply, second: Reply) {
    && Produced(schemas, a, first, second) == None
    && !NeedsRepairAgent(schemas, a, first, second)
    && (a.schema.Some? && first.Refused? ==> first.retryable)
  }

  /** The violations of the schema that an answer which parses is rejected for, each described. */
  ghost predicate Describes(schemas: Schemas, schema: StepId, content: string, details: seq<string>) {
    Parse(content).Some? && Registered(schema) && schemas(schema, Parse(content).value).Violations? ==>
      var issues := schemas(schema, Parse(content).value).issues;
      && |details| == |issues|
      && forall i | 0 <= i < |issues| :: details[i] == "loc=" + Slashed(issues[i].loc) + ": " + issues[i].msg
  }

  /** What the repair agent is told: the first answer as far as it is JSON, what is wrong with it, and why it failed. */
  ghost predicate Tells(schemas: Schemas, a: Agent, first: Reply, p: RepairPayload, reason: Option<string>) {
    && a.schema.Some? && first.Answer?
    && p.originalOutput == (if Parse(first.content).Some? then first.content else "")
    && Describes(schemas, a.schema.value, first.content, p.errorDetails)
    && (Parse(first.content) == None ==> |p.errorDetails| == 1)
    && reason == Some(p.failureReason)
    && p.failureReason == if Parse(first.content).Some? then SCHEMA_VALIDATION_ERROR else JSON_PARSE_ERROR
  }

  /** The calls that returned, in order. */
  function Returns(schemas: Schemas, a: Agent, first: Reply, second: Reply): seq<Reply> {
    (if a.schema.Some? && Returned(first) then [first] else []) +
    (if AsksAgain(schemas, a, first) && Returned(second) then [second] else [])
  }

  /** The text of the last of them. */
  function LastContent(rs: seq<Reply>): Option<string>
    requires forall i | 0 <= i < |rs| :: rs[i].Answer?
  {
    if rs == [] then None else Some(rs[|rs| - 1].content)
  }

  /** The name given by the last of them that gives one. */
  function LastModel(rs: seq<Reply>, default: string): string
    requires forall i | 0 <= i < |rs| :: rs[i].Answer?
  {
    if rs == [] then default
    else if rs[|rs| - 1].model != "" then rs[|rs| - 1].model
    else LastModel(rs[..|rs| - 1], default)
  }

  function LastPromptVersion(rs: seq<Reply>, default: string): string
    requires forall i | 0 <= i < |rs| :: rs[i].Answer?
  {
    if rs == [] then default
    else if rs[|rs| - 1].promptVersion != "" then rs[|rs| - 1].promptVersion
    else LastPromptVersion(rs[..|rs| - 1], default)
  }

  lemma LastNames(schemas: Schemas, a: Agent, first: Reply, second: Reply, model: string, version: string)
    ensures var rs := Returns(schemas, a, first, second);
      var one := a.schema.Some? && Returned(first);
      var two := AsksAgain(schemas, a, first) && Returned(second);
      && LastContent(rs) == (if two then Some(second.content) else if one then Some(first.content) else None)
      && LastModel(rs, model) ==
           (if two && second.model != "" then second.model else if one && first.model != "" then first.model else model)
      && LastPromptVersion(rs, version) ==
           (if two && second.promptVersion != "" then second.promptVersion
            else if one && first.promptVersion != "" then first.promptVersion else version)
  {
    var rs := Returns(schemas, a, first, second);
    if |rs| > 0 {
      var front := rs[..|rs| - 1];
      assert |front| > 0 ==> front == [first] && front[..0] == [];
      assert LastModel(front, model) == if front != [] && first.model != "" then first.model else model;
      assert LastPromptVersion(front, version) ==
        if front != [] && first.promptVersion != "" then first.promptVersion else version;
    }
  }

  /** What the local repair of a text gives the schema to accept; Python's None is both "no result" and JSON null. */
  function Rescued(schemas: Schemas, schema: StepId, raw: string): Option<Json> {
    match QuickRepair(raw)
    case None => None
    case Some(v) => if v == Lit("null") then None else Accepted(schemas, schema, Text(v, " "))
  }

  /**
   With this client the local repair never rescues an output: what fails to parse is not kept, and
   what was kept parses, so the repair hands the very same value to the very same schema.
   */
  lemma NoLocalRescue(schemas: Schemas, schema: StepId, raw: string)
    requires raw == "" || (Parse(raw).Some? && Accepted(schemas, schema, raw) == None)
    ensures Rescued(schemas, schema, raw) == None
  {
    if raw != "" {
      ExtendsParsing(raw);
      DumpDecidesAlike(schemas, schema, raw);
    } else {
      assert Unfence(Strip("")) == "" && Parse("") == None;
    }
  }

  class AgentExecutor {
    const schemas: Schemas
    var calls: nat

    constructor (schemas: Schemas)
      ensures this.schemas == schemas && calls == 0
    {
      this.schemas := schemas;
      calls := 0;
    }

    /** The client's generate_json. */
    method GenerateJson(replies: seq<Reply>) returns (exc: Option<Exc>, response: Reply)
      requires calls < |replies|
      modifies `calls
      ensures calls == old(calls) + 1 && response == replies[old(calls)]
      ensures exc == None <==> Returned(response)
      ensures response.Answer? && !Returned(response) ==> exc == Some(LlmJsonError)
      ensures response.Refused? ==> exc == Some(LlmError(response.errorType, response.retryable))
      ensures response == Crashed ==> exc == Some(OtherError)
      ensures response == Deadline ==> exc == Some(Cancelled)
    {
      response := replies[calls];
      calls := calls + 1;
      match response {
        case Answer(content, _, _, _, _) => exc := if Parse(content).Some? then None else Some(LlmJsonError);
        case Refused(errorType, retryable) => exc := Some(LlmError(errorType, retryable));
        case Crashed => exc := Some(OtherError);
        case Deadline => exc := Some(Cancelled);
      }
    }

    static method MergeResponse(result: AgentResult, response: Reply)
      requires response.Answer?
      modifies result`rawOutput, result`inputTokens, result`outputTokens, result`model, result`promptVersion
      ensures result.rawOutput == Some(response.content)
      ensures result.inputTokens == old(result.inputTokens) + response.inputTokens
      ensures result.outputTokens == old(result.outputTokens) + response.outputTokens
      ensures result.model == if response.model != "" then response.model else old(result.model)
      ensures result.promptVersion ==
        if response.promptVersion != "" then response.promptVersion else old(result.promptVersion)
    {
      result.rawOutput := Some(response.content);
      result.inputTokens := result.inputTokens + response.inputTokens;
      result.outputTokens := result.outputTokens + response.outputTokens;
      if response.model != "" {
        result.model := response.model;
      }
      if response.promptVersion != "" {
        result.promptVersion := response.promptVersion;
      }
    }
  
    /** The text the repair starts from. */
    static function RawContent(exc: Exc, rawOutput: Option<string>): string {
      if exc.InvalidJson? then exc.rawContent else if rawOutput.Some? then rawOutput.value else ""
    }

    static function ErrorType(exc: Exc): string {
      if exc.InvalidJson? then exc.errorType else JSON_PARSE_ERROR
    }

    method RepairLocally(schema: StepId, rawContent: string, result: AgentResult) returns (done: bool)
      modifies result`output, result`rawOutput, result`success, result`repairsAttempted
      ensures done == Rescued(schemas, schema, rawContent).Some?
      ensures done ==> result.output == Rescued(schemas, schema, rawContent)
      ensures done ==> QuickRepair(rawContent).Some? && QuickRepair(rawContent).value != Lit("null")
      ensures done ==> result.success && result.repairsAttempted == 1
      ensures !done ==> result.output == old(result.output) && result.rawOutput == old(result.rawOutput)
      ensures !done ==> result.success == old(result.success) && result.repairsAttempted == old(result.repairsAttempted)
    {
      var localRepaired := QuickJsonRepair(rawContent);
      if localRepaired == None || localRepaired.value == Lit("null") {
        return false;
      }
      var repairedJson := Text(localRepaired.value, " ");
      var parsed := ValidateJsonOutput(schemas, schema, repairedJson);
      if parsed.Valid? {
        result.output := Some(parsed.instance);
        result.rawOutput := Some(repairedJson);
        result.success := true;
        result.repairsAttempted := 1;
      }
      done := parsed.Valid?;
    }

    method Repair(agent: Agent, schema: StepId, exc: Exc, replies: seq<Reply>, result: AgentResult)
      returns (raised: Option<Exc>)
      requires exc.LlmJsonError? || exc.InvalidJson?
      requires calls < |replies|
      modifies `calls, result
      ensures var raw := RawContent(exc, old(result.rawOutput));
        var local := Rescued(schemas, schema, raw);
        var again := local == None && agent.enableSchemaRepair && Registered(schema);
        var reply := replies[old(calls)];
        var good := if again then Good(schemas, schema, reply) else local;
        var handOver := good == None && (again || !agent.enableSchemaRepair) && !(again && reply == Deadline);
        && calls == old(calls) + (if again then 1 else 0)
        && result.success == (good.Some? || old(result.success))
        && result.output == (if good.Some? then good else old(result.output))
        && result.failureReason == Some(ErrorType(exc))
        && result.needsRepairAgent == (handOver || old(result.needsRepairAgent))
        && (result.repairPayload == if handOver && again then
              Some(RepairPayload(raw, Details(exc), ErrorType(exc))) else old(result.repairPayload))
        && result.needsRetry == old(result.needsRetry)
        && (raised == if again && reply == Deadline then Some(Cancelled)
             else if local == None && agent.enableSchemaRepair && !again then Some(OtherError) else None)
        && result.repairsAttempted ==
             (if local.Some? || (again && Returned(reply)) then 1 else old(result.repairsAttempted))
        && result.inputTokens == old(result.inputTokens) + (if again && Returned(reply) then reply.inputTokens else 0)
        && result.outputTokens ==
             old(result.outputTokens) + (if again && Returned(reply) then reply.outputTokens else 0)
        && (local == None ==>
              result.rawOutput == if again && Returned(reply) then Some(reply.content) else old(result.rawOutput))
        && result.model == (if again && Returned(reply) && reply.model != "" then reply.model else old(result.model))
        && result.promptVersion ==
             (if again && Returned(reply) && reply.promptVersion != "" then reply.promptVersion
              else old(result.promptVersion))
    {
      result.failureReason := Some(ErrorType(exc));
      var rawContent := RawContent(exc, result.rawOutput);
      var done := RepairLocally(schema, rawContent, result);
      if done {
        return None;
      }
      if !agent.enableSchemaRepair {
        result.needsRepairAgent := true;
        return None;
      }
      if !Registered(schema) {
        return Some(OtherError);                    // the repair prompt looks the schema up
      }
      raised := AskAgain(schema, exc, rawContent, replies, result);
    }

    /** Validation of an answer that parses; the accepted instance becomes the output. */
    method StoreIfValid(schema: StepId, content: string, result: AgentResult) returns (parsed: Validated)
      requires Parse(content).Some?
      modifies result`output, result`success
      ensures parsed.Valid? <==> Accepted(schemas, schema, content).Some?
      ensures parsed.Valid? ==> result.success && result.output == Accepted(schemas, schema, content)
      ensures parsed.Invalid? ==> result.success == old(result.success) && result.output == old(result.output)
      ensures parsed.Invalid? ==> parsed.rawContent == content && parsed.errorType == SCHEMA_VALIDATION_ERROR
      ensures parsed.Invalid? ==> Describes(schemas, schema, content, parsed.details)
    {
      parsed := ValidateJsonOutput(schemas, schema, content);
      if parsed.Valid? {
        result.output := Some(parsed.instance);
        result.success := true;
      }
    }

    /** The second call, with the repair prompt. */
    method AskAgain(schema: StepId, exc: Exc, rawContent: string, replies: seq<Reply>, result: AgentResult)
      returns (raised: Option<Exc>)
      requires calls < |replies| && Registered(schema) && result.failureReason == Some(ErrorType(exc))
      modifies `calls, result
      ensures calls == old(calls) + 1
      ensures var good := Good(schemas, schema, replies[old(calls)]);
        && result.success == (good.Some? || old(result.success))
        && result.output == (if good.Some? then good else old(result.output))
      ensures var reply := replies[old(calls)];
        var handOver := Good(schemas, schema, reply) == None && reply != Deadline;
        && raised == (if reply == Deadline then Some(Cancelled) else None)
        && result.needsRepairAgent == (handOver || old(result.needsRepairAgent))
        && (result.repairPayload == if handOver then
              Some(RepairPayload(rawContent, Details(exc), ErrorType(exc))) else old(result.repairPayload))
      ensures result.needsRetry == old(result.needsRetry) && result.failureReason == old(result.failureReason)
      ensures var reply := replies[old(calls)];
        && result.repairsAttempted == (if Returned(reply) then 1 else old(result.repairsAttempted))
        && result.inputTokens == old(result.inputTokens) + (if Returned(reply) then reply.inputTokens else 0)
        && result.outputTokens == old(result.outputTokens) + (if Returned(reply) then reply.outputTokens else 0)
        && result.rawOutput == (if Returned(reply) then Some(reply.content) else old(result.rawOutput))
        && result.model == (if Returned(reply) && reply.model != "" then reply.model else old(result.model))
        && result.promptVersion ==
             (if Returned(reply) && reply.promptVersion != "" then reply.promptVersion else old(result.promptVersion))
    {
      var failed, response := GenerateJson(replies);
      if failed == Some(Cancelled) {
        return failed;
      }
      if failed == None {
        var done := TakeAnswer(schema, response, result);
        if done {
          return None;
        }
      }
      result.needsRepairAgent := true;
      result.repairPayload := Some(RepairPayload(rawContent, Details(exc), ErrorType(exc)));
      return None;
    }

    /** An answer to the repair prompt. */
    method TakeAnswer(schema: StepId, response: Reply, result: AgentResult) returns (done: bool)
      requires Returned(response)
      modifies result`repairsAttempted, result`rawOutput, result`inputTokens, result`outputTokens, result`model,
               result`promptVersion, result`output, result`success
      ensures done <==> Good(schemas, schema, response).Some?
      ensures result.success == (done || old(result.success))
      ensures result.output == if done then Good(schemas, schema, response) else old(result.output)
      ensures result.repairsAttempted == 1 && result.rawOutput == Some(response.content)
      ensures result.inputTokens == old(result.inputTokens) + response.inputTokens
      ensures result.outputTokens == old(result.outputTokens) + response.outputTokens
      ensures result.model == if response.model != "" then response.model else old(result.model)
      ensures result.promptVersion ==
        if response.promptVersion != "" then response.promptVersion else old(result.promptVersion)
    {
      result.repairsAttempted := 1;
      MergeResponse(result, response);
      var parsed := StoreIfValid(schema, response.content, result);
      done := parsed.Valid?;
    }

    static function Details(exc: Exc): seq<string> {
      if exc.InvalidJson? then exc.details else ["JSON parse failed"]
    }

    method Generate(agent: Agent, replies: seq<Reply>, result: AgentResult) returns (raised: Option<Exc>)
      requires calls == 0 && |replies| >= 2
      requires !result.success && result.output == None && result.rawOutput == None && result.failureReason == None
      requires !result.needsRetry && !result.needsRepairAgent && result.repairPayload == None
      requires result.inputTokens == 0 && result.outputTokens == 0 && result.repairsAttempted == 0
      modifies `calls, result
      ensures calls == Calls(schemas, agent, replies[0])
      ensures result.output == Produced(schemas, agent, replies[0], replies[1])
      ensures result.success == result.output.Some?
      ensures result.needsRepairAgent == NeedsRepairAgent(schemas, agent, replies[0], replies[1])
      ensures result.repairPayload.Some? == (result.needsRepairAgent && agent.enableSchemaRepair)
      ensures !result.needsRetry
      ensures raised == None ==> result.failureReason == Reason(schemas, agent, replies[0], replies[1])
      ensures raised.Some? ==> !result.success && !result.needsRepairAgent
      ensures raised.Some? ==> Reason(schemas, agent, replies[0], replies[1]) == Some(ReasonOf(raised.value))
      ensures raised.Some? ==> NeedsRetry(schemas, agent, replies[0], replies[1]) == RetryAfter(raised.value)
      ensures raised == None && !result.success ==> result.needsRepairAgent
      ensures result.repairsAttempted == (if calls == 2 && Returned(replies[1]) then 1 else 0)
      ensures result.inputTokens == Spent(schemas, agent, replies[0], replies[1]).0
      ensures result.outputTokens == Spent(schemas, agent, replies[0], replies[1]).1
      ensures result.repairPayload.Some? ==>
        Tells(schemas, agent, replies[0], result.repairPayload.value, result.failureReason)
      ensures var one := agent.schema.Some? && Returned(replies[0]);
        var two := AsksAgain(schemas, agent, replies[0]) && Returned(replies[1]);
        && result.rawOutput ==
             (if two then Some(replies[1].content) else if one then Some(replies[0].content) else None)
        && result.model ==
             (if two && replies[1].model != "" then replies[1].model
              else if one && replies[0].model != "" then replies[0].model else old(result.model))
        && result.promptVersion ==
             (if two && replies[1].promptVersion != "" then replies[1].promptVersion
              else if one && replies[0].promptVersion != "" then replies[0].promptVersion
              else old(result.promptVersion))
    {
      if agent.schema == None {
        return Some(OtherError);
      }
      var schema := agent.schema.value;
      raised := Ask(schema, replies, result);
      if raised == None || !(raised.value.LlmJsonError? || raised.value.InvalidJson?) {
        return;
      }
      NoLocalRescue(schemas, schema, RawContent(raised.value, result.rawOutput));
      raised := Repair(agent, schema, raised.value, replies, result);
    }

    /** The first call and the validation of its answer. */
    method Ask(schema: StepId, replies: seq<Reply>, result: AgentResult) returns (exc: Option<Exc>)
      requires calls == 0 && |replies| >= 1 && result.rawOutput == None
      modifies `calls, result`rawOutput, result`inputTokens, result`outputTokens, result`model, result`promptVersion,
               result`output, result`success
      ensures calls == 1
      ensures exc == None <==> Good(schemas, schema, replies[0]).Some?
      ensures exc == None ==> result.success && result.output == Good(schemas, schema, replies[0])
      ensures exc.Some? ==> result.success == old(result.success) && result.output == old(result.output)
      ensures replies[0].Answer? && exc.Some? ==>
        if Returned(replies[0]) then exc.value.InvalidJson? && exc.value.rawContent == replies[0].content
          && exc.value.errorType == SCHEMA_VALIDATION_ERROR
          && Describes(schemas, schema, replies[0].content, exc.value.details)
        else exc.value.LlmJsonError? && result.rawOutput == None
      ensures replies[0].Refused? ==> exc == Some(LlmError(replies[0].errorType, replies[0].retryable))
      ensures replies[0] == Crashed ==> exc == Some(OtherError)
      ensures replies[0] == Deadline ==> exc == Some(Cancelled)
      ensures result.inputTokens ==
        old(result.inputTokens) + (if Returned(replies[0]) then replies[0].inputTokens else 0)
      ensures result.outputTokens ==
        old(result.outputTokens) + (if Returned(replies[0]) then replies[0].outputTokens else 0)
      ensures result.rawOutput == if Returned(replies[0]) then Some(replies[0].content) else None
      ensures result.model ==
        if Returned(replies[0]) && replies[0].model != "" then replies[0].model else old(result.model)
      ensures result.promptVersion ==
        if Returned(replies[0]) && replies[0].promptVersion != "" then replies[0].promptVersion
        else old(result.promptVersion)
    {
      var response: Reply;
      exc, response := GenerateJson(replies);
      if exc == None {
        MergeResponse(result, response);
        var parsed := StoreIfValid(schema, response.content, result);
        if parsed.Invalid? {
          exc := Some(InvalidJson(parsed.errorType, parsed.rawContent, parsed.details));
        }
      }
    }

    /** Timeout, validation, repair and error mapping around one agent; `replies` are the client's first two. */
    method Execute(agent: Agent, replies: seq<Reply>) returns (result: AgentResult)
      requires calls == 0 && |replies| >= 2
      modifies `calls
      ensures fresh(result)
      ensures calls == Calls(schemas, agent, replies[0]) <= 2
      ensures result.output == Produced(schemas, agent, replies[0], replies[1])
      ensures result.success == result.output.Some?
      ensures result.failureReason == Reason(schemas, agent, replies[0], replies[1])
      ensures result.needsRepairAgent == NeedsRepairAgent(schemas, agent, replies[0], replies[1])
      ensures result.repairPayload.Some? == (result.needsRepairAgent && agent.enableSchemaRepair)
      ensures result.needsRetry == NeedsRetry(schemas, agent, replies[0], replies[1])
      ensures !result.success ==> result.failureReason.Some? && !(result.needsRepairAgent && result.needsRetry)
      ensures result.needsRepairAgent ==> !result.success
      ensures result.repairsAttempted == (if calls == 2 && Returned(replies[1]) then 1 else 0)
      ensures (result.inputTokens, result.outputTokens) == Spent(schemas, agent, replies[0], replies[1])
      ensures result.repairPayload.Some? ==>
        Tells(schemas, agent, replies[0], result.repairPayload.value, result.failureReason)
      ensures var answers := Returns(schemas, agent, replies[0], replies[1]);
        && result.rawOutput == LastContent(answers)
        && result.model == LastModel(answers, agent.model)
        && result.promptVersion == LastPromptVersion(answers, agent.promptVersion)
    {
      result := new AgentResult(agent.model, agent.promptVersion);
      LastNames(schemas, agent, replies[0], replies[1], agent.model, agent.promptVersion);
      var raised := Generate(agent, replies, result);
      if raised.Some? {
        result.failureReason := Some(ReasonOf(raised.value));
        result.needsRetry := RetryAfter(raised.value);
      }
    }
  }

  /** The failure reason an exception is mapped to. */
  function ReasonOf(exc: Exc): string {
    match exc
    case Cancelled => MODEL_TIMEOUT
    case LlmError(errorType, _) => errorType
    case LlmJsonError => JSON_PARSE_ERROR
    case _ => UNKNOWN_ERROR
  }

  predicate RetryAfter(exc: Exc) {
    exc.LlmError? ==> exc.retryable
  }

  /** The tokens of the calls that returned. */
  function Spent(schemas: Schemas, a: Agent, first: Reply, second: Reply): (nat, nat) {
    var one := if a.schema.Some? && Returned(first) then (first.inputTokens, first.outputTokens) else (0, 0);
    if AsksAgain(schemas, a, first) && Returned(second) then (one.0 + second.inputTokens, one.1 + second.outputTokens)
    else one
  }

}
