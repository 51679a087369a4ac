/**
 * `WorkflowExecutor` of BackEnd/src/engine/executor.ts: sort the workflow's
 * nodes by vertical position, run them in order, stop at the first error
 * and enqueue a retry job for the failing node.
 */
module ExecutorTs {
  import opened Wrappers
  import opened JsonValues
  import opened Types
  import opened Strings
  import opened NodeOrder
  import opened Engine

  /**
   * What `runNode` takes from the outside world: the current time as an ISO
   * text for the node run at a given step, `JSON.stringify` of the input, and
   * the chat-completion call, which yields the first choice's message content
   * (`None` when absent or null) or the message of the error it throws.
   */
  datatype Env = Env(
    clock: nat -> string,
    stringify: map<string, Json> -> string,
    complete: (string, string) -> Result<Option<string>, string>)

  const Model := "gpt-3.5-turbo"
  const Placeholder := "{{input}}"

  /** The prompt sent for template `template`: its first `{{input}}` replaced by the stringified input. */
  function SentPrompt(template: string, input: map<string, Json>, env: Env): string {
    ReplaceFirst(template, Placeholder, env.stringify(input))
  }

  /** `content || 'No response'`. */
  function ResponseText(content: Option<string>): (text: string)
    ensures text != ""
    ensures content.Some? && content.value != "" <==> content == Some(text)
  {
    if content.Some? && content.value != "" then content.value else "No response"
  }

  /** The error thrown by `node.data.prompt.replace(...)` when the prompt is not a string. */
  function ReplaceError(prompt: Option<Json>): string {
    match prompt
    case None => "Cannot read properties of undefined (reading 'replace')"
    case Some(JNull) => "Cannot read properties of null (reading 'replace')"
    case Some(_) => "node.data.prompt.replace is not a function"
  }

  /** `runNode(node, context)` for the node run at position `step`. */
  function RunNode(node: Node, step: nat, input: map<string, Json>, env: Env): (r: Result<Json, string>)
    ensures node.kind.Other? ==> r == Failure("Unknown node type: " + KindName(node.kind))
    ensures r.Failure? ==> node.kind.Other? || node.kind == Ai
    ensures node.kind == Trigger ==> r == Success(JObj(map["triggeredAt" := JStr(env.clock(step))]))
    ensures node.kind == Action ==>
      && r.Success? && r.value.JObj? && r.value.fields.Keys == {"status", "data"}
      && r.value.fields["status"] == JStr("success") && r.value.fields["data"] == JObj(node.data)
    ensures node.kind == Logic ==>
      && r.Success? && r.value in {JStr("true"), JStr("false")}
      && (r.value == JStr("true") <==> Truthy(Get(node.data, "condition")))
    ensures node.kind == Web3 ==> r == Success(JObj(map["txHash" := JStr("0xstub")]))
    ensures node.kind == Ai ==>
      var prompt := Get(node.data, "prompt");
      if prompt.Some? && prompt.value.JStr? then
        var reply := env.complete(Model, SentPrompt(prompt.value.s, input, env));
        && (r.Failure? <==> reply.Failure?)
        && (reply.Failure? ==> r.error == reply.error)
        && (r.Success? ==>
             && r.value.JObj? && r.value.fields.Keys == {"response"}
             && r.value.fields["response"] == JStr(ResponseText(reply.value)))
      else r == Failure(ReplaceError(prompt))
  {
    match node.kind
    case Trigger => Success(JObj(map["triggeredAt" := JStr(env.clock(step))]))
    case Action => Success(JObj(map["status" := JStr("success"), "data" := JObj(node.data)]))
    case Logic => Success(JStr(if Truthy(Get(node.data, "condition")) then "true" else "false"))
    case Ai =>
      var prompt := Get(node.data, "prompt");
      if prompt.Some? && prompt.value.JStr? then
        match env.complete(Model, SentPrompt(prompt.value.s, input, env))
        case Failure(message) => Failure(message)
        case Success(content) => Success(JObj(map["response" := JStr(ResponseText(content))]))
      else Failure(ReplaceError(prompt))
    case Web3 => Success(JObj(map["txHash" := JStr("0xstub")]))
    case Other(name) => Failure("Unknown node type: " + name)
  }

  /** `runNode` for one execution; the input in the context never changes during a run. */
  function Runner(input: map<string, Json>, env: Env): Engine.Runner {
    (step: nat, node: Node) => RunNode(node, step, input, env)
  }

  /** `WorkflowExecutor.execute(workflow, input)`; `nodes` is `workflow.nodes`, which the sort reorders. */
  method Execute(nodes: array<Node>, input: map<string, Json>, env: Env, queue: RetryQueue)
    returns (context: Context)
    modifies nodes, queue
    ensures SortOutcome(CompareByY, old(nodes[..]), nodes[..])
    ensures context == Run(nodes[..], input, Runner(input, env)).context
    ensures queue.jobs == old(queue.jobs) + Run(nodes[..], input, Runner(input, env)).jobs
  {
    SortInPlace(nodes, CompareByY);
    context := RunSorted(nodes, input, Runner(input, env), queue);
  }

  // ----------------------------------------------------------- properties

  /**
   * The nodes run in ascending `position.y` (absent counts as 0), nodes with
   * equal keys keep their order, none is lost or duplicated, and this fixes
   * the order completely.
   */
  lemma SortedByPosition(s: seq<Node>, t: seq<Node>)
    requires SortOutcome(CompareByY, s, t)
    ensures SortedByKey(t) && KeyStable(t, s) && multiset(t) == multiset(s)
    ensures forall u :: SortOutcome(CompareByY, s, u) ==> u == t
  {
    CompareByYAgreesWithKey(s);
    forall u | SortOutcome(CompareByY, s, u)
      ensures u == t
    {
      SortOutcomeDeterministic(CompareByY, CompareByY, s, u, t);
    }
  }

  /**
   * The first `{{input}}` of the template is replaced by the stringified
   * input; the text around it, later placeholders included, is sent as is.
   */
  lemma SentPromptSubstitutes(pre: string, post: string, input: map<string, Json>, env: Env)
    requires forall j :: 0 <= j < |pre| ==> !OccursAt(pre + Placeholder + post, Placeholder, j)
    ensures SentPrompt(pre + Placeholder + post, input, env) == pre + env.stringify(input) + post
  {
    ReplaceFirstAtFirstOccurrence(pre + Placeholder + post, Placeholder, env.stringify(input), pre, post);
  }

  /** A template without a placeholder is sent unchanged. */
  lemma SentPromptWithoutPlaceholder(template: string, input: map<string, Json>, env: Env)
    requires !Includes(template, Placeholder)
    ensures SentPrompt(template, input, env) == template
  {
    IncludesMeansOccurs(template, Placeholder);
    ReplaceFirstAbsent(template, Placeholder, env.stringify(input));
  }

  /**
   * A workflow without AI nodes and without nodes of unknown type always
   * completes: no error, no retry job, and an output for every node id.
   */
  lemma CompletesWithoutAiOrUnknown(s: seq<Node>, input: map<string, Json>, env: Env)
    requires forall j :: 0 <= j < |s| ==> s[j].kind != Ai && !s[j].kind.Other?
    ensures Run(s, input, Runner(input, env)).context.error == None
    ensures Run(s, input, Runner(input, env)).jobs == []
    ensures Run(s, input, Runner(input, env)).context.output.Keys == Ids(s)
  {
    RunWithoutFailure(s, input, Runner(input, env));
  }
}
