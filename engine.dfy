/**
 * The execution loop shared by both versions of `WorkflowExecutor.execute`
 * (BackEnd/src/engine/executor.ts:11-27 and executor.js:13-28) and the retry
 * job of `handleError`. The version-specific part, `runNode`, is passed in as
 * a Runner.
 */
module Engine {
  import opened Wrappers
  import opened JsonValues
  import opened Types

  /**
   * `runNode` applied to the node at position `step` of the sorted list: its
   * result, or the message of the error it throws.
   */
  type Runner = (nat, Node) -> Result<Json, string>

  datatype Backoff = Backoff(kind: string, delay: nat)

  /** A job added to the `workflows` queue: its name, its data `{node, context}` and its options. */
  datatype RetryJob = RetryJob(name: string, node: Node, context: Context, attempts: nat, backoff: Backoff)

  /** The job `handleError` adds: three attempts with exponential backoff from 1000 ms. */
  function RetryJobFor(node: Node, context: Context): RetryJob {
    RetryJob("retry", node, context, 3, Backoff("exponential", 1000))
  }

  /** The job queue, seen as the sequence of jobs added so far; delivery is not modelled. */
  class RetryQueue {
    var jobs: seq<RetryJob>

    constructor ()
      ensures jobs == []
    {
      jobs := [];
    }

    method Add(job: RetryJob)
      modifies this
      ensures jobs == old(jobs) + [job]
    {
      jobs := jobs + [job];
    }
  }

  /** The ids of the nodes of `s`. */
  function Ids(s: seq<Node>): set<string> {
    set j | 0 <= j < |s| :: s[j].id
  }

  /** The output map after running the nodes of `s` in order, each result stored under its id. */
  function Outputs(s: seq<Node>, run: Runner): map<string, Json>
    decreases |s|
  {
    if s == [] then map[]
    else
      var last := |s| - 1;
      var before := Outputs(s[..last], run);
      match run(last, s[last])
      case Success(v) => before[s[last].id := v]
      case Failure(_) => before
  }

  /** The first position at or after `from` whose node throws. */
  function FirstFailureFrom(s: seq<Node>, run: Runner, from: nat): (r: Option<nat>)
    requires from <= |s|
    ensures r.Some? ==> from <= r.value < |s| && run(r.value, s[r.value]).Failure?
    ensures r.Some? ==> forall j :: from <= j < r.value ==> run(j, s[j]).Success?
    ensures r.None? ==> forall j :: from <= j < |s| ==> run(j, s[j]).Success?
    decreases |s| - from
  {
    if from == |s| then None
    else if run(from, s[from]).Failure? then Some(from)
    else FirstFailureFrom(s, run, from + 1)
  }

  function FirstFailure(s: seq<Node>, run: Runner): Option<nat> {
    FirstFailureFrom(s, run, 0)
  }

  /** The number of nodes that ran to completion: all, or those before the first failure. */
  function Completed(s: seq<Node>, run: Runner): (n: nat)
    ensures n <= |s|
    ensures forall j :: 0 <= j < n ==> run(j, s[j]).Success?
    ensures n < |s| ==> run(n, s[n]).Failure?
  {
    match FirstFailure(s, run)
    case None => |s|
    case Some(k) => k
  }

  /** The result of one execution: the returned context and the jobs it enqueued. */
  datatype Outcome = Outcome(context: Context, jobs: seq<RetryJob>)

  /**
   * `execute` on an already sorted list: outputs of the nodes before the
   * first failure; at a failure, its message and one retry job.
   */
  function Run(s: seq<Node>, input: map<string, Json>, run: Runner): (out: Outcome)
    ensures out.context.input == input
    ensures |out.jobs| <= 1
    ensures out.context.error.None? <==> out.jobs == []
  {
    var output := Outputs(s[..Completed(s, run)], run);
    match FirstFailure(s, run)
    case None => Outcome(Context(input, output, None), [])
    case Some(k) =>
      var context := Context(input, output, Some(run(k, s[k]).error));
      Outcome(context, [RetryJobFor(s[k], context)])
  }

  // ------------------------------------------------------------- the loop

  /** The `for ... try ... catch ... break` loop of `execute`, writing into `context`. */
  method RunSorted(nodes: array<Node>, input: map<string, Json>, run: Runner, queue: RetryQueue)
    returns (context: Context)
    modifies queue
    ensures context == Run(nodes[..], input, run).context
    ensures queue.jobs == old(queue.jobs) + Run(nodes[..], input, run).jobs
  {
    context := Context(input, map[], None);
    var i := 0;
    while i < nodes.Length
      invariant 0 <= i <= nodes.Length
      invariant forall j :: 0 <= j < i ==> run(j, nodes[j]).Success?
      invariant context == Context(input, Outputs(nodes[..i], run), None)
      invariant queue.jobs == old(queue.jobs)
    {
      var node := nodes[i];
      match run(i, node) {
        case Failure(message) =>
          context := context.(error := Some(message));
          queue.Add(RetryJobFor(node, context));
          FirstFailureAt(nodes[..], run, 0, i);
          break;
        case Success(value) =>
          context := context.(output := context.output[node.id := value]);
          assert nodes[..i + 1][..i] == nodes[..i];
      }
      i := i + 1;
    }
    if i == nodes.Length {
      NoFailure(nodes[..], run, 0);
      assert nodes[..][..i] == nodes[..i];
    }
  }

  // ------------------------------------------------------ first failure

  lemma {:induction false} FirstFailureAt(s: seq<Node>, run: Runner, from: nat, k: nat)
    requires from <= k < |s| && run(k, s[k]).Failure?
    requires forall j :: from <= j < k ==> run(j, s[j]).Success?
    ensures FirstFailureFrom(s, run, from) == Some(k)
    decreases k - from
  {
    if from < k {
      FirstFailureAt(s, run, from + 1, k);
    }
  }

  lemma {:induction false} NoFailure(s: seq<Node>, run: Runner, from: nat)
    requires from <= |s|
    requires forall j :: from <= j < |s| ==> run(j, s[j]).Success?
    ensures FirstFailureFrom(s, run, from) == None
    decreases |s| - from
  {
    if from < |s| {
      NoFailure(s, run, from + 1);
    }
  }

  // ---------------------------------------------------------- outputs

  /** When every node succeeds, the output keys are exactly the nodes' ids. */
  lemma {:induction false} OutputKeys(s: seq<Node>, run: Runner)
    requires forall j :: 0 <= j < |s| ==> run(j, s[j]).Success?
    ensures Outputs(s, run).Keys == Ids(s)
    decreases |s|
  {
    if s != [] {
      var last := |s| - 1;
      OutputKeys(s[..last], run);
      assert Ids(s) == Ids(s[..last]) + {s[last].id} by {
        forall x | x in Ids(s) ensures x in Ids(s[..last]) + {s[last].id} {
          var j :| 0 <= j < |s| && s[j].id == x;
          if j < last {
            assert s[..last][j] == s[j];
          }
        }
        forall x | x in Ids(s[..last]) ensures x in Ids(s) {
          var j :| 0 <= j < last && s[..last][j].id == x;
          assert s[j] == s[..last][j];
        }
      }
    }
  }

  /** A node's id maps to its result unless a later node has the same id and overwrote it. */
  lemma {:induction false} OutputOfLastWithId(s: seq<Node>, run: Runner, j: nat)
    requires j < |s|
    requires forall l :: 0 <= l < |s| ==> run(l, s[l]).Success?
    requires forall l :: j < l < |s| ==> s[l].id != s[j].id
    ensures s[j].id in Outputs(s, run) && Outputs(s, run)[s[j].id] == run(j, s[j]).value
    decreases |s|
  {
    var last := |s| - 1;
    if j < last {
      OutputOfLastWithId(s[..last], run, j);
    }
  }

  /** Only the first `n` nodes matter for the outputs of the first `n` nodes. */
  /** Every output key is the id of a node that ran. */
  lemma {:induction false} OutputKeysAreIds(s: seq<Node>, run: Runner)
    ensures Outputs(s, run).Keys <= Ids(s)
    decreases |s|
  {
    if s != [] {
      var last := |s| - 1;
      OutputKeysAreIds(s[..last], run);
      assert forall j :: 0 <= j < last ==> s[..last][j] == s[j];
      assert Ids(s[..last]) <= Ids(s);
      assert s[last].id in Ids(s);
    }
  }

  lemma OutputsOfSamePrefix(s: seq<Node>, t: seq<Node>, n: nat, run: Runner)
    requires n <= |s| && n <= |t| && s[..n] == t[..n]
    ensures Outputs(s[..n], run) == Outputs(t[..n], run)
  {
  }

  // ----------------------------------------------------------- properties

  /** The returned context carries the input unchanged. */
  lemma RunKeepsInput(s: seq<Node>, input: map<string, Json>, run: Runner)
    ensures Run(s, input, run).context.input == input
  {
  }

  /**
   * The output keys are the ids of an initial segment of the list: all of it
   * when nothing throws, and otherwise the nodes before the first failure.
   */
  lemma RunOutputKeys(s: seq<Node>, input: map<string, Json>, run: Runner)
    ensures var n := Completed(s, run);
      Run(s, input, run).context.output.Keys == Ids(s[..n])
      && (n < |s| <==> Run(s, input, run).context.error.Some?)
  {
    var n := Completed(s, run);
    assert forall j :: 0 <= j < n ==> s[..n][j] == s[j];
    OutputKeys(s[..n], run);
  }

  /**
   * No error and no job exactly when every node succeeds; then every node's
   * id is an output key, holding its result unless a later node with the
   * same id overwrote it.
   */
  lemma RunWithoutFailure(s: seq<Node>, input: map<string, Json>, run: Runner)
    ensures Run(s, input, run).context.error.None? <==> forall j :: 0 <= j < |s| ==> run(j, s[j]).Success?
    ensures Run(s, input, run).context.error.None? <==> Run(s, input, run).jobs == []
    ensures Run(s, input, run).context.error.None? ==>
      && Run(s, input, run).context.output.Keys == Ids(s)
      && forall j :: 0 <= j < |s| && (forall l :: j < l < |s| ==> s[l].id != s[j].id) ==>
           Run(s, input, run).context.output[s[j].id] == run(j, s[j]).value
  {
    if forall j :: 0 <= j < |s| ==> run(j, s[j]).Success? {
      NoFailure(s, run, 0);
      assert s[..|s|] == s;
      OutputKeys(s, run);
      forall j | 0 <= j < |s| && (forall l :: j < l < |s| ==> s[l].id != s[j].id)
        ensures Run(s, input, run).context.output[s[j].id] == run(j, s[j]).value
      {
        OutputOfLastWithId(s, run, j);
      }
    }
  }

  /**
   * At the first node that throws: the error is its message, exactly one
   * retry job `{node, context}` with 3 attempts and exponential backoff of
   * 1000 ms is enqueued, and the outputs are those of the earlier nodes.
   */
  lemma RunStopsAtFirstFailure(s: seq<Node>, input: map<string, Json>, run: Runner, k: nat)
    requires k < |s| && run(k, s[k]).Failure?
    requires forall j :: 0 <= j < k ==> run(j, s[j]).Success?
    ensures var out := Run(s, input, run);
      && out.context == Context(input, Outputs(s[..k], run), Some(run(k, s[k]).error))
      && out.jobs == [RetryJob("retry", s[k], out.context, 3, Backoff("exponential", 1000))]
      && out.context.output.Keys == Ids(s[..k])
  {
    FirstFailureAt(s, run, 0, k);
    assert forall j :: 0 <= j < k ==> s[..k][j] == s[j];
    OutputKeys(s[..k], run);
  }

  /**
   * No node after the first failure runs: replacing every later node leaves
   * the outcome unchanged.
   */
  lemma RunIgnoresNodesAfterFailure(s: seq<Node>, t: seq<Node>, input: map<string, Json>, run: Runner, k: nat)
    requires k < |s| && k < |t| && s[..k + 1] == t[..k + 1]
    requires run(k, s[k]).Failure?
    requires forall j :: 0 <= j < k ==> run(j, s[j]).Success?
    ensures Run(s, input, run) == Run(t, input, run)
  {
    assert t[k] == s[k] by { assert s[..k + 1][k] == s[k] && t[..k + 1][k] == t[k]; }
    assert forall j :: 0 <= j < k ==> t[j] == s[j] by {
      assert forall j :: 0 <= j < k ==> s[..k + 1][j] == s[j] && t[..k + 1][j] == t[j];
    }
    FirstFailureAt(s, run, 0, k);
    FirstFailureAt(t, run, 0, k);
    assert s[..k] == t[..k] by { assert s[..k] == s[..k + 1][..k] && t[..k] == t[..k + 1][..k]; }
  }

  /** With distinct ids, the failing node and every later node have no output entry. */
  lemma RunNoEntryFromFailureOn(s: seq<Node>, input: map<string, Json>, run: Runner, k: nat)
    requires forall p, q :: 0 <= p < q < |s| ==> s[p].id != s[q].id
    requires k < |s| && run(k, s[k]).Failure?
    requires forall j :: 0 <= j < k ==> run(j, s[j]).Success?
    ensures forall j :: k <= j < |s| ==> s[j].id !in Run(s, input, run).context.output
  {
    RunStopsAtFirstFailure(s, input, run, k);
    forall j | k <= j < |s|
      ensures s[j].id !in Ids(s[..k])
    {
      assert forall p :: 0 <= p < k ==> s[..k][p] == s[p] && s[p].id != s[j].id;
    }
  }

  /** Two runners that agree on every node of the list produce the same outcome. */
  lemma SameRunWhenRunnersAgree(s: seq<Node>, input: map<string, Json>, r1: Runner, r2: Runner)
    requires forall j :: 0 <= j < |s| ==> r1(j, s[j]) == r2(j, s[j])
    ensures Run(s, input, r1) == Run(s, input, r2)
  {
    SameFirstFailure(s, r1, r2, 0);
    SameOutputs(s[..Completed(s, r1)], r1, r2);
  }

  lemma {:induction false} SameFirstFailure(s: seq<Node>, r1: Runner, r2: Runner, from: nat)
    requires from <= |s|
    requires forall j :: 0 <= j < |s| ==> r1(j, s[j]) == r2(j, s[j])
    ensures FirstFailureFrom(s, r1, from) == FirstFailureFrom(s, r2, from)
    decreases |s| - from
  {
    if from < |s| {
      SameFirstFailure(s, r1, r2, from + 1);
    }
  }

  lemma {:induction false} SameOutputs(s: seq<Node>, r1: Runner, r2: Runner)
    requires forall j :: 0 <= j < |s| ==> r1(j, s[j]) == r2(j, s[j])
    ensures Outputs(s, r1) == Outputs(s, r2)
    decreases |s|
  {
    if s != [] {
      var last := |s| - 1;
      assert forall j :: 0 <= j < last ==> s[..last][j] == s[j];
      SameOutputs(s[..last], r1, r2);
    }
  }
}
