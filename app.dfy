/**
 * FrontEnd/src/App.js: the workflow list with its name filter, the create
 * box, and the Select/Run buttons of each row.
 */
module App {
  import opened Wrappers
  import opened JsonValues
  import opened Strings
  import opened Seqs
  import opened Types

  /** `wf.name.toLowerCase().includes(searchQuery.toLowerCase())`. */
  predicate NameMatches(wf: Workflow, query: string) {
    IncludesIgnoringCase(wf.name, query)
  }

  /** The rows listed for the search query. */
  function VisibleWorkflows(workflows: seq<Workflow>, query: string): seq<Workflow> {
    Filter(workflows, (wf: Workflow) => NameMatches(wf, query))
  }

  /** A workflow is listed exactly when its name contains the query, ignoring case, and the order is kept. */
  lemma VisibleIffNameMatches(workflows: seq<Workflow>, query: string)
    ensures forall wf :: wf in workflows ==> (wf in VisibleWorkflows(workflows, query) <==> NameMatches(wf, query))
    ensures forall wf :: wf in VisibleWorkflows(workflows, query) ==> wf in workflows
    ensures IsSubsequence(VisibleWorkflows(workflows, query), workflows)
  {
    var shown := VisibleWorkflows(workflows, query);
    forall wf | wf in shown
      ensures wf in workflows && NameMatches(wf, query)
    {
      var i :| 0 <= i < |shown| && shown[i] == wf;
    }
    forall wf | wf in workflows && NameMatches(wf, query)
      ensures wf in shown
    {
      var i :| 0 <= i < |workflows| && workflows[i] == wf;
    }
    FilterIsSubsequence(workflows, (wf: Workflow) => NameMatches(wf, query));
  }

  /** An empty query lists every workflow. */
  lemma EmptyQueryListsAll(workflows: seq<Workflow>)
    ensures VisibleWorkflows(workflows, "") == workflows
  {
    forall i | 0 <= i < |workflows|
      ensures NameMatches(workflows[i], "")
    {
      EmptyQueryMatches(workflows[i].name);
    }
    FilterAll(workflows, (wf: Workflow) => NameMatches(wf, ""));
  }

  /** `disabled={!selectedId || selectedId !== wf.id || loading}`, negated. */
  predicate RunEnabled(selectedId: Option<string>, rowId: string, loading: bool) {
    !(selectedId.None? || selectedId.value == "" || selectedId.value != rowId || loading)
  }

  /** A row's Run button is enabled only for the selected row, with a non-empty id, while nothing loads. */
  lemma RunEnabledIff(selectedId: Option<string>, rowId: string, loading: bool)
    ensures RunEnabled(selectedId, rowId, loading) <==> selectedId == Some(rowId) && rowId != "" && !loading
    ensures RunEnabled(selectedId, rowId, loading) ==> forall other :: other != rowId ==> !RunEnabled(selectedId, other, loading)
  {
  }

  /** The Create button: `disabled={loading || !name}`, negated. */
  predicate CreateEnabled(loading: bool, name: string) {
    !loading && name != ""
  }

  /** The input `executeWorkflow` is called with. */
  const SampleInput: map<string, Json> := map["sample" := JStr("input")]

  /** The page state: `name`, `selectedId`, and the hook calls made so far. */
  class Page {
    var name: string
    var selectedId: Option<string>
    var created: seq<string>
    var executed: seq<(string, map<string, Json>)>

    constructor ()
      ensures name == "" && selectedId == None && created == [] && executed == []
    {
      name := "";
      selectedId := None;
      created := [];
      executed := [];
    }

    /** Typing into the name input. */
    method SetName(text: string)
      modifies this
      ensures name == text && selectedId == old(selectedId) && created == old(created) && executed == old(executed)
    {
      name := text;
    }

    /** A row's Select button. */
    method Select(id: string)
      modifies this
      ensures selectedId == Some(id) && name == old(name) && created == old(created) && executed == old(executed)
    {
      selectedId := Some(id);
    }

    /** `handleCreate`: create a workflow only for a non-empty name, and clear the name either way. */
    method HandleCreate()
      modifies this
      ensures created == old(created) + (if old(name) != "" then [old(name)] else [])
      ensures name == ""
      ensures selectedId == old(selectedId) && executed == old(executed)
    {
      if name != "" {
        created := created + [name];
      }
      name := "";
    }

    /** `handleExecute`: nothing without a selection, otherwise run the selected workflow on the sample input. */
    method HandleExecute()
      modifies this
      ensures old(selectedId).None? || old(selectedId).value == "" ==> executed == old(executed)
      ensures old(selectedId).Some? && old(selectedId).value != "" ==>
        executed == old(executed) + [(old(selectedId).value, SampleInput)]
      ensures name == old(name) && selectedId == old(selectedId) && created == old(created)
    {
      if selectedId.Some? && selectedId.value != "" {
        executed := executed + [(selectedId.value, SampleInput)];
      }
    }
  }
}
