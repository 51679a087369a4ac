/**
 * FrontEnd/src/Pages/UserList.tsx: the searchable list of users and the
 * handlers of its create form.
 */
module UserList {
  import opened Wrappers
  import opened JsonValues
  import opened Strings
  import opened Seqs

  /** The fields of a loaded user that the page reads. */
  datatype UserRow = UserRow(id: string, email: string, name: string)

  /** The search matches the name or the email, ignoring case. */
  predicate Matches(u: UserRow, search: string) {
    IncludesIgnoringCase(u.name, search) || IncludesIgnoringCase(u.email, search)
  }

  /** `query.data?.filter(u => ...) || []`. */
  function FilteredUsers(data: Option<seq<UserRow>>, search: string): seq<UserRow> {
    if data.None? then [] else Filter(data.value, (u: UserRow) => Matches(u, search))
  }

  /** A loaded user is shown exactly when the search matches its name or email. */
  lemma ShownIffMatches(data: seq<UserRow>, search: string)
    ensures forall u :: u in data ==> (u in FilteredUsers(Some(data), search) <==> Matches(u, search))
    ensures forall u :: u in FilteredUsers(Some(data), search) ==> u in data
  {
    var shown := FilteredUsers(Some(data), search);
    forall u | u in shown
      ensures u in data && Matches(u, search)
    {
      var i :| 0 <= i < |shown| && shown[i] == u;
    }
    forall u | u in data && Matches(u, search)
      ensures u in shown
    {
      var i :| 0 <= i < |data| && data[i] == u;
    }
  }

  /** The shown users keep the loaded order. */
  lemma ShownInLoadedOrder(data: seq<UserRow>, search: string)
    ensures IsSubsequence(FilteredUsers(Some(data), search), data)
  {
    FilterIsSubsequence(data, (u: UserRow) => Matches(u, search));
  }

  /** An empty search shows every loaded user. */
  lemma EmptySearchShowsAll(data: seq<UserRow>)
    ensures FilteredUsers(Some(data), "") == data
  {
    forall i | 0 <= i < |data|
      ensures Matches(data[i], "")
    {
      EmptyQueryMatches(data[i].name);
    }
    FilterAll(data, (u: UserRow) => Matches(u, ""));
  }

  /** Without loaded data nothing is shown. */
  lemma NoDataShowsNothing(search: string)
    ensures FilteredUsers(None, search) == []
  {
  }

  /** The page state: `showCreate`, `editingUser`, and the mutations requested so far. */
  class Page {
    var showCreate: bool
    var editing: Option<UserRow>
    var creates: seq<map<string, Json>>
    var deletes: seq<string>

    constructor ()
      ensures !showCreate && editing == None && creates == [] && deletes == []
    {
      showCreate := false;
      editing := None;
      creates := [];
      deletes := [];
    }

    /** The "Add User" button. */
    method OpenCreate()
      modifies this
      ensures showCreate && editing == old(editing) && creates == old(creates) && deletes == old(deletes)
    {
      showCreate := true;
    }

    /** `handleEdit(user)`. */
    method Edit(u: UserRow)
      modifies this
      ensures editing == Some(u) && showCreate == old(showCreate)
      ensures creates == old(creates) && deletes == old(deletes)
    {
      editing := Some(u);
    }

    /** `handleDelete(id)`, where `confirmed` is the answer to the confirmation dialog. */
    method Delete(id: string, confirmed: bool)
      modifies this
      ensures deletes == old(deletes) + (if confirmed then [id] else [])
      ensures showCreate == old(showCreate) && editing == old(editing) && creates == old(creates)
    {
      if confirmed {
        deletes := deletes + [id];
      }
    }

    /**
     * `handleCreateOrUpdate(data)`. With no user being edited, the create
     * mutation runs and, once it resolves, the form is hidden. While editing,
     * the handler refers to `updateMutation`, which this component never
     * obtained, so it throws a ReferenceError and changes nothing.
     */
    method CreateOrUpdate(data: map<string, Json>, createReply: Result<Json, string>) returns (r: Result<Json, string>)
      modifies this
      ensures old(editing).Some? ==>
        && r == Failure("updateMutation is not defined")
        && showCreate == old(showCreate) && creates == old(creates)
      ensures old(editing).None? ==>
        && creates == old(creates) + [data] && r == createReply
        && showCreate == (old(showCreate) && createReply.Failure?)
      ensures editing == old(editing) && deletes == old(deletes)
    {
      if editing.Some? {
        r := Failure("updateMutation is not defined");
      } else {
        creates := creates + [data];
        r := createReply;
        if createReply.Success? {
          showCreate := false;
        }
      }
    }
  }
}
