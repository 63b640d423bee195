/** The keywords table of the renderer: the capped row selection, the
    resolution of selected ids to keyword names for a crawl, and the request
    the edit form sends. */
module KeywordsTable {
  import opened Js
  import opened Entities
  import opened Notices

  /** At most this many keywords can be selected at once. */
  const MaxSelected: nat := 2
  /** The warning a refused selection shows. */
  const TooManyMessage: string := "You can only select up to 2 keywords."
  /** The toasts of `fetchRedditPosts`. */
  const NoneSelectedMessage: string := "No valid keywords selected."
  const FetchingMessage: string := "Fetching Reddit posts for selected keywords."
  const FetchFailedMessage: string := "Failed to fetch Reddit posts."

  /** `data.find(item => item.id === id)?.name`: the name of the first row with
      that id. */
  function FindName(rows: seq<Keyword>, id: nat): (r: Option<string>)
    ensures r.Some? <==> exists i :: 0 <= i < |rows| && rows[i].id == id
    ensures r.Some? ==> exists i :: 0 <= i < |rows| && rows[i].id == id && rows[i].name == r.value
  {
    if rows == [] then None
    else if rows[0].id == id then Some(rows[0].name)
    else
      var r := FindName(rows[1..], id);
      assert forall i :: 1 <= i < |rows| ==> rows[i] == rows[1..][i - 1];
      r
  }

  /** The first row with the id wins over any later duplicate. */
  lemma {:induction false} FindNameFirst(rows: seq<Keyword>, id: nat, i: nat)
    requires i < |rows| && rows[i].id == id
    requires forall j :: 0 <= j < i ==> rows[j].id != id
    ensures FindName(rows, id) == Some(rows[i].name)
  {
    if i > 0 {
      FindNameFirst(rows[1..], id, i - 1);
    }
  }

  /** `selectedRowKeys.map(key => FindName(data, key)).filter(Boolean)`: names
      of the selected keywords in selection order; an id with no row and an
      empty name are dropped. */
  function ResolveKeywords(selected: seq<nat>, rows: seq<Keyword>): (r: seq<string>)
    ensures |r| <= |selected|
    ensures forall name :: name in r ==> name != ""
  {
    if selected == [] then [] else Resolved(rows, selected[0]) + ResolveKeywords(selected[1..], rows)
  }

  /** The name one selected id contributes: none when no row has it or its
      name is empty. */
  function Resolved(rows: seq<Keyword>, id: nat): seq<string> {
    match FindName(rows, id)
    case Some(name) => if name != "" then [name] else []
    case None => []
  }

  /** Resolution keeps selection order. */
  lemma {:induction false} ResolveKeywordsAppend(a: seq<nat>, b: seq<nat>, rows: seq<Keyword>)
    ensures ResolveKeywords(a + b, rows) == ResolveKeywords(a, rows) + ResolveKeywords(b, rows)
  {
    if a == [] {
      assert a + b == b && ResolveKeywords(a, rows) == [];
    } else {
      var rest := a[1..];
      ResolveKeywordsFirst(a + b, rows);
      ResolveKeywordsFirst(a, rows);
      assert (a + b)[0] == a[0] && (a + b)[1..] == rest + b;
      ResolveKeywordsAppend(rest, b, rows);
      ConcatAssoc(Resolved(rows, a[0]), ResolveKeywords(rest, rows), ResolveKeywords(b, rows));
    }
  }

  /** The names of a non-empty selection: those of its first id, then the
      rest. */
  lemma ResolveKeywordsFirst(selected: seq<nat>, rows: seq<Keyword>)
    requires selected != []
    ensures ResolveKeywords(selected, rows) == Resolved(rows, selected[0]) + ResolveKeywords(selected[1..], rows)
  {
  }

  /** A name is sent exactly when some selected id finds it and it is not
      empty. */
  lemma {:induction false} ResolveKeywordsMembers(selected: seq<nat>, rows: seq<Keyword>, name: string)
    ensures name in ResolveKeywords(selected, rows) <==>
      name != "" && exists i :: 0 <= i < |selected| && FindName(rows, selected[i]) == Some(name)
  {
    if selected != [] {
      ResolveKeywordsMembers(selected[1..], rows, name);
      if exists i :: 1 <= i < |selected| && FindName(rows, selected[i]) == Some(name) {
        var i :| 1 <= i < |selected| && FindName(rows, selected[i]) == Some(name);
        assert FindName(rows, selected[1..][i - 1]) == Some(name);
      }
      if exists i :: 0 <= i < |selected[1..]| && FindName(rows, selected[1..][i]) == Some(name) {
        var i :| 0 <= i < |selected[1..]| && FindName(rows, selected[1..][i]) == Some(name);
        assert FindName(rows, selected[i + 1]) == Some(name);
      }
    }
  }

  /** Every selected id with a named row is resolved exactly when nothing is
      dropped. */
  lemma {:induction false} ResolveKeywordsComplete(selected: seq<nat>, rows: seq<Keyword>)
    ensures |ResolveKeywords(selected, rows)| == |selected| <==>
      forall i :: 0 <= i < |selected| ==> FindName(rows, selected[i]).Some? && FindName(rows, selected[i]).value != ""
  {
    if selected != [] {
      ResolveKeywordsComplete(selected[1..], rows);
      assert forall i :: 1 <= i < |selected| ==> selected[i] == selected[1..][i - 1];
    }
  }

  /** The table's `selectedRowKeys` state. */
  class KeywordSelection {
    var keys: seq<nat>

    /** The cap is never exceeded. */
    predicate Valid()
      reads this
    {
      |keys| <= MaxSelected
    }

    constructor ()
      ensures Valid() && keys == []
    {
      keys := [];
    }

    /** `onSelectChange`: a new selection of at most two keys replaces the
        old one; a larger one is refused with a warning and changes nothing. */
    method OnSelectChange(newKeys: seq<nat>) returns (notice: Option<Notice>)
      requires Valid()
      modifies this
      ensures Valid()
      ensures notice.None? <==> |newKeys| <= MaxSelected
      ensures notice.Some? ==> notice.value == Warning(TooManyMessage)
      ensures keys == if notice.None? then newKeys else old(keys)
    {
      if |newKeys| <= MaxSelected {
        keys := newKeys;
        notice := None;
      } else {
        notice := Some(Warning(TooManyMessage));
      }
    }

    /** `fetchRedditPosts`: the selected ids are resolved against the table
        rows; when nothing is left a warning is shown and no request is sent,
        otherwise the names are sent. Whatever happens, the selection is
        cleared. `rejects` stands for the outcome of the request. */
    method FetchRedditPosts(rows: seq<Keyword>, rejects: bool) returns (request: Option<seq<string>>, notice: Notice)
      requires Valid()
      modifies this
      ensures Valid() && keys == []
      ensures request.None? <==> ResolveKeywords(old(keys), rows) == []
      ensures request.Some? ==> request.value == ResolveKeywords(old(keys), rows)
      ensures notice == if request.None? then Warning(NoneSelectedMessage)
                        else if rejects then Error(FetchFailedMessage)
                        else Success(FetchingMessage)
    {
      var names := ResolveKeywords(keys, rows);
      if names == [] {
        request, notice := None, Warning(NoneSelectedMessage);
      } else {
        request := Some(names);
        notice := if rejects then Error(FetchFailedMessage) else Success(FetchingMessage);
      }
      keys := [];
    }
  }

  /** The edit form's values; a field the form did not report is `None`. */
  datatype FormValues = FormValues(name: Option<string>)

  /** What the form submits to the main process. */
  datatype KeywordRequest = UpdateRequest(keyword: Keyword) | CreateRequest(values: FormValues)

  /** `onFinish`: while a keyword is being edited the form sends it with the
      form's fields laid over it; otherwise it asks for a new keyword. */
  function SubmitRequest(editing: Option<Keyword>, values: FormValues): (r: KeywordRequest)
    ensures editing.None? ==> r == CreateRequest(values)
    ensures editing.Some? ==> r.UpdateRequest? && r.keyword.id == editing.value.id
    ensures editing.Some? && values.name.Some? ==> r.keyword.name == values.name.value
    ensures editing.Some? && values.name.None? ==> r.keyword == editing.value
  {
    match editing
    case None => CreateRequest(values)
    case Some(k) => UpdateRequest(k.(name := values.name.GetOr(k.name)))
  }
}
