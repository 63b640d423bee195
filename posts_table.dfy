/** The posts table of the renderer: shortening of long cells, and the
    checkbox selection that feeds the bulk delete. */
module PostsTable {
  import opened Js
  import opened Notices

  /** Links are shown up to this many characters. */
  const LinkWidth: nat := 30
  /** Content is shown up to this many characters. */
  const ContentWidth: nat := 50

  /** The toasts of `handleDeleteSelected`. */
  const DeletedMessage: string := "Selected posts deleted successfully!"
  const DeleteFailedMessage: string := "Failed to delete selected posts."
  const Ellipsis: string := "..."

  /** `truncateString(str, maxLength)`: a string that fits is shown as it is,
      a longer one is cut to `maxLength` characters and marked with `...`. */
  function TruncateString(s: string, n: nat): (r: string)
    ensures |s| <= n ==> r == s
    ensures |s| > n ==> r == s[..n] + Ellipsis && |r| == n + 3
  {
    if |s| > n then Slice(s, 0, n) + Ellipsis else s
  }

  /** What is shown always starts with as much of the string as fits, and is
      never longer than the width plus the marker. */
  lemma TruncateStringBounds(s: string, n: nat)
    ensures s[..Min(|s|, n)] <= TruncateString(s, n)
    ensures |TruncateString(s, n)| <= n + |Ellipsis|
  {
  }

  /** The link column. */
  function LinkCell(link: string): (r: string)
    ensures |link| <= LinkWidth ==> r == link
    ensures |link| > LinkWidth ==> r == link[..LinkWidth] + Ellipsis
  {
    TruncateString(link, LinkWidth)
  }

  /** The content column: unset content is shown as an empty cell. */
  function ContentCell(content: Option<string>): (r: string)
    ensures content.None? ==> r == ""
    ensures |r| <= ContentWidth + |Ellipsis|
    ensures content.Some? && |content.value| <= ContentWidth ==> r == content.value
    ensures content.Some? && |content.value| > ContentWidth ==> r == content.value[..ContentWidth] + Ellipsis
  {
    TruncateString(content.GetOr(""), ContentWidth)
  }

  /** `prev.filter(key => key !== id)`. */
  function RemoveAll(s: seq<nat>, id: nat): (r: seq<nat>)
    ensures id !in r
    ensures forall k :: k != id ==> (k in r <==> k in s)
    ensures |r| <= |s|
  {
    if s == [] then []
    else (if s[0] == id then [] else [s[0]]) + RemoveAll(s[1..], id)
  }

  /** Filtering keeps order: filtering a selection split in two is filtering
      each part. */
  lemma {:induction false} RemoveAllAppend(a: seq<nat>, b: seq<nat>, id: nat)
    ensures RemoveAll(a + b, id) == RemoveAll(a, id) + RemoveAll(b, id)
  {
    if a == [] {
      assert a + b == b;
    } else {
      var head := if a[0] == id then [] else [a[0]];
      assert (a + b)[0] == a[0] && (a + b)[1..] == a[1..] + b;
      assert RemoveAll(a + b, id) == head + RemoveAll(a[1..] + b, id);
      RemoveAllAppend(a[1..], b, id);
    }
  }

  /** Every occurrence of the id goes, and every other id keeps its count. */
  lemma {:induction false} RemoveAllCounts(s: seq<nat>, id: nat)
    ensures multiset(RemoveAll(s, id)) == multiset(s)[id := 0]
  {
    if s != [] {
      RemoveAllCounts(s[1..], id);
      assert s == [s[0]] + s[1..];
      ZeroAfterAdd(multiset(s[1..]), s[0], id);
    }
  }

  /** Zeroing the count of `id` after adding one `x`. */
  lemma ZeroAfterAdd(m: multiset<nat>, x: nat, id: nat)
    ensures (multiset{x} + m)[id := 0] == if x == id then m[id := 0] else multiset{x} + m[id := 0]
  {
    var lhs := (multiset{x} + m)[id := 0];
    var rhs := if x == id then m[id := 0] else multiset{x} + m[id := 0];
    forall k ensures lhs[k] == rhs[k] {
    }
  }

  /** The selection after a row's checkbox changes: checking appends the id,
      unchecking removes it wherever it occurs. */
  function Toggled(prev: seq<nat>, id: nat, checked: bool): (r: seq<nat>)
    ensures checked ==> |r| == |prev| + 1 && r[..|prev|] == prev && r[|prev|] == id
    ensures !checked ==> id !in r && forall k :: k != id ==> (k in r <==> k in prev)
  {
    if checked then prev + [id] else RemoveAll(prev, id)
  }

  /** The checkbox shows `selectedRowKeys.includes(id)`; after a change it
      shows what was just chosen, and the other rows' boxes are as before. */
  lemma ToggledShowsChoice(prev: seq<nat>, id: nat, checked: bool, other: nat)
    requires other != id
    ensures (id in Toggled(prev, id, checked)) == checked
    ensures (other in Toggled(prev, id, checked)) == (other in prev)
  {
    if checked {
      var r := Toggled(prev, id, checked);
      assert r[|prev|] == id;
      if other in prev {
        var i :| 0 <= i < |prev| && prev[i] == other;
        assert r[i] == other;
      }
    }
  }

  /** The table's `selectedRowKeys` state. */
  class PostSelection {
    var keys: seq<nat>

    constructor ()
      ensures keys == []
    {
      keys := [];
    }

    /** A row's checkbox changes. */
    method OnCheckChange(id: nat, checked: bool)
      modifies this
      ensures keys == Toggled(old(keys), id, checked)
    {
      keys := Toggled(keys, id, checked);
    }

    /** `handleDeleteSelected`: the selection is sent to the main process; on
        success the selection is cleared, when the request rejects it is kept.
        `rejects` stands for the outcome of the request. */
    method DeleteSelected(rejects: bool) returns (request: seq<nat>, notice: Notice)
      modifies this
      ensures request == old(keys)
      ensures keys == if rejects then old(keys) else []
      ensures notice == if rejects then Error(DeleteFailedMessage) else Success(DeletedMessage)
    {
      request := keys;
      if rejects {
        notice := Error(DeleteFailedMessage);
        return;
      }
      notice := Success(DeletedMessage);
      keys := [];
    }
  }
}
