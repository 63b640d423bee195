/** The `updateKeyword` and `deleteKeyword` handlers of the main process: look
    the keyword up by id, answer "not found" when it is missing, otherwise
    rename or remove that one row. A thrown store error is caught and answered
    with a failure. */
module KeywordHandlers {
  import opened Js
  import opened Entities

  /** The `{ success, message }` answer sent back to the renderer. */
  datatype Reply = Reply(success: bool, message: string)

  /** Which store call throws, if any: the lookup, or the write after it. */
  datatype StoreFault = NoFault | FindThrows | WriteThrows

  const NotFoundMessage: string := "Post not found."
  const UpdatedMessage: string := "Keyword updated successfully."
  const DeletedMessage: string := "Keyword deleted successfully."
  /** Both handlers answer a thrown store error with this text. */
  const FailedMessage: string := "Failed to update keyword."

  /** The answer both handlers give: a thrown lookup fails, a missing id is
      "not found", a thrown write fails, anything else succeeds. */
  function Decide(found: bool, fault: StoreFault, success: string): (r: Reply)
    ensures r.success <==> found && fault.NoFault?
    ensures r.success ==> r.message == success
    ensures !fault.FindThrows? && !found ==> r == Reply(false, NotFoundMessage)
    ensures fault.FindThrows? || (found && fault.WriteThrows?) ==> r == Reply(false, FailedMessage)
  {
    if fault.FindThrows? then Reply(false, FailedMessage)
    else if !found then Reply(false, NotFoundMessage)
    else if fault.WriteThrows? then Reply(false, FailedMessage)
    else Reply(true, success)
  }

  /** `updateKeyword(editingKeyword)`: the row with the keyword's id gets the
      keyword's name and keeps everything else; every other row, and the
      whole table on a failure, is left as it was. */
  method UpdateKeyword(repo: KeywordRepository, edited: Keyword, fault: StoreFault) returns (reply: Reply)
    requires repo.Valid()
    modifies repo
    ensures repo.Valid()
    ensures reply == Decide(edited.id in old(repo.rows), fault, UpdatedMessage)
    ensures reply.success ==>
      repo.rows == old(repo.rows)[edited.id := old(repo.rows)[edited.id].(name := edited.name)]
    ensures !reply.success ==> repo.rows == old(repo.rows)
  {
    if fault == FindThrows {
      return Reply(false, FailedMessage);
    }
    var found := repo.FindOne(edited.id);
    if found.None? {
      return Reply(false, NotFoundMessage);
    }
    var row := found.value.(name := edited.name);
    if fault == WriteThrows {
      return Reply(false, FailedMessage);
    }
    repo.Save(row);
    reply := Reply(true, UpdatedMessage);
  }

  /** `deleteKeyword(id)`: exactly the row with that id is removed on success;
      the table is unchanged otherwise. */
  method DeleteKeyword(repo: KeywordRepository, id: nat, fault: StoreFault) returns (reply: Reply)
    requires repo.Valid()
    modifies repo
    ensures repo.Valid()
    ensures reply == Decide(id in old(repo.rows), fault, DeletedMessage)
    ensures reply.success ==> repo.rows == old(repo.rows) - {id}
    ensures !reply.success ==> repo.rows == old(repo.rows)
  {
    if fault == FindThrows {
      return Reply(false, FailedMessage);
    }
    var found := repo.FindOne(id);
    if found.None? {
      return Reply(false, NotFoundMessage);
    }
    if fault == WriteThrows {
      return Reply(false, FailedMessage);
    }
    repo.Delete(id);
    reply := Reply(true, DeletedMessage);
  }
}
