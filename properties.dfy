/** Properties that relate the handlers of the todo resource to one another:
    what a later GET sees after each state change, idempotence of soft
    delete, and the round trips between GET and PUT. */
module TodoItemsProperties {
  import opened Models
  import opened Controllers

  // ---------------------------------------------------------------------------
  // How each change moves rows and keys

  /** Two tables whose rows carry the same ids position by position answer
      every key lookup alike. */
  lemma FindBySameIds(t1: seq<TodoItem>, t2: seq<TodoItem>, x: Long)
    requires |t1| == |t2|
    requires forall i :: 0 <= i < |t1| ==> t1[i].id == t2[i].id
    ensures Find(t1, x) == Find(t2, x)
    ensures TodoItemExists(t1, x) == TodoItemExists(t2, x)
  {
  }

  /** PUT keeps every row's id where it was. */
  lemma OverwrittenKeepsIds(t: seq<TodoItem>, id: Long, todoDTO: TodoItemDTO)
    ensures |Overwritten(t, id, todoDTO)| == |t|
    ensures forall i :: 0 <= i < |t| ==> Overwritten(t, id, todoDTO)[i].id == t[i].id
    ensures UniqueIds(t) ==> UniqueIds(Overwritten(t, id, todoDTO))
  {
  }

  /** Soft delete keeps every row's id where it was. */
  lemma SoftDeletedKeepsIds(t: seq<TodoItem>, id: Long)
    ensures |SoftDeleted(t, id)| == |t|
    ensures forall i :: 0 <= i < |t| ==> SoftDeleted(t, id)[i].id == t[i].id
    ensures UniqueIds(t) ==> UniqueIds(SoftDeleted(t, id))
  {
  }

  /** Cutting out position `k` shifts the later rows down by one. */
  lemma CutAt(t: seq<TodoItem>, k: nat, i: nat)
    requires k < |t| && i < |t| - 1
    ensures |t[..k] + t[k + 1..]| == |t| - 1
    ensures (t[..k] + t[k + 1..])[i] == t[if i < k then i else i + 1]
  {
  }

  /** Cutting out one row keeps the key constraint. */
  lemma CutKeepsKeys(t: seq<TodoItem>, k: nat)
    requires UniqueIds(t) && k < |t|
    ensures UniqueIds(t[..k] + t[k + 1..])
  {
    var r := t[..k] + t[k + 1..];
    forall i, j | 0 <= i < j < |r|
      ensures r[i].id != r[j].id
    {
      CutAt(t, k, i);
      CutAt(t, k, j);
    }
  }

  /** Under the key constraint, cutting out the row at `k` keeps exactly the
      rows with another id. */
  lemma CutRows(t: seq<TodoItem>, k: nat, item: TodoItem)
    requires UniqueIds(t) && k < |t|
    ensures item in t[..k] + t[k + 1..] <==> item in t && item.id != t[k].id
  {
    var r := t[..k] + t[k + 1..];
    if item in r {
      var i :| 0 <= i < |r| && r[i] == item;
      CutAt(t, k, i);
    }
    if item in t && item.id != t[k].id {
      var i :| 0 <= i < |t| && t[i] == item;
      CutAt(t, k, if i < k then i else i - 1);
    }
  }

  /** Hard delete keeps exactly the rows with another id, without duplicating keys. */
  lemma RemovedRows(t: seq<TodoItem>, id: Long)
    requires UniqueIds(t)
    ensures UniqueIds(Removed(t, id))
    ensures forall item :: item in Removed(t, id) <==> item in t && item.id != id
  {
    match Find(t, id)
    case None =>
    case Some(k) =>
      CutKeepsKeys(t, k);
      forall item
        ensures item in Removed(t, id) <==> item in t && item.id != id
      {
        CutRows(t, k, item);
      }
  }

  /** Appending a row under a fresh id keeps the key constraint. */
  lemma AppendFreshRow(t: seq<TodoItem>, item: TodoItem)
    requires UniqueIds(t) && !TodoItemExists(t, item.id)
    ensures UniqueIds(t + [item])
    ensures forall row :: row in t + [item] <==> row in t || row == item
  {
  }

  // ---------------------------------------------------------------------------
  // POST

  /** After POST the listing is the old listing followed by the new row's DTO:
      the created item is visible, with the server's id and the flag cleared. */
  lemma PostThenList(t: seq<TodoItem>, todoDTO: TodoItemDTO, newId: Long)
    ensures GetTodoItems(t + [NewItem(todoDTO, newId)])
         == GetTodoItems(t) + [TodoItemDTO(newId, todoDTO.name, todoDTO.isComplete, false)]
  {
    GetTodoItemsAppend(t, [NewItem(todoDTO, newId)]);
  }

  /** After POST, GET of the new id returns the created item, and GET of every
      other id answers as before. */
  lemma PostThenGet(t: seq<TodoItem>, todoDTO: TodoItemDTO, newId: Long, x: Long)
    requires UniqueIds(t) && !TodoItemExists(t, newId)
    ensures GetTodoItem(t + [NewItem(todoDTO, newId)], newId)
         == Ok(TodoItemDTO(newId, todoDTO.name, todoDTO.isComplete, false))
    ensures x != newId ==> GetTodoItem(t + [NewItem(todoDTO, newId)], x) == GetTodoItem(t, x)
  {
    var item := NewItem(todoDTO, newId);
    var t' := t + [item];
    AppendFreshRow(t, item);
    FindIsTheKey(t', newId, |t|);
    GetTodoItemByKey(t', newId);
    if x != newId {
      GetTodoItemByRows(t', t, x);
    }
  }

  // ---------------------------------------------------------------------------
  // PUT

  /** After a successful PUT, GET returns exactly the DTO that was sent,
      unless that DTO marks the item deleted, in which case GET is NotFound. */
  lemma PutThenGet(t: seq<TodoItem>, id: Long, todoDTO: TodoItemDTO)
    requires UniqueIds(t) && TodoItemExists(t, id) && todoDTO.id == id
    ensures GetTodoItem(Overwritten(t, id, todoDTO), id) == if todoDTO.isDelete then NotFound else Ok(todoDTO)
  {
  }

  /** PUT on one id leaves every other id's GET answer and existence alone. */
  lemma PutLeavesOthers(t: seq<TodoItem>, id: Long, todoDTO: TodoItemDTO, x: Long)
    requires UniqueIds(t) && x != id
    ensures GetTodoItem(Overwritten(t, id, todoDTO), x) == GetTodoItem(t, x)
    ensures TodoItemExists(Overwritten(t, id, todoDTO), x) == TodoItemExists(t, x)
  {
    var t' := Overwritten(t, id, todoDTO);
    OverwrittenKeepsIds(t, id, todoDTO);
    FindBySameIds(t', t, x);
    GetTodoItemByKey(t', x);
    GetTodoItemByKey(t, x);
  }

  /** Writing back with PUT the DTO that GET returned changes nothing. */
  lemma GetThenPutIsNoOp(t: seq<TodoItem>, id: Long, d: TodoItemDTO)
    requires UniqueIds(t) && GetTodoItem(t, id) == Ok(d)
    ensures Overwritten(t, id, d) == t
  {
  }

  /** PUT finds soft-deleted rows too, so it can bring one back. */
  lemma PutCanUndelete(t: seq<TodoItem>, id: Long, todoDTO: TodoItemDTO)
    requires UniqueIds(t) && TodoItemExists(t, id)
    requires todoDTO.id == id && !todoDTO.isDelete
    ensures GetTodoItem(SoftDeleted(t, id), id) == NotFound
    ensures GetTodoItem(Overwritten(SoftDeleted(t, id), id, todoDTO), id) == Ok(todoDTO)
  {
  }

  // ---------------------------------------------------------------------------
  // Hard DELETE

  /** After hard delete the key is gone, so a second delete of it is NotFound
      and changes nothing. */
  lemma DeleteRemovesKey(t: seq<TodoItem>, id: Long)
    requires UniqueIds(t)
    ensures !TodoItemExists(Removed(t, id), id)
    ensures Removed(Removed(t, id), id) == Removed(t, id)
  {
    var r := Removed(t, id);
    RemovedRows(t, id);
    forall i | 0 <= i < |r|
      ensures r[i].id != id
    {
      assert r[i] in r;
    }
  }

  /** Hard delete of one id leaves every other id's GET answer and existence alone. */
  lemma DeleteLeavesOthers(t: seq<TodoItem>, id: Long, x: Long)
    requires UniqueIds(t) && x != id
    ensures GetTodoItem(Removed(t, id), x) == GetTodoItem(t, x)
    ensures TodoItemExists(Removed(t, id), x) == TodoItemExists(t, x)
  {
    RemovedRows(t, id);
    GetTodoItemByRows(Removed(t, id), t, x);
    if TodoItemExists(t, x) {
      var i :| 0 <= i < |t| && t[i].id == x;
      assert t[i] in Removed(t, id);
    }
    if TodoItemExists(Removed(t, id), x) {
      var i :| 0 <= i < |Removed(t, id)| && Removed(t, id)[i].id == x;
      assert Removed(t, id)[i] in t;
    }
  }

  // ---------------------------------------------------------------------------
  // Soft DELETE

  /** Soft-deleting twice leaves the same table as soft-deleting once. */
  lemma SoftDeleteIdempotent(t: seq<TodoItem>, id: Long)
    ensures SoftDeleted(SoftDeleted(t, id), id) == SoftDeleted(t, id)
  {
  }

  /** A soft-deleted item is hidden from GET of its id and from the listing. */
  lemma SoftDeleteHides(t: seq<TodoItem>, id: Long)
    requires UniqueIds(t)
    ensures GetTodoItem(SoftDeleted(t, id), id) == NotFound
    ensures forall d :: d in GetTodoItems(SoftDeleted(t, id)) ==> d.id != id
  {
  }

  /** Soft delete does not hide the row from the key lookup that PUT, hard
      delete and soft delete use: each still finds it where it was. */
  lemma SoftDeleteKeepsReachable(t: seq<TodoItem>, id: Long, x: Long)
    ensures Find(SoftDeleted(t, id), x) == Find(t, x)
    ensures TodoItemExists(SoftDeleted(t, id), x) == TodoItemExists(t, x)
  {
    SoftDeletedKeepsIds(t, id);
    FindBySameIds(SoftDeleted(t, id), t, x);
  }

  /** Hard delete after soft delete leaves the same table as hard delete alone. */
  lemma DeleteAfterSoftDelete(t: seq<TodoItem>, id: Long)
    ensures Removed(SoftDeleted(t, id), id) == Removed(t, id)
  {
    SoftDeleteKeepsReachable(t, id, id);
  }

  /** Through the listing, a soft-deleted table cannot be told apart from the
      table with that row removed. */
  lemma SoftDeleteListsLikeDelete(t: seq<TodoItem>, id: Long)
    requires UniqueIds(t)
    ensures GetTodoItems(SoftDeleted(t, id)) == GetTodoItems(Removed(t, id))
  {
    match Find(t, id)
    case None =>
    case Some(k) =>
      var hidden := t[k].(isDelete := true);
      assert SoftDeleted(t, id) == t[..k] + [hidden] + t[k + 1..];
      GetTodoItemsAppend(t[..k] + [hidden], t[k + 1..]);
      GetTodoItemsAppend(t[..k], [hidden]);
      GetTodoItemsAppend(t[..k], t[k + 1..]);
  }

  /** Through GET of any id, a soft-deleted table cannot be told apart from
      the table with that row removed. */
  lemma SoftDeleteGetsLikeDelete(t: seq<TodoItem>, id: Long, x: Long)
    requires UniqueIds(t)
    ensures GetTodoItem(SoftDeleted(t, id), x) == GetTodoItem(Removed(t, id), x)
  {
    if x == id {
      SoftDeleteHides(t, id);
      DeleteRemovesKey(t, id);
      RemovedRows(t, id);
      GetTodoItemByKey(Removed(t, id), id);
    } else {
      SoftDeletedKeepsIds(t, id);
      SoftDeleteKeepsReachable(t, id, x);
      GetTodoItemByKey(SoftDeleted(t, id), x);
      GetTodoItemByKey(t, x);
      DeleteLeavesOthers(t, id, x);
    }
  }

  // ---------------------------------------------------------------------------
  // A client of the controller

  /** The life of one item through the handlers: created, read, soft-deleted,
      hidden, hard-deleted, and not found on the second hard delete. */
  method SoftDeleteLifecycle(name: Option<string>, newId: Long) returns (codes: seq<int>, body: ActionResult<TodoItemDTO>)
    ensures codes == [201, 200, 204, 404, 204, 404]
    ensures body == Ok(TodoItemDTO(newId, name, false, false))
  {
    var db := new TodoContext();
    var controller := new TodoItemsController(db);
    var created := controller.PostTodoItem(TodoItemDTO(0, name, false, true), newId);
    body := GetTodoItem(db.todoItems, newId);
    var softDeleted := controller.SoftDeleteTodoItem(newId);
    var hidden := GetTodoItem(db.todoItems, newId);
    var deleted := controller.DeleteTodoItem(newId);
    var deletedAgain := controller.DeleteTodoItem(newId);
    codes := [created.StatusCode(), body.StatusCode(), softDeleted.StatusCode(),
              hidden.StatusCode(), deleted.StatusCode(), deletedAgain.StatusCode()];
  }
}
