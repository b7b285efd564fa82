/** The todo resource: six handlers over the `TodoItems` table.

    The two read handlers are functions of the table; the four handlers that
    change the table are methods of `TodoItemsController`, each stated
    against a function giving the table it leaves behind. */
module Controllers {
  import opened Models

  /** The outcome of a handler; handlers without a response body use `()`. */
  datatype ActionResult<T> = Ok(value: T) | Created(value: T) | NoContent | BadRequest | NotFound
  {
    /** The HTTP status code the outcome is sent with. */
    function StatusCode(): (code: int)
    {
      match this
      case Ok(_) => 200
      case Created(_) => 201
      case NoContent => 204
      case BadRequest => 400
      case NotFound => 404
    }
  }

  // ---------------------------------------------------------------------------
  // Field assignments the handlers make on one row

  /** The row POST creates: name and completion from the request, a fresh id,
      and the soft-delete flag at its default. */
  function NewItem(todoDTO: TodoItemDTO, newId: Long): (item: TodoItem)
  {
    TodoItem(newId, todoDTO.name, todoDTO.isComplete, false)
  }

  /** PUT's three field assignments on the tracked row; the id is kept. */
  function Overwrite(item: TodoItem, todoDTO: TodoItemDTO): (r: TodoItem)
  {
    item.(name := todoDTO.name, isComplete := todoDTO.isComplete, isDelete := todoDTO.isDelete)
  }

  /** The response projection. It leaves the soft-delete flag at its default,
      so writing the DTO back with PUT restores the row, undeleted. */
  function ItemToDTO(todoItem: TodoItem): (d: TodoItemDTO)
    ensures d.id == todoItem.id && !d.isDelete
    ensures Overwrite(todoItem, d) == todoItem.(isDelete := false)
  {
    TodoItemDTO(todoItem.id, todoItem.name, todoItem.isComplete, false)
  }

  // ---------------------------------------------------------------------------
  // Queries

  /** Whether any row, soft-deleted or not, has the id. */
  function TodoItemExists(t: seq<TodoItem>, id: Long): (b: bool)
    ensures b <==> exists i :: 0 <= i < |t| && t[i].id == id
  {
    |t| > 0 && (t[0].id == id || TodoItemExists(t[1..], id))
  }

  /** The first row in storage order that has the id and is not soft-deleted. */
  function FirstVisible(t: seq<TodoItem>, id: Long): (r: Option<TodoItem>)
    ensures r.None? <==> forall i :: 0 <= i < |t| ==> t[i].id != id || t[i].isDelete
    ensures r.Some? ==> r.value in t && r.value.id == id && !r.value.isDelete
  {
    if |t| == 0 then None
    else if t[0].id == id && !t[0].isDelete then Some(t[0])
    else FirstVisible(t[1..], id)
  }

  /** GET of the collection: the rows that are not soft-deleted, as DTOs, in
      storage order. */
  function GetTodoItems(t: seq<TodoItem>): (r: seq<TodoItemDTO>)
    ensures |r| <= |t|
    ensures forall d :: d in r ==> !d.isDelete
    ensures forall d :: d in r <==> exists i :: 0 <= i < |t| && !t[i].isDelete && d == ItemToDTO(t[i])
  {
    if |t| == 0 then []
    else (if t[0].isDelete then [] else [ItemToDTO(t[0])]) + GetTodoItems(t[1..])
  }

  /** GET of one item: Ok with the row's DTO when a row with the id exists and
      is not soft-deleted, NotFound otherwise. */
  function GetTodoItem(t: seq<TodoItem>, id: Long): (r: ActionResult<TodoItemDTO>)
    ensures r.Ok? || r.NotFound?
    ensures r.Ok? <==> exists i :: 0 <= i < |t| && t[i].id == id && !t[i].isDelete
    ensures r.Ok? ==> exists i :: 0 <= i < |t| && t[i].id == id && !t[i].isDelete && r.value == ItemToDTO(t[i])
  {
    match FirstVisible(t, id)
    case None => NotFound
    case Some(todoItem) => Ok(ItemToDTO(todoItem))
  }

  /** The listing is a homomorphism from concatenation: it keeps storage order. */
  lemma {:induction false} GetTodoItemsAppend(a: seq<TodoItem>, b: seq<TodoItem>)
    ensures GetTodoItems(a + b) == GetTodoItems(a) + GetTodoItems(b)
  {
    if |a| == 0 {
      assert a + b == b;
    } else {
      assert (a + b)[1..] == a[1..] + b;
      GetTodoItemsAppend(a[1..], b);
    }
  }

  /** Under the key constraint, GET of one item is the key lookup followed by
      the soft-delete check. */
  lemma GetTodoItemByKey(t: seq<TodoItem>, id: Long)
    requires UniqueIds(t)
    ensures GetTodoItem(t, id) == match Find(t, id)
                                  case None => NotFound
                                  case Some(k) => if t[k].isDelete then NotFound else Ok(ItemToDTO(t[k]))
  {
  }

  /** Under the key constraint, GET of one item depends only on which
      not-deleted rows with that id the table holds. */
  lemma GetTodoItemByRows(t1: seq<TodoItem>, t2: seq<TodoItem>, id: Long)
    requires UniqueIds(t1) && UniqueIds(t2)
    requires forall item: TodoItem :: item.id == id && !item.isDelete ==> (item in t1 <==> item in t2)
    ensures GetTodoItem(t1, id) == GetTodoItem(t2, id)
  {
  }

  // ---------------------------------------------------------------------------
  // The table each state-changing handler leaves behind

  /** After a successful PUT: the row with the key has the request's name,
      completion and soft-delete flag. */
  function Overwritten(t: seq<TodoItem>, id: Long, todoDTO: TodoItemDTO): (r: seq<TodoItem>)
  {
    match Find(t, id)
    case None => t
    case Some(k) => t[k := Overwrite(t[k], todoDTO)]
  }

  /** After hard DELETE: the row with the key is gone. */
  function Removed(t: seq<TodoItem>, id: Long): (r: seq<TodoItem>)
  {
    match Find(t, id)
    case None => t
    case Some(k) => t[..k] + t[k + 1..]
  }

  /** After soft DELETE: the row with the key is flagged as deleted. */
  function SoftDeleted(t: seq<TodoItem>, id: Long): (r: seq<TodoItem>)
  {
    match Find(t, id)
    case None => t
    case Some(k) => t[k := t[k].(isDelete := true)]
  }

  // ---------------------------------------------------------------------------
  // The handlers that change the table

  class TodoItemsController {
    const db: TodoContext

    constructor (db: TodoContext)
      ensures this.db == db
    {
      this.db := db;
    }

    /** POST: appends one row under an id not already in the table, taking
        name and completion from the request and ignoring its id and
        soft-delete flag; answers Created with the new row. */
    method PostTodoItem(todoDTO: TodoItemDTO, newId: Long) returns (r: ActionResult<TodoItem>)
      requires db.Valid()
      requires !TodoItemExists(db.todoItems, newId)
      modifies db
      ensures db.Valid()
      ensures r == Created(TodoItem(newId, todoDTO.name, todoDTO.isComplete, false))
      ensures db.todoItems == old(db.todoItems) + [r.value]
    {
      var todoItem := NewItem(todoDTO, newId);
      db.todoItems := db.todoItems + [todoItem];
      r := Created(todoItem);
    }

    /** PUT: BadRequest when the path id and the body id differ, NotFound when
        no row has the id (deleted or not), else NoContent after overwriting
        name, completion and soft-delete flag of that one row. */
    method PutTodoItem(id: Long, todoDTO: TodoItemDTO) returns (r: ActionResult<()>)
      requires db.Valid()
      modifies db
      ensures db.Valid()
      ensures r == if id != todoDTO.id then BadRequest
                   else if TodoItemExists(old(db.todoItems), id) then NoContent
                   else NotFound
      ensures db.todoItems == if r.NoContent? then Overwritten(old(db.todoItems), id, todoDTO) else old(db.todoItems)
      ensures |db.todoItems| == |old(db.todoItems)|
      ensures forall i :: 0 <= i < |db.todoItems| ==>
                db.todoItems[i] == if r.NoContent? && old(db.todoItems)[i].id == id
                                   then Overwrite(old(db.todoItems)[i], todoDTO)
                                   else old(db.todoItems)[i]
    {
      if id != todoDTO.id {
        return BadRequest;
      }
      var found := Find(db.todoItems, id);
      if found.None? {
        return NotFound;
      }
      var k := found.value;
      var todoItem := db.todoItems[k];
      todoItem := todoItem.(name := todoDTO.name);
      todoItem := todoItem.(isComplete := todoDTO.isComplete);
      todoItem := todoItem.(isDelete := todoDTO.isDelete);
      db.todoItems := db.todoItems[k := todoItem];
      r := NoContent;
    }

    /** Hard DELETE: NotFound when no row has the id, else NoContent after
        removing that row; the other rows keep their order. */
    method DeleteTodoItem(id: Long) returns (r: ActionResult<()>)
      requires db.Valid()
      modifies db
      ensures db.Valid()
      ensures r == if TodoItemExists(old(db.todoItems), id) then NoContent else NotFound
      ensures db.todoItems == Removed(old(db.todoItems), id)
      ensures !TodoItemExists(db.todoItems, id)
      ensures forall item :: item in db.todoItems <==> item in old(db.todoItems) && item.id != id
    {
      var found := Find(db.todoItems, id);
      if found.None? {
        return NotFound;
      }
      var k := found.value;
      db.todoItems := db.todoItems[..k] + db.todoItems[k + 1..];
      r := NoContent;
    }

    /** Soft DELETE: NotFound when no row has the id, else NoContent after
        setting only that row's soft-delete flag. */
    method SoftDeleteTodoItem(id: Long) returns (r: ActionResult<()>)
      requires db.Valid()
      modifies db
      ensures db.Valid()
      ensures r == if TodoItemExists(old(db.todoItems), id) then NoContent else NotFound
      ensures db.todoItems == SoftDeleted(old(db.todoItems), id)
      ensures |db.todoItems| == |old(db.todoItems)|
      ensures forall i :: 0 <= i < |db.todoItems| ==>
                db.todoItems[i] == if old(db.todoItems)[i].id == id
                                   then old(db.todoItems)[i].(isDelete := true)
                                   else old(db.todoItems)[i]
    {
      var found := Find(db.todoItems, id);
      if found.None? {
        return NotFound;
      }
      var k := found.value;
      var todoItem := db.todoItems[k];
      todoItem := todoItem.(isDelete := true);
      db.todoItems := db.todoItems[k := todoItem];
      r := NoContent;
    }
  }
}
