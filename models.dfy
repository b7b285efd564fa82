/** Entities of the todo API: the stored record, its wire form, and the
    in-memory table that holds the records. */
module Models {

  datatype Option<T> = None | Some(value: T)

  /** The C# `long` used for ids: a signed 64-bit integer. */
  const MinLong: int := -0x8000_0000_0000_0000
  const MaxLong: int := 0x7FFF_FFFF_FFFF_FFFF
  type Long = x: int | MinLong <= x <= MaxLong

  /** A stored row of the `TodoItems` table. `name` is a nullable string. */
  datatype TodoItem = TodoItem(id: Long, name: Option<string>, isComplete: bool, isDelete: bool)

  /** The wire representation, used for request and response bodies alike. */
  datatype TodoItemDTO = TodoItemDTO(id: Long, name: Option<string>, isComplete: bool, isDelete: bool)

  /** The primary-key constraint of the table: no two rows share an id. */
  ghost predicate UniqueIds(t: seq<TodoItem>)
  {
    forall i, j :: 0 <= i < j < |t| ==> t[i].id != t[j].id
  }

  /** Lookup by primary key (`FindAsync`): the position of the first row whose
      id is `id`, whatever its soft-delete flag. */
  function Find(t: seq<TodoItem>, id: Long): (r: Option<nat>)
    ensures r.None? <==> forall i :: 0 <= i < |t| ==> t[i].id != id
    ensures r.Some? ==> r.value < |t| && t[r.value].id == id
    ensures r.Some? ==> forall i :: 0 <= i < r.value ==> t[i].id != id
  {
    if |t| == 0 then None
    else if t[0].id == id then Some(0)
    else match Find(t[1..], id)
      case None => None
      case Some(k) => Some(k + 1)
  }

  /** Under the key constraint, the row that `Find` returns is the only one with that id. */
  lemma FindIsTheKey(t: seq<TodoItem>, id: Long, i: nat)
    requires UniqueIds(t)
    requires i < |t| && t[i].id == id
    ensures Find(t, id) == Some(i)
  {
  }

  /** The `TodoItems` table of the named in-memory store, in storage order.
      Every per-request context shares that one store; this object stands for it. */
  class TodoContext {
    var todoItems: seq<TodoItem>

    ghost predicate Valid()
      reads this
    {
      UniqueIds(todoItems)
    }

    /** At start-up the shared store holds no rows. */
    constructor ()
      ensures Valid() && todoItems == []
    {
      todoItems := [];
    }
  }
}
