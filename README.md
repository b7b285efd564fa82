# Todo API resource — a Dafny model

This project models the todo resource of a small ASP.NET Core CRUD API. An
in-memory table of todo rows is served by one controller with six handlers:

- create (POST);
- list (GET of the collection);
- get by id;
- update (PUT);
- hard delete;
- soft delete.

A row is `{Id, Name, IsComplete, IsDelete}`. `IsDelete` is a soft-delete flag.
The list and get-by-id handlers hide soft-deleted rows. PUT and both deletes
look rows up by primary key and still find them.

Files:

- `models.dfy` (module `Models`):
  - the row (`TodoItem`) and its wire form (`TodoItemDTO`);
  - the 64-bit id type `Long`;
  - the key constraint `UniqueIds`;
  - key lookup `Find`, which stands for `FindAsync`;
  - the database context `TodoContext`, a class whose `todoItems` field is the
    table in storage order. The program builds a new context for each request,
    and all of them share one named in-memory store (Program.cs:15-17). One
    `TodoContext` object stands for that shared store, and its constructor
    stands for the store at start-up, when it is empty.
- `controllers.dfy` (module `Controllers`):
  - the handler outcome `ActionResult` (Ok, Created, NoContent, BadRequest,
    NotFound) and its status code;
  - the read-only handlers `GetTodoItems` and `GetTodoItem`, as functions of
    the table;
  - `ItemToDTO` and `TodoItemExists`;
  - the class `TodoItemsController`. Its four state-changing handlers are
    methods that modify the context. Each states the outcome it returns and
    the whole table it leaves behind: `Overwritten`, `Removed` or
    `SoftDeleted` of the old table.
- `properties.dfy` (module `TodoItemsProperties`):
  - lemmas on what a later GET or listing sees after each change;
  - soft delete is idempotent;
  - soft delete cannot be told apart from hard delete through the read
    handlers, while PUT and the deletes still reach the row;
  - GET and PUT are round trips of each other;
  - a client method that runs one item through its whole life.

Modelling choices:

- The table is a sequence, not a map. Listing order is a modelling choice:
  rows are listed in insertion order, and a hard delete closes the gap (see
  "## Left out").
- The store generates ids internally, so POST receives the new id as a
  parameter. The only assumption is that no row already has that id. Ids are
  not assumed to increase.
- `SaveChangesAsync` always commits.
- The C# declaration of `TodoItem` is not among the source files, so the
  fields of `Models.TodoItem` are inferred from how the controller uses them.
  `IsDelete` is a `bool`, so `IsDelete != true` reads as "not soft-deleted".
- POST answers Created with the stored entity (`todoItem`,
  Controllers/TodoItemsController.cs:46), not with its DTO. The entity's
  `IsDelete` is false there.

## Model

| member | source | states |
|---|---|---|
| `Models.Find` | Controllers/TodoItemsController.cs:84 | key lookup ignores the soft-delete flag: it fails iff no row has the id, else returns the position of the first row with the id |
| `Models.TodoContext.constructor` | Program.cs:15-17 | the shared in-memory store starts up with an empty table that satisfies the key constraint |
| `Controllers.ItemToDTO` | Controllers/TodoItemsController.cs:23-29 | the DTO keeps the id and never carries the soft-delete flag; writing it back with PUT's assignments restores the row with the flag cleared |
| `Controllers.TodoItemExists` | Controllers/TodoItemsController.cs:18-21 | true iff some row, deleted or not, has the id |
| `Controllers.FirstVisible` | Controllers/TodoItemsController.cs:62 | the filtered first-or-default: nothing iff no row has the id while not being deleted; otherwise such a row of the table |
| `Controllers.GetTodoItems` | Controllers/TodoItemsController.cs:51-56 | the listing holds a DTO iff it is the DTO of some row that is not soft-deleted; no listed DTO is flagged; it is no longer than the table |
| `Controllers.GetTodoItem` | Controllers/TodoItemsController.cs:60-70 | the outcome is Ok or NotFound; Ok iff a row with the id exists and is not soft-deleted, and then it carries that row's DTO |
| `Controllers.GetTodoItemsAppend` | Controllers/TodoItemsController.cs:53-55 | the listing of concatenated tables is the concatenation of their listings, so the listing follows the table's order (insertion order, a modelling choice listed under Left out) |
| `Controllers.GetTodoItemByKey` | Controllers/TodoItemsController.cs:62-69 | under the key constraint, GET by id equals the key lookup followed by the soft-delete check |
| `Controllers.GetTodoItemByRows` | Controllers/TodoItemsController.cs:62-69 | under the key constraint, GET by id depends only on which undeleted rows with that id the table holds |
| `Controllers.TodoItemsController.constructor` | Controllers/TodoItemsController.cs:13-16 | the controller works on the context it is given |
| `Controllers.TodoItemsController.PostTodoItem` | Controllers/TodoItemsController.cs:34-47 | appends exactly one row under the fresh id. Name and completion come from the request, and the flag is false whatever the request says. Earlier rows are unchanged, the key constraint is kept, and the outcome is Created with the new row |
| `Controllers.TodoItemsController.PutTodoItem` | Controllers/TodoItemsController.cs:75-104 | BadRequest with the table unchanged when the path id and body id differ. NotFound with the table unchanged when no row has the id. Otherwise NoContent: only the row with the id changes, and only its name, completion and flag (its id is kept) |
| `Controllers.TodoItemsController.DeleteTodoItem` | Controllers/TodoItemsController.cs:108-120 | NotFound with the table unchanged when the id is absent. Otherwise NoContent with that one row removed and the other rows kept in order. Afterwards the id is absent |
| `Controllers.TodoItemsController.SoftDeleteTodoItem` | Controllers/TodoItemsController.cs:124-137 | NotFound with the table unchanged when the id is absent. Otherwise NoContent with only that row's flag set, every other field and row unchanged |
| `TodoItemsProperties.OverwrittenKeepsIds` | Controllers/TodoItemsController.cs:90-92 | PUT keeps every row's id in place and so keeps the key constraint |
| `TodoItemsProperties.SoftDeletedKeepsIds` | Controllers/TodoItemsController.cs:132 | soft delete keeps every row's id in place and so keeps the key constraint |
| `TodoItemsProperties.RemovedRows` | Controllers/TodoItemsController.cs:116 | hard delete keeps the key constraint and keeps exactly the rows whose id differs |
| `TodoItemsProperties.PostThenList` | Controllers/TodoItemsController.cs:36-55 | after POST the listing is the old listing followed by the new row's DTO (server id, request name and completion, flag false); the position at the end rests on the insertion-order choice listed under Left out |
| `TodoItemsProperties.PostThenGet` | Controllers/TodoItemsController.cs:36-69 | after POST, GET of the new id is Ok with the new row's DTO, and GET of any other id is unchanged |
| `TodoItemsProperties.PutThenGet` | Controllers/TodoItemsController.cs:84-92 | after a successful PUT, GET returns exactly the DTO that was sent, or NotFound when that DTO sets the flag |
| `TodoItemsProperties.PutLeavesOthers` | Controllers/TodoItemsController.cs:84-92 | PUT on one id changes neither GET nor existence of any other id |
| `TodoItemsProperties.GetThenPutIsNoOp` | Controllers/TodoItemsController.cs:84-92 | PUT of the DTO that GET returned leaves the table unchanged |
| `TodoItemsProperties.PutCanUndelete` | Controllers/TodoItemsController.cs:84-92 | PUT still finds a soft-deleted row, and a DTO with the flag false makes it visible to GET again |
| `TodoItemsProperties.DeleteRemovesKey` | Controllers/TodoItemsController.cs:110-119 | after hard delete the id no longer exists, so a second hard delete finds nothing and changes nothing |
| `TodoItemsProperties.DeleteLeavesOthers` | Controllers/TodoItemsController.cs:110-119 | hard delete of one id changes neither GET nor existence of any other id |
| `TodoItemsProperties.SoftDeleteIdempotent` | Controllers/TodoItemsController.cs:126-136 | soft-deleting twice leaves the same table as soft-deleting once |
| `TodoItemsProperties.SoftDeleteHides` | Controllers/TodoItemsController.cs:53-69 | after soft delete, GET of the id is NotFound and no listed DTO has that id |
| `TodoItemsProperties.SoftDeleteKeepsReachable` | Controllers/TodoItemsController.cs:110-132 | soft delete changes neither the key lookup nor existence of any id, so PUT and both deletes still find the row at its position |
| `TodoItemsProperties.DeleteAfterSoftDelete` | Controllers/TodoItemsController.cs:110-136 | hard delete after soft delete leaves the same table as hard delete alone |
| `TodoItemsProperties.SoftDeleteListsLikeDelete` | Controllers/TodoItemsController.cs:53-55 | the listing after soft delete equals the listing after hard delete of the same id |
| `TodoItemsProperties.SoftDeleteGetsLikeDelete` | Controllers/TodoItemsController.cs:62-69 | GET of any id after soft delete equals GET after hard delete of the same id |
| `TodoItemsProperties.SoftDeleteLifecycle` | Controllers/TodoItemsController.cs:34-137 | starting from an empty table, the sequence POST, GET, soft DELETE, GET, DELETE, DELETE answers 201, 200, 204, 404, 204, 404; the GET body is the DTO of the created item, with its flag false even though the request set it |

## Left out

- Listing order. The query at Controllers/TodoItemsController.cs:53-55 has no `OrderBy`, so its order is whatever the in-memory provider enumerates, and the program does not promise any order. The model takes it to be insertion order with deleted rows closing up. `Controllers.GetTodoItemsAppend` and `TodoItemsProperties.PostThenList` state order under that choice; their membership content does not depend on it.
- Routing attributes, async/await and JSON serialisation. Each handler is a plain sequential call that returns an outcome value.
- The location header of `CreatedAtAction`. POST's outcome carries only the created row.
- `PutTodoItem`'s recovery from `DbUpdateConcurrencyException`. That exception comes only from concurrent writers inside Entity Framework, and concurrency is not modelled. The commit always succeeds, so that branch is never reached.
- Entity Framework change tracking (`Entry(...).State = Modified`) and object identity of tracked entities. Rows are values in the table; an update replaces the row at its position. This means the model does not capture aliasing between the entity a handler holds and the one in the table.
- Id generation. It belongs to the in-memory database provider, which is not part of this model, so the new id is a parameter of POST that is only required to be unused.
- Dependency injection, Swagger, HTTPS redirection and authorization middleware from `Program.cs`. They are framework plumbing.
- Strings are sequences of characters, and a null `Name` is `None`. No validation of names exists in the source, and none is modelled.
