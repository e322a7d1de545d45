/** The todo gateway: one function per operation, from how the request ended
    to what the operation resolves with or the message it throws. Each is the
    composition of its `try` block (what happens to a response) and its `catch`
    block (how whatever was thrown is rewritten), so an error thrown inside the
    `try` block is caught and rewritten by the same `catch`. */
module TodoService {
  import opened Base
  import opened Strings
  import opened Http

  /** What the app sends to create or update a todo. */
  datatype Task = Task(title: string, description: Option<string>, photoUri: Option<string>, location: Option<Coords>)

  /** A todo as the server returns it. */
  datatype TodoApi = TodoApi(id: string, title: string, completed: bool, createdAt: Option<string>, updatedAt: Option<string>)

  /** The `data` field of a listing: an array, or any other value. */
  datatype Listing = Items(todos: seq<TodoApi>) | NotAnArray

  /** The body of a listing response, `{ success, data, count? }`. */
  datatype TodosBody = TodosBody(success: bool, data: Listing, count: Option<int>)

  /** The body of a create or update response, `{ success, data }`; `data` is
      `None` when it is missing or falsy. */
  datatype RecordBody = RecordBody(success: bool, data: Option<TodoApi>)

  /** The listing the gateway substitutes for a missing or malformed one. */
  const EmptyListing := TodosBody(true, Items([]), Some(0))

  const Unauthorized := "No autorizado"
  const InvalidResponse := "Respuesta inválida del servidor"
  const ListUnreachable := "No se pudo conectar al servidor"
  const CreateFailed := "Error al conectar al servidor"
  const ToggleFailed := "Error al actualizar la tarea"
  const DeleteFailed := "Error al eliminar la tarea"
  const UpdateFailed := "Error al conectar con el servidor"

  function ServerError(status: int): string {
    "Error del servidor: " + IntToString(status)
  }

  // ---------------------------------------------------------------- getTodos

  function TryGetTodos(o: Outcome<Option<TodosBody>>): Attempt<TodosBody> {
    match Await(o)
    case Raised(e) => Raised(e)
    case Completed(body) =>
      if body.None? then Completed(EmptyListing)
      else if !body.value.data.Items? then Completed(EmptyListing)
      else Completed(body.value)
  }

  function CatchGetTodos(e: Caught): Settled<TodosBody> {
    if HasStatus(e, 401) then Throws(Unauthorized)
    else if HasStatus(e, 404) then Returns(EmptyListing)
    else if e.AxiosCaught? && e.status.Some? then Throws(ServerError(e.status.value))
    else Throws(ListUnreachable)
  }

  /** `getTodos`: a listing that resolves always has an array of todos. */
  function GetTodos(o: Outcome<Option<TodosBody>>): (r: Settled<TodosBody>)
    ensures r.Returns? ==> r.value.data.Items?
    ensures o.Ok? && o.body.Some? && o.body.value.data.Items? ==> r == Returns(o.body.value)
    ensures o.Ok? && (o.body.None? || o.body.value.data.NotAnArray?) ==> r == Returns(EmptyListing)
    ensures o.HttpErr? ==>
      r == if o.status == 401 then Throws(Unauthorized)
           else if o.status == 404 then Returns(EmptyListing)
           else Throws(ServerError(o.status))
    ensures o.NoResponse? || o.NonAxios? ==> r == Throws(ListUnreachable)
  {
    match TryGetTodos(o)
    case Completed(v) => Returns(v)
    case Raised(e) => CatchGetTodos(e)
  }

  /** A well-formed listing comes back as sent, with or without a count. */
  lemma GetTodosKeepsBody(success: bool, todos: seq<TodoApi>, count: Option<int>)
    ensures GetTodos(Ok(Some(TodosBody(success, Items(todos), count)))) == Returns(TodosBody(success, Items(todos), count))
  {
  }

  /** Every status other than 401 and 404 is reported with that status, and
      different statuses give different messages. */
  lemma ServerErrorsNameTheStatus(s1: int, s2: int, m1: string, m2: string)
    requires s1 != 401 && s1 != 404 && s2 != 401 && s2 != 404
    ensures GetTodos(HttpErr(s1, m1)) == GetTodos(HttpErr(s2, m2)) <==> s1 == s2
  {
    if GetTodos(HttpErr(s1, m1)) == GetTodos(HttpErr(s2, m2)) {
      var prefix := "Error del servidor: ";
      assert ServerError(s1)[|prefix|..] == IntToString(s1);
      assert ServerError(s2)[|prefix|..] == IntToString(s2);
      IntToStringInjective(s1, s2);
    }
  }

  // ------------------------------------------ createTodo, toggleTodo, updateTodo

  /** The `try` block shared by create, toggle and update: a response without
      `data.data` is thrown as an invalid response. */
  function TryRecord(o: Outcome<Option<RecordBody>>): Attempt<TodoApi> {
    match Await(o)
    case Raised(e) => Raised(e)
    case Completed(body) =>
      if body.None? || body.value.data.None? then Raised(ErrorCaught(InvalidResponse))
      else Completed(body.value.data.value)
  }

  /** The `catch` block shared by create, toggle, delete and update: HTTP 401
      is unauthorised, everything else gets the operation's own message. */
  function CatchMutation<T>(e: Caught, fallback: string): Settled<T> {
    if HasStatus(e, 401) then Throws(Unauthorized) else Throws(fallback)
  }

  /** A record is produced exactly when the server answered with one. */
  predicate HasRecord(o: Outcome<Option<RecordBody>>) {
    o.Ok? && o.body.Some? && o.body.value.data.Some?
  }

  function FailureMessage<B>(o: Outcome<B>, fallback: string): string {
    if o.HttpErr? && o.status == 401 then Unauthorized else fallback
  }

  /** `createTodo`: resolves with the server's record when there is one; the
      invalid-response error thrown inside the `try` is rewritten like any
      other failure. */
  function CreateTodo(o: Outcome<Option<RecordBody>>): (r: Settled<TodoApi>)
    ensures r.Returns? <==> HasRecord(o)
    ensures r.Returns? ==> r.value == o.body.value.data.value
    ensures r.Throws? ==> r.message == FailureMessage(o, CreateFailed)
  {
    match TryRecord(o)
    case Completed(v) => Returns(v)
    case Raised(e) => CatchMutation(e, CreateFailed)
  }

  /** `toggleTodo`: as `createTodo`, with its own failure message. */
  function ToggleTodo(o: Outcome<Option<RecordBody>>): (r: Settled<TodoApi>)
    ensures r.Returns? <==> HasRecord(o)
    ensures r.Returns? ==> r.value == o.body.value.data.value
    ensures r.Throws? ==> r.message == FailureMessage(o, ToggleFailed)
  {
    match TryRecord(o)
    case Completed(v) => Returns(v)
    case Raised(e) => CatchMutation(e, ToggleFailed)
  }

  /** `updateTodo`: as `createTodo`, with its own failure message. */
  function UpdateTodo(o: Outcome<Option<RecordBody>>): (r: Settled<TodoApi>)
    ensures r.Returns? <==> HasRecord(o)
    ensures r.Returns? ==> r.value == o.body.value.data.value
    ensures r.Throws? ==> r.message == FailureMessage(o, UpdateFailed)
  {
    match TryRecord(o)
    case Completed(v) => Returns(v)
    case Raised(e) => CatchMutation(e, UpdateFailed)
  }

  // ---------------------------------------------------------------- deleteTodo

  /** `deleteTodo`: any response resolves, its body unread. */
  function DeleteTodo<B>(o: Outcome<B>): (r: Settled<()>)
    ensures r.Returns? <==> o.Ok?
    ensures r.Throws? ==> r.message == FailureMessage(o, DeleteFailed)
  {
    match Await(o)
    case Completed(_) => Returns(())
    case Raised(e) => CatchMutation(e, DeleteFailed)
  }

  // ---------------------------------------------------------------- across operations

  /** The message thrown inside the `try` block never escapes: a response
      without a record is reported with the operation's generic message. */
  lemma InvalidResponseIsRewritten(o: Outcome<Option<RecordBody>>)
    requires o.Ok? && !HasRecord(o)
    ensures CreateTodo(o) == Throws(CreateFailed)
    ensures ToggleTodo(o) == Throws(ToggleFailed)
    ensures UpdateTodo(o) == Throws(UpdateFailed)
    ensures InvalidResponse != CreateFailed && InvalidResponse != ToggleFailed && InvalidResponse != UpdateFailed
  {
  }

  /** All five operations report HTTP 401 with the same message. */
  lemma UnauthorizedEverywhere(m: string)
    ensures GetTodos(HttpErr(401, m)) == Throws(Unauthorized)
    ensures CreateTodo(HttpErr(401, m)) == Throws(Unauthorized)
    ensures ToggleTodo(HttpErr(401, m)) == Throws(Unauthorized)
    ensures UpdateTodo(HttpErr(401, m)) == Throws(Unauthorized)
    ensures DeleteTodo<()>(HttpErr(401, m)) == Throws(Unauthorized)
  {
  }

  /** Only a 401 is told apart by the mutations: any other status, a network
      failure and a non-axios error are reported alike. */
  lemma MutationsIgnoreOtherStatuses(o1: Outcome<Option<RecordBody>>, o2: Outcome<Option<RecordBody>>)
    requires !o1.Ok? && !o2.Ok?
    requires !(o1.HttpErr? && o1.status == 401) && !(o2.HttpErr? && o2.status == 401)
    ensures CreateTodo(o1) == CreateTodo(o2)
    ensures ToggleTodo(o1) == ToggleTodo(o2)
    ensures UpdateTodo(o1) == UpdateTodo(o2)
  {
  }
}
