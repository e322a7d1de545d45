/** The per-user todo list hook: an in-memory list with its loading flag,
    persisted to the device's key-value storage under a key derived from the
    user's normalised email. */
module Todos {
  import opened Base
  import opened Strings

  datatype Todo = Todo(
    id: string,
    title: string,
    photoUri: string,
    latitude: real,
    longitude: real,
    isCompleted: bool,
    userEmail: string)

  // ---------------------------------------------------------------- storage key

  const KeyPrefix := "@MyApp:Todos"

  /** The owner part of the key: the normalised email, or `anon` when that is
      empty. */
  function Owner(email: string): (o: string)
    ensures o != ""
  {
    var n := TrimLower(email);
    if n == "" then "anon" else n
  }

  /** `getStorageKey`. */
  function StorageKey(email: string): string {
    KeyPrefix + ":" + Owner(email)
  }

  /** Two emails share a key exactly when they have the same owner. */
  lemma StorageKeyInjective(e1: string, e2: string)
    ensures StorageKey(e1) == StorageKey(e2) <==> Owner(e1) == Owner(e2)
  {
    var p := KeyPrefix + ":";
    if StorageKey(e1) == StorageKey(e2) {
      assert Owner(e1) == StorageKey(e1)[|p|..];
      assert Owner(e2) == StorageKey(e2)[|p|..];
    }
  }

  /** Case and surrounding whitespace do not change the key. */
  lemma StorageKeyNormalises(a: string, email: string, b: string)
    requires AllSpace(a) && AllSpace(b)
    ensures StorageKey(a + email + b) == StorageKey(email)
    ensures StorageKey(ToLower(email)) == StorageKey(email)
  {
    TrimIgnoresPadding(a, email, b);
    ToLowerTrim(email);
    ToLowerIdempotent(Trim(email));
  }

  /** A blank email is stored under the same key as the email `anon`. */
  lemma BlankIsAnonymous(email: string)
    requires AllSpace(email)
    ensures StorageKey(email) == StorageKey("anon")
  {
    assert email + [] + [] == email;
    TrimIgnoresPadding(email, [], []);
    AnonIsNormal();
  }

  lemma AnonIsNormal()
    ensures TrimLower("anon") == "anon"
  {
    assert [] + "anon" + [] == "anon";
    TrimUnique([], "anon", []);
    var l := ToLower("anon");
    assert l[0] == 'a' && l[1] == 'n' && l[2] == 'o' && l[3] == 'n';
  }

  // ---------------------------------------------------------------- list operations

  /** `todos.filter(todo => todo.id !== id)`. */
  function WithoutId(todos: seq<Todo>, id: string): (r: seq<Todo>)
    ensures |r| <= |todos|
    ensures forall t :: t in r <==> t in todos && t.id != id
  {
    if todos == [] then []
    else
      var rest := WithoutId(todos[1..], id);
      assert forall t :: t in todos <==> t == todos[0] || t in todos[1..];
      if todos[0].id == id then rest else [todos[0]] + rest
  }

  /** Deleting distributes over concatenation: the entries kept stay in their
      order. */
  lemma {:induction false} WithoutIdAppend(a: seq<Todo>, b: seq<Todo>, id: string)
    ensures WithoutId(a + b, id) == WithoutId(a, id) + WithoutId(b, id)
  {
    if a != [] {
      assert (a + b)[1..] == a[1..] + b;
      WithoutIdAppend(a[1..], b, id);
    } else {
      assert a + b == b;
    }
  }

  /** A list without the id is kept as it is. */
  lemma {:induction false} WithoutAbsentId(todos: seq<Todo>, id: string)
    requires forall i :: 0 <= i < |todos| ==> todos[i].id != id
    ensures WithoutId(todos, id) == todos
  {
    if todos != [] {
      WithoutAbsentId(todos[1..], id);
    }
  }

  /** Deleting twice is deleting once. */
  lemma WithoutIdIdempotent(todos: seq<Todo>, id: string)
    ensures WithoutId(WithoutId(todos, id), id) == WithoutId(todos, id)
  {
    var r := WithoutId(todos, id);
    forall i | 0 <= i < |r|
      ensures r[i].id != id
    {
      assert r[i] in r;
    }
    WithoutAbsentId(r, id);
  }

  function Flip(t: Todo): Todo {
    t.(isCompleted := !t.isCompleted)
  }

  /** `todos.map(todo => todo.id === id ? flipped : todo)`. */
  function Toggled(todos: seq<Todo>, id: string): (r: seq<Todo>)
    ensures |r| == |todos|
    ensures forall i :: 0 <= i < |todos| ==> r[i] == if todos[i].id == id then Flip(todos[i]) else todos[i]
  {
    if todos == [] then []
    else [if todos[0].id == id then Flip(todos[0]) else todos[0]] + Toggled(todos[1..], id)
  }

  /** Toggling only flips the completed flag: ids, titles and every other field
      stay where they were. */
  lemma ToggledKeepsIds(todos: seq<Todo>, id: string)
    ensures forall i :: 0 <= i < |todos| ==> Toggled(todos, id)[i].id == todos[i].id
    ensures forall i :: 0 <= i < |todos| ==> Toggled(todos, id)[i].(isCompleted := todos[i].isCompleted) == todos[i]
  {
  }

  /** Toggling the same id twice gives the list back. */
  lemma ToggleTwice(todos: seq<Todo>, id: string)
    ensures Toggled(Toggled(todos, id), id) == todos
  {
    var once := Toggled(todos, id);
    var twice := Toggled(once, id);
    forall i | 0 <= i < |todos|
      ensures twice[i] == todos[i]
    {
      assert once[i].id == todos[i].id;
    }
  }

  /** Toggling an id no entry has changes nothing. */
  lemma ToggleAbsent(todos: seq<Todo>, id: string)
    requires forall i :: 0 <= i < |todos| ==> todos[i].id != id
    ensures Toggled(todos, id) == todos
  {
  }

  /** `todos.filter(t => !t.isCompleted)`. */
  function Active(todos: seq<Todo>): (r: seq<Todo>)
    ensures forall t :: t in r <==> t in todos && !t.isCompleted
  {
    if todos == [] then []
    else
      var rest := Active(todos[1..]);
      assert forall t :: t in todos <==> t == todos[0] || t in todos[1..];
      if !todos[0].isCompleted then [todos[0]] + rest else rest
  }

  /** `todos.filter(t => t.isCompleted)`. */
  function Completed(todos: seq<Todo>): (r: seq<Todo>)
    ensures forall t :: t in r <==> t in todos && t.isCompleted
  {
    if todos == [] then []
    else
      var rest := Completed(todos[1..]);
      assert forall t :: t in todos <==> t == todos[0] || t in todos[1..];
      if todos[0].isCompleted then [todos[0]] + rest else rest
  }

  /** The two views split the list: every entry is in exactly one of them. */
  lemma {:induction false} PartitionSizes(todos: seq<Todo>)
    ensures |Active(todos)| + |Completed(todos)| == |todos|
  {
    if todos != [] {
      PartitionSizes(todos[1..]);
    }
  }

  /** Both views keep the list's order: they distribute over concatenation. */
  lemma {:induction false} ViewsAppend(a: seq<Todo>, b: seq<Todo>)
    ensures Active(a + b) == Active(a) + Active(b)
    ensures Completed(a + b) == Completed(a) + Completed(b)
  {
    if a != [] {
      assert (a + b)[1..] == a[1..] + b;
      ViewsAppend(a[1..], b);
    } else {
      assert a + b == b;
    }
  }

  // ---------------------------------------------------------------- storage

  /** What `loadTodos` finds under `key`: the stored list, `[]` when the key is
      missing. */
  function Stored(storage: map<string, seq<Todo>>, key: string): seq<Todo> {
    if key in storage then storage[key] else []
  }

  /** A write under one user's key is not seen under another user's key. */
  lemma WritesAreIsolated(storage: map<string, seq<Todo>>, e1: string, e2: string, next: seq<Todo>)
    requires Owner(e1) != Owner(e2)
    ensures Stored(storage[StorageKey(e1) := next], StorageKey(e2)) == Stored(storage, StorageKey(e2))
    ensures Stored(storage[StorageKey(e1) := next], StorageKey(e1)) == next
  {
    StorageKeyInjective(e1, e2);
  }

  /** The todo `createTodo` builds: not completed, owned by the current email,
      at the given position. */
  function NewTodo(id: string, title: string, photoUri: string, location: Coords, email: string): Todo {
    Todo(id, title, photoUri, location.latitude, location.longitude, false, email)
  }

  /** `useTodos(currentEmail)`: the hook's state and the storage it writes. */
  class TodoStore {
    const currentEmail: string
    var todos: seq<Todo>
    var isLoading: bool
    /** `isMountedRef.current`. */
    var mounted: bool
    /** The device's key-value storage, each key holding a serialised list. */
    var storage: map<string, seq<Todo>>

    /** The key this hook reads and writes. */
    function Key(): string {
      StorageKey(currentEmail)
    }

    /** The first render: an empty list, loading, mounted. */
    constructor(email: string, initialStorage: map<string, seq<Todo>>)
      ensures currentEmail == email && storage == initialStorage
      ensures todos == [] && isLoading && mounted
    {
      currentEmail := email;
      todos := [];
      isLoading := true;
      mounted := true;
      storage := initialStorage;
    }

    /** The cleanup of the mount effect. */
    method Unmount()
      modifies this
      ensures !mounted
      ensures todos == old(todos) && isLoading == old(isLoading) && storage == old(storage)
    {
      mounted := false;
    }

    /** `loadTodos`. `read` says whether reading and parsing succeed; a failure
        keeps the list. Neither write happens once unmounted. */
    method LoadTodos(read: StorageOp)
      modifies this
      ensures todos == if old(mounted) && read.Succeeds? then Stored(storage, Key()) else old(todos)
      ensures isLoading == if old(mounted) then false else old(isLoading)
      ensures mounted == old(mounted) && storage == old(storage)
    {
      if read.Succeeds? {
        var parsed := Stored(storage, Key());
        if mounted {
          todos := parsed;
        }
      }
      if mounted {
        isLoading := false;
      }
    }

    /** `reload`, and the effect that runs on mount: loading is raised, then
        the list is loaded; once unmounted, both updates are ignored. */
    method Reload(read: StorageOp)
      modifies this
      ensures todos == if mounted && read.Succeeds? then Stored(storage, Key()) else old(todos)
      ensures isLoading == if mounted then false else old(isLoading)
      ensures mounted == old(mounted) && storage == old(storage)
    {
      if mounted {
        isLoading := true;
      }
      LoadTodos(read);
    }

    /** `persistTodos`: a failed write is swallowed and leaves the slot as it
        was. */
    method PersistTodos(next: seq<Todo>, write: StorageOp)
      modifies this
      ensures storage == if write.Succeeds? then old(storage)[Key() := next] else old(storage)
      ensures todos == old(todos) && isLoading == old(isLoading) && mounted == old(mounted)
    {
      if write.Succeeds? {
        storage := storage[Key() := next];
      }
    }

    /** `createTodo`: one new todo at the end, the earlier ones untouched, and
        the new list written under this user's key. */
    method CreateTodo(id: string, title: string, photoUri: string, location: Coords, write: StorageOp)
      modifies this
      ensures todos == old(todos) + [NewTodo(id, title, photoUri, location, currentEmail)]
      ensures storage == if write.Succeeds? then old(storage)[Key() := todos] else old(storage)
      ensures isLoading == old(isLoading) && mounted == old(mounted)
    {
      var next := todos + [NewTodo(id, title, photoUri, location, currentEmail)];
      PersistTodos(next, write);
      todos := next;
    }

    /** `deleteTodo`. */
    method DeleteTodo(id: string, write: StorageOp)
      modifies this
      ensures todos == WithoutId(old(todos), id)
      ensures storage == if write.Succeeds? then old(storage)[Key() := todos] else old(storage)
      ensures isLoading == old(isLoading) && mounted == old(mounted)
    {
      var next := WithoutId(todos, id);
      PersistTodos(next, write);
      todos := next;
    }

    /** `toggleTodo`. */
    method ToggleTodo(id: string, write: StorageOp)
      modifies this
      ensures todos == Toggled(old(todos), id)
      ensures storage == if write.Succeeds? then old(storage)[Key() := todos] else old(storage)
      ensures isLoading == old(isLoading) && mounted == old(mounted)
    {
      var next := Toggled(todos, id);
      PersistTodos(next, write);
      todos := next;
    }

    /** `activeTodos`. */
    function ActiveTodos(): (r: seq<Todo>)
      reads this
      ensures forall t :: t in r <==> t in todos && !t.isCompleted
      ensures |r| + |CompletedTodos()| == |todos|
    {
      PartitionSizes(todos);
      Active(todos)
    }

    /** `completedTodos`. */
    function CompletedTodos(): (r: seq<Todo>)
      reads this
      ensures forall t :: t in r <==> t in todos && t.isCompleted
    {
      Completed(todos)
    }
  }

  /** A todo created for an email is there again after the hook is unmounted
      and mounted anew for the same email, written in another case and with
      surrounding spaces. */
  method ReappearsForSameUser(email: string, id: string, title: string, photoUri: string, location: Coords)
    returns (reloaded: seq<Todo>)
    ensures reloaded == [NewTodo(id, title, photoUri, location, email)]
  {
    var first := new TodoStore(email, map[]);
    first.Reload(Succeeds);
    first.CreateTodo(id, title, photoUri, location, Succeeds);
    first.Unmount();
    var again := " " + ToLower(email) + " ";
    StorageKeyNormalises(" ", ToLower(email), " ");
    StorageKeyNormalises("", email, "");
    var second := new TodoStore(again, first.storage);
    second.Reload(Succeeds);
    reloaded := second.todos;
  }

  /** A todo created for one user is not seen by another. */
  method HiddenFromOtherUser(email: string, other: string, id: string, title: string, photoUri: string, location: Coords)
    returns (reloaded: seq<Todo>)
    requires Owner(email) != Owner(other)
    ensures reloaded == []
  {
    var first := new TodoStore(email, map[]);
    first.Reload(Succeeds);
    first.CreateTodo(id, title, photoUri, location, Succeeds);
    first.Unmount();
    var second := new TodoStore(other, first.storage);
    WritesAreIsolated(map[], email, other, first.todos);
    second.Reload(Succeeds);
    reloaded := second.todos;
  }
}
