/** The per-user to-do list page (app/todo/page.tsx): the record type, the
    load-or-seed and persist effects over browser local storage, and the three
    list transforms behind the Add, toggle and delete buttons. */
module TodoPage {
  import opened Text
  import Browser

  datatype Todo = Todo(id: string, task: string, completed: bool)

  /** What `JSON.parse` makes of the text stored under a key. Serialising a list
      and parsing it back gives the same list, so the model stores the parsed
      shape rather than the characters. */
  datatype StoredText = Malformed | NonArrayJson | JsonArray(items: seq<Todo>)

  /** The outcome of reading the key and parsing it. A stored empty string is
      falsy in the source and is skipped before parsing; it parses as nothing
      either way, so it falls under `Invalid` here. */
  datatype ParseResult = Missing | Invalid | NotArray | Array(items: seq<Todo>)

  /** The list as the persist effect stores it, serialised as JSON. */
  function Serialize(todos: seq<Todo>): StoredText {
    JsonArray(todos)
  }

  /** Reading the key and parsing what is there. */
  function Parse(stored: Option<StoredText>): (r: ParseResult)
    ensures r.Missing? <==> stored.None?
    ensures r.Array? <==> stored.Some? && stored.value.JsonArray?
    ensures r.Array? ==> r.items == stored.value.items
    ensures r.Invalid? <==> stored == Some(Malformed)
  {
    match stored
    case None => Missing
    case Some(Malformed) => Invalid
    case Some(NonArrayJson) => NotArray
    case Some(JsonArray(items)) => Array(items)
  }

  /** A query parameter as a template literal renders it: `get` returns null
      when the parameter is absent, and null renders as "null". */
  function Render(param: Option<string>): string {
    match param
    case None => "null"
    case Some(s) => s
  }

  /** The key used by both effects: "todos-", the first name, '.', and the
      last name, as the template renders the query parameters. */
  function StorageKey(firstName: Option<string>, lastName: Option<string>): (key: string)
    ensures StartsWith(key, "todos-")
    ensures key[6..] == Render(firstName) + "." + Render(lastName)
  {
    "todos-" + Render(firstName) + "." + Render(lastName)
  }

  /** The four tasks seeded when nothing usable is stored. */
  const Predefined: seq<Todo> := [
    Todo("1", "✅ Check-in at front desk", false),
    Todo("2", "📸 Complete facial authentication", false),
    Todo("3", "🧰 Collect safety gear", false),
    Todo("4", "📋 Review work assignments", false)
  ]

  /** The list the load effect adopts: a parsed non-empty array unchanged,
      otherwise the predefined tasks. */
  function Initial(p: ParseResult): (r: seq<Todo>)
    ensures p.Array? && |p.items| > 0 ==> r == p.items
    ensures !(p.Array? && |p.items| > 0) ==> r == Predefined
    ensures |r| > 0
  {
    if p.Array? && |p.items| > 0 then p.items else Predefined
  }

  /** Whether the load effect writes the seeded list back itself. */
  predicate Seeds(p: ParseResult) {
    !(p.Array? && |p.items| > 0)
  }

  /** Characters `String.prototype.trim` removes: ECMAScript WhiteSpace and
      LineTerminator (sections 12.2 and 12.3 of ECMA-262,
      2024 edition). */
  predicate IsJsSpace(c: char) {
    c == '\t' || c == '\n' || c == '\U{000B}' || c == '\U{000C}' || c == '\r' || c == ' '
    || c == '\U{00A0}' || c == '\U{1680}' || ('\U{2000}' <= c <= '\U{200A}')
    || c == '\U{2028}' || c == '\U{2029}' || c == '\U{202F}' || c == '\U{205F}'
    || c == '\U{3000}' || c == '\U{FEFF}'
  }

  function TrimStart(s: string): (r: string)
    ensures |r| <= |s| && r == s[|s| - |r|..]
  {
    if s != [] && IsJsSpace(s[0]) then TrimStart(s[1..]) else s
  }

  function TrimEnd(s: string): (r: string)
    ensures |r| <= |s| && r == s[..|r|]
  {
    if s != [] && IsJsSpace(s[|s| - 1]) then TrimEnd(s[..|s| - 1]) else s
  }

  /** JavaScript's trim: leading and trailing whitespace removed. */
  function Trim(s: string): string {
    TrimEnd(TrimStart(s))
  }

  predicate AllSpace(s: string) {
    forall i :: 0 <= i < |s| ==> IsJsSpace(s[i])
  }

  /** The box counts as blank exactly for strings made only of spaces. */
  lemma {:induction false} TrimEmptyIffAllSpace(s: string)
    ensures Trim(s) == [] <==> AllSpace(s)
  {
    TrimStartEmpty(s);
    var t := TrimStart(s);
    if t != [] {
      assert !IsJsSpace(t[0]) by { TrimStartHead(s); }
      TrimEndKeepsHead(t);
    }
  }

  lemma {:induction false} TrimStartEmpty(s: string)
    ensures TrimStart(s) == [] <==> AllSpace(s)
  {
    if s != [] && IsJsSpace(s[0]) {
      TrimStartEmpty(s[1..]);
      assert AllSpace(s) <==> AllSpace(s[1..]) by {
        if AllSpace(s[1..]) {
          forall i | 0 <= i < |s| ensures IsJsSpace(s[i]) {
            if i > 0 { assert s[i] == s[1..][i - 1]; }
          }
        }
      }
    }
  }

  lemma {:induction false} TrimStartHead(s: string)
    requires TrimStart(s) != []
    ensures !IsJsSpace(TrimStart(s)[0])
  {
    if s != [] && IsJsSpace(s[0]) { TrimStartHead(s[1..]); }
  }

  lemma {:induction false} TrimEndKeepsHead(t: string)
    requires t != [] && !IsJsSpace(t[0])
    ensures TrimEnd(t) != []
  {
    if IsJsSpace(t[|t| - 1]) {
      assert |t| > 1;
      TrimEndKeepsHead(t[..|t| - 1]);
    }
  }

  /** `addTodo`: returns the new list and the new contents of the input box. */
  function AddTodo(todos: seq<Todo>, newTask: string, freshId: string): (r: (seq<Todo>, string))
    ensures Trim(newTask) == [] ==> r == (todos, newTask)
    ensures Trim(newTask) != [] ==>
      |r.0| == |todos| + 1 && r.0[..|todos|] == todos
      && r.0[|todos|] == Todo(freshId, newTask, false) && r.1 == ""
  {
    if Trim(newTask) == [] then (todos, newTask)
    else (todos + [Todo(freshId, newTask, false)], "")
  }

  /** The toggle button: each record with the id has its `completed` flag
      flipped; the rest are kept as they are, in order. */
  function Toggle(todos: seq<Todo>, id: string): (r: seq<Todo>)
    ensures |r| == |todos|
    ensures forall i :: 0 <= i < |r| ==>
      r[i].id == todos[i].id && r[i].task == todos[i].task
      && r[i].completed == (if todos[i].id == id then !todos[i].completed else todos[i].completed)
  {
    if todos == [] then []
    else
      var t := todos[0];
      [if t.id == id then t.(completed := !t.completed) else t] + Toggle(todos[1..], id)
  }

  /** The delete button: the records with the id are dropped; the rest are
      kept in order. */
  function Delete(todos: seq<Todo>, id: string): (r: seq<Todo>)
    ensures |r| <= |todos|
    ensures forall t :: t in r <==> t in todos && t.id != id
  {
    if todos == [] then []
    else if todos[0].id != id then [todos[0]] + Delete(todos[1..], id)
    else Delete(todos[1..], id)
  }

  predicate HasId(todos: seq<Todo>, id: string) {
    exists i :: 0 <= i < |todos| && todos[i].id == id
  }

  lemma {:induction false} ToggleTwice(todos: seq<Todo>, id: string)
    ensures Toggle(Toggle(todos, id), id) == todos
  {
    var r := Toggle(Toggle(todos, id), id);
    assert |r| == |todos|;
    forall i | 0 <= i < |r| ensures r[i] == todos[i] { }
  }

  lemma {:induction false} ToggleAbsent(todos: seq<Todo>, id: string)
    requires !HasId(todos, id)
    ensures Toggle(todos, id) == todos
  {
    var r := Toggle(todos, id);
    forall i | 0 <= i < |r| ensures r[i] == todos[i] { }
  }

  /** Toggling two ids in either order gives the same list. */
  lemma {:induction false} ToggleCommutes(todos: seq<Todo>, a: string, b: string)
    ensures Toggle(Toggle(todos, a), b) == Toggle(Toggle(todos, b), a)
  {
    var l, r := Toggle(Toggle(todos, a), b), Toggle(Toggle(todos, b), a);
    forall i | 0 <= i < |l| ensures l[i] == r[i] { }
  }

  lemma {:induction false} DeleteAbsent(todos: seq<Todo>, id: string)
    requires !HasId(todos, id)
    ensures Delete(todos, id) == todos
  {
    if todos != [] {
      assert todos[0].id != id;
      forall i | 0 <= i < |todos[1..]| ensures todos[1..][i].id != id {
        assert todos[1..][i] == todos[i + 1];
      }
      DeleteAbsent(todos[1..], id);
    }
  }

  lemma {:induction false} DeleteRemovesAll(todos: seq<Todo>, id: string)
    ensures !HasId(Delete(todos, id), id)
  {
    var r := Delete(todos, id);
    forall i | 0 <= i < |r| ensures r[i].id != id {
      assert r[i] in r;
    }
  }

  lemma {:induction false} DeleteIdempotent(todos: seq<Todo>, id: string)
    ensures Delete(Delete(todos, id), id) == Delete(todos, id)
  {
    DeleteRemovesAll(todos, id);
    DeleteAbsent(Delete(todos, id), id);
  }

  /** Deletion works element by element, so it keeps the relative order. */
  lemma {:induction false} DeleteConcat(a: seq<Todo>, b: seq<Todo>, id: string)
    ensures Delete(a + b, id) == Delete(a, id) + Delete(b, id)
  {
    if a == [] {
      assert a + b == b;
    } else {
      assert (a + b)[0] == a[0];
      assert (a + b)[1..] == a[1..] + b;
      DeleteConcat(a[1..], b, id);
    }
  }

  /** Deletion keeps each record with another id exactly as often as it occurs. */
  lemma {:induction false} DeleteMultiset(todos: seq<Todo>, id: string)
    ensures forall t :: multiset(Delete(todos, id))[t] == if t.id != id then multiset(todos)[t] else 0
  {
    if todos != [] {
      DeleteMultiset(todos[1..], id);
      assert todos == [todos[0]] + todos[1..];
    }
  }

  /** A reload finds the list the previous load left and adopts it unchanged. */
  lemma ReloadIsStable(p: ParseResult)
    ensures Initial(Parse(Some(Serialize(Initial(p))))) == Initial(p)
  {
  }

  /** Two different people can share one storage key. */
  lemma StorageKeyIsNotInjective()
    ensures StorageKey(Some("a.b"), Some("c")) == StorageKey(Some("a"), Some("b.c"))
  {
  }

  /** The page: its list and input box as state, and the browser's local
      storage, which the two effects read and write. */
  class Page {
    const key: string
    const storage: Browser.LocalStorage<StoredText>
    var todos: seq<Todo>
    var newTask: string

    /** The persist effect's promise: the stored value is the serialised list. */
    ghost predicate Persisted()
      reads this, storage
    {
      key in storage.items && storage.items[key] == Serialize(todos)
    }

    constructor (firstName: Option<string>, lastName: Option<string>, storage: Browser.LocalStorage<StoredText>)
      ensures this.key == StorageKey(firstName, lastName) && this.storage == storage
      ensures todos == [] && newTask == ""
    {
      key := StorageKey(firstName, lastName);
      this.storage := storage;
      todos := [];
      newTask := "";
    }

    /** The persist effect. */
    method Persist()
      modifies storage
      ensures Persisted()
      ensures storage.items == old(storage.items)[key := Serialize(todos)]
    {
      storage.SetItem(key, Serialize(todos));
    }

    /** The load-or-seed effect. */
    method LoadOrSeed()
      modifies this`todos, storage
      ensures todos == Initial(Parse(old(storage.GetItem(key))))
      ensures storage.items == if Seeds(Parse(old(storage.GetItem(key))))
                               then old(storage.items)[key := Serialize(Predefined)]
                               else old(storage.items)
    {
      var stored := storage.GetItem(key);
      var parsed := Parse(stored);
      if parsed.Array? && |parsed.items| > 0 {
        todos := parsed.items;
        return;
      }
      todos := Predefined;
      storage.SetItem(key, Serialize(Predefined));
    }

    /** The first render's effects, in order: load-or-seed, then persist. The
        persist effect of that render still sees the empty initial list and
        writes it; the state update then renders again and persists the
        adopted list, which is the write that remains. */
    method Mount()
      modifies this`todos, storage
      ensures todos == Initial(Parse(old(storage.GetItem(key))))
      ensures Persisted()
      ensures storage.items == old(storage.items)[key := Serialize(todos)]
    {
      var rendered := todos;
      LoadOrSeed();
      storage.SetItem(key, Serialize(rendered));
      Persist();
    }

    /** The input box's `onChange`. */
    method SetNewTask(text: string)
      modifies this`newTask
      ensures newTask == text
    {
      newTask := text;
    }

    /** The Add button; `freshId` is the current time in milliseconds as
        decimal text. Blank input returns before any state is set, so no
        render follows and the persist effect does not run. */
    method Add(freshId: string)
      modifies this`todos, this`newTask, storage
      ensures (todos, newTask) == AddTodo(old(todos), old(newTask), freshId)
      ensures Trim(old(newTask)) == [] ==> storage.items == old(storage.items)
      ensures Trim(old(newTask)) != [] ==>
        Persisted() && storage.items == old(storage.items)[key := Serialize(todos)]
    {
      if Trim(newTask) == [] {
        return;
      }
      var r := AddTodo(todos, newTask, freshId);
      todos, newTask := r.0, r.1;
      Persist();
    }

    method ToggleComplete(id: string)
      modifies this`todos, storage
      ensures todos == Toggle(old(todos), id)
      ensures Persisted()
      ensures storage.items == old(storage.items)[key := Serialize(todos)]
    {
      todos := Toggle(todos, id);
      Persist();
    }

    method DeleteTodo(id: string)
      modifies this`todos, storage
      ensures todos == Delete(old(todos), id)
      ensures Persisted()
      ensures storage.items == old(storage.items)[key := Serialize(todos)]
    {
      todos := Delete(todos, id);
      Persist();
    }
  }
}
