/**
 * The logic of the todo-list example: the derived list that the filter
 * selects, and the updates the list and its items go through. The list is
 * a list of todo atoms compared by identity; since every atom has its own
 * key, an atom is represented here by its key. Reading an item atom is a
 * getter from keys to todos.
 */
module Todos {
  import opened Wrappers
  import opened AtomKeys
  import opened Atoms

  datatype Todo = Todo(title: string, completed: bool)

  /** The value of the list atom: the item atoms, in display order. */
  type TodoList = seq<AtomKey>

  /** The item atoms' current values, as a read function gets them. */
  type TodoGetter = AtomKey -> Todo

  /** Order-preserving: `r` is `s` with some elements left out. */
  predicate IsSubsequence(r: seq<AtomKey>, s: seq<AtomKey>)
    decreases |s|
  {
    if r == [] then true
    else if s == [] then false
    else if r[0] == s[0] then IsSubsequence(r[1..], s[1..])
    else IsSubsequence(r, s[1..])
  }

  lemma {:induction false} SubsequenceLength(r: seq<AtomKey>, s: seq<AtomKey>)
    requires IsSubsequence(r, s)
    ensures |r| <= |s|
    decreases |s|
  {
    if r != [] {
      if r[0] == s[0] {
        SubsequenceLength(r[1..], s[1..]);
      } else {
        SubsequenceLength(r, s[1..]);
      }
    }
  }

  lemma {:induction false} SubsequenceReflexive(s: seq<AtomKey>)
    ensures IsSubsequence(s, s)
  {
    if s != [] {
      SubsequenceReflexive(s[1..]);
    }
  }

  /** `Array.prototype.filter`: the elements that satisfy `p`, left to right. */
  function Keep(s: seq<AtomKey>, p: AtomKey -> bool): (r: seq<AtomKey>)
    ensures forall i :: 0 <= i < |r| ==> p(r[i])
    ensures forall x :: x in r <==> x in s && p(x)
  {
    if s == [] then []
    else (if p(s[0]) then [s[0]] else []) + Keep(s[1..], p)
  }

  /** What `Keep` leaves is a subsequence of its input. */
  lemma {:induction false} KeepIsSubsequence(s: seq<AtomKey>, p: AtomKey -> bool)
    ensures IsSubsequence(Keep(s, p), s)
  {
    if s != [] {
      KeepIsSubsequence(s[1..], p);
      var rest := Keep(s[1..], p);
      if p(s[0]) {
        assert Keep(s, p) == [s[0]] + rest;
        assert ([s[0]] + rest)[1..] == rest;
      } else {
        assert Keep(s, p) == rest;
        assert rest != [] ==> p(rest[0]);
      }
    }
  }

  /** `Keep` keeps every occurrence that satisfies `p` and no other. */
  lemma {:induction false} KeepCounts(s: seq<AtomKey>, p: AtomKey -> bool, x: AtomKey)
    ensures multiset(Keep(s, p))[x] == if p(x) then multiset(s)[x] else 0
  {
    if s != [] {
      KeepCounts(s[1..], p, x);
      assert s == [s[0]] + s[1..];
      assert multiset(s) == multiset([s[0]]) + multiset(s[1..]);
    }
  }

  /** When everything satisfies `p`, `Keep` returns its input unchanged. */
  lemma {:induction false} KeepAll(s: seq<AtomKey>, p: AtomKey -> bool)
    requires forall x :: x in s ==> p(x)
    ensures Keep(s, p) == s
  {
    if s != [] {
      assert forall x :: x in s[1..] ==> x in s;
      KeepAll(s[1..], p);
      assert s == [s[0]] + s[1..];
    }
  }

  /** Everything said about `Keep`, in one place. */
  lemma KeepSpec(s: seq<AtomKey>, p: AtomKey -> bool)
    ensures IsSubsequence(Keep(s, p), s) && |Keep(s, p)| <= |s|
    ensures forall x :: multiset(Keep(s, p))[x] == if p(x) then multiset(s)[x] else 0
  {
    KeepIsSubsequence(s, p);
    SubsequenceLength(Keep(s, p), s);
    forall x ensures multiset(Keep(s, p))[x] == if p(x) then multiset(s)[x] else 0 {
      KeepCounts(s, p, x);
    }
  }

  /** Whether a filter other than "all" shows a todo: "completed" shows done ones, anything else open ones. */
  predicate Shows(filter: string, t: Todo) {
    t.completed == (filter == "completed")
  }

  /** The read function of the filtered atom. */
  function Filtered(filter: string, todos: TodoList, get: TodoGetter): (r: TodoList)
    ensures filter == "all" ==> r == todos
    ensures IsSubsequence(r, todos) && |r| <= |todos|
    ensures filter != "all" ==> forall x :: x in r <==> x in todos && Shows(filter, get(x))
    ensures filter != "all" ==>
              forall x :: multiset(r)[x] == if Shows(filter, get(x)) then multiset(todos)[x] else 0
  {
    if filter == "all" then
      SubsequenceReflexive(todos);
      todos
    else
      var p := if filter == "completed" then (k: AtomKey) => get(k).completed else (k: AtomKey) => !get(k).completed;
      KeepSpec(todos, p);
      Keep(todos, p)
  }

  /** The "completed" view and any view other than "all" split the list: each atom lands in exactly one. */
  lemma CompletedSplitsList(todos: TodoList, get: TodoGetter, other: string)
    requires other != "all" && other != "completed"
    ensures multiset(Filtered("completed", todos, get)) + multiset(Filtered(other, todos, get)) == multiset(todos)
    ensures |Filtered("completed", todos, get)| + |Filtered(other, todos, get)| == |todos|
    ensures forall x :: x in todos ==> (x in Filtered("completed", todos, get) <==> x !in Filtered(other, todos, get))
  {
  }

  /** `remove`: the list without the given atom. */
  function Remove(prev: TodoList, todo: AtomKey): (r: TodoList)
    ensures todo !in r
    ensures IsSubsequence(r, prev) && |r| <= |prev|
    ensures forall x :: x != todo ==> multiset(r)[x] == multiset(prev)[x]
    ensures todo !in prev ==> r == prev
  {
    var p := (item: AtomKey) => item != todo;
    KeepSpec(prev, p);
    if todo !in prev then KeepAll(prev, p); Keep(prev, p) else Keep(prev, p)
  }

  /** `add`: appends a new todo atom, open and with the given title, to the list. */
  method Add(factory: AtomFactory, prev: TodoList, title: string)
    returns (next: TodoList, todo: Atom<Todo, SetStateAction<Todo>, ()>)
    requires factory.Valid()
    modifies factory
    ensures factory.Valid() && factory.keyCount == old(factory.keyCount) + 1
    ensures factory.issued == old(factory.issued) + [todo.key]
    ensures todo.key == factory.keyCount && todo.key !in old(factory.issued)
    ensures next == prev + [todo.key]
    ensures KindOf(todo) == Some(PrimitiveAtom) && todo.init == Some(Todo(title, false))
    ensures (forall k :: k in prev ==> k in old(factory.issued)) ==> todo.key !in prev
    ensures forall s: Store<Todo> :: (forall k :: k in s ==> k in old(factory.issued)) ==>
              DefaultRead(todo, s) == Todo(title, false)
  {
    todo := factory.NewAtom(Value(Todo(title, false)), None);
    next := prev + [todo.key];
  }

  /** `toggleCompleted`'s updater: flips `completed` and keeps the title. */
  function ToggleCompleted(t: Todo): (r: Todo)
    ensures r.title == t.title && r.completed == !t.completed
  {
    t.(completed := !t.completed)
  }

  lemma ToggleTwice(t: Todo)
    ensures ToggleCompleted(ToggleCompleted(t)) == t
  {
  }

  /** Toggling an item through its default write twice restores what it read before. */
  lemma ToggleTwiceThroughStore<A, R>(a: Atom<Todo, A, R>, s: Store<Todo>)
    requires a.init.Some?
    ensures DefaultRead(a, DefaultWrite(a, DefaultWrite(a, s, Updater(ToggleCompleted)), Updater(ToggleCompleted)))
            == DefaultRead(a, s)
  {
  }

  /** After toggling one item, it moves between the "completed" view and the others; no other item moves. */
  lemma ToggleMovesBetweenViews(todos: TodoList, get: TodoGetter, t: AtomKey, filter: string)
    requires filter != "all"
    ensures var get' := (k: AtomKey) => if k == t then ToggleCompleted(get(k)) else get(k);
            && (t in todos ==> (t in Filtered(filter, todos, get') <==> t !in Filtered(filter, todos, get)))
            && forall x :: x != t ==> (x in Filtered(filter, todos, get') <==> x in Filtered(filter, todos, get))
  {
  }
}
