# Jotai atom factory and todo-list logic, in Dafny

This project models two small pieces of Jotai's sequential logic.

- **The atom factory** (`src/vanilla/atom.ts`). `atom(read, write?)` draws a key from a module-level counter. It builds a config object whose `toString()` is `"atom"` followed by the key. It sorts the atom into one of four kinds by whether the first argument is a function and whether a `write` is given. Value atoms get the default read and write. `defaultRead` reads the atom's own value. `defaultWrite` resolves a set-state action: a function is an updater of the current value, anything else is the new value.
- **The todo example** (`examples/todos/src/App.tsx`, logic only). The filtered atom's read function picks item atoms by the filter string and each item's `completed` flag. `remove` drops one atom from the list. `add` appends a fresh atom. `toggleCompleted` flips an item's flag.

Modules:

- `Wrappers` (wrappers.dfy): `Option`.
- `AtomKeys` (keys.dfy): the decimal key name and its inverse parser. Key names are injective.
- `Atoms` (atom.dfy): the config datatype, the kinds, the `AtomFactory` class, `DefaultRead` and `DefaultWrite` over an abstract store.
- `Todos` (todos.dfy): `Keep` (the list filter), `Filtered`, `Remove`, `Add`, `ToggleCompleted`.

The store engine is not part of this model. Its files (`src/vanilla/store.ts`, `store2.ts`) are not among the modelled sources. The default read and write only need the store's answer for the atom ITSELF. `get(this)` gives the stored value, or the atom's initial value while nothing is stored. `set(this, v)` stores `v` for that atom only. `Store<V>` is a `map` from atom keys to values. `DefaultRead` and `DefaultWrite` state their meaning over that map.

The code sets `init`, the default read and the default write for `atom(value, write)`, and then replaces the write (atom.ts:150-159). `AtomFactory.NewAtom` models that: a `WriteOnlyDerived` atom has `init` and the default read.

## Model

| member | source | states |
|---|---|---|
| `AtomKeys.Decimal` | src/vanilla/atom.ts:140 | The key in the template string is a non-empty digit string. It has one digit exactly when the key is below 10, and no leading zero for a positive key. |
| `AtomKeys.KeyName` | src/vanilla/atom.ts:140 | The template string: `"atom"` followed by a canonical decimal numeral (digits only, no leading zero). Its inverse is `ParseKey`. |
| `AtomKeys.ParseKeyName` | src/vanilla/atom.ts:140-144 | Parsing an atom's name gives back its key. |
| `AtomKeys.KeyNameOfParse` | src/vanilla/atom.ts:140-144 | A string parses to key `k` exactly when it is the name of key `k`. Both directions are proved. |
| `AtomKeys.KeyNameInjective` | src/vanilla/atom.ts:140-144 | Two keys have the same name exactly when they are equal. The todo list relies on this when it uses `toString()` as the item key (examples/todos/src/App.tsx:74). |
| `Atoms.Atom.ToString` | src/vanilla/atom.ts:143-145 | `toString()` returns a name that parses back to the atom's own key. |
| `Atoms.AtomFactory.constructor` | src/vanilla/atom.ts:110 | The counter starts at 0 and no key has been issued yet. |
| `Atoms.AtomFactory.NewAtom` | src/vanilla/atom.ts:136-162 | The counter goes up by exactly 1. The new key is the new count and was never issued before. `toString()` is `"atom"` plus the new count. The kind matches the overload signature for the arguments (atom.ts:112-134). A function first argument becomes `read` and leaves `init` unset. A value first argument becomes `init`, with the default read. A supplied write always becomes `write`. Without one, a value atom gets the default write and a function atom has no write (read-only). |
| `Atoms.IssuedKeysDistinct` | src/vanilla/atom.ts:110-140 | The counter is never reset, so the keys of successive atoms strictly increase. Their names are pairwise distinct. |
| `Atoms.DefaultRead` | src/vanilla/atom.ts:168-170 | Returns the store's value for the atom itself, or its initial value while the store holds none. |
| `Atoms.DefaultWrite` | src/vanilla/atom.ts:172-184 | A plain value becomes the atom's value. An updater is applied once to the current value and its result is stored. No other atom's entry changes and no other key appears. Which of the two an argument is, is its tag (see "Left out"). |
| `Atoms.ReadAfterDefaultWrite` | src/vanilla/atom.ts:168-184 | Reading the atom after a default write yields exactly the value that write resolved. |
| `Atoms.UpdatersCompose` | src/vanilla/atom.ts:172-184 | Two updater writes in a row equal one write of the composed updater. |
| `Atoms.PlainWriteOverwrites` | src/vanilla/atom.ts:172-184 | A plain write discards the effect of any earlier default write to the same atom. |
| `Todos.Keep` | examples/todos/src/App.tsx:25-26 | `filter` keeps exactly the elements that satisfy the predicate, and every kept element satisfies it. |
| `Todos.KeepSpec` | examples/todos/src/App.tsx:25-26 | `filter` returns an order-preserving subsequence of its input, no longer than the input. It keeps every occurrence that satisfies the predicate and none that does not. |
| `Todos.Filtered` | examples/todos/src/App.tsx:19-27 | With filter `'all'` the result is the list itself. Any result is an order-preserving subsequence of the list. With `'completed'` it holds exactly the occurrences of completed items. With any other filter it holds exactly the occurrences of open items. |
| `Todos.CompletedSplitsList` | examples/todos/src/App.tsx:23-26 | The `'completed'` view and any other non-`'all'` view partition the list as a multiset. Their lengths add up to the list's length. Every listed atom appears in exactly one of them. |
| `Todos.Remove` | examples/todos/src/App.tsx:90-91 | Every occurrence of the removed atom is gone. All other atoms keep their order and their number of occurrences. Removing an absent atom leaves the list unchanged. |
| `Todos.Add` | examples/todos/src/App.tsx:93-98 | The new list is the old list followed by exactly one new primitive atom. Its initial value is the given title with `completed = false`. Its key is the new counter value and is recorded as issued, so it was never issued before and is not in a list of earlier atoms; the guarantee chains across successive adds. It reads as that initial value in any store that only holds earlier atoms. |
| `Todos.ToggleCompleted` | examples/todos/src/App.tsx:39-40 | The updater negates `completed` and keeps `title`. |
| `Todos.ToggleTwice` | examples/todos/src/App.tsx:39-40 | Applying the updater twice restores the original todo. |
| `Todos.ToggleTwiceThroughStore` | examples/todos/src/App.tsx:39-40 | Toggling an item twice through the default write restores the value it read before. |
| `Todos.ToggleMovesBetweenViews` | examples/todos/src/App.tsx:23-26 | In any view other than `'all'`, toggling one listed item flips whether that view shows it. No other item changes view. |

## Left out

- The store engine (dependency tracking, invalidation, epochs, async results and their cancellation, mount and unmount, listeners). Its source files are not part of this model. Only its self-access rule for an atom's own read and write is modelled, as `Store<V>`. `Store<V>` gives every atom the same value type, so a `Read<V>` can only read atoms of its own type: the todo example's list atom and filter atom cannot live in a `Store<Todo>`, which is why its read function takes the filter and the list as arguments and a getter for the items.
- The `signal` and `setSelf` options of a read function, `onMount`, `debugLabel`, `debugPrivate`, `unstable_is`, and the TypeScript types and overloads of atom.ts:1-104. They have no behaviour in the modelled code. The overload signatures are used only as the reference for `OverloadKind`.
- The result of `set` inside `defaultWrite`. For a write to the atom itself the store returns nothing, so `DefaultWrite` returns only the new store.
- User read and write functions are abstract arrows. `Read<V>` maps a store to a value. `Write<V, A, R>` maps a store and an argument to a new store and a result. Their bodies are the caller's code.
- `typeof x === 'function'` becomes a datatype tag (`ReadArg`, `SetStateAction`) that the caller chooses.
- Atoms.DefaultWrite: the model accepts a function passed as `Plain` as plain data, and `Atoms.AtomFactory.NewAtom` accepts a function passed as `Value` as an initial value. The source would call the first (atom.ts:180-181) and make the second the read (atom.ts:147-149). The contracts hold only for callers that tag every function as `Updater` or `ReadFn`.
- Atoms.AtomFactory.NewAtom, Atoms.IssuedKeysDistinct and AtomKeys.Decimal: the counter is a JavaScript number (atom.ts:110, 140). From 2^53 on, `++keyCount` no longer changes it, so keys would repeat; from 10^21 on, the template string prints exponent notation. The model's keys are unbounded integers, so its keys are exact and distinct only for fewer than 2^53 atoms.
- The UI of the todo example: components, the radio filter, transitions, and the form handling in `add` beyond the list update. Item values are read through an abstract getter (`TodoGetter`).
- The other example apps, `src/react/Provider.ts`, `src/vanilla.ts` and `src/experimental.ts`. They are UI binding, network I/O or re-exports.
