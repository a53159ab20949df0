/**
 * The atom factory of the vanilla core: `atom(read, write?)` draws a fresh
 * key, sorts the atom into one of four kinds by whether its first argument
 * is a function, and installs the default read and write on value atoms.
 *
 * The store itself is not part of this model. What the default read and
 * write need of it is how it answers an atom about ITSELF: `get(this)`
 * yields the stored value, or the atom's initial value while nothing is
 * stored yet, and `set(this, v)` stores `v` for that atom alone.
 */
module Atoms {
  import opened Wrappers
  import opened AtomKeys

  /** The store's current values, by atom key, as one atom's read or write sees them. */
  type Store<V> = map<AtomKey, V>

  /** A user read function: computes a value from what it can get from the store. */
  type Read<!V> = Store<V> -> V

  /** A user write function: from the store and the call's argument, a new store and a result. */
  type Write<!V, !A, R> = (Store<V>, A) -> (Store<V>, R)

  /** The first argument of `atom`, told apart as `typeof read === 'function'` does. */
  datatype ReadArg<!V> = Value(v: V) | ReadFn(f: Read<V>)

  /** The argument of a primitive atom's write: a new value, or an updater of the current one. */
  datatype SetStateAction<!V> = Plain(v: V) | Updater(f: V -> V)

  /** Which read the config holds: the shared default read, or the caller's function. */
  datatype ReadImpl<!V> = UsesDefaultRead | CustomRead(f: Read<V>)

  /** Which write the config holds: the shared default write, or the caller's function. */
  datatype WriteImpl<!V, !A, R> = UsesDefaultWrite | CustomWrite(w: Write<V, A, R>)

  /** The config object `atom` returns; `init` and `write` may be unset. */
  datatype Atom<!V, !A, R> = Atom(key: AtomKey, read: ReadImpl<V>, init: Option<V>, write: Option<WriteImpl<V, A, R>>)
  {
    /** The config's `toString`: "atom" followed by the key. */
    function ToString(): (s: string)
      ensures ParseKey(s) == Some(key)
    {
      ParseKeyName(key);
      KeyName(key)
    }
  }

  /** The four shapes the overload signatures of `atom` promise. */
  datatype Kind = ReadOnlyDerived | WritableDerived | WriteOnlyDerived | PrimitiveAtom

  /** The kind each overload signature gives to a call with these arguments. */
  function OverloadKind<V, A, R>(read: ReadArg<V>, write: Option<Write<V, A, R>>): Kind {
    match (read, write)
    case (ReadFn(_), Some(_)) => WritableDerived
    case (ReadFn(_), None) => ReadOnlyDerived
    case (Value(_), Some(_)) => WriteOnlyDerived
    case (Value(_), None) => PrimitiveAtom
  }

  /** The kind a config has by its fields, or None for a shape `atom` never builds. */
  function KindOf<V, A, R>(a: Atom<V, A, R>): Option<Kind> {
    if a.init.Some? && a.read.UsesDefaultRead? then
      if a.write == Some(UsesDefaultWrite) then Some(PrimitiveAtom)
      else if a.write.Some? then Some(WriteOnlyDerived)
      else None
    else if a.init.None? && a.read.CustomRead? then
      if a.write.None? then Some(ReadOnlyDerived)
      else if a.write.value.CustomWrite? then Some(WritableDerived)
      else None
    else None
  }

  /** Keys drawn so far, in order: the counter has handed out 1, 2, ... and nothing else. */
  ghost predicate Consecutive(issued: seq<AtomKey>) {
    forall i :: 0 <= i < |issued| ==> issued[i] == i + 1
  }

  /** The module-level key counter and the `atom` function that draws from it. */
  class AtomFactory {
    var keyCount: nat
    ghost var issued: seq<AtomKey>

    ghost predicate Valid()
      reads this
    {
      |issued| == keyCount && Consecutive(issued)
    }

    /** The module is loaded: the counter starts at 0. */
    constructor ()
      ensures Valid() && keyCount == 0 && issued == []
    {
      keyCount := 0;
      issued := [];
    }

    /** `atom(read, write?)`. */
    method NewAtom<V, A, R>(read: ReadArg<V>, write: Option<Write<V, A, R>>) returns (config: Atom<V, A, R>)
      requires Valid()
      modifies this
      ensures Valid()
      ensures keyCount == old(keyCount) + 1 && issued == old(issued) + [keyCount]
      ensures config.key == keyCount && config.key !in old(issued)
      ensures config.ToString() == KeyName(keyCount)
      ensures KindOf(config) == Some(OverloadKind(read, write))
      ensures read.ReadFn? ==> config.read == CustomRead(read.f) && config.init == None
      ensures read.Value? ==> config.read == UsesDefaultRead && config.init == Some(read.v)
      ensures write.Some? ==> config.write == Some(CustomWrite(write.value))
      ensures write.None? ==> config.write == if read.Value? then Some(UsesDefaultWrite) else None
    {
      keyCount := keyCount + 1;
      var key := keyCount;
      issued := issued + [key];
      if read.ReadFn? {
        config := Atom(key, CustomRead(read.f), None, None);
      } else {
        config := Atom(key, UsesDefaultRead, Some(read.v), Some(UsesDefaultWrite));
      }
      if write.Some? {
        config := config.(write := Some(CustomWrite(write.value)));
      }
    }
  }

  /** Atoms from successive calls have pairwise distinct keys and names. */
  lemma IssuedKeysDistinct(issued: seq<AtomKey>)
    requires Consecutive(issued)
    ensures forall i, j :: 0 <= i < j < |issued| ==> issued[i] < issued[j]
    ensures forall i, j :: 0 <= i < j < |issued| ==> KeyName(issued[i]) != KeyName(issued[j])
  {
    forall i, j | 0 <= i < j < |issued|
      ensures KeyName(issued[i]) != KeyName(issued[j])
    {
      KeyNameInjective(issued[i], issued[j]);
    }
  }

  /** `defaultRead`: `get(this)`, the value the store holds for the atom itself. */
  function DefaultRead<V, A, R>(a: Atom<V, A, R>, s: Store<V>): (v: V)
    requires a.init.Some?
    ensures a.key in s ==> v == s[a.key]
    ensures a.key !in s ==> v == a.init.value
  {
    if a.key in s then s[a.key] else a.init.value
  }

  /** `defaultWrite`: sets the atom itself to the plain value, or to the updater applied to its current value. */
  function DefaultWrite<V, A, R>(a: Atom<V, A, R>, s: Store<V>, arg: SetStateAction<V>): (s': Store<V>)
    requires a.init.Some?
    ensures s'.Keys == s.Keys + {a.key}
    ensures forall k | k in s && k != a.key :: s'[k] == s[k]
    ensures arg.Plain? ==> s'[a.key] == arg.v
    ensures arg.Updater? ==> s'[a.key] == arg.f(DefaultRead(a, s))
  {
    s[a.key := match arg
               case Plain(v) => v
               case Updater(f) => f(DefaultRead(a, s))]
  }

  /** Reading after a default write sees exactly the value the write resolved. */
  lemma ReadAfterDefaultWrite<V, A, R>(a: Atom<V, A, R>, s: Store<V>, arg: SetStateAction<V>)
    requires a.init.Some?
    ensures DefaultRead(a, DefaultWrite(a, s, arg)) ==
            match arg
            case Plain(v) => v
            case Updater(f) => f(DefaultRead(a, s))
  {
  }

  /** Two updaters written one after the other act as their composition written once. */
  lemma UpdatersCompose<V, A, R>(a: Atom<V, A, R>, s: Store<V>, f: V -> V, g: V -> V)
    requires a.init.Some?
    ensures DefaultWrite(a, DefaultWrite(a, s, Updater(f)), Updater(g)) == DefaultWrite(a, s, Updater(x => g(f(x))))
  {
  }

  /** A plain write replaces whatever came before: only the last of two plain writes matters. */
  lemma PlainWriteOverwrites<V, A, R>(a: Atom<V, A, R>, s: Store<V>, arg: SetStateAction<V>, v: V)
    requires a.init.Some?
    ensures DefaultWrite(a, DefaultWrite(a, s, arg), Plain(v)) == DefaultWrite(a, s, Plain(v))
  {
  }
}
