/** Named mutexes: a concurrent map from names to mutexes, its operations cut into atomic actions. */
module MutexMaps {

  /**
   * `names` is the map, `holder` the mutexes that are locked and by whom. A mutex outlives its
   * name: those who wait on it keep a reference. Identities below `next` have been given out.
   */
  datatype Locks = Locks(names: map<string, nat>, holder: map<nat, nat>, next: nat)

  const UNUSED := Locks(map[], map[], 0)

  /** Lock, first action: store a mutex that is locked already, unless the name has one. */
  function Stored(l: Locks, w: nat, name: string): Locks {
    if name in l.names then l
    else l.(names := l.names[name := l.next], holder := l.holder[l.next := w], next := l.next + 1)
  }

  /** Lock, second action for a loaded mutex: enabled when nobody holds it. */
  function Acquired(l: Locks, w: nat, m: nat): Locks
    requires m !in l.holder
  {
    l.(holder := l.holder[m := w])
  }

  /** Unlocking a mutex that nobody holds ends the process. */
  predicate UnlockFatal(l: Locks, name: string) {
    name in l.names && l.names[name] !in l.holder
  }

  function Released(l: Locks, name: string): Locks {
    if name in l.names then l.(holder := l.holder - {l.names[name]}) else l
  }

  function Removed(l: Locks, name: string): Locks {
    l.(names := l.names - {name})
  }

  /** Nobody holds the mutex of the name. */
  predicate Free(l: Locks, name: string) {
    name in l.names ==> l.names[name] !in l.holder
  }

  /** Lock, at most one removal in between, unlock: what an undisturbed holder does to the locks. */
  function Passed(l: Locks, w: nat, name: string, removes: bool): Locks
    requires Free(l, name)
  {
    var held := if name in l.names then Acquired(l, w, l.names[name]) else Stored(l, w, name);
    Released(if removes then Removed(held, name) else held, name)
  }

  class MutexMap {
    var sm: map<string, nat>
    var holder: map<nat, nat>
    var next: nat

    constructor ()
      ensures View() == UNUSED
    {
      sm, holder, next := map[], map[], 0;
    }

    function View(): Locks
      reads this
    {
      Locks(sm, holder, next)
    }

    /** A lock call up to its return; it can return only when the mutex of the name is free. */
    method Lock(w: nat, name: string)
      requires Free(View(), name)
      modifies this
      ensures View() == if name in old(sm) then Acquired(old(View()), w, old(sm)[name]) else Stored(old(View()), w, name)
      ensures name in sm && sm[name] in holder && holder[sm[name]] == w
    {
      var m := next;
      if name in sm {
        holder := holder[sm[name] := w];
      } else {
        sm, holder, next := sm[name := m], holder[m := w], next + 1;
      }
    }

    method Unlock(name: string)
      requires !UnlockFatal(View(), name)
      modifies this
      ensures View() == Released(old(View()), name)
    {
      if name in sm {
        holder := holder - {sm[name]};
      }
    }

    method Remove(name: string)
      modifies this
      ensures View() == Removed(old(View()), name)
    {
      sm := sm - {name};
    }
  }
}
