/** Workers on named locks, every action of the lock map a step of its own. */
module Locking {
  import opened Prelude
  import opened MutexMaps

  /**
   * Where a worker is: not at any name, blocked on a mutex it loaded for a name, in the section of
   * a name, or past its removal of the name and about to unlock.
   */
  datatype Phase =
    | Outside
    | Blocked(name: string, mutex: nat)
    | Inside(name: string)
    | Leaving(name: string)

  datatype Hall = Hall(locks: Locks, phases: seq<Phase>)

  datatype Move =
    | Try(w: nat, name: string)
    | Wake(w: nat)
    | Drop(w: nat)
    | Exit(w: nat)
    | Purge(name: string)

  ghost predicate Enabled(h: Hall, m: Move) {
    match m
    case Try(w, _) => w < |h.phases| && h.phases[w].Outside?
    case Wake(w) => w < |h.phases| && h.phases[w].Blocked? && h.phases[w].mutex !in h.locks.holder
    case Drop(w) => w < |h.phases| && h.phases[w].Inside?
    case Exit(w) => w < |h.phases| && (h.phases[w].Inside? || h.phases[w].Leaving?) && !UnlockFatal(h.locks, h.phases[w].name)
    case Purge(_) => true
  }

  ghost function After(h: Hall, m: Move): Hall
    requires Enabled(h, m)
  {
    match m
    case Try(w, n) =>
      if n in h.locks.names then h.(phases := h.phases[w := Blocked(n, h.locks.names[n])])
      else Hall(Stored(h.locks, w, n), h.phases[w := Inside(n)])
    case Wake(w) => Hall(Acquired(h.locks, w, h.phases[w].mutex), h.phases[w := Inside(h.phases[w].name)])
    case Drop(w) => Hall(Removed(h.locks, h.phases[w].name), h.phases[w := Leaving(h.phases[w].name)])
    case Exit(w) => Hall(Released(h.locks, h.phases[w].name), h.phases[w := Outside])
    case Purge(n) => h.(locks := Removed(h.locks, n))
  }

  ghost predicate At(p: Phase, n: string) {
    !p.Outside? && p.name == n
  }

  /** Nobody but `w` has anything to do with the name. */
  ghost predicate NobodyElse(h: Hall, w: nat, n: string) {
    forall v | 0 <= v < |h.phases| && v != w :: !At(h.phases[v], n)
  }

  /**
   * A move that takes no lock entry away from those who use it: a name that is there is removed only
   * when nobody else is at it, and not asked for again before the one who removed it has unlocked.
   */
  ghost predicate Safe(h: Hall, m: Move) {
    match m
    case Try(_, n) => forall v | 0 <= v < |h.phases| :: h.phases[v] != Leaving(n)
    case Drop(w) => w < |h.phases| && h.phases[w].Inside? ==> NobodyElse(h, w, h.phases[w].name)
    case Purge(n) => n !in h.locks.names || NobodyElse(h, |h.phases|, n)
    case _ => true
  }

  ghost predicate NamesDistinct(l: Locks) {
    && (forall n | n in l.names :: l.names[n] < l.next)
    && (forall n, n' | n in l.names && n' in l.names && l.names[n] == l.names[n'] :: n == n')
    && (forall m | m in l.holder :: m < l.next)
  }

  ghost predicate PhaseOk(h: Hall, w: nat)
    requires w < |h.phases|
  {
    match h.phases[w]
    case Outside => true
    case Blocked(n, m) => Lookup(h.locks.names, n) == Some(m)
    case Inside(n) => n in h.locks.names && Lookup(h.locks.holder, h.locks.names[n]) == Some(w)
    case Leaving(n) => n !in h.locks.names && NobodyElse(h, w, n)
  }

  /** The mutex of a name is held by nobody, or by a worker in the section of that name. */
  ghost predicate HolderInside(h: Hall, n: string) {
    n in h.locks.names && h.locks.names[n] in h.locks.holder ==>
      h.locks.holder[h.locks.names[n]] < |h.phases| && h.phases[h.locks.holder[h.locks.names[n]]] == Inside(n)
  }

  ghost predicate LockInv(h: Hall) {
    && NamesDistinct(h.locks)
    && (forall w | 0 <= w < |h.phases| :: PhaseOk(h, w))
    && (forall n :: HolderInside(h, n))
  }

  /** The part of the invariant that one name rests on, whatever was done to the other names. */
  ghost predicate NameInv(h: Hall, n: string) {
    && NamesDistinct(h.locks)
    && (forall v | 0 <= v < |h.phases| && h.phases[v].Blocked? ::
          h.phases[v].mutex < h.locks.next && (h.phases[v].name != n ==> Lookup(h.locks.names, n) != Some(h.phases[v].mutex)))
    && (forall v | 0 <= v < |h.phases| && At(h.phases[v], n) :: PhaseOk(h, v))
    && HolderInside(h, n)
  }

  /** The invariant is that of every name. */
  lemma InvByName(h: Hall)
    ensures LockInv(h) <==> forall n :: NameInv(h, n)
  {
    if forall n :: NameInv(h, n) {
      assert NameInv(h, "");
      forall w | 0 <= w < |h.phases|
        ensures PhaseOk(h, w)
      {
        if !h.phases[w].Outside? {
          assert NameInv(h, h.phases[w].name) && At(h.phases[w], h.phases[w].name);
        }
      }
      forall n
        ensures HolderInside(h, n)
      {
        assert NameInv(h, n);
      }
    } else {
      var n :| !NameInv(h, n);
      if LockInv(h) {
        InvOfName(h, n);
      }
    }
  }

  lemma InvOfName(h: Hall, n: string)
    requires LockInv(h)
    ensures NameInv(h, n)
  {
    forall v | 0 <= v < |h.phases| && h.phases[v].Blocked?
      ensures h.phases[v].mutex < h.locks.next
      ensures h.phases[v].name != n ==> Lookup(h.locks.names, n) != Some(h.phases[v].mutex)
    {
      assert PhaseOk(h, v);
    }
    assert HolderInside(h, n);
  }

  ghost predicate InSection(p: Phase, n: string) {
    (p.Inside? || p.Leaving?) && p.name == n
  }

  /** At most one worker is in the section of the name, counting the one that is about to leave it. */
  ghost predicate ExclusiveAt(h: Hall, n: string) {
    forall v, w | 0 <= v < |h.phases| && 0 <= w < |h.phases| && v != w :: !(InSection(h.phases[v], n) && InSection(h.phases[w], n))
  }

  ghost predicate Exclusive(h: Hall) {
    forall n :: ExclusiveAt(h, n)
  }

  lemma NameExcludes(h: Hall, n: string)
    requires NameInv(h, n)
    ensures ExclusiveAt(h, n)
  {
    forall v, w | 0 <= v < |h.phases| && 0 <= w < |h.phases| && v != w
      ensures !(InSection(h.phases[v], n) && InSection(h.phases[w], n))
    {
      assert InSection(h.phases[v], n) ==> At(h.phases[v], n) && PhaseOk(h, v);
      assert InSection(h.phases[w], n) ==> At(h.phases[w], n) && PhaseOk(h, w);
    }
  }

  lemma InvExcludes(h: Hall)
    requires LockInv(h)
    ensures Exclusive(h)
  {
    forall n
      ensures ExclusiveAt(h, n)
    {
      InvOfName(h, n);
      NameExcludes(h, n);
    }
  }

  /** Unlocking releases the mutex of the one who unlocks, and nothing when the name is gone. */
  lemma ReleasesOwn(h: Hall, w: nat)
    requires w < |h.phases| && (h.phases[w].Inside? || h.phases[w].Leaving?) && NameInv(h, h.phases[w].name)
    ensures Enabled(h, Exit(w)) && !UnlockFatal(h.locks, h.phases[w].name)
    ensures h.phases[w].Inside? ==>
      h.phases[w].name in h.locks.names &&
      var m := h.locks.names[h.phases[w].name];
      Lookup(h.locks.holder, m) == Some(w) && After(h, Exit(w)).locks.holder == h.locks.holder - {m}
    ensures h.phases[w].Leaving? ==> After(h, Exit(w)).locks == h.locks
  {
    assert At(h.phases[w], h.phases[w].name);
    assert PhaseOk(h, w);
  }

  // ---- What keeps a name in order ----

  /** The move is about the name. */
  ghost predicate Concerns(h: Hall, m: Move, n: string) {
    match m
    case Try(_, x) => x == n
    case Purge(x) => x == n
    case Wake(w) => w < |h.phases| && At(h.phases[w], n)
    case Drop(w) => w < |h.phases| && At(h.phases[w], n)
    case Exit(w) => w < |h.phases| && At(h.phases[w], n)
  }

  lemma TryKeeps(h: Hall, w: nat, x: string, n: string)
    requires NameInv(h, n) && Enabled(h, Try(w, x)) && (x == n ==> Safe(h, Try(w, x)))
    ensures NameInv(After(h, Try(w, x)), n)
  {
    var t := After(h, Try(w, x));
    forall v | 0 <= v < |t.phases| && At(t.phases[v], n)
      ensures PhaseOk(t, v)
    {
      if v != w {
        assert At(h.phases[v], n) && PhaseOk(h, v);
        if h.phases[v].Leaving? {
          assert h.phases[v] == Leaving(n);
        }
      }
    }
  }

  lemma WakeKeeps(h: Hall, w: nat, n: string)
    requires NameInv(h, n) && Enabled(h, Wake(w))
    ensures NameInv(After(h, Wake(w)), n)
  {
    var t := After(h, Wake(w));
    forall v | 0 <= v < |t.phases| && At(t.phases[v], n)
      ensures PhaseOk(t, v)
    {
      assert At(h.phases[v], n) && PhaseOk(h, v);
    }
  }

  lemma DropKeeps(h: Hall, w: nat, n: string)
    requires NameInv(h, n) && Enabled(h, Drop(w)) && (At(h.phases[w], n) ==> Safe(h, Drop(w)))
    ensures NameInv(After(h, Drop(w)), n)
  {
    var t := After(h, Drop(w));
    forall v | 0 <= v < |t.phases| && At(t.phases[v], n)
      ensures PhaseOk(t, v)
    {
      assert At(h.phases[v], n) && PhaseOk(h, v);
    }
  }

  lemma ExitKeeps(h: Hall, w: nat, n: string)
    requires NameInv(h, n) && Enabled(h, Exit(w))
    ensures NameInv(After(h, Exit(w)), n)
  {
    var t := After(h, Exit(w));
    if At(h.phases[w], n) {
      assert PhaseOk(h, w);
    }
    forall v | 0 <= v < |t.phases| && At(t.phases[v], n)
      ensures PhaseOk(t, v)
    {
      assert At(h.phases[v], n) && PhaseOk(h, v);
    }
  }

  lemma PurgeKeeps(h: Hall, x: string, n: string)
    requires NameInv(h, n) && (x == n ==> Safe(h, Purge(x)))
    ensures NameInv(After(h, Purge(x)), n)
  {
    var t := After(h, Purge(x));
    forall v | 0 <= v < |t.phases| && At(t.phases[v], n)
      ensures PhaseOk(t, v)
    {
      assert At(h.phases[v], n) && PhaseOk(h, v);
    }
  }

  /** What is done to other names, removals under their users included, does no harm to this one. */
  lemma NameInvStep(h: Hall, m: Move, n: string)
    requires NameInv(h, n) && Enabled(h, m) && (Concerns(h, m, n) ==> Safe(h, m))
    ensures NameInv(After(h, m), n)
  {
    match m
    case Try(w, x) => TryKeeps(h, w, x, n);
    case Wake(w) => WakeKeeps(h, w, n);
    case Drop(w) => DropKeeps(h, w, n);
    case Exit(w) => ExitKeeps(h, w, n);
    case Purge(x) => PurgeKeeps(h, x, n);
  }

  /** The invariant is kept by the safe moves and by no others. */
  lemma InvStep(h: Hall, m: Move)
    requires LockInv(h) && Enabled(h, m)
    ensures LockInv(After(h, m)) <==> Safe(h, m)
  {
    if Safe(h, m) {
      forall n
        ensures NameInv(After(h, m), n)
      {
        InvOfName(h, n);
        NameInvStep(h, m, n);
      }
      InvByName(After(h, m));
    } else {
      UnsafeBreaks(h, m);
    }
  }

  lemma UnsafeBreaks(h: Hall, m: Move)
    requires LockInv(h) && Enabled(h, m) && !Safe(h, m)
    ensures !LockInv(After(h, m))
  {
    var t := After(h, m);
    match m
    case Try(w, n) =>
      UnsafeTry(h, w, n);
      if LockInv(t) {
        InvExcludes(t);
      }
    case Drop(w) =>
      var v :| 0 <= v < |h.phases| && v != w && At(h.phases[v], h.phases[w].name);
      assert PhaseOk(h, v) && PhaseOk(h, w);
      assert !PhaseOk(t, v);
    case Purge(n) =>
      var v :| 0 <= v < |h.phases| && At(h.phases[v], n);
      assert PhaseOk(h, v);
      assert !PhaseOk(t, v);
  }

  /** Asking for a name before the one who removed it has unlocked: two workers are inside at once. */
  lemma UnsafeTry(h: Hall, w: nat, n: string)
    requires LockInv(h) && Enabled(h, Try(w, n)) && !Safe(h, Try(w, n))
    ensures !Exclusive(After(h, Try(w, n)))
  {
    var t := After(h, Try(w, n));
    var v :| 0 <= v < |h.phases| && h.phases[v] == Leaving(n);
    assert PhaseOk(h, v);
    assert InSection(t.phases[v], n) && InSection(t.phases[w], n);
    assert !ExclusiveAt(t, n);
  }

  // ---- Runs ----

  /** The states of a run: every move enabled in the state before it. */
  ghost predicate Steps(trace: seq<Hall>, moves: seq<Move>) {
    && |trace| == |moves| + 1
    && forall i | 0 <= i < |moves| :: Enabled(trace[i], moves[i]) && trace[i + 1] == After(trace[i], moves[i])
  }

  ghost predicate AllSafe(trace: seq<Hall>, moves: seq<Move>) {
    |trace| == |moves| + 1 && forall i | 0 <= i < |moves| :: Safe(trace[i], moves[i])
  }

  ghost function Start(workers: nat): Hall {
    Hall(UNUSED, seq(workers, _ => Outside))
  }

  /** The moves at the name are safe; those at other names need not be. */
  ghost predicate SafeAt(trace: seq<Hall>, moves: seq<Move>, n: string) {
    |trace| == |moves| + 1 && forall i | 0 <= i < |moves| && Concerns(trace[i], moves[i], n) :: Safe(trace[i], moves[i])
  }

  lemma {:induction false} NameInvAlong(trace: seq<Hall>, moves: seq<Move>, n: string, i: nat)
    requires Steps(trace, moves) && SafeAt(trace, moves, n) && NameInv(trace[0], n) && i <= |moves|
    ensures NameInv(trace[i], n)
  {
    if i > 0 {
      NameInvAlong(trace, moves, n, i - 1);
      NameInvStep(trace[i - 1], moves[i - 1], n);
    }
  }

  /**
   * Mutual exclusion, name by name: with any number of workers, in every state of every run that
   * takes this name away from none of its users, whatever is removed elsewhere, the name has at most
   * one worker, and who unlocks it releases his own mutex.
   */
  lemma MutualExclusion(workers: nat, trace: seq<Hall>, moves: seq<Move>, n: string, i: nat)
    requires Steps(trace, moves) && SafeAt(trace, moves, n) && trace[0] == Start(workers) && i <= |moves|
    ensures ExclusiveAt(trace[i], n)
    ensures i < |moves| && moves[i].Exit? && trace[i].phases[moves[i].w] == Inside(n) ==>
      var l := trace[i].locks;
      n in l.names && Lookup(l.holder, l.names[n]) == Some(moves[i].w) && trace[i + 1].locks.holder == l.holder - {l.names[n]}
    ensures forall w | 0 <= w < |trace[i].phases| && InSection(trace[i].phases[w], n) :: !UnlockFatal(trace[i].locks, n)
  {
    NameInvAlong(trace, moves, n, i);
    NameExcludes(trace[i], n);
    forall w | 0 <= w < |trace[i].phases| && InSection(trace[i].phases[w], n)
      ensures !UnlockFatal(trace[i].locks, n)
      ensures trace[i].phases[w].Inside? ==>
        var l := trace[i].locks;
        n in l.names && Lookup(l.holder, l.names[n]) == Some(w) && After(trace[i], Exit(w)).locks.holder == l.holder - {l.names[n]}
    {
      ReleasesOwn(trace[i], w);
    }
  }

  /** A name that is never removed is safe, whatever is removed elsewhere. */
  lemma {:induction false} NoRemovalIsSafe(workers: nat, trace: seq<Hall>, moves: seq<Move>, n: string, i: nat)
    requires Steps(trace, moves) && trace[0] == Start(workers) && i <= |moves|
    requires forall j | 0 <= j < |moves| && (moves[j].Drop? || moves[j].Purge?) :: !Concerns(trace[j], moves[j], n)
    ensures forall w | 0 <= w < |trace[i].phases| :: trace[i].phases[w] != Leaving(n)
    ensures i < |moves| && Concerns(trace[i], moves[i], n) ==> Safe(trace[i], moves[i])
  {
    if i > 0 {
      NoRemovalIsSafe(workers, trace, moves, n, i - 1);
      assert moves[i - 1].Drop? ==> !Concerns(trace[i - 1], moves[i - 1], n);
    }
  }

  // ---- Removing a name ----

  lemma {:induction false} StaysLeaving(trace: seq<Hall>, moves: seq<Move>, w: nat, n: string, i: nat)
    requires Steps(trace, moves) && NameInv(trace[0], n) && i <= |moves|
    requires w < |trace[0].phases| && trace[0].phases[w] == Leaving(n)
    requires forall j | 0 <= j < |moves| :: !Concerns(trace[j], moves[j], n)
    ensures w < |trace[i].phases| && trace[i].phases[w] == Leaving(n) && NameInv(trace[i], n)
  {
    if i > 0 {
      StaysLeaving(trace, moves, w, n, i - 1);
      NameInvStep(trace[i - 1], moves[i - 1], n);
      assert !Concerns(trace[i - 1], moves[i - 1], n);
    }
  }

  /**
   * A holder who removes a name nobody waits for, and unlocks before anybody asks for it again,
   * leaves the name as if it had never been used, whatever goes on at other names in between.
   */
  lemma RemoveThenUnlock(h: Hall, w: nat, trace: seq<Hall>, moves: seq<Move>)
    requires Enabled(h, Drop(w)) && NameInv(h, h.phases[w].name) && NobodyElse(h, w, h.phases[w].name)
    requires Steps(trace, moves) && trace[0] == After(h, Drop(w))
    requires forall j | 0 <= j < |moves| :: !Concerns(trace[j], moves[j], h.phases[w].name)
    ensures Enabled(trace[|moves|], Exit(w))
    ensures var t, n := After(trace[|moves|], Exit(w)), h.phases[w].name;
      && NameInv(t, n) && n !in t.locks.names
      && (forall v | 0 <= v < |t.phases| :: !At(t.phases[v], n))
      && (forall x | x in t.locks.names :: Lookup(h.locks.names, n) != Some(t.locks.names[x]))
    ensures LockInv(h) && AllSafe(trace, moves) ==> LockInv(After(trace[|moves|], Exit(w)))
  {
    var n := h.phases[w].name;
    var last := trace[|moves|];
    assert At(h.phases[w], n) && PhaseOk(h, w);
    NameInvStep(h, Drop(w), n);
    StaysLeaving(trace, moves, w, n, |moves|);
    ReleasesOwn(last, w);
    ExitKeeps(last, w, n);
    assert At(last.phases[w], n) && PhaseOk(last, w);
    OrphanStays(trace, moves, h.locks.names[n], |moves|);
    if LockInv(h) && AllSafe(trace, moves) {
      InvStep(h, Drop(w));
      InvAlong(trace, moves, |moves|);
      InvStep(last, Exit(w));
    }
  }

  lemma {:induction false} InvAlong(trace: seq<Hall>, moves: seq<Move>, i: nat)
    requires Steps(trace, moves) && AllSafe(trace, moves) && LockInv(trace[0]) && i <= |moves|
    ensures LockInv(trace[i])
  {
    if i > 0 {
      InvAlong(trace, moves, i - 1);
      InvStep(trace[i - 1], moves[i - 1]);
    }
  }

  /** A mutex without a name never gets one again. */
  lemma {:induction false} OrphanStays(trace: seq<Hall>, moves: seq<Move>, m: nat, i: nat)
    requires Steps(trace, moves) && i <= |moves|
    requires m < trace[0].locks.next && forall n | n in trace[0].locks.names :: trace[0].locks.names[n] != m
    ensures m < trace[i].locks.next && forall n | n in trace[i].locks.names :: trace[i].locks.names[n] != m
  {
    if i > 0 {
      OrphanStays(trace, moves, m, i - 1);
    }
  }

  /**
   * Why nobody may wait: a held mutex that has lost its name is never released, so a worker that
   * waits for it waits in every continuation, safe or not.
   */
  lemma {:induction false} WaiterOfOrphanIsStuck(trace: seq<Hall>, moves: seq<Move>, v: nat, i: nat)
    requires Steps(trace, moves) && i <= |moves|
    requires v < |trace[0].phases| && trace[0].phases[v].Blocked?
    requires var m := trace[0].phases[v].mutex;
      m in trace[0].locks.holder && m < trace[0].locks.next && forall n | n in trace[0].locks.names :: trace[0].locks.names[n] != m
    ensures v < |trace[i].phases| && trace[i].phases[v] == trace[0].phases[v]
    ensures trace[0].phases[v].mutex in trace[i].locks.holder
  {
    if i > 0 {
      WaiterOfOrphanIsStuck(trace, moves, v, i - 1);
      OrphanStays(trace, moves, trace[0].phases[v].mutex, i - 1);
    }
  }

  /** A removal with anybody else at the name: that worker waits in every continuation. */
  lemma UnsafeDrop(h: Hall, w: nat, v: nat, trace: seq<Hall>, moves: seq<Move>, i: nat)
    requires LockInv(h) && Enabled(h, Drop(w)) && v < |h.phases| && v != w && At(h.phases[v], h.phases[w].name)
    requires Steps(trace, moves) && trace[0] == After(h, Drop(w)) && i <= |moves|
    ensures v < |trace[i].phases| && trace[i].phases[v].Blocked? && trace[i].phases[v] == h.phases[v]
  {
    assert PhaseOk(h, v) && PhaseOk(h, w);
    WaiterOfOrphanIsStuck(trace, moves, v, i);
  }

  /**
   * A name purged while somebody is at it: the next worker that asks for it joins the one inside,
   * or the waiter that gets the orphaned mutex first. Either way two are inside.
   */
  lemma UnsafePurge(h: Hall, n: string, u: nat) returns (trace: seq<Hall>, moves: seq<Move>)
    requires LockInv(h) && !Safe(h, Purge(n)) && u < |h.phases| && h.phases[u].Outside?
    ensures Steps(trace, moves) && trace[0] == h && 2 <= |moves| <= 3 && moves[0] == Purge(n) && moves[|moves| - 1] == Try(u, n)
    ensures forall m | m in moves[1..|moves| - 1] :: m.Wake?
    ensures !Exclusive(trace[|moves|])
  {
    var h1 := After(h, Purge(n));
    var v :| 0 <= v < |h.phases| && At(h.phases[v], n);
    assert PhaseOk(h, v) && HolderInside(h, n);
    var m := h.locks.names[n];
    if m in h.locks.holder {
      var x := h.locks.holder[m];
      var h2 := After(h1, Try(u, n));
      trace, moves := [h, h1, h2], [Purge(n), Try(u, n)];
      assert InSection(h2.phases[x], n) && InSection(h2.phases[u], n);
      assert !ExclusiveAt(h2, n);
    } else {
      assert h.phases[v] == Blocked(n, m);
      var h2 := After(h1, Wake(v));
      var h3 := After(h2, Try(u, n));
      trace, moves := [h, h1, h2, h3], [Purge(n), Wake(v), Try(u, n)];
      assert InSection(h3.phases[v], n) && InSection(h3.phases[u], n);
      assert !ExclusiveAt(h3, n);
    }
  }

  /** The first condition is needed: a run that removes a name with a waiter blocks the waiter for good. */
  lemma RemovalUnderWaiter(n: string)
    returns (trace: seq<Hall>, moves: seq<Move>)
    ensures Steps(trace, moves) && trace[0] == Start(2)
    ensures var last := trace[|moves|];
      && last.phases == [Outside, Blocked(n, 0)]
      && forall trace': seq<Hall>, moves': seq<Move>, i: nat | Steps(trace', moves') && trace'[0] == last && i <= |moves'| ::
        |trace'[i].phases| > 1 && trace'[i].phases[1] == Blocked(n, 0)
  {
    moves := [Try(0, n), Try(1, n), Drop(0), Exit(0)];
    var h0 := Start(2);
    var h1 := After(h0, Try(0, n));
    var h2 := After(h1, Try(1, n));
    var h3 := After(h2, Drop(0));
    var h4 := After(h3, Exit(0));
    trace := [h0, h1, h2, h3, h4];
    assert h4.phases[0] == Outside && h4.phases[1] == Blocked(n, 0);
    assert h4.locks.names == map[] && 0 in h4.locks.holder;
    forall trace': seq<Hall>, moves': seq<Move>, i: nat | Steps(trace', moves') && trace'[0] == h4 && i <= |moves'|
      ensures |trace'[i].phases| > 1 && trace'[i].phases[1] == Blocked(n, 0)
    {
      WaiterOfOrphanIsStuck(trace', moves', 1, i);
    }
  }

  /**
   * The second condition is needed: if the name is asked for before the unlock, the unlock releases
   * the new holder's mutex, a third worker joins it inside, and the last unlock is fatal.
   */
  lemma LockBeforeUnlock(n: string)
    returns (trace: seq<Hall>, moves: seq<Move>)
    ensures Steps(trace, moves) && trace[0] == Start(3)
    ensures exists i | 0 <= i <= |moves| :: !Exclusive(trace[i])
    ensures var last := trace[|moves|]; |last.phases| == 3 && last.phases[2] == Inside(n) && UnlockFatal(last.locks, n)
  {
    moves := [Try(0, n), Drop(0), Try(1, n), Exit(0), Try(2, n), Wake(2), Exit(1)];
    var h0 := Start(3);
    var h1 := After(h0, Try(0, n));
    var h2 := After(h1, Drop(0));
    var h3 := After(h2, Try(1, n));
    assert h3.locks.names == map[n := 1] && h3.phases[1] == Inside(n);
    var h4 := After(h3, Exit(0));
    assert h4.locks.names[n] == 1 && 1 !in h4.locks.holder;
    var h5 := After(h4, Try(2, n));
    var h6 := After(h5, Wake(2));
    assert h6.phases[1] == Inside(n) && h6.phases[2] == Inside(n);
    var h7 := After(h6, Exit(1));
    trace := [h0, h1, h2, h3, h4, h5, h6, h7];
    assert InSection(h6.phases[1], n) && InSection(h6.phases[2], n);
    assert !ExclusiveAt(trace[6], n);
  }

  /** A cleanup that takes no lock lets a second worker in beside the first. */
  lemma PurgeUnderHolder(n: string)
    returns (trace: seq<Hall>, moves: seq<Move>)
    ensures Steps(trace, moves) && trace[0] == Start(2)
    ensures trace[|moves|].phases == [Inside(n), Inside(n)] && !Exclusive(trace[|moves|])
  {
    moves := [Try(0, n), Purge(n), Try(1, n)];
    var h0 := Start(2);
    var h1 := After(h0, Try(0, n));
    var h2 := After(h1, Purge(n));
    var h3 := After(h2, Try(1, n));
    trace := [h0, h1, h2, h3];
    assert h3.phases[0] == Inside(n) && h3.phases[1] == Inside(n);
    assert InSection(h3.phases[0], n) && InSection(h3.phases[1], n);
    assert !ExclusiveAt(h3, n);
  }
}
