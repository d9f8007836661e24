/** The owner locks a refs verb takes on its bundles before it writes, and gives back afterwards. */
module RefsLocks {
  import opened Refs

  type Session = string

  type Locks = map<Id, Session>

  /** Another session owns the bundle and has shown life within the time limit. */
  predicate Blocks(locks: Locks, id: Id, self: Session, force: bool, stale: set<Id>) {
    !force && id in locks && locks[id] != self && id !in stale
  }

  /** The first bundle whose lock cannot be taken, or the number of bundles. */
  function FirstBlocked(locks: Locks, ids: seq<Id>, self: Session, force: bool, stale: set<Id>): (n: nat)
    ensures n <= |ids|
    ensures n < |ids| ==> Blocks(locks, ids[n], self, force, stale)
    ensures forall i :: 0 <= i < n ==> !Blocks(locks, ids[i], self, force, stale)
  {
    if ids == [] || Blocks(locks, ids[0], self, force, stale) then 0
    else 1 + FirstBlocked(locks, ids[1..], self, force, stale)
  }

  function AllOf(ids: seq<Id>): set<Id> { set id | id in ids }

  class Owners {
    var locks: Locks

    constructor (initial: Locks)
      ensures locks == initial
    {
      locks := initial;
    }

    /** Free, stale or already owned by this session, the lock is this session's afterwards. */
    method Acquire(id: Id, self: Session, force: bool, stale: set<Id>) returns (ok: bool)
      modifies this
      ensures ok == !Blocks(old(locks), id, self, force, stale)
      ensures locks == if ok then old(locks)[id := self] else old(locks)
    {
      ok := !Blocks(locks, id, self, force, stale);
      if ok { locks := locks[id := self]; }
    }

    method Release(id: Id, self: Session)
      modifies this
      ensures locks == if id in old(locks) && old(locks)[id] == self then old(locks) - {id} else old(locks)
    {
      if id in locks && locks[id] == self { locks := locks - {id}; }
    }

    /** Everything held is given back, the last one first. */
    method ReleaseAll(held: seq<Id>, self: Session)
      requires forall i :: 0 <= i < |held| ==> held[i] in locks && locks[held[i]] == self
      modifies this
      ensures locks == old(locks) - AllOf(held)
    {
      ghost var before := locks;
      var i := |held|;
      NoneGone(before);
      assert held[i..] == [];
      while i > 0
        invariant 0 <= i <= |held|
        invariant locks == before - AllOf(held[i..])
      {
        i := i - 1;
        GoneStep(before, held, i, self);
        Release(held[i], self);
      }
      assert held[0..] == held;
    }

    /** All bundles in turn; if one is blocked, everything taken so far is given back. A refusal then
        leaves the locks as they were exactly when no bundle before the blocked one was locked: one this
        session already owned is lost, and a stale one is cleared. */
    method AcquireAll(ids: seq<Id>, self: Session, force: bool, stale: set<Id>) returns (ok: bool)
      modifies this
      ensures ok <==> FirstBlocked(old(locks), ids, self, force, stale) == |ids|
      ensures ok ==> Owned(old(locks), locks, ids, self)
      ensures !ok ==> locks == old(locks) - AllOf(ids[..FirstBlocked(old(locks), ids, self, force, stale)])
      ensures !ok ==> (locks == old(locks) <==>
                         forall i :: 0 <= i < FirstBlocked(old(locks), ids, self, force, stale)
                           ==> ids[i] !in old(locks))
    {
      ghost var before := locks;
      var i := 0;
      while i < |ids|
        invariant 0 <= i <= FirstBlocked(before, ids, self, force, stale)
        invariant locks == Grabbed(before, ids[..i], self)
      {
        NextBlocks(before, ids, self, force, stale, i);
        var got := Acquire(ids[i], self, force, stale);
        if !got {
          GivesBack(before, ids[..i], self);
          ReleaseAll(ids[..i], self);
          UntouchedIff(before, ids, i);
          return false;
        }
        i := i + 1;
      }
      assert ids[..i] == ids;
      GrabbedOwned(before, ids, self);
      return true;
    }
  }

  /** The locks with some bundles' taken by this session, one after another. */
  function Grabbed(before: Locks, ids: seq<Id>, self: Session): Locks {
    if ids == [] then before else Grabbed(before, ids[..|ids| - 1], self)[ids[|ids| - 1] := self]
  }

  /** The locks with some bundles' taken by this session. */
  ghost predicate Owned(before: Locks, locks: Locks, ids: seq<Id>, self: Session) {
    && (forall id :: id in locks <==> id in before || id in ids)
    && forall id :: id in locks ==> locks[id] == if id in ids then self else before[id]
  }

  lemma OwnedHeld(before: Locks, locks: Locks, ids: seq<Id>, self: Session)
    requires Owned(before, locks, ids, self)
    ensures forall i :: 0 <= i < |ids| ==> ids[i] in locks && locks[ids[i]] == self
    ensures locks - AllOf(ids) == before - AllOf(ids)
  {
  }

  lemma {:induction false} GrabbedOwned(before: Locks, ids: seq<Id>, self: Session)
    ensures Owned(before, Grabbed(before, ids, self), ids, self)
  {
    if ids != [] { GrabbedOwned(before, ids[..|ids| - 1], self); }
  }

  lemma GivesBack(before: Locks, ids: seq<Id>, self: Session)
    ensures var locks := Grabbed(before, ids, self);
            && (forall i :: 0 <= i < |ids| ==> ids[i] in locks && locks[ids[i]] == self)
            && locks - AllOf(ids) == before - AllOf(ids)
  {
    GrabbedOwned(before, ids, self);
    OwnedHeld(before, Grabbed(before, ids, self), ids, self);
  }

  /** What was taken blocks nothing that was free before, and the next bundle is the first blocked one or not. */
  lemma NextBlocks(before: Locks, ids: seq<Id>, self: Session, force: bool, stale: set<Id>, i: nat)
    requires i < |ids| && i <= FirstBlocked(before, ids, self, force, stale)
    ensures Grabbed(before, ids[..i + 1], self) == Grabbed(before, ids[..i], self)[ids[i] := self]
    ensures Blocks(Grabbed(before, ids[..i], self), ids[i], self, force, stale) <==>
              FirstBlocked(before, ids, self, force, stale) == i
  {
    assert ids[..i + 1][..i] == ids[..i];
    GrabbedOwned(before, ids[..i], self);
    if Blocks(before, ids[i], self, force, stale) { FirstIs(before, ids, self, force, stale, i); }
  }

  lemma {:induction false} FirstIs(locks: Locks, ids: seq<Id>, self: Session, force: bool, stale: set<Id>, i: nat)
    requires i <= FirstBlocked(locks, ids, self, force, stale) && i < |ids| && Blocks(locks, ids[i], self, force, stale)
    ensures FirstBlocked(locks, ids, self, force, stale) == i
  {
    if i > 0 { FirstIs(locks, ids[1..], self, force, stale, i - 1); }
  }

  lemma NoneGone(locks: Locks)
    ensures locks - AllOf([]) == locks
  {
  }

  lemma GoneStep(before: Locks, held: seq<Id>, i: nat, self: Session)
    requires i < |held| && forall j :: 0 <= j < |held| ==> held[j] in before && before[held[j]] == self
    ensures var now := before - AllOf(held[i + 1..]);
            before - AllOf(held[i..]) == if held[i] in now && now[held[i]] == self then now - {held[i]} else now
  {
    assert held[i..] == [held[i]] + held[i + 1..];
    assert AllOf(held[i..]) == AllOf(held[i + 1..]) + {held[i]};
  }

  lemma UntouchedIff(locks: Locks, ids: seq<Id>, n: nat)
    requires n <= |ids|
    ensures locks - AllOf(ids[..n]) == locks <==> forall i :: 0 <= i < n ==> ids[i] !in locks
  {
    if i :| 0 <= i < n && ids[i] in locks {
      assert ids[..n][i] == ids[i];
      assert ids[i] in AllOf(ids[..n]);
      assert ids[i] !in locks - AllOf(ids[..n]);
    } else {
      assert forall id :: id in AllOf(ids[..n]) ==> id !in locks;
    }
  }

  /** A whole verb's locking: what it acquires it gives back, and with it whatever this session already
      owned of these bundles before. If a bundle is blocked, the verb does not run, and the locks of the
      bundles before the blocked one are gone all the same. */
  method AroundVerb(owners: Owners, ids: seq<Id>, self: Session, force: bool, stale: set<Id>) returns (ok: bool)
    modifies owners
    ensures ok <==> forall i :: 0 <= i < |ids| ==> !Blocks(old(owners.locks), ids[i], self, force, stale)
    ensures owners.locks == old(owners.locks) - AllOf(ids[..FirstBlocked(old(owners.locks), ids, self, force, stale)])
    ensures ok ==> forall id :: id in ids ==> id !in owners.locks
    ensures owners.locks == old(owners.locks) <==>
              forall i :: 0 <= i < FirstBlocked(old(owners.locks), ids, self, force, stale)
                ==> ids[i] !in old(owners.locks)
  {
    ghost var before := owners.locks;
    ok := owners.AcquireAll(ids, self, force, stale);
    if ok {
      OwnedHeld(before, owners.locks, ids, self);
      owners.ReleaseAll(ids, self);
      assert ids[..|ids|] == ids;
      UntouchedIff(before, ids, |ids|);
    }
  }

  /** A verb's bundles can all be locked if and only if it is forced, or each of them is free, this
      session's already, or its owner has shown no life within the time limit. */
  lemma LockableIff(locks: Locks, ids: seq<Id>, self: Session, force: bool, stale: set<Id>)
    ensures FirstBlocked(locks, ids, self, force, stale) == |ids| <==>
              force || forall id :: id in ids && id in locks && locks[id] != self ==> id in stale
  {
    var n := FirstBlocked(locks, ids, self, force, stale);
    if n < |ids| {
      assert ids[n] in ids;
    } else {
      forall id | id in ids ensures !Blocks(locks, id, self, force, stale) { var i :| 0 <= i < |ids| && ids[i] == id; }
    }
  }
}
