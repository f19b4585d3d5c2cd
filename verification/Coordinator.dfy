/**
  The connection coordinator: a lazily filled map from database name to a
  one-slot channel.

  `Coord` is the value the step machine works on: the map sends a name to a
  channel number, and `slots` says how many tokens each channel ever made
  holds.  `ConnectionCoordinator` is the object with the source's own fields;
  each of its methods is proved to move `View()` the way `Coord` moves.
 */
module Coordinator {
  import opened Wrappers

  /** The buffer size every channel is made with. */
  const CAPACITY: nat := 1

  datatype Coord = Coord(sems: map<string, nat>, slots: seq<nat>) {

    /** Every entry names a channel that exists, and no two names share one. */
    ghost predicate WellFormed() {
      && (forall d | d in sems :: sems[d] < |slots|)
      && (forall d, e | d in sems && e in sems && sems[d] == sems[e] :: d == e)
    }

    /** The map test and creation done under the mutex. */
    function Intern(d: string): Coord {
      if d in sems then this else Coord(sems[d := |slots|], slots + [0])
    }

    /** What reading the map gives: a missing key reads as a nil channel. */
    function Lookup(d: string): Option<nat> {
      if d in sems then Some(sems[d]) else None
    }

    /** Go specification, "Send statements": a nil channel never accepts, a buffered one accepts while it has room. */
    predicate CanSend(ref: Option<nat>) {
      ref.Some? && ref.value < |slots| && slots[ref.value] < CAPACITY
    }

    function Send(c: nat): Coord
      requires c < |slots|
    {
      this.(slots := slots[c := slots[c] + 1])
    }

    predicate CanDrain(c: nat) {
      c < |slots| && slots[c] > 0
    }

    function Drain(c: nat): Coord
      requires CanDrain(c)
    {
      this.(slots := slots[c := slots[c] - 1])
    }
  }

  /** Interning never replaces an entry and never touches a token. */
  lemma InternStable(c: Coord, d: string)
    requires c.WellFormed()
    ensures c.Intern(d).WellFormed()
    ensures d in c.Intern(d).sems
    ensures forall e | e in c.sems :: e in c.Intern(d).sems && c.Intern(d).sems[e] == c.sems[e]
    ensures forall e | e in c.Intern(d).sems :: e == d || e in c.sems
    ensures |c.slots| <= |c.Intern(d).slots| && c.Intern(d).slots[..|c.slots|] == c.slots
    ensures forall k | |c.slots| <= k < |c.Intern(d).slots| :: c.Intern(d).slots[k] == 0
  {
  }

  /** A token put in and taken out again leaves no trace. */
  lemma SendThenDrain(c: Coord, k: nat)
    requires k < |c.slots|
    ensures c.Send(k).CanDrain(k) && c.Send(k).Drain(k) == c
  {
    assert c.Send(k).Drain(k).slots == c.slots;
  }

  /** A `chan struct{}`: only the number of buffered tokens matters. */
  class Semaphore {
    ghost const id: nat
    var tokens: nat

    constructor (ghost id: nat)
      ensures this.id == id && tokens == 0
    {
      this.id := id;
      tokens := 0;
    }
  }

  /** How a call of `Acquire` ends when no other goroutine runs meanwhile. */
  datatype Acquired = Granted | Cancelled | AcquireBlocked

  datatype Released = Freed | NothingToFree | ReleaseBlocked

  class ConnectionCoordinator {
    var dbSemaphores: map<string, Semaphore>
    ghost var made: seq<Semaphore>  // every channel ever made, oldest first

    ghost predicate Valid()
      reads this, made
    {
      && (forall i | 0 <= i < |made| :: made[i].id == i)
      && (forall d | d in dbSemaphores :: dbSemaphores[d].id < |made| && made[dbSemaphores[d].id] == dbSemaphores[d])
      && (forall d, e | d in dbSemaphores && e in dbSemaphores && dbSemaphores[d].id == dbSemaphores[e].id :: d == e)
    }

    static ghost function Ids(m: map<string, Semaphore>): (ids: map<string, nat>)
      ensures ids.Keys == m.Keys
      ensures forall d | d in m :: ids[d] == m[d].id
    {
      map d | d in m :: m[d].id
    }

    ghost function Tokens(): (s: seq<nat>)
      reads this, made
    {
      seq(|made|, i requires 0 <= i < |made| reads this, made => made[i].tokens)
    }

    ghost function View(): (c: Coord)
      requires Valid()
      reads this, made
      ensures c.WellFormed()
      ensures c.sems.Keys == dbSemaphores.Keys && |c.slots| == |made|
    {
      Coord(Ids(dbSemaphores), Tokens())
    }

    constructor ()
      ensures Valid() && View() == Coord(map[], [])
      ensures made == []
    {
      dbSemaphores := map[];
      made := [];
    }

    /** The part of `Acquire` that runs under the mutex. */
    method Resolve(dbName: string) returns (sem: Semaphore)
      requires Valid()
      modifies this
      ensures Valid() && View() == old(View()).Intern(dbName)
      ensures sem in made && View().Lookup(dbName) == Some(sem.id)
      ensures old(made) <= made && fresh(made[|old(made)|..])
    {
      if dbName !in dbSemaphores {
        Create(dbName);
      }
      sem := dbSemaphores[dbName];
    }

    /** First time a database is seen: make its channel. */
    method Create(dbName: string)
      requires Valid() && dbName !in dbSemaphores
      modifies this
      ensures Valid() && View() == old(View()).Intern(dbName)
      ensures old(made) <= made && fresh(made[|old(made)|..])
      ensures dbName in dbSemaphores
    {
      var ch := new Semaphore(|made|);
      dbSemaphores := dbSemaphores[dbName := ch];
      made := made + [ch];
      assert made[|old(made)|..] == [ch];
      assert Ids(dbSemaphores) == Ids(old(dbSemaphores))[dbName := |old(made)|];
      assert Tokens() == old(Tokens()) + [0];
    }

    /** A send that finds room. */
    method Put(sem: Semaphore)
      requires Valid() && sem in made && sem.tokens < CAPACITY
      modifies sem
      ensures Valid() && old(View()).CanSend(Some(sem.id)) && View() == old(View()).Send(sem.id)
    {
      sem.tokens := sem.tokens + 1;
      assert Tokens() == old(Tokens())[sem.id := old(sem.tokens) + 1];
    }

    /** A receive that finds a token. */
    method Take(sem: Semaphore)
      requires Valid() && sem in made && sem.tokens > 0
      modifies sem
      ensures Valid() && old(View()).CanDrain(sem.id) && View() == old(View()).Drain(sem.id)
    {
      sem.tokens := sem.tokens - 1;
      assert Tokens() == old(Tokens())[sem.id := old(sem.tokens) - 1];
    }

    /** Go specification, "Select statements": when both cases are ready, either may run. */
    method SelectOn(sem: Semaphore, ctxDone: bool) returns (out: Acquired)
      requires Valid() && sem in made
      modifies sem
      ensures Valid()
      ensures
        match out
        case Granted => old(View()).CanSend(Some(sem.id)) && View() == old(View()).Send(sem.id)
        case Cancelled => ctxDone && View() == old(View())
        case AcquireBlocked => !ctxDone && !old(View()).CanSend(Some(sem.id)) && View() == old(View())
    {
      if
      case sem.tokens < CAPACITY =>
        Put(sem);
        out := Granted;
      case ctxDone =>
        out := Cancelled;
      case sem.tokens >= CAPACITY && !ctxDone =>
        out := AcquireBlocked;
    }

    /** `Acquire`: resolve the channel, then select between sending on it and the context. */
    method Acquire(ctxDone: bool, dbName: string) returns (out: Acquired)
      requires Valid()
      modifies this, made
      ensures Valid()
      ensures old(made) <= made && fresh(made[|old(made)|..])
      ensures
        var mid := old(View()).Intern(dbName);
        match out
        case Granted => mid.CanSend(mid.Lookup(dbName)) && View() == mid.Send(mid.sems[dbName])
        case Cancelled => ctxDone && View() == mid
        case AcquireBlocked => !ctxDone && !mid.CanSend(mid.Lookup(dbName)) && View() == mid
    {
      var sem := Resolve(dbName);
      assert sem == (if sem.id < |old(made)| then old(made)[sem.id] else made[|old(made)|..][sem.id - |old(made)|]);
      out := SelectOn(sem, ctxDone);
    }

    /** `Release`: look the channel up, then take one token out of it if there is a channel. */
    method Release(dbName: string) returns (out: Released)
      requires Valid()
      modifies made
      ensures Valid() && View().sems == old(View()).sems
      ensures
        var before := old(View());
        match out
        case Freed =>
          && dbName in before.sems && before.CanDrain(before.sems[dbName])
          && View() == before.Drain(before.sems[dbName])
        case NothingToFree => dbName !in before.sems && View() == before
        case ReleaseBlocked =>
          && dbName in before.sems && !before.CanDrain(before.sems[dbName])
          && View() == before
    {
      if dbName in dbSemaphores {
        var sem := dbSemaphores[dbName];
        if sem.tokens > 0 {
          Take(sem);
          out := Freed;
        } else {
          out := ReleaseBlocked;
        }
      } else {
        out := NothingToFree;
      }
    }
  }
}
