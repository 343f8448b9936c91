/**
 The registry that keeps backups of one profile from running at the same time: every use of it is a
 step of a machine over any number of workers, in any interleaving.
 */
module Guards {

  /** Any number of workers using one registry: who holds which profile, and whether the lock is poisoned. */
  datatype Workers = Workers(active: set<string>, holds: map<nat, string>, poisoned: bool)

  datatype GuardEvent = Acquire(worker: nat, profile: string) | Drop(worker: nat) | Poison

  /** A worker holds at most one guard at a time; acquiring fails on a busy profile or a poisoned lock. */
  function GuardStep(w: Workers, e: GuardEvent): Workers {
    match e
    case Acquire(k, p) =>
      if w.poisoned || k in w.holds || p in w.active then w
      else w.(active := w.active + {p}, holds := w.holds[k := p])
    case Drop(k) =>
      if k !in w.holds then w
      else w.(active := if w.poisoned then w.active else w.active - {w.holds[k]}, holds := w.holds - {k})
    case Poison => w.(poisoned := true)
  }

  function GuardRun(w: Workers, es: seq<GuardEvent>): Workers {
    if es == [] then w else GuardStep(GuardRun(w, es[..|es| - 1]), es[|es| - 1])
  }

  /** No two workers run the same profile, and every running profile is registered. */
  predicate Exclusive(w: Workers) {
    && (forall k :: k in w.holds ==> w.holds[k] in w.active)
    && (forall j, k :: j in w.holds && k in w.holds && j != k ==> w.holds[j] != w.holds[k])
  }

  /** In every interleaving of acquisitions and drops, runs of one profile never overlap. */
  lemma {:induction false} RunsNeverOverlap(es: seq<GuardEvent>)
    ensures Exclusive(GuardRun(Workers({}, map[], false), es))
  {
    if es != [] {
      RunsNeverOverlap(es[..|es| - 1]);
    }
  }

  /** An acquisition is refused exactly when the profile is registered, unless the lock is poisoned. */
  lemma RefusedIffRunning(es: seq<GuardEvent>, worker: nat, profile: string)
    requires forall i :: 0 <= i < |es| ==> es[i] != Poison
    requires worker !in GuardRun(Workers({}, map[], false), es).holds
    ensures var w := GuardRun(Workers({}, map[], false), es);
            GuardStep(w, Acquire(worker, profile)) == w <==> exists k :: k in w.holds && w.holds[k] == profile
  {
    var w := GuardRun(Workers({}, map[], false), es);
    RegisteredIffHeld(es);
    if profile !in w.active {
      assert worker in GuardStep(w, Acquire(worker, profile)).holds;
    }
  }

  lemma {:induction false} RegisteredIffHeld(es: seq<GuardEvent>)
    requires forall i :: 0 <= i < |es| ==> es[i] != Poison
    ensures var w := GuardRun(Workers({}, map[], false), es);
            !w.poisoned && forall p :: p in w.active <==> exists k :: k in w.holds && w.holds[k] == p
  {
    if es != [] {
      var init := es[..|es| - 1];
      assert forall i :: 0 <= i < |init| ==> init[i] == es[i];
      RegisteredIffHeld(init);
      RunsNeverOverlap(init);
      HeldAfterStep(GuardRun(Workers({}, map[], false), init), es[|es| - 1]);
    }
  }

  lemma HeldAfterStep(w: Workers, e: GuardEvent)
    requires !w.poisoned && e != Poison && Exclusive(w)
    requires forall p :: p in w.active <==> exists k :: k in w.holds && w.holds[k] == p
    ensures var u := GuardStep(w, e);
            !u.poisoned && forall p :: p in u.active <==> exists k :: k in u.holds && u.holds[k] == p
  {
    var u := GuardStep(w, e);
    forall p ensures p in u.active <==> exists k :: k in u.holds && u.holds[k] == p {
      if p in u.active {
        if e.Acquire? && p == e.profile && p !in w.active {
          assert u.holds[e.worker] == p;
        } else {
          var k :| k in w.holds && w.holds[k] == p;
          assert k in u.holds && u.holds[k] == p;
        }
      }
      if k :| k in u.holds && u.holds[k] == p {
        if k in w.holds {
          assert w.holds[k] == p;
        }
      }
    }
  }

  // ----- the registry as written ---------------------------------------------------------------

  class ExecutionGuard {
    var active: set<string>
    var poisoned: bool
    /** Which worker holds the guard of which profile. */
    ghost var holds: map<nat, string>

    ghost function View(): Workers
      reads this
    {
      Workers(active, holds, poisoned)
    }

    constructor ()
      ensures View() == Workers({}, map[], false)
    {
      active, poisoned, holds := {}, false, map[];
    }

    /** Fails on a busy profile and on a poisoned lock. */
    method TryAcquire(pid: string, ghost worker: nat) returns (ok: bool)
      requires worker !in holds
      modifies this
      ensures View() == GuardStep(old(View()), Acquire(worker, pid))
      ensures ok <==> worker in holds
      ensures ok <==> !old(poisoned) && pid !in old(active)
    {
      if poisoned {
        return false;
      }
      if pid in active {
        return false;
      }
      active := active + {pid};
      holds := holds[worker := pid];
      return true;
    }

    /** Drops the guard a worker holds; behind a poisoned lock the profile stays registered. */
    method Release(pid: string, ghost worker: nat)
      requires worker in holds && holds[worker] == pid
      modifies this
      ensures View() == GuardStep(old(View()), Drop(worker))
    {
      if !poisoned {
        active := active - {pid};
      }
      holds := holds - {worker};
    }
  }

  /** Acquiring and dropping leaves the registry as it was. */
  lemma AcquireThenDrop(w: Workers, worker: nat, profile: string)
    requires !w.poisoned && worker !in w.holds && profile !in w.active
    ensures GuardStep(GuardStep(w, Acquire(worker, profile)), Drop(worker)) == w
  {
    assert w.active + {profile} - {profile} == w.active;
    assert w.holds[worker := profile] - {worker} == w.holds;
  }
}
