/** Threads and processes: thread tables, the waiter counters, and reaped children still in a thread's hands. */
module TaskCrew {
  import opened Wrappers
  import opened TaskSpec
  import opened TaskTree

  type Threads = map<Tid, Tcb>

  ghost predicate Alive(th: Threads, t: Tid) { t in th && th[t].status != Dead }

  ghost function Owner(th: Threads, t: Tid): Option<Ref> { if t in th then th[t].proc else None }

  ghost function PcOf(th: Threads, t: Tid): Pc { if t in th then th[t].pc else User }

  ghost function Team(k: Kin, p: Ref): set<Tid> { if p in k.procs then k.procs[p].threads else {} }

  ghost function Counter(k: Kin, p: Ref): nat { if p in k.procs then k.procs[p].waiting else 0 }

  /** The thread tables and the threads' process pointers agree; an exited process has no thread. */
  ghost predicate Members(th: Threads, k: Kin) {
    && (forall t: Tid :: Alive(th, t) && Owner(th, t).Some? ==> t in Team(k, Owner(th, t).value))
    && (forall p: Ref, t: Tid :: t in Team(k, p) ==> Alive(th, t) && Owner(th, t) == Some(p))
    && (forall p: Ref :: Exited(k, p) ==> Team(k, p) == {})
  }

  ghost predicate IsWaiter(th: Threads, p: Ref, t: Tid) {
    Alive(th, t) && Owner(th, t) == Some(p) && PcOf(th, t).InWait?
  }

  ghost function Waiters(th: Threads, p: Ref): set<Tid> {
    set t | t in th && IsWaiter(th, p, t)
  }

  /** waiting_threads_count never falls below the number of threads inside process_wait. */
  ghost predicate Counts(th: Threads, k: Kin) {
    forall p :: p in k.procs ==> |Waiters(th, p)| <= Counter(k, p)
  }

  /** Thread t has reaped c and not yet handed it to the clean thread. */
  ghost predicate Carries(th: Threads, t: Tid, c: Ref) { PcOf(th, t) == Handing(c) }

  ghost predicate CarriedOK(th: Threads, k: Kin) {
    && (forall t: Tid, c: Ref :: Carries(th, t, c) ==> c in k.procs && c in k.reports && c !in k.dead + k.clearing)
    && (forall t: Tid, u: Tid, c: Ref :: Carries(th, t, c) && Carries(th, u, c) ==> t == u)
  }

  ghost predicate CrewInv(th: Threads, k: Kin) {
    Members(th, k) && Counts(th, k) && CarriedOK(th, k)
  }

  // ---------------------------------------------------------------- frames

  ghost predicate SameCrew(th: Threads, th': Threads) {
    forall t: Tid :: (Alive(th', t) <==> Alive(th, t)) && Owner(th', t) == Owner(th, t) && PcOf(th', t) == PcOf(th, t)
  }

  lemma FewerWaiters(th: Threads, th': Threads, p: Ref)
    requires forall t: Tid :: IsWaiter(th', p, t) ==> IsWaiter(th, p, t)
    ensures |Waiters(th', p)| <= |Waiters(th, p)|
  {
    var a, b := Waiters(th', p), Waiters(th, p);
    assert a <= b by {
      forall t | t in a ensures t in b { assert IsWaiter(th, p, t); }
    }
    assert b == a + (b - a);
  }

  /** No process gains a waiter or loses from its counter. */
  lemma CountsKept(th: Threads, k: Kin, th': Threads, k': Kin)
    requires Counts(th, k)
    requires forall p: Ref, t: Tid :: IsWaiter(th', p, t) ==> IsWaiter(th, p, t) && p in k.procs
    requires forall p :: p in k.procs && p in k'.procs ==> Counter(k, p) <= Counter(k', p)
    ensures Counts(th', k')
  {
    hide IsWaiter, Counter;
    forall p | p in k'.procs ensures |Waiters(th', p)| <= Counter(k', p) {
      if p in k.procs {
        FewerWaiters(th, th', p);
      } else {
        assert Waiters(th', p) == {};
      }
    }
  }

  lemma CarriedKept(th: Threads, k: Kin, th': Threads, k': Kin)
    requires CarriedOK(th, k) && k'.dead == k.dead && k'.clearing == k.clearing
    requires k.procs.Keys <= k'.procs.Keys && k.reports.Keys <= k'.reports.Keys
    requires forall t: Tid, c: Ref :: Carries(th', t, c) ==> Carries(th, t, c)
    ensures CarriedOK(th', k')
  {
  }

  lemma KeepSameCrew(th: Threads, th': Threads, k: Kin)
    requires CrewInv(th, k) && SameCrew(th, th')
    ensures CrewInv(th', k)
  {
    hide Alive, Owner, PcOf, Team, Counter;
    MembersSame(th, th', k);
    forall p: Ref, t: Tid | IsWaiter(th', p, t) ensures IsWaiter(th, p, t) && p in k.procs {
      WaiterOf(th, k, p, t);
    }
    CountsKept(th, k, th', k);
    CarriedKept(th, k, th', k);
  }

  lemma MembersSame(th: Threads, th': Threads, k: Kin)
    requires Members(th, k) && SameCrew(th, th')
    ensures Members(th', k)
  {
    hide Alive, Owner, PcOf, Team;
  }

  lemma WaiterOf(th: Threads, k: Kin, p: Ref, t: Tid)
    requires Members(th, k)
    ensures IsWaiter(th, p, t) ==> p in k.procs && t in Team(k, p) && !Exited(k, p)
  {
  }

  /** The tables that concern threads are the same. */
  ghost predicate SameTeams(k: Kin, n: Kin) {
    && n.dead == k.dead && n.clearing == k.clearing && k.reports.Keys <= n.reports.Keys && n.procs.Keys == k.procs.Keys
    && forall p: Ref :: Team(n, p) == Team(k, p) && Counter(n, p) == Counter(k, p) && Exited(n, p) == Exited(k, p)
  }

  lemma KeepSameTeams(th: Threads, k: Kin, n: Kin)
    requires CrewInv(th, k) && SameTeams(k, n)
    ensures CrewInv(th, n)
  {
    hide Alive, Owner, PcOf, Team, Counter, Exited;
    forall p: Ref, t: Tid | IsWaiter(th, p, t) ensures p in k.procs {
      WaiterOf(th, k, p, t);
    }
    CountsKept(th, k, th, n);
    CarriedKept(th, k, th, n);
  }

  // ---------------------------------------------------------------- threads join and die

  /** tid is a new thread of p outside process_wait. */
  ghost predicate Joins(th: Threads, k: Kin, th': Threads, n: Kin, p: Ref, tid: Tid) {
    && !Alive(th, tid) && Alive(th', tid) && Owner(th', tid) == Some(p) && PcOf(th', tid) == User && !Exited(n, p)
    && (forall t: Tid :: t != tid ==> (Alive(th', t) <==> Alive(th, t)) && Owner(th', t) == Owner(th, t) && PcOf(th', t) == PcOf(th, t))
    && (forall r: Ref :: Team(n, r) == if r == p then Team(k, p) + {tid} else Team(k, r))
    && (forall r: Ref :: r != p ==> Exited(n, r) == Exited(k, r))
    && (forall r: Ref :: r in k.procs ==> Counter(n, r) == Counter(k, r))
    && k.procs.Keys <= n.procs.Keys && n.dead == k.dead && n.clearing == k.clearing && n.reports == k.reports
  }

  lemma JoinMembers(th: Threads, k: Kin, th': Threads, n: Kin, p: Ref, tid: Tid)
    requires Members(th, k) && Joins(th, k, th', n, p, tid)
    ensures Members(th', n)
  {
    hide Alive, Owner, PcOf, Team, Counter, Exited;
  }

  lemma KeepJoin(th: Threads, k: Kin, th': Threads, n: Kin, p: Ref, tid: Tid)
    requires CrewInv(th, k) && Joins(th, k, th', n, p, tid)
    ensures CrewInv(th', n)
  {
    hide Alive, Owner, PcOf, Team, Counter, Exited;
    JoinMembers(th, k, th', n, p, tid);
    forall r: Ref, t: Tid | IsWaiter(th', r, t) ensures IsWaiter(th, r, t) && r in k.procs {
      WaiterOf(th, k, r, t);
    }
    CountsKept(th, k, th', n);
    CarriedKept(th, k, th', n);
  }

  /** The threads of p in ts have died and left its table. */
  ghost predicate Dies(th: Threads, k: Kin, th': Threads, n: Kin, p: Ref, ts: set<Tid>) {
    && (forall t: Tid :: Owner(th', t) == Owner(th, t) && PcOf(th', t) == PcOf(th, t))
    && (forall t: Tid :: Alive(th', t) <==> Alive(th, t) && t !in ts)
    && (forall t: Tid :: t in ts ==> Owner(th, t) == Some(p))
    && (forall r: Ref :: Team(n, r) == if r == p then Team(k, p) - ts else Team(k, r))
    && (forall r: Ref :: Counter(n, r) == Counter(k, r) && Exited(n, r) == Exited(k, r))
    && n.procs.Keys == k.procs.Keys && n.dead == k.dead && n.clearing == k.clearing && n.reports == k.reports
  }

  lemma DeathMembers(th: Threads, k: Kin, th': Threads, n: Kin, p: Ref, ts: set<Tid>)
    requires Members(th, k) && Dies(th, k, th', n, p, ts)
    ensures Members(th', n)
  {
    hide Alive, Owner, PcOf, Team, Counter, Exited;
  }

  lemma KeepDeaths(th: Threads, k: Kin, th': Threads, n: Kin, p: Ref, ts: set<Tid>)
    requires CrewInv(th, k) && Dies(th, k, th', n, p, ts)
    ensures CrewInv(th', n)
  {
    hide Alive, Owner, PcOf, Team, Counter, Exited;
    DeathMembers(th, k, th', n, p, ts);
    forall r: Ref, t: Tid | IsWaiter(th', r, t) ensures IsWaiter(th, r, t) && r in k.procs {
      WaiterOf(th, k, r, t);
    }
    CountsKept(th, k, th', n);
    CarriedKept(th, k, th', n);
  }

  /** Thread t has left process p, which has exited. */
  ghost predicate Leaves(th: Threads, k: Kin, th': Threads, n: Kin, p: Ref, t: Tid) {
    && Owner(th, t) == Some(p) && Owner(th', t) == None && Team(k, p) == {t}
    && (forall u: Tid :: (Alive(th', u) <==> Alive(th, u)) && PcOf(th', u) == PcOf(th, u) && (u != t ==> Owner(th', u) == Owner(th, u)))
    && (forall r: Ref :: Team(n, r) == if r == p then {} else Team(k, r))
    && (forall r: Ref :: Counter(n, r) == Counter(k, r) && (r != p ==> Exited(n, r) == Exited(k, r)))
    && n.procs.Keys == k.procs.Keys && n.dead == k.dead && n.clearing == k.clearing && n.reports == k.reports
  }

  lemma LeaveMembers(th: Threads, k: Kin, th': Threads, n: Kin, p: Ref, t: Tid)
    requires Members(th, k) && Leaves(th, k, th', n, p, t)
    ensures Members(th', n)
  {
    hide Alive, Owner, PcOf, Team, Counter, Exited;
  }

  lemma KeepLeave(th: Threads, k: Kin, th': Threads, n: Kin, p: Ref, t: Tid)
    requires CrewInv(th, k) && Leaves(th, k, th', n, p, t)
    ensures CrewInv(th', n)
  {
    hide Alive, Owner, PcOf, Team, Counter, Exited;
    LeaveMembers(th, k, th', n, p, t);
    forall r: Ref, u: Tid | IsWaiter(th', r, u) ensures IsWaiter(th, r, u) && r in k.procs {
      WaiterOf(th, k, r, u);
    }
    CountsKept(th, k, th', n);
    CarriedKept(th, k, th', n);
  }

  /** A thread without a process dies, or a dead thread is destroyed. */
  ghost predicate Vanishes(th: Threads, th': Threads, t: Tid) {
    && (Alive(th, t) ==> Owner(th, t) == None) && !Alive(th', t) && (PcOf(th', t) == PcOf(th, t) || PcOf(th', t) == User)
    && forall u: Tid :: u != t ==> (Alive(th', u) <==> Alive(th, u)) && PcOf(th', u) == PcOf(th, u) && Owner(th', u) == Owner(th, u)
  }

  lemma KeepVanish(th: Threads, th': Threads, k: Kin, t: Tid)
    requires CrewInv(th, k) && Vanishes(th, th', t)
    ensures CrewInv(th', k)
  {
    hide Alive, Owner, PcOf, Team, Counter, Exited;
    assert Members(th', k);
    forall r: Ref, u: Tid | IsWaiter(th', r, u) ensures IsWaiter(th, r, u) && r in k.procs {
      WaiterOf(th, k, r, u);
    }
    CountsKept(th, k, th', k);
    CarriedKept(th, k, th', k);
  }

  // ---------------------------------------------------------------- process_wait

  function Weight(pc: Pc): nat { if pc.InWait? then 1 else 0 }

  /** Only the place of t inside process_wait changes, and its process's counter with it. */
  ghost predicate Turns(th: Threads, k: Kin, th': Threads, n: Kin, p: Ref, t: Tid) {
    && Alive(th, t) && Owner(th, t) == Some(p) && p in k.procs && n.procs.Keys == k.procs.Keys
    && (forall u: Tid :: (Alive(th', u) <==> Alive(th, u)) && Owner(th', u) == Owner(th, u) && (u != t ==> PcOf(th', u) == PcOf(th, u)))
    && (forall r: Ref :: Team(n, r) == Team(k, r) && Exited(n, r) == Exited(k, r))
    && (forall r: Ref :: r != p ==> Counter(n, r) == Counter(k, r))
    && Counter(n, p) + Weight(PcOf(th, t)) == Counter(k, p) + Weight(PcOf(th', t))
  }

  lemma TurnMembers(th: Threads, k: Kin, th': Threads, n: Kin, p: Ref, t: Tid)
    requires Members(th, k) && Turns(th, k, th', n, p, t)
    ensures Members(th', n)
  {
    hide Alive, Owner, PcOf, Team, Counter, Exited;
  }

  /** The number of waiters changes with the counter. */
  lemma TurnWaiters(th: Threads, k: Kin, th': Threads, n: Kin, p: Ref, t: Tid)
    requires Turns(th, k, th', n, p, t)
    ensures |Waiters(th', p)| + Weight(PcOf(th, t)) == |Waiters(th, p)| + Weight(PcOf(th', t))
  {
    var a, b := Waiters(th, p) - {t}, Waiters(th', p) - {t};
    assert a == b by {
      forall u ensures u in a <==> u in b {
        if u != t { assert IsWaiter(th, p, u) <==> IsWaiter(th', p, u); }
      }
    }
    assert t in Waiters(th, p) <==> PcOf(th, t).InWait?;
    assert t in Waiters(th', p) <==> PcOf(th', t).InWait?;
    assert Waiters(th, p) == if t in Waiters(th, p) then a + {t} else a;
    assert Waiters(th', p) == if t in Waiters(th', p) then b + {t} else b;
  }

  lemma TurnCounts(th: Threads, k: Kin, th': Threads, n: Kin, p: Ref, t: Tid)
    requires Members(th, k) && Counts(th, k) && Turns(th, k, th', n, p, t)
    ensures Counts(th', n)
  {
    forall r | r in n.procs ensures |Waiters(th', r)| <= Counter(n, r) {
      assert r in k.procs && |Waiters(th, r)| <= Counter(k, r);
      if r == p {
        TurnWaiters(th, k, th', n, p, t);
      } else {
        hide Alive, Owner, PcOf, Team, Counter, Exited;
        FewerWaiters(th, th', r);
      }
    }
  }

  /** The counter's Assert: a thread inside process_wait is counted. */
  lemma CountedWaiter(th: Threads, k: Kin, p: Ref, t: Tid)
    requires Counts(th, k) && IsWaiter(th, p, t) && p in k.procs
    ensures Counter(k, p) > 0
  {
    assert t in Waiters(th, p);
  }

  /** With the counter at zero no thread of p is inside process_wait. */
  lemma NoWaiter(th: Threads, k: Kin, p: Ref, t: Tid)
    requires Counts(th, k) && Counter(k, p) == 0 && p in k.procs
    ensures !IsWaiter(th, p, t)
  {
    if IsWaiter(th, p, t) {
      CountedWaiter(th, k, p, t);
    }
  }

  /** A turn of process_wait that reaps nothing. */
  lemma KeepTurn(th: Threads, k: Kin, th': Threads, n: Kin, p: Ref, t: Tid)
    requires CrewInv(th, k) && Turns(th, k, th', n, p, t) && !PcOf(th', t).Handing?
    requires n.dead == k.dead && n.clearing == k.clearing && n.reports == k.reports
    ensures CrewInv(th', n)
  {
    TurnMembers(th, k, th', n, p, t);
    TurnCounts(th, k, th', n, p, t);
    hide Alive, Owner, PcOf, Team, Counter, Exited;
    CarriedKept(th, k, th', n);
  }

  /** A turn that reaps c: nobody else holds it. */
  lemma KeepReapTurn(th: Threads, k: Kin, th': Threads, n: Kin, p: Ref, t: Tid, c: Ref)
    requires CrewInv(th, k) && Corpses(k) && Turns(th, k, th', n, p, t) && PcOf(th', t) == Handing(c)
    requires n.dead == k.dead && n.clearing == k.clearing && n.reports.Keys == k.reports.Keys + {c} && c !in k.reports && c in k.procs
    ensures CrewInv(th', n)
  {
    TurnMembers(th, k, th', n, p, t);
    TurnCounts(th, k, th', n, p, t);
    hide Alive, Owner, Team, Counter, Exited;
    ReapCarried(th, k, th', n, t, c);
  }

  lemma ReapCarried(th: Threads, k: Kin, th': Threads, n: Kin, t: Tid, c: Ref)
    requires CarriedOK(th, k) && Corpses(k) && PcOf(th', t) == Handing(c) && forall u: Tid :: u != t ==> PcOf(th', u) == PcOf(th, u)
    requires n.dead == k.dead && n.clearing == k.clearing && n.reports.Keys == k.reports.Keys + {c} && c !in k.reports && c in k.procs
    requires n.procs.Keys == k.procs.Keys
    ensures CarriedOK(th', n)
  {
    hide PcOf;
    forall u: Tid, x: Ref | Carries(th', u, x) ensures x in n.procs && x in n.reports && x !in n.dead + n.clearing {
      if u != t { assert Carries(th, u, x); }
    }
    forall u: Tid, v: Tid, x: Ref | Carries(th', u, x) && Carries(th', v, x) ensures u == v {
      if u != t { assert Carries(th, u, x); }
      if v != t { assert Carries(th, v, x); }
    }
  }

  /** The reaped child goes from the thread's hands to dead_processes. */
  lemma KeepHandOver(th: Threads, k: Kin, th': Threads, t: Tid, c: Ref)
    requires CrewInv(th, k) && PcOf(th, t) == Handing(c) && PcOf(th', t) == User
    requires forall u: Tid :: (Alive(th', u) <==> Alive(th, u)) && Owner(th', u) == Owner(th, u) && (u != t ==> PcOf(th', u) == PcOf(th, u))
    ensures CrewInv(th', k.(dead := k.dead + [c]))
    ensures c in k.procs && c in k.reports && c !in k.dead + k.clearing
  {
    var n := k.(dead := k.dead + [c]);
    assert Carries(th, t, c);
    assert Members(th', n) && (forall p: Ref :: Counter(n, p) == Counter(k, p)) by { HandMembers(th, k, th', n); }
    hide Alive, Owner, PcOf, Team, Counter, Exited;
    forall r: Ref, u: Tid | IsWaiter(th', r, u) ensures IsWaiter(th, r, u) && r in k.procs {
      WaiterOf(th, k, r, u);
    }
    CountsKept(th, k, th', n);
    HandCarried(th, k, th', n, t, c);
  }

  lemma HandCarried(th: Threads, k: Kin, th': Threads, n: Kin, t: Tid, c: Ref)
    requires CarriedOK(th, k) && PcOf(th, t) == Handing(c) && PcOf(th', t) == User && forall u: Tid :: u != t ==> PcOf(th', u) == PcOf(th, u)
    requires n.dead == k.dead + [c] && n.clearing == k.clearing && n.reports == k.reports && n.procs == k.procs
    ensures CarriedOK(th', n)
  {
    hide PcOf;
    assert Carries(th, t, c);
    forall u: Tid, x: Ref | Carries(th', u, x) ensures u != t && Carries(th, u, x) && x != c {
    }
    forall x | x in n.dead + n.clearing ensures x in k.dead + k.clearing || x == c {
    }
  }

  lemma HandMembers(th: Threads, k: Kin, th': Threads, n: Kin)
    requires Members(th, k) && n.procs == k.procs
    requires forall u: Tid :: (Alive(th', u) <==> Alive(th, u)) && Owner(th', u) == Owner(th, u)
    ensures Members(th', n) && forall p: Ref :: Counter(n, p) == Counter(k, p)
  {
    assert forall p: Ref :: Team(n, p) == Team(k, p) && Exited(n, p) == Exited(k, p);
    hide Alive, Owner, PcOf, Team, Exited;
  }

  // ---------------------------------------------------------------- destruction

  lemma KeepGrabbedCrew(th: Threads, k: Kin)
    requires CrewInv(th, k) && k.clearing == []
    ensures CrewInv(th, k.(clearing := k.dead, dead := []))
  {
    var n := k.(clearing := k.dead, dead := []);
    assert n.dead + n.clearing == k.dead + k.clearing;
    HandMembers(th, k, th, n);
    hide Alive, Owner, PcOf, Team, Counter, Exited;
    forall r: Ref, u: Tid | IsWaiter(th, r, u) ensures r in k.procs {
      WaiterOf(th, k, r, u);
    }
    CountsKept(th, k, th, n);
  }

  /** c is gone; it had no threads and was in nobody's hands. */
  ghost predicate Freed(k: Kin, n: Kin, c: Ref) {
    && Exited(k, c) && n.procs.Keys == k.procs.Keys - {c} && n.reports == k.reports
    && (forall p: Ref :: Team(n, p) == if p == c then {} else Team(k, p))
    && (forall p: Ref :: p != c ==> Exited(n, p) == Exited(k, p) && Counter(n, p) == Counter(k, p))
    && !Exited(n, c) && c in k.dead + k.clearing
    && forall x :: x in n.dead + n.clearing ==> x in k.dead + k.clearing
  }

  lemma FreedView(k: Kin)
    requires k.clearing != [] && Exited(k, k.clearing[0])
    ensures Freed(k, Destroyed(k), k.clearing[0])
  {
    var n, l := Destroyed(k), k.dead + k.clearing;
    assert l[|k.dead|] == k.clearing[0];
    forall x | x in n.dead + n.clearing ensures x in l {
      var i :| 0 <= i < |n.dead + n.clearing| && (n.dead + n.clearing)[i] == x;
      assert x == l[if i < |k.dead| then i else i + 1];
    }
  }

  lemma KeepFreed(th: Threads, k: Kin, n: Kin, c: Ref)
    requires CrewInv(th, k) && Freed(k, n, c)
    ensures CrewInv(th, n)
  {
    hide Alive, Owner, PcOf, Team, Counter, Exited;
    assert Members(th, n);
    forall r: Ref, u: Tid | IsWaiter(th, r, u) ensures r in k.procs {
      WaiterOf(th, k, r, u);
    }
    CountsKept(th, k, th, n);
  }
}
