/** Runs on which process.c goes wrong: an exec that kills a woken waiter, and one that kills a reaper. */
module TaskWitness {
  import opened Wrappers
  import opened TaskSpec
  import opened TaskCrew
  import opened TaskRun
  import opened TaskLedger

  const MAIN: Ref := 1
  const INIT: Ref := 2
  const P: Ref := 3      // init's child, with threads 3 and 5
  const C: Ref := 4      // the child of P, with thread 4

  /** s is the last state of a run from boot. */
  ghost predicate Reachable(s: State) {
    exists ss, steps :: IsRun(ss, steps) && ss[0] == Boot(MAIN, INIT) && ss[|ss| - 1] == s
  }

  ghost predicate Leads(s: State, a: Step, n: State) {
    s.current in s.threads && s.idle in s.threads && Enabled(s, a) && Take(s, a) == Next(n)
  }

  lemma BootReachable()
    ensures Reachable(Boot(MAIN, INIT))
  {
    assert IsRun([Boot(MAIN, INIT)], []);
  }

  lemma ReachStep(s: State, a: Step, n: State)
    requires Reachable(s) && Leads(s, a, n)
    ensures Reachable(n)
  {
    hide Take, Enabled, Boot;
    var ss, steps :| IsRun(ss, steps) && ss[0] == Boot(MAIN, INIT) && ss[|ss| - 1] == s;
    var tt, more := ss + [n], steps + [a];
    assert IsRun(tt, more) by {
      forall i | 0 <= i < |more|
        ensures tt[i].current in tt[i].threads && tt[i].idle in tt[i].threads && Enabled(tt[i], more[i]) && Take(tt[i], more[i]) == Next(tt[i + 1])
      {
        assert i < |steps| ==> tt[i] == ss[i] && tt[i + 1] == ss[i + 1] && more[i] == steps[i];
      }
    }
  }

  // ---------------------------------------------------------------- turns of the ready queue

  function Waits(p: Ref, pc: Pc): Tcb { Tcb(Ready, Some(ReadyQ), Some(p), pc) }

  /** Thread cur runs, the others are as in th. */
  function Shape(cur: Tid, ready: seq<Tid>, th: map<Tid, Tcb>, qs: map<Queue, seq<Tid>>, k: Kin): State
    requires cur in th
  {
    State(th[cur := th[cur].(status := Running, crt := None)], qs[ReadyQ := ready], cur, 0, 1, [], k)
  }

  /** The next ready thread u takes over, and cur goes to the end. */
  lemma Turn(cur: Tid, u: Tid, ready: seq<Tid>, later: seq<Tid>, th: map<Tid, Tcb>, qs: map<Queue, seq<Tid>>, k: Kin)
    requires cur in th && u in th && 0 in th && cur != u && cur != 0 && u != 0
    requires th[cur].status == Ready && th[cur].crt == Some(ReadyQ)
    requires ready != [] && ready[0] == u && later == ready[1..] + [cur]
    requires Reachable(Shape(cur, ready, th, qs, k))
    ensures Reachable(Shape(u, later, th, qs, k))
  {
    hide Reachable;
    var s, n := Shape(cur, ready, th, qs, k), Shape(u, later, th, qs, k);
    assert (ready + [cur])[1..] == later;
    assert Switch(s).threads == n.threads;
    assert Switch(s).queues == n.queues;
    ReachStep(s, Reschedule, n);
  }

  lemma ForkTurn(cur: Tid, p: Ref, ready: seq<Tid>, th: map<Tid, Tcb>, qs: map<Queue, seq<Tid>>, k: Kin, tid: Tid, child: Ref, pid: Pid)
    requires cur in th && 0 in th && cur > 1 && th[cur].proc == Some(p) && th[cur].pc == User && p in k.procs
    requires tid !in th && child !in k.procs && child !in k.exits && forall r :: r in k.procs ==> k.procs[r].id != pid
    requires Reachable(Shape(cur, ready, th, qs, k))
    ensures Reachable(Shape(cur, ready + [tid], th[tid := Waits(child, User)], qs, WithChild(k, p, tid, child, pid)))
  {
    hide Reachable, WithChild;
    var s, n := Shape(cur, ready, th, qs, k), Shape(cur, ready + [tid], th[tid := Waits(child, User)], qs, WithChild(k, p, tid, child, pid));
    assert Fork(s, p, tid, child, pid).threads == n.threads;
    assert Fork(s, p, tid, child, pid).queues == n.queues;
    ReachStep(s, ForkStep(tid, child, pid), n);
  }

  lemma SpawnTurn(cur: Tid, p: Ref, ready: seq<Tid>, th: map<Tid, Tcb>, qs: map<Queue, seq<Tid>>, k: Kin, tid: Tid)
    requires cur in th && 0 in th && cur > 1 && th[cur].proc == Some(p) && th[cur].pc == User && p in k.procs && tid !in th
    requires Reachable(Shape(cur, ready, th, qs, k))
    ensures Reachable(Shape(cur, ready + [tid], th[tid := Waits(p, User)], qs, SetThreads(k, p, k.procs[p].threads + {tid})))
  {
    hide Reachable, SetThreads;
    var s, n := Shape(cur, ready, th, qs, k), Shape(cur, ready + [tid], th[tid := Waits(p, User)], qs, SetThreads(k, p, k.procs[p].threads + {tid}));
    assert NewThread(s, p, tid).threads == n.threads;
    assert NewThread(s, p, tid).queues == n.queues;
    ReachStep(s, SpawnStep(tid), n);
  }

  /** The current thread waits for the living child c, filed under pid, and u takes over. */
  lemma WaitTurn(cur: Tid, u: Tid, p: Ref, ready: seq<Tid>, th: map<Tid, Tcb>, k: Kin, pid: Pid, c: Ref)
    requires cur in th && u in th && 0 in th && cur > 1 && u != 0 && u != cur && th[cur].proc == Some(p) && th[cur].pc == User
    requires p in k.procs && pid > 0 && pid in k.procs[p].children && k.procs[p].children[pid] == c && k.procs[p].gone == map[]
    requires ready != [] && ready[0] == u && Reachable(Shape(cur, ready, th, map[], k))
    ensures Reachable(Shape(u, ready[1..], th[cur := Tcb(Waiting, None, Some(p), InWait(pid, c))], map[ExitWaitQ(c) := [cur]], Recount(k, p)))
  {
    hide Reachable;
    var s := Shape(cur, ready, th, map[], k);
    var n := Shape(u, ready[1..], th[cur := Tcb(Waiting, None, Some(p), InWait(pid, c))], map[ExitWaitQ(c) := [cur]], Recount(k, p));
    var m := WaitBlocks(s, p, pid, false);
    assert Q(s, ExitWaitQ(c)) == [] && [cur] + Q(s, ExitWaitQ(c)) == [cur];
    BlockStep(s, p, pid, c);
    ReachStep(s, WaitStep(pid, 0), m);
    hide Enabled;
    assert Switch(m).threads == n.threads;
    assert Switch(m).queues == n.queues;
    Yields(m);
    ReachStep(m, Reschedule, n);
  }

  lemma BlockStep(s: State, p: Ref, pid: Pid, c: Ref)
    requires ActingOutside(s) && s.idle in s.threads && Own(s) == p && pid > 0
    requires p in s.k.procs && pid in s.k.procs[p].children && s.k.procs[p].children[pid] == c && s.k.procs[p].gone == map[]
    ensures Leads(s, WaitStep(pid, 0), WaitBlocks(s, p, pid, false))
  {
    hide WaitBlocks;
  }

  lemma Yields(s: State)
    requires s.current in s.threads && s.idle in s.threads
    ensures Leads(s, Reschedule, Switch(s))
  {
  }

  function Recount(k: Kin, p: Ref): Kin
    requires p in k.procs
  {
    k.(procs := k.procs[p := k.procs[p].(waiting := k.procs[p].waiting + 1)])
  }

  // ---------------------------------------------------------------- init forks P, P forks C and gets a second thread

  ghost function Kin1(): Kin { Boot(MAIN, INIT).k }
  ghost function Th1(): map<Tid, Tcb> {
    map[0 := Tcb(Ready, None, Some(MAIN), User), 1 := Waits(MAIN, User), 2 := Waits(INIT, User)]
  }

  ghost function Kin2(): Kin { WithChild(Kin1(), INIT, 3, P, 2) }
  ghost function Th2(): map<Tid, Tcb> { Th1()[3 := Waits(P, User)] }

  ghost function Kin3(): Kin { WithChild(Kin2(), P, 4, C, 3) }
  ghost function Th3(): map<Tid, Tcb> { Th2()[4 := Waits(C, User)] }

  ghost function Kin4(): Kin { SetThreads(Kin3(), P, {3, 5}) }
  ghost function Th4(): map<Tid, Tcb> { Th3()[5 := Waits(P, User)] }

  lemma ReachInit()
    ensures Reachable(Shape(2, [1], Th1(), map[], Kin1()))
  {
    var b, n := Boot(MAIN, INIT), Shape(1, [2], Th1(), map[], Kin1());
    assert Switch(b).threads == n.threads;
    assert Switch(b).queues == n.queues;
    assert Leads(b, Reschedule, n);
    hide Reachable, Leads, Shape;
    BootReachable();
    ReachStep(b, Reschedule, n);
    Turn(1, 2, [2], [1], Th1(), map[], Kin1());
  }

  lemma ReachFork()
    ensures Reachable(Shape(3, [2, 1], Th2(), map[], Kin2()))
  {
    hide Reachable, Shape, WithChild;
    ReachInit();
    ForkTurn(2, INIT, [1], Th1(), map[], Kin1(), 3, P, 2);
    assert [1] + [3] == [1, 3];
    Turn(2, 1, [1, 3], [3, 2], Th2(), map[], Kin2());
    Turn(1, 3, [3, 2], [2, 1], Th2(), map[], Kin2());
  }

  lemma ReachCrew()
    ensures Reachable(Shape(3, [2, 1, 4, 5], Th4(), map[], Kin4()))
  {
    hide Reachable, Shape;
    ReachFork();
    ForkTurn(3, P, [2, 1], Th2(), map[], Kin2(), 4, C, 3);
    assert [2, 1] + [4] == [2, 1, 4] && [2, 1, 4] + [5] == [2, 1, 4, 5];
    SpawnTurn(3, P, [2, 1, 4], Th3(), map[], Kin3(), 5);
    assert {3} + {5} == {3, 5};
  }

  // ---------------------------------------------------------------- thread 3 waits for C, and C exits

  ghost function Kin5(): Kin { Recount(Kin4(), P) }
  ghost function Th5(): map<Tid, Tcb> { Th4()[3 := Tcb(Waiting, None, Some(P), InWait(3, C))] }
  ghost function Qs5(): map<Queue, seq<Tid>> { map[ExitWaitQ(C) := [3]] }

  ghost function Kin6(): Kin { MarkExit(Kin5(), C, P, 7, 4) }
  ghost function Th6(): map<Tid, Tcb> {
    Th5()[3 := Waits(P, InWait(3, C))][4 := Tcb(Dead, Some(DeadQ), None, User)]
  }
  ghost function Qs6(): map<Queue, seq<Tid>> { map[ExitWaitQ(C) := [], DeadQ := [4]] }

  /** C has exited, thread 3 has been woken, and thread 5 of P runs. */
  ghost function WokenState(): State { Shape(5, [2, 1, 3], Th6(), Qs6(), Kin6()) }

  lemma ReachWait()
    ensures Reachable(Shape(4, [5, 2, 1], Th5(), Qs5(), Kin5()))
  {
    hide Reachable, Shape;
    ReachCrew();
    WaitTurn(3, 2, P, [2, 1, 4, 5], Th4(), Kin4(), 3, C);
    hide Kin5;
    assert [2, 1, 4, 5][1..] == [1, 4, 5];
    Turn(2, 1, [1, 4, 5], [4, 5, 2], Th5(), Qs5(), Kin5());
    Turn(1, 4, [4, 5, 2], [5, 2, 1], Th5(), Qs5(), Kin5());
  }

  lemma NothingReparented()
    ensures Reparent(Kin5(), C) == Kin5()
  {
    var k := Kin5();
    assert !KidOf(k, C, MAIN) && !KidOf(k, C, INIT) && !KidOf(k, C, P) && !KidOf(k, C, C);
    assert k.procs.Keys == {MAIN, INIT, P, C};
    assert k.procs[INIT].children + map[] + map[] == k.procs[INIT].children;
    assert Reparent(k, C).procs == k.procs;
  }

  lemma ThreeWoken(m: State)
    requires m == Orphan(Shape(4, [5, 2, 1], Th5(), Qs5(), Kin5()), 4).(k := Kin6())
    ensures var w := WakeAll(m, ExitWaitQ(C));
      && w.current == 4 && w.idle == 0 && 4 in w.threads && 0 in w.threads && Q(w, AnyWaitQ(P)) == [] && Q(w, CvQ) == [] && Q(w, DeadQ) == []
    ensures var w := WakeAll(m, ExitWaitQ(C)); w == State(Woken6(), map[ExitWaitQ(C) := [], ReadyQ := [5, 2, 1, 3]], 4, 0, 1, [], Kin6())
  {
    hide Kin6, Kin5;
    assert Q(m, ExitWaitQ(C)) == [3] && [5, 2, 1] + [3] == [5, 2, 1, 3];
    var w := WakeAll(m, ExitWaitQ(C));
    assert w.queues == map[ExitWaitQ(C) := [], ReadyQ := [5, 2, 1, 3]];
    assert w.threads == Woken6();
  }

  /** The threads when the exiting one still runs and thread 3 has been woken. */
  ghost function Woken6(): map<Tid, Tcb> {
    Th5()[3 := Waits(P, InWait(3, C))][4 := Tcb(Running, None, None, User)]
  }

  lemma ChildWakes(m: State)
    requires m == Orphan(Shape(4, [5, 2, 1], Th5(), Qs5(), Kin5()), 4).(k := Kin6())
    ensures var w := WakeAll(m, ExitWaitQ(C)); 4 in w.threads && w.current == 4 && Q(w, AnyWaitQ(P)) == []
    ensures var n := ToDead(WakeAll(m, ExitWaitQ(C)), 4); 0 in n.threads && Notify(n) == n && Switch(n) == WokenState()
  {
    hide Kin6, Kin5, WakeAll, Orphan;
    ThreeWoken(m);
    var n := ToDead(WakeAll(m, ExitWaitQ(C)), 4);
    assert [] + [4] == [4] && [5, 2, 1, 3][1..] == [2, 1, 3];
    assert Switch(n).threads == WokenState().threads;
    assert Switch(n).queues == WokenState().queues;
  }

  lemma ChildFacts()
    ensures var k := Kin5();
      && P in k.procs && C in k.procs && k.initP == INIT && k.procs[C] == Pcb(3, Some(P), false, 0, {4}, map[], map[], 0)
      && Kin6().procs[C].id == 3 && 4 in Th5() && Th5()[4] == Waits(C, User) && 3 in Th5() && Th5()[3].pc == InWait(3, C)
  {
  }

  /** process_exit of a childless process, when only its exit queue has sleepers. */
  lemma TailIs(s: State, p: Ref, parent: Ref, code: int, m: State)
    requires p in s.k.procs && parent in s.k.procs && s.current in s.threads && s.idle in s.threads && s.current in s.k.procs[p].threads
    requires Reparent(s.k, p) == s.k && Q(s, AnyWaitQ(s.k.initP)) == []
    requires m == Orphan(s, s.current).(k := MarkExit(s.k, p, parent, code, s.current)) && Targets(m, ExitWaitQ(p), m.k.procs[p].id)
    requires var w := WakeAll(m, ExitWaitQ(p)); Q(w, AnyWaitQ(parent)) == [] && w.current in w.threads
    ensures var w := WakeAll(m, ExitWaitQ(p)); ExitTail(s, p, parent, code) == Next(Switch(Notify(ToDead(w, w.current))))
  {
    hide Notify, ToDead, Switch, Orphan, MarkExit, Reparent;
  }

  lemma ChildTail(s: State)
    requires s == Shape(4, [5, 2, 1], Th5(), Qs5(), Kin5())
    ensures ExitTail(s, C, P, 7) == Next(WokenState())
  {
    var m := Orphan(s, 4).(k := Kin6());
    ChildFacts();
    ChildWakes(m);
    NothingReparented();
    ChildShape(s);
    hide WakeAll, Notify, ToDead, Switch, Kin5, Th5, WokenState, Reparent, Shape, ExitTail;
    TailIs(s, C, P, 7, m);
  }

  lemma ChildShape(s: State)
    requires s == Shape(4, [5, 2, 1], Th5(), Qs5(), Kin5())
    ensures s.current == 4 && s.idle == 0 && 4 in s.threads && 0 in s.threads && 3 in s.threads && s.k == Kin5() && s.threads[3] == Th5()[3]
    ensures s.threads[4] == Tcb(Running, None, Some(C), User) && s.clean == 1
    ensures Q(s, ExitWaitQ(C)) == [3] && Q(s, AnyWaitQ(INIT)) == []
  {
    hide Kin5;
  }

  lemma MayExit(s: State, p: Ref, code: int)
    requires s.current in s.threads && s.idle in s.threads && s.current != s.idle && s.current != s.clean
    requires s.threads[s.current] == Tcb(Running, None, Some(p), User) && p in s.k.procs && s.k.procs[p].threads == {s.current}
    requires p != s.k.initP && s.k.procs[p].waiting == 0 && s.k.procs[p].parent.Some?
    ensures Enabled(s, ExitStep(code, [])) && Take(s, ExitStep(code, [])) == ExitTail(s, p, s.k.procs[p].parent.value, code)
  {
    hide ExitTail, KillOthers;
    ExitIs(s, p, code, []);
  }

  lemma ChildExits(s: State)
    requires s == Shape(4, [5, 2, 1], Th5(), Qs5(), Kin5())
    ensures Leads(s, ExitStep(7, []), WokenState())
  {
    ChildFacts();
    ChildShape(s);
    ChildTail(s);
    hide Kin5, Th5, WokenState, Shape, ExitTail, Take, Enabled;
    MayExit(s, C, 7);
  }

  lemma ReachWoken()
    ensures Reachable(WokenState())
  {
    var s, a := Shape(4, [5, 2, 1], Th5(), Qs5(), Kin5()), ExitStep(7, []);
    hide Reachable, Leads, Shape, WokenState;
    ChildExits(s);
    ReachWait();
    ReachStep(s, a, WokenState());
  }

  // ---------------------------------------------------------------- a killed waiter

  lemma KillsThree(s: State)
    requires s.current == 5 && 5 in s.threads && s.threads[5].status == Running && s.threads[5].proc == Some(P) && s.threads[5].pc == User
    requires s.idle == 0 && s.clean == 1 && 0 in s.threads && P in s.k.procs && s.k.procs[P].threads == {3, 5}
    requires 3 in s.threads && s.threads[3].crt == Some(ReadyQ) && Q(s, CvQ) == []
    ensures Enabled(s, ExecStep([3])) && Take(s, ExecStep([3])).Next?
    ensures var n := Take(s, ExecStep([3])).s; n == s.(threads := n.threads, queues := n.queues, k := SetThreads(s.k, P, {5}))
    ensures var n := Take(s, ExecStep([3])).s; n.threads == s.threads[3 := s.threads[3].(status := Dead, crt := Some(DeadQ))]
  {
    hide Without;
    var s1 := SetQ(s, ReadyQ, Without(Q(s, ReadyQ), 3));
    var n := ToDead(s1, 3);
    assert Q(n, CvQ) == [] && Notify(n) == n;
    assert KillAll(n, []) == Next(n);
    assert [3][1..] == [];
    assert KillAll(s, [3]) == Next(n);
  }

  lemma WokenFacts()
    ensures var s := WokenState();
      && s.current == 5 && s.idle == 0 && s.clean == 1 && 5 in s.threads && 0 in s.threads && 3 in s.threads
      && s.threads[5] == Tcb(Running, None, Some(P), User) && s.threads[3] == Waits(P, InWait(3, C)) && Q(s, CvQ) == []
      && P in s.k.procs && s.k.procs[P].threads == {3, 5} && s.k.procs[P].waiting == 1
      && forall t :: t in s.threads && t != 3 ==> s.threads[t].pc == User
  {
  }

  lemma OneDrained(s: State, n: State)
    requires 3 in s.threads && s.threads[3] == Waits(P, InWait(3, C)) && forall t :: t in s.threads && t != 3 ==> s.threads[t].pc == User
    requires n.threads == s.threads[3 := s.threads[3].(status := Dead, crt := Some(DeadQ))]
    ensures Drain(s, ExecStep([3]), P) == 1 && Waiters(n.threads, P) == {}
  {
    assert IsWaiter(s.threads, P, 3);
    assert Waiters(s.threads, P) * Doomed(ExecStep([3])) == {3};
  }

  lemma CountedExitPanics(n: State)
    requires n.current in n.threads && n.idle in n.threads && n.threads[n.current].proc == Some(P) && P in n.k.procs && n.k.procs[P].waiting == 1
    ensures Exit(n, 0, []) == Panics && Counter(n.k, P) == 1
  {
  }

  /**
    A run from boot in which thread 5 execs while its woken companion still stands in process_wait: afterwards
    waiting_threads_count is 1, no thread waits, and process_exit panics.
   */
  lemma KilledWaiterExample() returns (s: State, n: State)
    ensures Reachable(s) && Leads(s, ExecStep([3]), n) && Drain(s, ExecStep([3]), P) == 1
    ensures Counter(n.k, P) == 1 && Waiters(n.threads, P) == {}
    ensures ActingOutside(n) && Own(n) == P && n.idle in n.threads && Exit(n, 0, []) == Panics
  {
    s := WokenState();
    ReachWoken();
    WokenFacts();
    hide Reachable, WokenState, Take, Enabled, Exit, Drain, Waiters;
    KillsThree(s);
    n := Take(s, ExecStep([3])).s;
    OneDrained(s, n);
    CountedExitPanics(n);
  }

  // ---------------------------------------------------------------- a killed reaper

  ghost function Th7(): map<Tid, Tcb> { Th6()[3 := Waits(P, Handing(C))] }

  /** Thread 3 has reaped C, and thread 5 runs before it hands C over. */
  ghost function ReapedState(): State { Shape(5, [2, 1, 3], Th7(), Qs6(), Kin7()) }

  ghost function Kin7(): Kin {
    var k := Kin6();
    k.(procs := k.procs[P := k.procs[P].(children := map[], gone := map[], waiting := 0)], reports := map[C := 7])
  }

  lemma ReapTurn()
    ensures Leads(Shape(3, [5, 2, 1], Th6(), Qs6(), Kin6()), WaitStep(3, 3), Shape(3, [5, 2, 1], Th7(), Qs6(), Kin7()))
  {
    var s, n := Shape(3, [5, 2, 1], Th6(), Qs6(), Kin6()), Shape(3, [5, 2, 1], Th7(), Qs6(), Kin7());
    ReapFacts();
    assert Reap(s, P, 3, true).Next? && Reap(s, P, 3, true).s.threads == n.threads;
    assert Reap(s, P, 3, true).s.k == n.k;
  }

  lemma ReapFacts()
    ensures var k := Kin6();
      && P in k.procs && C in k.procs && k.procs[P].children == map[3 := C] && k.procs[P].gone == map[3 := C] && k.procs[P].waiting == 1
      && k.procs[C].id == 3 && k.procs[C].code == 7 && k.reports == map[]
      && map[3 := C] - {3} == map[]
  {
  }

  lemma ReachReaped()
    ensures Reachable(ReapedState())
  {
    hide Reachable, Leads, Shape;
    ReachWoken();
    Turn(5, 2, [2, 1, 3], [1, 3, 5], Th6(), Qs6(), Kin6());
    Turn(2, 1, [1, 3, 5], [3, 5, 2], Th6(), Qs6(), Kin6());
    Turn(1, 3, [3, 5, 2], [5, 2, 1], Th6(), Qs6(), Kin6());
    ReapTurn();
    ReachStep(Shape(3, [5, 2, 1], Th6(), Qs6(), Kin6()), WaitStep(3, 3), Shape(3, [5, 2, 1], Th7(), Qs6(), Kin7()));
    Turn(3, 5, [5, 2, 1], [2, 1, 3], Th7(), Qs6(), Kin7());
  }

  lemma ReapedFacts()
    ensures var s := ReapedState();
      && s.current == 5 && s.idle == 0 && s.clean == 1 && 5 in s.threads && 0 in s.threads && 3 in s.threads
      && s.threads[5] == Tcb(Running, None, Some(P), User) && s.threads[3] == Waits(P, Handing(C)) && Q(s, CvQ) == []
      && P in s.k.procs && s.k.procs[P].threads == {3, 5} && C in s.k.procs && C in s.k.reports && s.k.dead == [] && s.k.clearing == []
      && forall t :: t in s.threads && t != 3 ==> s.threads[t].pc == User
  {
  }

  lemma NobodyCarries(s: State, n: State)
    requires 3 in s.threads && s.threads[3] == Waits(P, Handing(C)) && forall t :: t in s.threads && t != 3 ==> s.threads[t].pc == User
    requires n.threads == s.threads[3 := s.threads[3].(status := Dead, crt := Some(DeadQ))]
    requires P in s.k.procs && C in s.k.procs && C in s.k.reports && s.k.dead == [] && s.k.clearing == [] && n.k == SetThreads(s.k, P, {5})
    ensures KillsReaper(s, ExecStep([3]), C) && Lost(n.threads, n.k, C)
  {
    assert 3 in Doomed(ExecStep([3])) && Carries(s.threads, 3, C);
  }

  /** A run from boot in which thread 5 execs while its companion has reaped C and not handed it over: C is never destroyed. */
  lemma KilledReaperExample() returns (s: State, n: State)
    ensures Reachable(s) && Leads(s, ExecStep([3]), n) && KillsReaper(s, ExecStep([3]), C) && Lost(n.threads, n.k, C)
  {
    s := ReapedState();
    ReachReaped();
    ReapedFacts();
    hide Reachable, ReapedState, Take, Enabled, KillsReaper, Lost;
    KillsThree(s);
    n := Take(s, ExecStep([3])).s;
    NobodyCarries(s, n);
  }
}
