/** process_exit after the other threads are gone: reparenting, marking, waking, dying. */
module TaskExitTail {
  import opened Wrappers
  import opened TaskSpec
  import opened TaskLink
  import opened TaskTree
  import opened TaskCrew
  import opened TaskInv
  import opened TaskSteps
  import opened TaskCalls
  import opened TaskExit

  // ---------------------------------------------------------------- the family of an exiting process

  /** What process_exit may rely on when it starts to dissolve process p. */
  ghost predicate Leaving(k: Kin, p: Ref, parent: Ref) {
    && p in k.procs && parent in k.procs && p != parent && p != k.mainP && p != k.initP
    && !Exited(k, p) && !Exited(k, parent) && p !in k.reports && Par(k, p) == Some(parent) && Kid(k, parent, Id(k, p)) == Some(p)
  }

  /** A process that has not exited and has a parent is in that parent's table; the parent has not exited either. */
  lemma LeavingFacts(k: Kin, p: Ref)
    requires KinInv(k) && p in k.procs && p != k.mainP && p != k.initP && !Exited(k, p)
    ensures Par(k, p).Some? && Leaving(k, p, Par(k, p).value)
  {
    hide Id, Par, Code, Kid, Gone, Exited;
    assert p !in k.reports;
    var parent := Par(k, p).value;
    assert Kid(k, parent, Id(k, p)) == Some(p);
  }

  /** No thread of p is inside process_wait. */
  ghost predicate NoneWaits(th: Threads, p: Ref) {
    forall t: Tid :: !IsWaiter(th, p, t)
  }

  // ---------------------------------------------------------------- reparenting

  lemma ReparentTeams(k: Kin, p: Ref)
    requires p in k.procs
    ensures SameTeams(k, Reparent(k, p))
  {
    var n := Reparent(k, p);
    forall r: Ref ensures Team(n, r) == Team(k, r) && Counter(n, r) == Counter(k, r) && Exited(n, r) == Exited(k, r) {
      if r in k.procs {
        assert n.procs[r] == Adopted(k, p, r);
      }
    }
  }

  lemma MaySleepReparent(k: Kin, n: Kin, p: Ref, o: Option<Ref>, x: Pid, at: Ref)
    requires KidsOK(k) && GoneOK(k) && Ids(k) && Reparented(k, n, p) && MaySleep(k, o, x, at) && o != Some(p) && !(x == 0 && o == Some(k.initP))
    requires p in k.procs && p != k.initP
    ensures MaySleep(n, o, x, at)
  {
    hide Id, Par, Code, Kid, Gone, Exited;
    if x == 0 {
      var y: Pid :| Kid(k, at, y).Some?;
      assert Kid(n, at, y).Some?;
    } else {
      assert at in k.procs && Id(k, at) == x && Par(k, at) == o;
      assert Kid(k, p, x) == None;
    }
  }

  lemma ReparentWaits(s: State, n: State, p: Ref)
    requires WaitsOK(s, {}) && KidsOK(s.k) && GoneOK(s.k) && Ids(s.k) && Reparented(s.k, n.k, p) && NoneWaits(s.threads, p)
    requires p in s.k.procs && p != s.k.initP && n.threads == s.threads
    ensures WaitsOK(n, {AnyWaitQ(s.k.initP)})
  {
    hide Reparented, KidsOK, GoneOK, Ids;
    forall t | Sleeps(n.threads, t)
      ensures n.threads[t].crt == None
      ensures Bed(n.threads[t].pc) in {AnyWaitQ(s.k.initP)} || MaySleep(n.k, n.threads[t].proc, n.threads[t].pc.pid, n.threads[t].pc.at)
    {
      var c := s.threads[t];
      assert MaySleep(s.k, c.proc, c.pc.pid, c.pc.at);
      assert c.proc != Some(p) by { assert !IsWaiter(s.threads, p, t); }
      if !(c.pc.pid == 0 && c.proc == Some(s.k.initP)) {
        MaySleepReparent(s.k, n.k, p, c.proc, c.pc.pid, c.pc.at);
      }
    }
  }

  lemma LeavingAfter(k: Kin, n: Kin, p: Ref, parent: Ref)
    requires KidsOK(k) && Ids(k) && Leaving(k, p, parent) && Reparented(k, n, p)
    ensures Leaving(n, p, parent) && forall x: Pid :: Kid(n, p, x) == None
  {
    hide Id, Par, Code, Kid, Gone, Exited;
    assert Kid(k, p, Id(k, p)) == None;
  }

  /** The state in which the exiting thread is alone in its process and nobody of it waits. */
  ghost predicate Alone(s: State, p: Ref) {
    && Acting(s) && s.threads[s.current].pc == User && Own(s) == p && Team(s.k, p) == {s.current} && NoneWaits(s.threads, p)
  }

  /** Links, keys, clean thread and core hold, but for the sleepers at `but`. */
  ghost predicate Sound(s: State, but: set<Queue>) {
    LinkMid(s) && Core(s, but) && KeysOK(s) && CleanOK(s)
  }

  /** The tables after reparenting, and the sleepers. */
  lemma ReparentKin(s: State, n: State, p: Ref, parent: Ref)
    requires KinInv(s.k) && WaitsOK(s, {}) && Leaving(s.k, p, parent) && NoneWaits(s.threads, p) && n == s.(k := Reparent(s.k, p))
    ensures KinInv(n.k) && WaitsOK(n, {AnyWaitQ(s.k.initP)}) && Leaving(n.k, p, parent) && (forall x: Pid :: Kid(n.k, p, x) == None)
  {
    hide WaitsOK, Reparent, KidsOK, GoneOK, Placed, CodesOK, Ids, Corpses, Leaving, NoneWaits, Reparented;
    LeavingNames(s.k, p, parent);
    ReparentView(s.k, p);
    LeavingAfter(s.k, n.k, p, parent);
    ReparentWaits(s, n, p);
    KeepReparent(s.k, n.k, p);
  }

  lemma ReparentCrew(s: State, n: State, p: Ref)
    requires CrewInv(s.threads, s.k) && p in s.k.procs && n == s.(k := Reparent(s.k, p)) && Alone(s, p)
    ensures CrewInv(n.threads, n.k) && Alone(n, p) && n.k.mainP == s.k.mainP && n.k.initP == s.k.initP && n.k.dead == s.k.dead
  {
    hide CrewInv, NoneWaits;
    ReparentTeams(s.k, p);
    KeepSameTeams(s.threads, s.k, n.k);
  }

  lemma KeepReparentStep(s: State, n: State, p: Ref, parent: Ref)
    requires Inv(s) && Alone(s, p) && Leaving(s.k, p, parent) && n == s.(k := Reparent(s.k, p))
    ensures Sound(n, {AnyWaitQ(n.k.initP)}) && Leaving(n.k, p, parent) && (forall x: Pid :: Kid(n.k, p, x) == None)
    ensures Alone(n, p) && n.k.initP == s.k.initP && OwnedBut(n, n.current)
  {
    assert LinkMid(s) && NoneWaits(s.threads, p);
    hide KinInv, CrewInv, LinkInv, LinkMid, WaitsOK, Reparent, Leaving, NoneWaits, Alone, Posts, KeysOK, CleanOK, Owned, OwnedBut;
    LeavingNames(s.k, p, parent);
    ReparentKin(s, n, p, parent);
    ReparentCrew(s, n, p);
    MidSame(s, n);
  }

  /** Every live thread but t has a process. */
  ghost predicate OwnedBut(s: State, t: Tid) {
    forall u :: u in s.threads && s.threads[u].status != Dead && u != t ==> s.threads[u].proc.Some?
  }

  lemma LeavingNames(k: Kin, p: Ref, parent: Ref)
    requires Leaving(k, p, parent)
    ensures p in k.procs && p != k.initP && parent in k.procs && p != parent && p != k.mainP
  {
  }

  lemma MidSame(s: State, n: State)
    requires LinkMid(s) && Posts(s) && KeysOK(s) && CleanOK(s) && Owned(s)
    requires n == s.(k := n.k) && n.k.mainP == s.k.mainP && n.k.dead == s.k.dead
    ensures LinkMid(n) && Posts(n) && KeysOK(n) && CleanOK(n) && OwnedBut(n, n.current)
  {
    KeepSame(s, n);
  }

  /** The target_pid Asserts for the waiters on any child. */
  lemma AnyTargets(s: State, r: Ref)
    requires LinkMid(s)
    ensures Targets(s, AnyWaitQ(r), 0)
  {
    assert QueueLinked(s, AnyWaitQ(r));
  }

  /** The target_pid Asserts for the waiters on one child: only its own id brings a thread into its queue. */
  lemma ExitTargets(s: State, p: Ref)
    requires LinkMid(s) && WaitsOK(s, {}) && KidsOK(s.k)
    ensures Targets(s, ExitWaitQ(p), Id(s.k, p))
  {
    assert QueueLinked(s, ExitWaitQ(p));
    hide Linked, CrtOK, KidsOK;
    forall t | t in Q(s, ExitWaitQ(p)) ensures t in s.threads && s.threads[t].pc.InWait? && s.threads[t].pc.pid == Id(s.k, p) {
      assert Sleeps(s.threads, t);
      KidId(s.k, s.threads[t].proc.value, s.threads[t].pc.pid);
    }
  }

  lemma KidId(k: Kin, p: Ref, x: Pid)
    requires KidsOK(k)
    ensures Kid(k, p, x).Some? ==> Id(k, Kid(k, p, x).value) == x
  {
  }

  // ---------------------------------------------------------------- marking

  /** n is s after the exiting thread has left its process and the process is marked. */
  ghost predicate Marks(s: State, n: State, p: Ref, parent: Ref, code: int) {
    s.current in s.threads && p in s.k.procs && parent in s.k.procs
    && n == Orphan(s, s.current).(k := MarkExit(s.k, p, parent, code, s.current))
  }

  lemma MarkTeams(s: State, n: State, p: Ref, parent: Ref, code: int)
    requires Marks(s, n, p, parent, code) && p != parent && Alone(s, p)
    ensures Leaves(s.threads, s.k, n.threads, n.k, p, s.current)
  {
  }

  lemma MaySleepMarked(k: Kin, n: Kin, p: Ref, parent: Ref, code: int, o: Option<Ref>, x: Pid, at: Ref)
    requires KidsOK(k) && ExitMarked(k, n, p, parent, code) && MaySleep(k, o, x, at)
    requires !(x == 0 && at == parent) && !(x != 0 && at == p)
    ensures MaySleep(n, o, x, at)
  {
    hide Id, Par, Code, Kid, Gone, Exited;
    if x == 0 {
      var y: Pid :| Kid(k, at, y).Some?;
      assert Kid(n, at, y).Some?;
    } else {
      assert at in k.procs;
    }
  }

  lemma MarkWaits(s: State, n: State, p: Ref, parent: Ref, code: int)
    requires WaitsOK(s, {}) && KidsOK(s.k) && ExitMarked(s.k, n.k, p, parent, code)
    requires forall t :: Sleeps(n.threads, t) ==> Sleeps(s.threads, t) && n.threads[t] == s.threads[t]
    ensures WaitsOK(n, {ExitWaitQ(p), AnyWaitQ(parent)})
  {
    hide ExitMarked, KidsOK, MaySleep;
    forall t | Sleeps(n.threads, t)
      ensures n.threads[t].crt == None
      ensures Bed(n.threads[t].pc) in {ExitWaitQ(p), AnyWaitQ(parent)} || MaySleep(n.k, n.threads[t].proc, n.threads[t].pc.pid, n.threads[t].pc.at)
    {
      var c := s.threads[t];
      if !(c.pc.pid == 0 && c.pc.at == parent) && !(c.pc.pid != 0 && c.pc.at == p) {
        MaySleepMarked(s.k, n.k, p, parent, code, c.proc, c.pc.pid, c.pc.at);
      }
    }
  }

  lemma MarkRest(s: State, n: State, p: Ref, parent: Ref, code: int)
    requires LinkMid(s) && Posts(s) && KeysOK(s) && CleanOK(s) && OwnedBut(s, s.current) && Marks(s, n, p, parent, code) && Acting(s)
    ensures LinkMid(n) && Posts(n) && KeysOK(n) && CleanOK(n) && OwnedBut(n, n.current) && n.current == s.current
    ensures forall t :: Sleeps(n.threads, t) ==> Sleeps(s.threads, t) && n.threads[t] == s.threads[t]
    ensures n.threads[n.current] == s.threads[s.current].(proc := None) && n.current != n.idle && n.current != n.clean
  {
    KeepSame(s, n);
  }

  lemma MarkKin(k: Kin, n: Kin, p: Ref, parent: Ref, code: int, t: Tid)
    requires KinInv(k) && Leaving(k, p, parent) && (forall x: Pid :: Kid(k, p, x) == None) && n == MarkExit(k, p, parent, code, t)
    ensures KinInv(n) && ExitMarked(k, n, p, parent, code)
  {
    ExitView(k, p, parent, code, t);
    hide MarkExit, ExitMarked, Roots, Ids, KidsOK, GoneOK, Placed, CodesOK, Corpses, Id, Kid, Exited;
    KeepExit(k, n, p, parent, code);
  }

  lemma KeepMarkStep(s: State, n: State, p: Ref, parent: Ref, code: int)
    requires Sound(s, {}) && OwnedBut(s, s.current) && Alone(s, p) && Leaving(s.k, p, parent) && (forall x: Pid :: Kid(s.k, p, x) == None)
    requires Marks(s, n, p, parent, code)
    ensures Sound(n, {ExitWaitQ(p), AnyWaitQ(parent)}) && OwnedBut(n, n.current) && n.current == s.current
    ensures n.threads[n.current] == s.threads[s.current].(proc := None) && n.current != n.idle && n.current != n.clean
    ensures p in n.k.procs && Targets(n, ExitWaitQ(p), n.k.procs[p].id)
  {
    assert KidsOK(s.k);
    hide KinInv, CrewInv, LinkMid, WaitsOK, Leaving, NoneWaits, Posts, KeysOK, CleanOK, OwnedBut, ExitMarked, KidsOK, Leaves;
    MarkRest(s, n, p, parent, code);
    assert p != parent by { LeavingNames(s.k, p, parent); }
    MarkTeams(s, n, p, parent, code);
    KeepLeave(s.threads, s.k, n.threads, n.k, p, s.current);
    MarkKin(s.k, n.k, p, parent, code, s.current);
    MarkWaits(s, n, p, parent, code);
    ExitTargets(s, p);
    TargetsKept(s, n, p, parent, code);
  }

  lemma TargetsKept(s: State, n: State, p: Ref, parent: Ref, code: int)
    requires Marks(s, n, p, parent, code) && Targets(s, ExitWaitQ(p), Id(s.k, p))
    ensures p in n.k.procs && Targets(n, ExitWaitQ(p), n.k.procs[p].id)
  {
  }

  // ---------------------------------------------------------------- waking and dying

  lemma WokeOwners(s: State, n: State, q: Queue)
    requires Woke(s, n, q) && OwnedBut(s, s.current)
    requires s.current in s.threads && s.threads[s.current].status == Running && s.current != s.idle
    requires forall t :: t in Q(s, q) ==> t in s.threads && s.threads[t].status == Waiting
    ensures OwnedBut(n, n.current) && n.current == s.current && n.threads[n.current] == s.threads[s.current]
    ensures n.k == s.k && n.idle == s.idle && n.clean == s.clean
  {
  }

  lemma WokeAlone(s: State, n: State, q: Queue, p: Ref)
    requires Woke(s, n, q) && Alone(s, p) && n.current == s.current && n.threads[n.current] == s.threads[s.current] && n.k == s.k
    ensures Alone(n, p)
  {
    assert forall t: Tid :: IsWaiter(n.threads, p, t) <==> IsWaiter(s.threads, p, t);
  }

  /** Waking a wait queue while the exiting thread runs. */
  lemma WakeWhileExiting(s: State, n: State, q: Queue, but: set<Queue>)
    requires Sound(s, but) && OwnedBut(s, s.current) && (q.AnyWaitQ? || q.ExitWaitQ?) && n == WakeAll(s, q)
    requires s.threads[s.current].status == Running && s.current != s.idle
    ensures Sound(n, but - {q}) && OwnedBut(n, n.current) && n.current == s.current && n.threads[n.current] == s.threads[s.current]
    ensures n.k == s.k && n.idle == s.idle && n.clean == s.clean && Woke(s, n, q)
  {
    hide LinkMid, Core, KeysOK, CleanOK, WakeAll, OwnedBut, Woke;
    assert s.current in s.threads by { MidNames(s); }
    QueueFacts(s, q);
    KeepWakeStep(s, n, q, but);
    WokeOwners(s, n, q);
  }

  lemma MidNames(s: State)
    requires LinkMid(s)
    ensures s.current in s.threads && s.idle in s.threads
  {
  }

  lemma DieView(s: State, n: State)
    requires s.current in s.threads && s.threads[s.current].proc.None? && s.current != s.idle && s.current != s.clean && n == ToDead(s, s.current)
    requires Posts(s) && KeysOK(s) && CleanOK(s) && OwnedBut(s, s.current)
    ensures Vanishes(s.threads, n.threads, s.current) && Posts(n) && KeysOK(n) && CleanOKBut(n) && Owned(n) && n.k == s.k
    ensures forall t :: Sleeps(n.threads, t) ==> Sleeps(s.threads, t) && n.threads[t] == s.threads[t]
  {
  }

  /** schedule_thread_exit: the thread joins dead_tasks, the clean thread is told, another thread runs. */
  lemma KeepDieStep(s: State)
    requires Sound(s, {}) && OwnedBut(s, s.current) && s.current != s.idle && s.current != s.clean
    requires s.threads[s.current].status == Running && s.threads[s.current].proc.None?
    ensures Inv(Switch(Notify(ToDead(s, s.current))))
  {
    var n := ToDead(s, s.current);
    hide KinInv, CrewInv, WaitsOK, LinkMid, Posts, KeysOK, CleanOK, OwnedBut, ToDead, Vanishes, CleanOKBut, Notify, Owned, Switch;
    MidNames(s);
    KeepDie(s);
    DieView(s, n);
    KeepVanish(s.threads, n.threads, s.k, s.current);
    SameWaitsLists(s.k, n.k);
    WaitsFrame(s, n, {});
    KeepNotifyStep(n, {});
    KeepSwitchStep(Notify(n));
  }

  /** From reparenting to the last context switch. */
  lemma KeepExitTail(s: State, p: Ref, parent: Ref, code: int)
    requires Inv(s) && Alone(s, p) && Leaving(s.k, p, parent)
    ensures var o := ExitTail(s, p, parent, code); o.Next? && Inv(o.s)
  {
    hide KinInv, CrewInv, LinkInv, LinkMid, WaitsOK, Reparent, Leaving, NoneWaits, Posts, KeysOK, CleanOK, Owned, OwnedBut, Core, Targets, WakeAll, MarkExit, ToDead, Notify, Switch, Inv, Woke;
    ExitNames(s, p, parent);
    var s2 := s.(k := Reparent(s.k, p));
    KeepReparentStep(s, s2, p, parent);
    AnyTargets(s2, s2.k.initP);
    var q := AnyWaitQ(s2.k.initP);
    var s3 := WakeAll(s2, q);
    WakeWhileExiting(s2, s3, q, {q});
    assert {q} - {q} == {};
    WokeAlone(s2, s3, q, p);
    LeavingNames(s3.k, p, parent);
    var s4 := Orphan(s3, s3.current).(k := MarkExit(s3.k, p, parent, code, s3.current));
    KeepMarkStep(s3, s4, p, parent, code);
    ExitEnd(s4, p, parent);
  }

  lemma ExitNames(s: State, p: Ref, parent: Ref)
    requires Inv(s) && Leaving(s.k, p, parent)
    ensures p in s.k.procs && parent in s.k.procs && s.current in s.threads && s.idle in s.threads
  {
  }

  lemma ExitEnd(s4: State, p: Ref, parent: Ref)
    requires Sound(s4, {ExitWaitQ(p), AnyWaitQ(parent)}) && OwnedBut(s4, s4.current) && s4.current != s4.idle && s4.current != s4.clean
    requires s4.threads[s4.current].status == Running && s4.threads[s4.current].proc.None?
    ensures var s5 := WakeAll(s4, ExitWaitQ(p)); var s6 := WakeAll(s5, AnyWaitQ(parent));
      Targets(s5, AnyWaitQ(parent), 0) && s6.current in s6.threads && Inv(Switch(Notify(ToDead(s6, s6.current))))
  {
    hide LinkMid, OwnedBut, Core, KeysOK, CleanOK, Targets, WakeAll, ToDead, Notify, Switch, Inv, Woke;
    var e, a := ExitWaitQ(p), AnyWaitQ(parent);
    var s5 := WakeAll(s4, e);
    WakeWhileExiting(s4, s5, e, {e, a});
    assert {e, a} - {e} == {a};
    AnyTargets(s5, parent);
    var s6 := WakeAll(s5, a);
    WakeWhileExiting(s5, s6, a, {a});
    assert {a} - {a} == {};
    MidNames(s6);
    KeepDieStep(s6);
  }

  // ---------------------------------------------------------------- what the code finds on the way

  /** All members of q are known threads. */
  ghost predicate Known(s: State, q: Queue) {
    forall t :: t in Q(s, q) ==> t in s.threads
  }

  lemma KnownQueue(s: State, q: Queue)
    requires LinkMid(s)
    ensures Known(s, q)
  {
    assert QueueLinked(s, q);
  }

  lemma NotAsleep(s: State)
    requires LinkMid(s) && s.current != s.idle && s.threads[s.current].status == Running
    ensures s.current !in Q(s, CvQ)
  {
    assert QueueLinked(s, CvQ);
  }

  lemma PathToMark(s: State, p: Ref, parent: Ref, code: int, s2: State, s3: State, s4: State)
    requires Inv(s) && Alone(s, p) && Leaving(s.k, p, parent) && s2 == s.(k := Reparent(s.k, p)) && s3 == WakeAll(s2, AnyWaitQ(s2.k.initP))
    requires s3.current in s3.threads && p in s3.k.procs && parent in s3.k.procs ==> s4 == Orphan(s3, s3.current).(k := MarkExit(s3.k, p, parent, code, s3.current))
    ensures p in s.k.procs && parent in s.k.procs && p != parent && p != s.k.initP && p in s2.k.procs && s2.k.initP in s2.k.procs && s.current in s.threads && s.idle in s.threads
    ensures Known(s2, AnyWaitQ(s2.k.initP)) && Targets(s2, AnyWaitQ(s2.k.initP), 0) && s2.current in s2.k.procs[p].threads
    ensures s3.current in s3.threads && p in s3.k.procs && parent in s3.k.procs
    ensures p in s4.k.procs && Targets(s4, ExitWaitQ(p), s4.k.procs[p].id)
    ensures Sound(s4, {ExitWaitQ(p), AnyWaitQ(parent)}) && OwnedBut(s4, s4.current) && s4.current != s4.idle && s4.current != s4.clean
    ensures s4.threads[s4.current].status == Running && s4.threads[s4.current].proc.None?
  {
    hide KinInv, CrewInv, LinkInv, LinkMid, WaitsOK, Reparent, Leaving, NoneWaits, Posts, KeysOK, CleanOK, Owned, OwnedBut, Core, Targets, WakeAll, MarkExit, Inv, Woke, Known;
    ExitNames(s, p, parent);
    LeavingNames(s.k, p, parent);
    KeepReparentStep(s, s2, p, parent);
    AnyTargets(s2, s2.k.initP);
    var q := AnyWaitQ(s2.k.initP);
    KnownQueue(s2, q);
    WakeWhileExiting(s2, s3, q, {q});
    assert {q} - {q} == {};
    WokeAlone(s2, s3, q, p);
    LeavingNames(s3.k, p, parent);
    RootIn(s2);
    KeepMarkStep(s3, s4, p, parent, code);
  }

  lemma RootIn(s: State)
    requires Core(s, {AnyWaitQ(s.k.initP)})
    ensures s.k.initP in s.k.procs
  {
  }

  lemma PathToSwitch(s4: State, p: Ref, parent: Ref, s5: State, s6: State, s8: State)
    requires Sound(s4, {ExitWaitQ(p), AnyWaitQ(parent)}) && OwnedBut(s4, s4.current) && s4.current != s4.idle && s4.current != s4.clean
    requires s4.threads[s4.current].status == Running && s4.threads[s4.current].proc.None?
    requires s5 == WakeAll(s4, ExitWaitQ(p)) && s6 == WakeAll(s5, AnyWaitQ(parent)) && (s6.current in s6.threads ==> s8 == Notify(ToDead(s6, s6.current)))
    ensures Known(s4, ExitWaitQ(p)) && Known(s5, AnyWaitQ(parent)) && Targets(s5, AnyWaitQ(parent), 0)
    ensures s6.current in s6.threads && Known(s6, CvQ) && s6.current !in Q(s6, CvQ)
    ensures s8.current in s8.threads && s8.idle in s8.threads && Known(s8, ReadyQ) && Inv(Switch(s8))
  {
    hide LinkMid, OwnedBut, Core, KeysOK, CleanOK, Targets, WakeAll, ToDead, Notify, Switch, Inv, Woke, Known;
    var e, a := ExitWaitQ(p), AnyWaitQ(parent);
    KnownQueue(s4, e);
    WakeWhileExiting(s4, s5, e, {e, a});
    assert {e, a} - {e} == {a};
    AnyTargets(s5, parent);
    KnownQueue(s5, a);
    WakeWhileExiting(s5, s6, a, {a});
    assert {a} - {a} == {};
    MidNames(s6);
    KnownQueue(s6, CvQ);
    NotAsleep(s6);
    KeepDieStep(s6);
    KeepDie(s6);
    KeepNotify(ToDead(s6, s6.current));
    MidNames(s8);
    KnownQueue(s8, ReadyQ);
  }
}
