/** Every run of the threads, from boot: no lost wake-up, sound links, a sound process tree. */
module TaskRun {
  import opened Wrappers
  import opened TaskSpec
  import opened TaskLink
  import opened TaskTree
  import opened TaskCrew
  import opened TaskInv
  import opened TaskSteps
  import opened TaskCalls
  import opened TaskExit
  import opened TaskExitTail

  // ---------------------------------------------------------------- exit

  lemma LeavingSame(k: Kin, n: Kin, p: Ref, parent: Ref)
    requires Leaving(k, p, parent) && SameKin(k, n)
    ensures Leaving(n, p, parent)
  {
  }

  lemma AloneNow(s: State, p: Ref)
    requires Inv(s) && ActingOutside(s) && Own(s) == p && Team(s.k, p) == {s.current} && Counter(s.k, p) == 0
    ensures Alone(s, p)
  {
    forall t: Tid ensures !IsWaiter(s.threads, p, t) {
      NoWaiter(s.threads, s.k, p, t);
    }
  }

  lemma OneThread(k: Kin, p: Ref, t: Tid)
    requires p in k.procs && t in Team(k, p) && |k.procs[p].threads| <= 1
    ensures Team(k, p) == {t}
  {
    var ts := k.procs[p].threads;
    if ts != {t} {
      var u :| u in ts && u != t;
      assert {t, u} <= ts;
      CardLe({t, u}, ts);
    }
  }

  lemma CardLe(a: set<Tid>, b: set<Tid>)
    requires a <= b
    ensures |a| <= |b|
  {
    assert b == a + (b - a);
  }

  /** When process_exit stops with a panic: for init, for a process with threads in process_wait, or with another thread outside all queues that record themselves. */
  ghost predicate ExitPanics(s: State)
    requires Acting(s)
  {
    var p := Own(s);
    || p == s.k.initP || s.k.procs[p].waiting > 0
    || (|s.k.procs[p].threads| > 1 && exists t :: t in Team(s.k, p) && t != s.current && NoQueue(s, t))
  }

  /** The guards of process_exit, and the way it goes when they let it pass. */
  lemma ExitIs(s: State, p: Ref, code: int, order: seq<Tid>)
    requires s.current in s.threads && s.idle in s.threads && s.threads[s.current].proc == Some(p) && p in s.k.procs
    ensures s.k.procs[p].parent.None? || p == s.k.initP || s.k.procs[p].waiting > 0 ==> Exit(s, code, order) == Panics
    ensures !(s.k.procs[p].parent.None? || p == s.k.initP || s.k.procs[p].waiting > 0) ==>
      var o := if |s.k.procs[p].threads| > 1 then KillOthers(s, p, order) else Next(s);
      Exit(s, code, order) == if o.Next? then ExitTail(o.s, p, s.k.procs[p].parent.value, code) else o
  {
    hide KillOthers, ExitTail;
  }

  lemma ExitLeaving(s: State, p: Ref)
    requires Inv(s) && Acting(s) && Own(s) == p && p != s.k.initP
    ensures s.k.procs[p].parent.Some? && Leaving(s.k, p, s.k.procs[p].parent.value)
  {
    OwnFacts(s);
    LeavingFacts(s.k, p);
  }

  lemma ExitAlone(s: State, p: Ref)
    requires Inv(s) && ActingOutside(s) && Own(s) == p && s.k.procs[p].waiting == 0 && |s.k.procs[p].threads| <= 1
    ensures Alone(s, p)
  {
    OwnFacts(s);
    OneThread(s.k, p, s.current);
    AloneNow(s, p);
  }

  lemma KilledIn(s: State, p: Ref, order: seq<Tid>)
    requires Inv(s) && ActingOutside(s) && Own(s) == p && s.k.procs[p].waiting == 0 && Lists(order, s, p)
    requires s.k.procs[p].parent.Some? && Leaving(s.k, p, s.k.procs[p].parent.value)
    ensures var o := KillOthers(s, p, order); o.Next? ==> Inv(o.s) && Alone(o.s, p) && Leaving(o.s.k, p, s.k.procs[p].parent.value)
  {
    hide KillOthers, Leaving, Inv, SameKin, NoQueue, Alone;
    KeepKillOthers(s, order);
    var o := KillOthers(s, p, order);
    if o.Next? {
      LeavingSame(s.k, o.s.k, p, s.k.procs[p].parent.value);
      AloneNow(o.s, p);
    }
  }

  lemma KillPanicsExit(s: State, p: Ref, order: seq<Tid>)
    requires Inv(s) && ActingOutside(s) && Own(s) == p && p != s.k.initP && s.k.procs[p].waiting == 0 && |s.k.procs[p].threads| > 1 && Lists(order, s, p)
    ensures s.idle in s.threads && (KillOthers(s, p, order).Panics? <==> ExitPanics(s)) && !KillOthers(s, p, order).Fails?
  {
    InvNames(s);
    hide KillOthers, Inv, NoQueue, SameKin;
    KeepKillOthers(s, order);
  }

  lemma KeepExitStep(s: State, code: int, order: seq<Tid>)
    requires Inv(s) && ActingOutside(s) && Lists(order, s, Own(s))
    ensures s.idle in s.threads
    ensures var o := Exit(s, code, order); !o.Fails? && (o.Next? ==> Inv(o.s)) && (o.Panics? <==> ExitPanics(s))
  {
    var p := Own(s);
    hide Inv, Leaving, ExitTail, KillOthers, Alone, Exit, Lists, NoQueue;
    InvNames(s);
    ExitIs(s, p, code, order);
    if p != s.k.initP && s.k.procs[p].waiting == 0 {
      ExitLeaving(s, p);
      var parent := s.k.procs[p].parent.value;
      if |s.k.procs[p].threads| > 1 {
        KillPanicsExit(s, p, order);
        KilledIn(s, p, order);
        var o := KillOthers(s, p, order);
        if o.Next? {
          KeepExitTail(o.s, p, parent, code);
        }
      } else {
        ExitAlone(s, p);
        KeepExitTail(s, p, parent, code);
      }
    }
  }

  // ---------------------------------------------------------------- every step

  /** Each step keeps the invariant, and no internal Assert of wait or exit fails. */
  lemma StepKeeps(s: State, a: Step)
    requires Inv(s) && Enabled(s, a)
    ensures s.current in s.threads && s.idle in s.threads
    ensures var o := Take(s, a); !o.Fails? && (o.Next? ==> Inv(o.s))
  {
    InvNames(s);
    match a {
      case Reschedule => SwitchKeeps(s);
      case KeyEvent(key) => KeepKey(s, key);
      case ReadKeyTurn => KeepReadKey(s);
      case PollKey => PollKeeps(s);
      case CleanThreadTurn => if HasDeadResource(s) { KeepCleanGrab(s); } else { KeepCleanBlock(s); }
      case CleanThread => KeepCleanThread(s);
      case CleanProcess => KeepCleanProcess(s);
      case ForkStep(tid, child, pid) => ForkKeeps(s, tid, child, pid);
      case SpawnStep(tid) => SpawnKeeps(s, tid);
      case ExecStep(order) => KeepKillOthers(s, order);
      case ExitStep(code, order) => KeepExitStep(s, code, order);
      case WaitStep(pid, first) => KeepWaitStep(s, pid, first);
      case HandOverStep => KeepHandOverStep(s);
    }
  }

  lemma InvNames(s: State)
    requires Inv(s)
    ensures s.current in s.threads && s.idle in s.threads
  {
  }

  lemma SwitchKeeps(s: State)
    requires Inv(s)
    ensures Inv(Switch(s))
  {
    KeepSwitchStep(s);
  }

  lemma PollKeeps(s: State)
    requires Inv(s)
    ensures Inv(if s.keys == [] then s else s.(keys := s.keys[1..]))
  {
    if s.keys != [] {
      KeysFrame(s, s.(keys := s.keys[1..]));
    }
  }

  lemma ForkKeeps(s: State, tid: Tid, child: Ref, pid: Pid)
    requires Inv(s) && Enabled(s, ForkStep(tid, child, pid))
    ensures Inv(Fork(s, Own(s), tid, child, pid))
  {
    OwnFacts(s);
    KeepForkStep(s, Own(s), tid, child, pid);
  }

  lemma SpawnKeeps(s: State, tid: Tid)
    requires Inv(s) && Enabled(s, SpawnStep(tid))
    ensures Inv(NewThread(s, Own(s), tid))
  {
    OwnFacts(s);
    KeepSpawnStep(s, Own(s), tid);
  }

  // ---------------------------------------------------------------- runs

  /** The state kernel_main_thread leaves when it starts to idle: threads 0, 1, 2 are main, clean and init's. */
  ghost function Boot(mainP: Ref, initP: Ref): State {
    State(
      map[0 := Tcb(Ready, None, Some(mainP), User), 1 := Tcb(Ready, Some(ReadyQ), Some(mainP), User), 2 := Tcb(Ready, Some(ReadyQ), Some(initP), User)],
      map[ReadyQ := [1, 2]], 0, 0, 1, [],
      Kin(map[mainP := Pcb(0, None, false, 0, {0, 1}, map[], map[], 0), initP := Pcb(1, None, false, 0, {2}, map[], map[], 0)],
          mainP, initP, [], [], map[], map[]))
  }

  lemma BootLinked(mainP: Ref, initP: Ref)
    ensures LinkInv(Boot(mainP, initP))
  {
    var s := Boot(mainP, initP);
    forall q ensures QueueLinked(s, q) {
    }
  }

  lemma BootKin(mainP: Ref, initP: Ref)
    requires mainP != initP
    ensures KinInv(Boot(mainP, initP).k)
  {
    var k := Boot(mainP, initP).k;
    assert forall p: Ref, x: Pid :: Kid(k, p, x) == None && Gone(k, p, x) == None;
    hide Kid, Gone;
  }

  lemma BootMembers(mainP: Ref, initP: Ref)
    requires mainP != initP
    ensures var s := Boot(mainP, initP); Members(s.threads, s.k)
  {
  }

  lemma BootCrew(mainP: Ref, initP: Ref)
    requires mainP != initP
    ensures var s := Boot(mainP, initP); CrewInv(s.threads, s.k)
  {
    var s := Boot(mainP, initP);
    assert Counts(s.threads, s.k) by {
      forall p | p in s.k.procs ensures |Waiters(s.threads, p)| <= Counter(s.k, p) {
        assert Waiters(s.threads, p) == {};
      }
    }
    BootMembers(mainP, initP);
    hide Members;
    assert forall t: Tid :: PcOf(s.threads, t) == User;
  }

  lemma BootInv(mainP: Ref, initP: Ref)
    requires mainP != initP
    ensures Inv(Boot(mainP, initP))
  {
    var s := Boot(mainP, initP);
    assert Posts(s) && Owned(s) && KeysOK(s) && CleanOK(s) && WaitsOK(s, {});
    hide KinInv, CrewInv, LinkInv;
    BootLinked(mainP, initP);
    BootKin(mainP, initP);
    BootCrew(mainP, initP);
  }

  /** ss[0], ss[1], ... are connected by the steps. */
  ghost predicate IsRun(ss: seq<State>, steps: seq<Step>) {
    && |ss| == |steps| + 1
    && forall i :: 0 <= i < |steps| ==>
      && ss[i].current in ss[i].threads && ss[i].idle in ss[i].threads && Enabled(ss[i], steps[i])
      && Take(ss[i], steps[i]) == Next(ss[i + 1])
  }

  /** Every state of every run from boot satisfies the invariant, whatever the interleaving. */
  lemma {:induction false} RunSafe(ss: seq<State>, steps: seq<Step>, mainP: Ref, initP: Ref, i: nat)
    requires IsRun(ss, steps) && mainP != initP && ss[0] == Boot(mainP, initP) && i < |ss|
    ensures Inv(ss[i])
  {
    hide Inv, Take, Enabled;
    if i == 0 {
      BootInv(mainP, initP);
    } else {
      RunSafe(ss, steps, mainP, initP, i - 1);
      StepKeeps(ss[i - 1], steps[i - 1]);
    }
  }

  /** In no run does an internal Assert of process_wait or process_exit fail. */
  lemma NeverFails(ss: seq<State>, steps: seq<Step>, mainP: Ref, initP: Ref, a: Step)
    requires IsRun(ss, steps) && mainP != initP && ss[0] == Boot(mainP, initP)
    ensures var s := ss[|ss| - 1]; Enabled(s, a) ==> s.current in s.threads && s.idle in s.threads && !Take(s, a).Fails?
  {
    hide Inv, Take, Enabled;
    var s := ss[|ss| - 1];
    RunSafe(ss, steps, mainP, initP, |ss| - 1);
    if Enabled(s, a) {
      StepKeeps(s, a);
    }
  }

  // ---------------------------------------------------------------- what the invariant says

  /** No lost wake-up: whoever sleeps has nothing to be woken for. */
  lemma NoLostWakeUp(s: State, t: Tid)
    requires Inv(s) && t in s.threads && t != s.idle && s.threads[t].status == Waiting
    ensures t in Q(s, KbdQ) ==> s.keys == []
    ensures t in Q(s, CvQ) ==> t == s.clean && s.k.dead == [] && Q(s, DeadQ) == []
    ensures t !in Q(s, KbdQ) && t !in Q(s, CvQ) ==>
      && s.threads[t].pc.InWait? && s.threads[t].proc.Some? && s.threads[t].proc.value in s.k.procs
      && var a, pid := s.k.procs[s.threads[t].proc.value], s.threads[t].pc.pid;
         if pid == 0 then a.gone == map[] && a.children != map[]
         else pid in a.children && pid !in a.gone && a.children[pid] in s.k.procs && !s.k.procs[a.children[pid]].exited
  {
    var c := s.threads[t];
    assert QueueLinked(s, KbdQ) && QueueLinked(s, CvQ);
    hide LinkInv, CrewInv;
    if c.pc.InWait? && t !in Q(s, KbdQ) {
      assert Sleeps(s.threads, t);
      SleeperFinds(s.k, c.proc, c.pc.pid, c.pc.at);
    }
  }

  lemma SleeperFinds(k: Kin, o: Option<Ref>, x: Pid, at: Ref)
    requires KinInv(k) && MaySleep(k, o, x, at)
    ensures o.Some? && o.value in k.procs
    ensures var a := k.procs[o.value];
      if x == 0 then a.gone == map[] && a.children != map[]
      else x in a.children && x !in a.gone && a.children[x] in k.procs && !k.procs[a.children[x]].exited
  {
    if x == 0 {
      var y: Pid :| Kid(k, at, y).Some?;
      assert forall z :: z in k.procs[at].gone ==> Gone(k, at, z).Some?;
    } else {
      assert Gone(k, o.value, x) == None && Kid(k, o.value, x) == Some(at);
    }
  }

  /** A thread's status says where it is linked, in both directions. */
  lemma StatusIsPlace(s: State, t: Tid)
    requires Inv(s) && t in s.threads && t != s.idle
    ensures s.threads[t].status == Ready <==> t in Q(s, ReadyQ)
    ensures s.threads[t].status == Dead <==> t in Q(s, DeadQ) || t in Q(s, ClearingQ)
    ensures s.threads[t].status == Running <==> forall q :: t !in Q(s, q)
    ensures s.threads[t].status == Running ==> t == s.current
  {
    assert QueueLinked(s, ReadyQ) && QueueLinked(s, DeadQ) && QueueLinked(s, ClearingQ);
    hide Core, CrtOK;
    if s.threads[t].status != Running {
      assert QueueLinked(s, Home(s, t).value);
    }
    if q: Queue :| t in Q(s, q) {
      assert QueueLinked(s, q);
    }
  }

  /** No thread is linked twice, in one queue or in two. */
  lemma LinkedOnce(s: State, q: Queue, i: nat, r: Queue, j: nat)
    requires Inv(s) && i < |Q(s, q)| && j < |Q(s, r)| && Q(s, q)[i] == Q(s, r)[j]
    ensures q == r && i == j && Q(s, q)[i] in s.threads && Q(s, q)[i] != s.idle
  {
    hide Core, CrtOK, Home;
    assert QueueLinked(s, q) && QueueLinked(s, r);
    assert Q(s, q)[i] in Q(s, q) && Q(s, r)[j] in Q(s, r);
  }

  /** The process tree: an unreaped process is in one children table, its parent's, under its id. */
  lemma OneParent(s: State, c: Ref, p: Ref, x: Pid)
    requires Inv(s) && c in s.k.procs && c != s.k.mainP && c != s.k.initP && p in s.k.procs
    ensures x in s.k.procs[p].children && s.k.procs[p].children[x] == c <==>
      c !in s.k.reports && s.k.procs[c].parent == Some(p) && x == s.k.procs[c].id
    ensures c !in s.k.reports ==> s.k.procs[c].parent.Some? && s.k.procs[c].parent.value in s.k.procs
    ensures x in s.k.procs[p].gone ==> x in s.k.procs[p].children && s.k.procs[p].gone[x] == s.k.procs[p].children[x]
  {
    assert KinInv(s.k);
    hide LinkInv, CrewInv, WaitsOK, Posts;
    var k := s.k;
    assert Kid(k, p, x) == Some(c) <==> x in k.procs[p].children && k.procs[p].children[x] == c;
    assert Kid(k, p, x) == Some(c) ==> c !in k.reports && Par(k, c) == Some(p) && Id(k, c) == x;
    assert c !in k.reports ==> Kid(k, Par(k, c).value, Id(k, c)) == Some(c);
    assert Gone(k, p, x).Some? ==> Kid(k, p, x) == Gone(k, p, x);
  }

  // ---------------------------------------------------------------- each process is reaped once

  ghost predicate Extends(m: map<Ref, int>, n: map<Ref, int>) {
    forall c :: c in m ==> c in n && n[c] == m[c]
  }

  lemma SchedKin(s: State, q: Queue)
    ensures WakeAll(s, q).k == s.k && Notify(s).k == s.k
    ensures s.current in s.threads ==> ToDead(s, s.current).k == s.k
    ensures s.current in s.threads && s.idle in s.threads ==> Switch(s).k == s.k
  {
  }

  lemma ExitKin(s: State, p: Ref, parent: Ref, code: int)
    ensures var o := ExitTail(s, p, parent, code); o.Next? ==> o.s.k.reports == s.k.reports && o.s.k.exits == s.k.exits[p := code]
  {
    var o := ExitTail(s, p, parent, code);
    if o.Next? {
      hide WakeAll, Notify, ToDead, Switch, Targets;
      var s2 := s.(k := Reparent(s.k, p));
      SchedKin(s2, AnyWaitQ(s2.k.initP));
      var s3 := WakeAll(s2, AnyWaitQ(s2.k.initP));
      var s4 := Orphan(s3, s3.current).(k := MarkExit(s3.k, p, parent, code, s3.current));
      SchedKin(s4, ExitWaitQ(p));
      var s5 := WakeAll(s4, ExitWaitQ(p));
      SchedKin(s5, AnyWaitQ(parent));
      var s6 := WakeAll(s5, AnyWaitQ(parent));
      SchedKin(s6, ReadyQ);
      SchedKin(ToDead(s6, s6.current), ReadyQ);
      SchedKin(Notify(ToDead(s6, s6.current)), ReadyQ);
    }
  }

  /** The history after o: exit codes as before, reports only added. */
  ghost predicate Logged(s: State, o: Outcome) {
    o.Next? ==> o.s.k.exits == s.k.exits && Extends(s.k.reports, o.s.k.reports)
  }

  lemma FailLogged(s: State, p: Ref, counted: bool)
    requires s.current in s.threads && p in s.k.procs
    ensures Logged(s, WaitFails(s, p, counted))
  {
  }

  lemma BlockLogged(s: State, p: Ref, pid: Pid, counted: bool)
    requires s.current in s.threads && p in s.k.procs && (pid == 0 || pid in s.k.procs[p].children)
    ensures Logged(s, Next(WaitBlocks(s, p, pid, counted)))
  {
  }

  lemma ReapKin(s: State, p: Ref, x: Pid, counted: bool)
    requires s.current in s.threads && p in s.k.procs && x in s.k.procs[p].gone
    ensures var o := Reap(s, p, x, counted); o.Next? ==> o.s.k.exits == s.k.exits
  {
  }

  lemma ReapLogged(s: State, x: Pid)
    requires Inv(s) && Acting(s) && (s.threads[s.current].pc == User || s.threads[s.current].pc.InWait?) && x in s.k.procs[Own(s)].gone
    ensures Logged(s, Reap(s, Own(s), x, s.threads[s.current].pc.InWait?))
  {
    hide Inv, Reap;
    KeepReapStep(s, x);
    ReapKin(s, Own(s), x, s.threads[s.current].pc.InWait?);
  }

  lemma WaitLog(s: State, pid: Pid, first: Pid)
    requires Inv(s) && Enabled(s, WaitStep(pid, first))
    ensures Logged(s, Wait(s, pid, first))
  {
    var p, counted := Own(s), s.threads[s.current].pc.InWait?;
    var a := s.k.procs[p];
    hide Inv, WaitFails, Reap, WaitBlocks, Wait, Logged;
    WaitCases(s, pid, first);
    FailLogged(s, p, counted);
    if pid in a.gone {
      ReapLogged(s, pid);
    }
    if first in a.gone {
      ReapLogged(s, first);
    }
    if MustBlock(a, pid) {
      BlockLogged(s, p, pid, counted);
    }
  }

  lemma KillLog(s: State, order: seq<Tid>)
    requires Inv(s) && Acting(s) && Lists(order, s, Own(s))
    ensures var o := KillOthers(s, Own(s), order); Logged(s, o) && (o.Next? ==> o.s.k.exits == s.k.exits && o.s.k.reports == s.k.reports)
  {
    KeepKillOthers(s, order);
  }

  lemma ExitLog(s: State, code: int, order: seq<Tid>)
    requires Inv(s) && ActingOutside(s) && Lists(order, s, Own(s))
    ensures var o := Exit(s, code, order); o.Next? ==> o.s.k.exits == s.k.exits[Own(s) := code] && o.s.k.reports == s.k.reports && Own(s) !in s.k.exits
  {
    var p := Own(s);
    OwnFacts(s);
    assert p !in s.k.exits;
    hide Inv, ExitTail, KillOthers;
    KillLog(s, order);
    if s.k.procs[p].parent.Some? {
      var parent := s.k.procs[p].parent.value;
      ExitKin(s, p, parent, code);
      var o := KillOthers(s, p, order);
      if o.Next? {
        ExitKin(o.s, p, parent, code);
      }
    }
  }

  /** The other steps do not touch the history. */
  lemma QuietLog(s: State, a: Step)
    requires s.current in s.threads && s.idle in s.threads && Enabled(s, a) && !a.WaitStep? && !a.ExitStep? && !a.ExecStep?
    ensures var o := Take(s, a); o.Next? && o.s.k.exits == s.k.exits && o.s.k.reports == s.k.reports
  {
  }

  lemma TakeCalls(s: State, a: Step)
    requires s.current in s.threads && s.idle in s.threads && Enabled(s, a)
    ensures a.WaitStep? ==> Take(s, a) == Wait(s, a.pid, a.first)
    ensures a.ExitStep? ==> Take(s, a) == Exit(s, a.code, a.order)
    ensures a.ExecStep? ==> Take(s, a) == KillOthers(s, Own(s), a.order)
  {
  }

  /** Nothing recorded is changed. */
  ghost predicate Grown(s: State, o: Outcome) {
    o.Next? ==> Extends(s.k.exits, o.s.k.exits) && Extends(s.k.reports, o.s.k.reports)
  }

  lemma GrownBy(s: State, o: Outcome)
    ensures Logged(s, o) ==> Grown(s, o)
    ensures o.Next? && o.s.k.exits == s.k.exits && o.s.k.reports == s.k.reports ==> Grown(s, o)
  {
  }

  lemma ExitGrown(s: State, code: int, order: seq<Tid>)
    requires Inv(s) && ActingOutside(s) && Lists(order, s, Own(s))
    ensures Grown(s, Exit(s, code, order))
  {
    hide Inv, Exit;
    ExitLog(s, code, order);
  }

  lemma LogGrows(s: State, a: Step)
    requires Inv(s) && Enabled(s, a)
    ensures s.current in s.threads && s.idle in s.threads && Grown(s, Take(s, a))
  {
    InvNames(s);
    hide Inv, Wait, Exit, KillOthers, Take, Grown, Logged, Lists;
    TakeCalls(s, a);
    GrownBy(s, Take(s, a));
    if a.WaitStep? {
      WaitLog(s, a.pid, a.first);
    } else if a.ExitStep? {
      ExitGrown(s, a.code, a.order);
    } else if a.ExecStep? {
      KillLog(s, a.order);
    } else {
      QuietLog(s, a);
    }
  }

  /** Along a run, exit codes and reports are only ever added. */
  lemma {:induction false} RunLog(ss: seq<State>, steps: seq<Step>, mainP: Ref, initP: Ref, i: nat, j: nat)
    requires IsRun(ss, steps) && mainP != initP && ss[0] == Boot(mainP, initP) && i <= j < |ss|
    ensures Extends(ss[i].k.exits, ss[j].k.exits) && Extends(ss[i].k.reports, ss[j].k.reports)
    decreases j
  {
    hide Inv, Take, Enabled;
    if i < j {
      RunLog(ss, steps, mainP, initP, i, j - 1);
      RunSafe(ss, steps, mainP, initP, j - 1);
      LogGrows(ss[j - 1], steps[j - 1]);
    }
  }

  /** process_wait reports each process at most once in a run, and then with the code it exited with. */
  lemma ReapedOnce(ss: seq<State>, steps: seq<Step>, mainP: Ref, initP: Ref, c: Ref, i: nat, j: nat)
    requires IsRun(ss, steps) && mainP != initP && ss[0] == Boot(mainP, initP) && i < |steps| && j < |steps|
    requires c !in ss[i].k.reports && c in ss[i + 1].k.reports && c !in ss[j].k.reports && c in ss[j + 1].k.reports
    ensures i == j && c in ss[i].k.exits && ss[i + 1].k.reports[c] == ss[i].k.exits[c]
  {
    hide Take, Enabled;
    if i < j {
      RunLog(ss, steps, mainP, initP, i + 1, j);
    } else if j < i {
      RunLog(ss, steps, mainP, initP, j + 1, i);
    }
    RunSafe(ss, steps, mainP, initP, i);
    RunSafe(ss, steps, mainP, initP, i + 1);
    ReportIsExit(ss[i], steps[i], c);
  }

  /** A report comes from a process_wait turn and repeats the exit code. */
  lemma ReportIsExit(s: State, a: Step, c: Ref)
    requires Inv(s) && Enabled(s, a) && s.current in s.threads && s.idle in s.threads && c !in s.k.reports
    ensures var o := Take(s, a); o.Next? && c in o.s.k.reports ==> a.WaitStep? && c in s.k.exits && o.s.k.reports[c] == s.k.exits[c]
  {
    hide Wait, Exit, KillOthers, Take, LinkInv, CrewInv, WaitsOK;
    TakeCalls(s, a);
    if a.WaitStep? {
      WaitLog(s, a.pid, a.first);
      KeepWaitStep(s, a.pid, a.first);
      var o := Wait(s, a.pid, a.first);
      assert CodesOK(o.s.k);
    } else if a.ExitStep? {
      ExitLog(s, a.code, a.order);
    } else if a.ExecStep? {
      KillLog(s, a.order);
    } else {
      QuietLog(s, a);
    }
  }

  // ---------------------------------------------------------------- bounded waiting

  /** The idle thread runs only when nothing else is ready, and is never in a queue. */
  lemma IdleLast(s: State, q: Queue)
    requires Inv(s)
    ensures Switch(s).current == s.idle <==> Q(s, ReadyQ) == []
    ensures s.idle !in Q(Switch(s), q)
  {
    hide Core;
    if Q(s, ReadyQ) == [] {
      SwitchToIdle(s);
    } else {
      assert QueueLinked(s, ReadyQ) && Q(s, ReadyQ)[0] in Q(s, ReadyQ);
      SwitchToReady(s);
    }
    KeepSwitch(s);
    assert QueueLinked(Switch(s), q);
    assert Switch(s).idle == s.idle;
  }
}
