/** fork, spawn and the turns of process_wait keep the invariant. */
module TaskCalls {
  import opened Wrappers
  import opened TaskSpec
  import opened TaskLink
  import opened TaskTree
  import opened TaskCrew
  import opened TaskInv
  import opened TaskSteps

  /** The acting thread's process is a live one and not the kernel's own. */
  lemma OwnFacts(s: State)
    requires Inv(s) && Acting(s)
    ensures var p := Own(s); s.current in Team(s.k, p) && !Exited(s.k, p) && p != s.k.mainP && p in s.k.procs
    ensures s.threads[s.current].crt == None && Home(s, s.current) == None
  {
    assert CrtFits(s.threads[s.current]);
    assert Alive(s.threads, s.current) && Owner(s.threads, s.current) == Some(Own(s));
  }

  // ---------------------------------------------------------------- fork

  lemma JoinView(s: State, k: Kin, p: Ref, tid: Tid)
    requires tid !in s.threads && k == s.k.(procs := k.procs) && s.k.procs.Keys <= k.procs.Keys && p in k.procs && !Exited(k, p)
    requires forall r: Ref :: Team(k, r) == if r == p then Team(s.k, p) + {tid} else Team(s.k, r)
    requires forall r: Ref :: r != p ==> Exited(k, r) == Exited(s.k, r)
    requires forall r: Ref :: r in s.k.procs ==> Counter(k, r) == Counter(s.k, r)
    ensures Joins(s.threads, s.k, Publish(s, p, tid).threads, k, p, tid)
  {
  }

  /** A published thread disturbs neither the sleepers nor the kernel threads. */
  lemma KeepPublish(s: State, k: Kin, p: Ref, tid: Tid)
    requires Inv(s) && tid !in s.threads && p != s.k.mainP && k.mainP == s.k.mainP && k.dead == s.k.dead
    requires KinInv(k) && CrewInv(Publish(s, p, tid).threads, k) && SameWaits(s.k, k)
    ensures Inv(Publish(s, p, tid).(k := k))
  {
    var n := Publish(s, p, tid).(k := k);
    hide KinInv, CrewInv, SameWaits, WaitsOK;
    KeepNew(s, n, tid);
    hide LinkInv;
    WaitsFrame(s, n, {});
  }

  lemma ForkWaits(k: Kin, n: Kin, p: Ref, child: Ref, pid: Pid)
    requires KinInv(k) && ForkFits(k, p, child, pid) && Forked(k, n, p, child, pid)
    ensures SameWaits(k, n)
  {
    hide Id, Par, Code, Kid, Gone, Exited, GoneOK, Placed, CodesOK, Roots, Ids, Corpses;
    assert Kid(k, p, pid) == None;
    assert forall q: Ref, x: Pid :: Kid(k, q, x).Some? ==> Kid(k, q, x).value in k.procs;
  }

  lemma ForkTeams(k: Kin, p: Ref, tid: Tid, child: Ref, pid: Pid)
    requires ForkFits(k, p, child, pid)
    ensures var n := WithChild(k, p, tid, child, pid);
      && n == k.(procs := n.procs) && k.procs.Keys <= n.procs.Keys && child in n.procs && !Exited(n, child)
      && (forall r: Ref :: Team(n, r) == if r == child then Team(k, child) + {tid} else Team(k, r))
      && (forall r: Ref :: r != child ==> Exited(n, r) == Exited(k, r))
      && (forall r: Ref :: r in k.procs ==> Counter(n, r) == Counter(k, r))
  {
  }

  lemma KeepForkStep(s: State, p: Ref, tid: Tid, child: Ref, pid: Pid)
    requires Inv(s) && tid !in s.threads && ForkFits(s.k, p, child, pid)
    ensures Inv(Fork(s, p, tid, child, pid))
  {
    var k := WithChild(s.k, p, tid, child, pid);
    assert child != s.k.mainP;
    hide KinInv, CrewInv, WithChild, LinkInv, WaitsOK, Posts;
    ForkView(s.k, p, tid, child, pid);
    KeepFork(s.k, k, p, child, pid);
    ForkWaits(s.k, k, p, child, pid);
    ForkTeams(s.k, p, tid, child, pid);
    JoinView(s, k, child, tid);
    KeepJoin(s.threads, s.k, Publish(s, child, tid).threads, k, child, tid);
    hide SameWaits, Forked, Joins, ForkFits;
    KeepPublish(s, k, child, tid);
  }

  lemma SpawnTeams(k: Kin, p: Ref, tid: Tid)
    requires p in k.procs && !Exited(k, p)
    ensures var n := SetThreads(k, p, k.procs[p].threads + {tid});
      && n == k.(procs := n.procs) && k.procs.Keys == n.procs.Keys
      && (forall r: Ref :: Team(n, r) == if r == p then Team(k, p) + {tid} else Team(k, r))
      && (forall r: Ref :: Exited(n, r) == Exited(k, r) && Counter(n, r) == Counter(k, r))
  {
  }

  lemma SetThreadsKin(k: Kin, p: Ref, ts: set<Tid>)
    requires p in k.procs
    ensures SameKin(k, SetThreads(k, p, ts)) && SameWaits(k, SetThreads(k, p, ts))
  {
  }

  lemma KeepSpawnStep(s: State, p: Ref, tid: Tid)
    requires Inv(s) && tid !in s.threads && p in s.k.procs && !Exited(s.k, p) && p != s.k.mainP
    ensures Inv(NewThread(s, p, tid))
  {
    var k := SetThreads(s.k, p, s.k.procs[p].threads + {tid});
    hide KinInv, CrewInv, SetThreads, LinkInv, WaitsOK, Posts, SameKin, SameWaits, Exited;
    SetThreadsKin(s.k, p, s.k.procs[p].threads + {tid});
    KeepSameKin(s.k, k);
    SpawnTeams(s.k, p, tid);
    JoinView(s, k, p, tid);
    KeepJoin(s.threads, s.k, Publish(s, p, tid).threads, k, p, tid);
    hide Joins;
    KeepPublish(s, k, p, tid);
  }

  // ---------------------------------------------------------------- wait

  /** n is s after a turn of process_wait that left the current thread running. */
  ghost predicate TurnRuns(s: State, n: State, pc: Pc) {
    && n == s.(threads := n.threads, k := n.k) && s.current in s.threads
    && n.threads == s.threads[s.current := s.threads[s.current].(pc := pc)]
    && n.k.mainP == s.k.mainP && n.k.dead == s.k.dead
  }

  lemma RunParts(s: State, n: State, pc: Pc)
    requires Inv(s) && Acting(s) && TurnRuns(s, n, pc)
    ensures LinkInv(n) && Posts(n) && Owned(n) && KeysOK(n) && CleanOK(n)
    ensures forall t :: Sleeps(n.threads, t) ==> Sleeps(s.threads, t) && n.threads[t] == s.threads[t]
  {
    hide KinInv, CrewInv, WaitsOK;
    KeepSame(s, n);
  }

  /** How the tables of process p change when its counter does. */
  ghost predicate Recounted(k: Kin, n: Kin, p: Ref) {
    && p in k.procs && p in n.procs && n.procs.Keys == k.procs.Keys
    && (forall r: Ref :: Team(n, r) == Team(k, r) && Exited(n, r) == Exited(k, r) && (r != p ==> Counter(n, r) == Counter(k, r)))
  }

  lemma TurnView(s: State, th: Threads, k: Kin, p: Ref, c: Tcb)
    requires s.current in s.threads && s.threads[s.current].proc == Some(p) && s.threads[s.current].status != Dead
    requires th == s.threads[s.current := c] && c.status != Dead && c.proc == Some(p)
    requires Recounted(s.k, k, p) && Counter(k, p) + Weight(s.threads[s.current].pc) == Counter(s.k, p) + Weight(c.pc)
    ensures Turns(s.threads, s.k, th, k, p, s.current)
  {
    hide Team, Counter, Exited;
  }

  lemma RecountView(k: Kin, p: Ref, a: Pcb)
    requires p in k.procs && a == k.procs[p].(waiting := a.waiting)
    ensures var n := k.(procs := k.procs[p := a]); SameKin(k, n) && SameWaits(k, n) && Recounted(k, n, p) && Counter(n, p) == a.waiting
  {
  }

  /** process_wait returns -1. */
  lemma KeepWaitFails(s: State)
    requires Inv(s) && Acting(s) && (s.threads[s.current].pc == User || s.threads[s.current].pc.InWait?)
    ensures var o := WaitFails(s, Own(s), s.threads[s.current].pc.InWait?); o.Next? && Inv(o.s)
  {
    var p, t := Own(s), s.current;
    var counted := s.threads[t].pc.InWait?;
    if counted {
      assert IsWaiter(s.threads, p, t);
      CountedWaiter(s.threads, s.k, p, t);
    }
    var o := WaitFails(s, p, counted);
    var a := Uncount(s.k.procs[p], counted).value;
    hide KinInv, CrewInv, LinkInv, WaitsOK, Posts, Owned, SameKin, SameWaits, KeysOK, CleanOK;
    RecountView(s.k, p, a);
    hide Recounted;
    assert TurnRuns(s, o.s, User);
    RunParts(s, o.s, User);
    KeepSameKin(s.k, o.s.k);
    TurnView(s, o.s.threads, o.s.k, p, o.s.threads[t]);
    hide Turns, TurnRuns;
    KeepTurn(s.threads, s.k, o.s.threads, o.s.k, p, t);
    WaitsFrame(s, o.s, {});
  }

  /** The checks on a child found in the exited table: it is filed under its own id in both tables. */
  lemma FoundChild(k: Kin, p: Ref, x: Pid)
    requires KinInv(k) && p in k.procs && x in k.procs[p].gone
    ensures var c := k.procs[p].gone[x];
      && c in k.procs && k.procs[c].id == x && x in k.procs[p].children && k.procs[p].children[x] == c
      && k.procs[c].exited && c !in k.reports && Gone(k, p, Id(k, c)) == Some(c) && c in k.exits && k.exits[c] == k.procs[c].code
  {
    assert Gone(k, p, x) == Some(k.procs[p].gone[x]);
    assert Kid(k, p, x) == Gone(k, p, x);
  }

  /** p without child x, and with some counter. */
  ghost function Bereft(k: Kin, p: Ref, x: Pid, w: nat): Kin
    requires p in k.procs && x in k.procs[p].gone && k.procs[p].gone[x] in k.procs
  {
    var a, c := k.procs[p], k.procs[p].gone[x];
    k.(procs := k.procs[p := a.(gone := a.gone - {x}, children := a.children - {x}, waiting := w)], reports := k.reports[c := k.procs[c].code])
  }

  lemma BereftTables(k: Kin, p: Ref, x: Pid, w: nat, q: Ref, y: Pid)
    requires p in k.procs && x in k.procs[p].gone && k.procs[p].gone[x] in k.procs
    ensures var n := Bereft(k, p, x, w);
      && Kid(n, q, y) == (if q == p && y == x then None else Kid(k, q, y))
      && Gone(n, q, y) == (if q == p && y == x then None else Gone(k, q, y))
  {
  }

  lemma ReapView(k: Kin, p: Ref, x: Pid, w: nat)
    requires p in k.procs && x in k.procs[p].gone && k.procs[p].gone[x] in k.procs && k.procs[k.procs[p].gone[x]].id == x
    ensures var n, c := Bereft(k, p, x, w), k.procs[p].gone[x]; Reaped(k, n, p, c) && Recounted(k, n, p) && Counter(n, p) == w
  {
    var n, c := Bereft(k, p, x, w), k.procs[p].gone[x];
    assert Recounted(k, n, p) && Counter(n, p) == w;
    assert SameFaces(k, n) && SameLists(k, n) && n.reports == k.reports[c := Code(k, c)] && Id(k, c) == x;
    hide Id, Par, Code, Kid, Gone, Exited, Bereft, SameFaces, SameLists, Recounted;
    forall q: Ref, y: Pid
      ensures Kid(n, q, y) == if q == p && y == x then None else Kid(k, q, y)
      ensures Gone(n, q, y) == if q == p && y == x then None else Gone(k, q, y)
    {
      BereftTables(k, p, x, w, q, y);
    }
  }

  lemma MaySleepReap(k: Kin, n: Kin, p: Ref, c: Ref, o: Option<Ref>, x: Pid, at: Ref)
    requires KidsOK(k) && GoneOK(k) && c in k.procs && Gone(k, p, Id(k, c)) == Some(c) && Reaped(k, n, p, c) && MaySleep(k, o, x, at)
    ensures MaySleep(n, o, x, at)
  {
    hide Id, Par, Code, Kid, Gone, Exited;
    assert Kid(k, p, Id(k, c)) == Some(c) && Exited(k, c);
    if x == 0 {
      assert at != p;
      var y: Pid :| Kid(k, at, y).Some?;
      assert Kid(n, at, y).Some?;
    } else {
      assert at in k.procs;
    }
  }

  /** Nobody sleeps waiting for a child that has exited, so reaping disturbs no sleeper. */
  lemma ReapWaits(s: State, n: State, p: Ref, c: Ref)
    requires WaitsOK(s, {}) && KidsOK(s.k) && GoneOK(s.k) && c in s.k.procs && Gone(s.k, p, Id(s.k, c)) == Some(c) && Reaped(s.k, n.k, p, c)
    requires forall t :: Sleeps(n.threads, t) ==> Sleeps(s.threads, t) && n.threads[t] == s.threads[t]
    ensures WaitsOK(n, {})
  {
    hide MaySleep, Reaped, KidsOK, GoneOK;
    forall t | Sleeps(n.threads, t)
      ensures n.threads[t].crt == None && MaySleep(n.k, n.threads[t].proc, n.threads[t].pc.pid, n.threads[t].pc.at)
    {
      MaySleepReap(s.k, n.k, p, c, s.threads[t].proc, s.threads[t].pc.pid, s.threads[t].pc.at);
    }
  }

  /** process_wait collects an exited child: no Assert fails, and the code reported is the one the child exited with. */
  lemma KeepReapStep(s: State, x: Pid)
    requires Inv(s) && Acting(s) && (s.threads[s.current].pc == User || s.threads[s.current].pc.InWait?)
    requires x in s.k.procs[Own(s)].gone
    ensures var o := Reap(s, Own(s), x, s.threads[s.current].pc.InWait?);
      var c := s.k.procs[Own(s)].gone[x];
      && o.Next? && Inv(o.s) && c !in s.k.reports && c in s.k.exits && o.s.k.reports == s.k.reports[c := s.k.exits[c]]
  {
    var p, t := Own(s), s.current;
    var counted := s.threads[t].pc.InWait?;
    hide KinInv, CrewInv, LinkInv, WaitsOK, Posts, Owned, KeysOK, CleanOK, Reap, Bereft, TurnRuns;
    FoundChild(s.k, p, x);
    var c := s.k.procs[p].gone[x];
    WaiterCounted(s);
    var w := s.k.procs[p].waiting - Weight(s.threads[t].pc);
    ReapOutcome(s, p, x, counted, w);
    ReapRest(s, Reap(s, p, x, counted).s, p, x, w, c);
  }

  /** The Assert on the counter holds for a thread that is leaving process_wait. */
  lemma WaiterCounted(s: State)
    requires CrewInv(s.threads, s.k) && Acting(s)
    ensures s.k.procs[Own(s)].waiting >= Weight(s.threads[s.current].pc)
  {
    if s.threads[s.current].pc.InWait? {
      assert IsWaiter(s.threads, Own(s), s.current);
      CountedWaiter(s.threads, s.k, Own(s), s.current);
    }
  }

  lemma ReapOutcome(s: State, p: Ref, x: Pid, counted: bool, w: int)
    requires s.current in s.threads && p in s.k.procs && x in s.k.procs[p].gone && counted == s.threads[s.current].pc.InWait?
    requires var c := s.k.procs[p].gone[x]; c in s.k.procs && s.k.procs[c].id == x && x in s.k.procs[p].children && s.k.procs[p].children[x] == c
    requires w == s.k.procs[p].waiting - Weight(s.threads[s.current].pc) >= 0
    ensures var o, c := Reap(s, p, x, counted), s.k.procs[p].gone[x];
      && o.Next? && o.s.k == Bereft(s.k, p, x, w) && TurnRuns(s, o.s, Handing(c)) && o.s.k.reports == s.k.reports[c := s.k.procs[c].code]
  {
  }

  lemma ReapRest(s: State, n: State, p: Ref, x: Pid, w: nat, c: Ref)
    requires Inv(s) && Acting(s) && p == Own(s) && p in s.k.procs && x in s.k.procs[p].gone && c == s.k.procs[p].gone[x]
    requires c in s.k.procs && s.k.procs[c].id == x && Gone(s.k, p, Id(s.k, c)) == Some(c) && c !in s.k.reports
    requires n.k == Bereft(s.k, p, x, w) && TurnRuns(s, n, Handing(c))
    requires w + Weight(s.threads[s.current].pc) == s.k.procs[p].waiting
    ensures Inv(n)
  {
    var t := s.current;
    assert Counter(s.k, p) == s.k.procs[p].waiting;
    assert n.threads[t].pc == Handing(c) && PcOf(n.threads, t) == Handing(c) && n.k.dead == s.k.dead && n.k.clearing == s.k.clearing;
    assert n.k.reports.Keys == s.k.reports.Keys + {c};
    hide CrewInv, LinkInv, WaitsOK, Posts, Owned, KeysOK, CleanOK, Bereft;
    ReapView(s.k, p, x, w);
    RunParts(s, n, Handing(c));
    ReapWaits(s, n, p, c);
    hide Reaped, Recounted, Roots, Ids, KidsOK, GoneOK, Placed, CodesOK, Corpses, TurnRuns;
    KeepReap(s.k, n.k, p, c);
    TurnView(s, n.threads, n.k, p, n.threads[t]);
    KeepReapTurn(s.threads, s.k, n.threads, n.k, p, t, c);
  }

  /** What the current thread finds when process_wait decides to block. */
  ghost predicate MustBlock(a: Pcb, pid: Pid) {
    if pid == 0 then a.children != map[] && a.gone == map[] else pid in a.children && pid !in a.gone
  }

  lemma BlockReason(k: Kin, p: Ref, pid: Pid)
    requires KinInv(k) && p in k.procs && MustBlock(k.procs[p], pid)
    ensures MaySleep(k, Some(p), pid, if pid == 0 then p else k.procs[p].children[pid])
  {
    if pid == 0 {
      assert AnyPending(k, p) by {
        var y :| y in k.procs[p].children;
        assert Kid(k, p, y).Some?;
      }
    } else {
      assert Gone(k, p, pid) == None && Kid(k, p, pid) == Some(k.procs[p].children[pid]);
    }
  }

  /** n is s after the current thread went to sleep in process_wait. */
  ghost predicate FellAsleep(s: State, n: State, p: Ref, pid: Pid, at: Ref) {
    && s.current in s.threads && s.threads[s.current].crt == None
    && n.threads == s.threads[s.current := s.threads[s.current].(pc := InWait(pid, at), status := Waiting)]
    && n.idle == s.idle && n.clean == s.clean && n.current == s.current && n.keys == s.keys
    && n.k.mainP == s.k.mainP && n.k.dead == s.k.dead && n.k.clearing == s.k.clearing && n.k.reports == s.k.reports
    && (forall r :: r != Bed(InWait(pid, at)) ==> Q(n, r) == Q(s, r))
    && Q(n, Bed(InWait(pid, at))) == [s.current] + Q(s, Bed(InWait(pid, at)))
  }

  lemma SleepLinks(s: State, n: State, p: Ref, pid: Pid, at: Ref)
    requires LinkInv(s) && FellAsleep(s, n, p, pid, at) && s.threads[s.current].status == Running && s.current != s.idle
    ensures LinkInv(n)
  {
    var q := Bed(InWait(pid, at));
    assert QueueLinked(s, q);
    AddDistinct(Q(s, q), s.current);
    KeepMove(s, n, s.current);
  }

  lemma SleepRest(s: State, n: State, p: Ref, pid: Pid, at: Ref)
    requires Posts(s) && Owned(s) && KeysOK(s) && CleanOK(s) && FellAsleep(s, n, p, pid, at) && s.current != s.idle && s.current != s.clean
    requires s.threads[s.current].status == Running
    ensures Posts(n) && Owned(n) && KeysOK(n) && CleanOK(n)
  {
  }

  lemma SleepWaits(s: State, n: State, p: Ref, pid: Pid, at: Ref)
    requires WaitsOK(s, {}) && SameWaits(s.k, n.k) && FellAsleep(s, n, p, pid, at) && s.threads[s.current].proc == Some(p)
    requires MaySleep(s.k, Some(p), pid, at)
    ensures WaitsOK(n, {})
  {
    forall t | Sleeps(n.threads, t)
      ensures n.threads[t].crt == None && MaySleep(n.k, n.threads[t].proc, n.threads[t].pc.pid, n.threads[t].pc.at)
    {
      if t == s.current {
        MaySleepFrame(s.k, n.k, Some(p), pid, at);
      } else {
        assert Sleeps(s.threads, t) && n.threads[t] == s.threads[t];
        MaySleepFrame(s.k, n.k, s.threads[t].proc, s.threads[t].pc.pid, s.threads[t].pc.at);
      }
    }
  }

  /** process_wait goes to sleep for a reason that holds. */
  lemma KeepWaitBlocks(s: State, pid: Pid)
    requires Inv(s) && Acting(s) && (s.threads[s.current].pc == User || s.threads[s.current].pc.InWait?)
    requires MustBlock(s.k.procs[Own(s)], pid)
    ensures Inv(WaitBlocks(s, Own(s), pid, s.threads[s.current].pc.InWait?))
  {
    var p, t := Own(s), s.current;
    var counted := s.threads[t].pc.InWait?;
    var a := s.k.procs[p];
    var b := if counted then a else a.(waiting := a.waiting + 1);
    var at := if pid == 0 then p else a.children[pid];
    hide WaitBlocks, FellAsleep, LinkInv, CrewInv, KinInv, WaitsOK, MaySleep, Posts, CleanOK, KeysOK, Owned;
    OwnFacts(s);
    BlockReason(s.k, p, pid);
    FellView(s, p, pid, counted, b, at);
    SleepAll(s, WaitBlocks(s, p, pid, counted), p, pid, at, b);
  }

  lemma FellView(s: State, p: Ref, pid: Pid, counted: bool, b: Pcb, at: Ref)
    requires s.current in s.threads && p in s.k.procs && s.threads[s.current].crt == None && (pid == 0 || pid in s.k.procs[p].children)
    requires b == (if counted then s.k.procs[p] else s.k.procs[p].(waiting := s.k.procs[p].waiting + 1))
    requires at == if pid == 0 then p else s.k.procs[p].children[pid]
    ensures var n := WaitBlocks(s, p, pid, counted); n.k == s.k.(procs := s.k.procs[p := b]) && FellAsleep(s, n, p, pid, at)
  {
  }

  lemma SleepAll(s: State, n: State, p: Ref, pid: Pid, at: Ref, b: Pcb)
    requires Inv(s) && Acting(s) && p == Own(s) && MaySleep(s.k, Some(p), pid, at) && p in s.k.procs
    requires b == s.k.procs[p].(waiting := b.waiting) && n.k == s.k.(procs := s.k.procs[p := b]) && FellAsleep(s, n, p, pid, at)
    requires b.waiting + Weight(s.threads[s.current].pc) == s.k.procs[p].waiting + 1
    ensures Inv(n)
  {
    var t := s.current;
    assert n.threads[t].status == Waiting && n.threads[t].proc == Some(p) && n.threads[t].pc == InWait(pid, at) && PcOf(n.threads, t) == InWait(pid, at);
    assert Counter(s.k, p) == s.k.procs[p].waiting;
    hide KinInv, CrewInv, LinkInv, WaitsOK, Posts, Owned, SameKin, SameWaits, KeysOK, CleanOK, MaySleep;
    RecountView(s.k, p, b);
    SleepLinks(s, n, p, pid, at);
    SleepRest(s, n, p, pid, at);
    SleepWaits(s, n, p, pid, at);
    KeepSameKin(s.k, n.k);
    hide Recounted;
    TurnView(s, n.threads, n.k, p, n.threads[t]);
    hide Turns;
    KeepTurn(s.threads, s.k, n.threads, n.k, p, t);
  }

  /** The four ways a turn of process_wait can end. */
  lemma WaitCases(s: State, pid: Pid, first: Pid)
    requires Acting(s) && (s.k.procs[Own(s)].gone != map[] ==> first in s.k.procs[Own(s)].gone)
    ensures var p, counted, o := Own(s), s.threads[s.current].pc.InWait?, Wait(s, pid, first);
      var a := s.k.procs[p];
      || o == WaitFails(s, p, counted)
      || (pid in a.gone && o == Reap(s, p, pid, counted))
      || (first in a.gone && o == Reap(s, p, first, counted))
      || (MustBlock(a, pid) && o == Next(WaitBlocks(s, p, pid, counted)))
  {
  }

  /** One turn of process_wait, whatever it finds: no Assert fails and the invariant is kept. */
  lemma KeepWaitStep(s: State, pid: Pid, first: Pid)
    requires Inv(s) && Enabled(s, WaitStep(pid, first))
    ensures var o := Wait(s, pid, first); o.Next? && Inv(o.s)
  {
    var a := s.k.procs[Own(s)];
    hide Inv, WaitFails, Reap, WaitBlocks, Wait;
    WaitCases(s, pid, first);
    KeepWaitFails(s);
    if pid in a.gone {
      KeepReapStep(s, pid);
    }
    if first in a.gone {
      KeepReapStep(s, first);
    }
    if MustBlock(a, pid) {
      KeepWaitBlocks(s, pid);
    }
  }

  // ---------------------------------------------------------------- hand-over

  lemma HandView(s: State, n: State, c: Ref)
    requires Inv(s) && Acting(s) && s.threads[s.current].pc == Handing(c)
    requires n == SetPc(s, User).(k := s.k.(dead := s.k.dead + [c]))
    ensures LinkMid(n) && Posts(n) && Owned(n) && KeysOK(n) && CleanOKBut(n)
    ensures forall t :: Sleeps(n.threads, t) ==> Sleeps(s.threads, t) && n.threads[t] == s.threads[t]
    ensures n.current == s.current && n.threads[s.current].status == Running && n.idle == s.idle && n.clean == s.clean
    ensures PcOf(s.threads, s.current) == Handing(c) && PcOf(n.threads, s.current) == User
    ensures forall u: Tid :: (Alive(n.threads, u) <==> Alive(s.threads, u)) && Owner(n.threads, u) == Owner(s.threads, u)
    ensures forall u: Tid :: u != s.current ==> PcOf(n.threads, u) == PcOf(s.threads, u)
  {
    hide KinInv, CrewInv, WaitsOK;
    KeepSame(s, n);
  }

  /** add_dead_process: the child goes on the list and the clean thread is woken. */
  lemma KeepHandOverStep(s: State)
    requires Inv(s) && Acting(s) && s.threads[s.current].pc.Handing?
    ensures Inv(HandOver(s))
  {
    var c := s.threads[s.current].pc.child;
    var n := SetPc(s, User).(k := s.k.(dead := s.k.dead + [c]));
    var k := s.k.(dead := s.k.dead + [c]);
    assert n.k == k && HandOver(s) == Notify(n);
    hide KinInv, CrewInv, LinkInv, WaitsOK, Posts, Owned, SameWaits, KeysOK, CleanOK, SetPc, HandOver, Notify, LinkMid, Alive, Owner, PcOf;
    HandView(s, n, c);
    KeepHandOver(s.threads, s.k, n.threads, s.current, c);
    KeepListed(s.k, k, c);
    SameWaitsLists(s.k, n.k);
    WaitsFrame(s, n, {});
    KeepNotifyStep(n, {});
    MidToLink(Notify(n));
  }

  lemma MidToLink(s: State)
    requires LinkMid(s) && (s.current != s.idle ==> s.threads[s.current].status != Dead)
    ensures LinkInv(s)
  {
  }
}
