/** What killing costs: waiters that stay counted, and reaped children that nobody will destroy. */
module TaskLedger {
  import opened Wrappers
  import opened TaskSpec
  import opened TaskLink
  import opened TaskTree
  import opened TaskCrew
  import opened TaskInv
  import opened TaskSteps
  import opened TaskCalls
  import opened TaskExit
  import opened TaskExitTail
  import opened TaskRun

  // ---------------------------------------------------------------- the two accounts

  /** By how much waiting_threads_count of p exceeds the threads of p inside process_wait. */
  ghost function Excess(th: Threads, k: Kin, p: Ref): int { Counter(k, p) - |Waiters(th, p)| }

  /** c has been reaped and is neither destroyed nor listed for it. */
  ghost predicate Due(k: Kin, c: Ref) { c in k.procs && c in k.reports && c !in k.dead + k.clearing }

  /** A live thread has reaped c and will hand it over. */
  ghost predicate InHand(th: Threads, t: Tid, c: Ref) { Alive(th, t) && Carries(th, t, c) }

  /** c will never be destroyed. */
  ghost predicate Lost(th: Threads, k: Kin, c: Ref) {
    Due(k, c) && forall t: Tid :: !InHand(th, t, c)
  }

  /** An exited process has no counted waiter. */
  ghost predicate Zeroed(k: Kin) {
    forall p: Ref :: Exited(k, p) ==> Counter(k, p) == 0
  }

  // ---------------------------------------------------------------- steps that touch neither account

  ghost predicate SameBooks(th: Threads, k: Kin, th': Threads, n: Kin) {
    && (forall p: Ref, t: Tid :: IsWaiter(th', p, t) <==> IsWaiter(th, p, t))
    && (forall p: Ref :: Counter(n, p) == Counter(k, p))
    && (forall t: Tid, c: Ref :: InHand(th', t, c) <==> InHand(th, t, c))
    && (forall c: Ref :: Due(n, c) <==> Due(k, c))
    && (forall p: Ref :: Exited(n, p) ==> Exited(k, p) || Counter(k, p) == 0)
  }

  ghost predicate Even(th: Threads, k: Kin, th': Threads, n: Kin) {
    && (forall p: Ref :: Excess(th', n, p) == Excess(th, k, p))
    && (forall c: Ref :: Lost(th', n, c) <==> Lost(th, k, c))
    && (Zeroed(k) ==> Zeroed(n))
  }

  lemma BooksEven(th: Threads, k: Kin, th': Threads, n: Kin)
    requires SameBooks(th, k, th', n)
    ensures Even(th, k, th', n)
  {
    hide IsWaiter, Counter, InHand, Due, Exited;
    forall p: Ref ensures Excess(th', n, p) == Excess(th, k, p) {
      FewerWaiters(th, th', p);
      FewerWaiters(th', th, p);
    }
  }

  lemma BooksTwice(th: Threads, k: Kin, th1: Threads, k1: Kin, th2: Threads, k2: Kin)
    requires SameBooks(th, k, th1, k1) && SameBooks(th1, k1, th2, k2)
    ensures SameBooks(th, k, th2, k2)
  {
    hide IsWaiter, Counter, InHand, Due, Exited;
  }

  lemma CrewBooks(th: Threads, th': Threads, k: Kin)
    requires SameCrew(th, th')
    ensures SameBooks(th, k, th', k)
  {
    hide Alive, Owner, PcOf, Counter, Due, Exited;
  }

  lemma SchedBooks(s: State, n: State)
    requires OnlySched(s, n)
    ensures SameBooks(s.threads, s.k, n.threads, n.k)
  {
    SchedRest(s, n);
    hide OnlySched, SameCrew, SameBooks;
    CrewBooks(s.threads, n.threads, s.k);
  }

  lemma TeamBooks(th: Threads, k: Kin, n: Kin)
    requires SameTeams(k, n) && n.reports == k.reports
    ensures SameBooks(th, k, th, n)
  {
    hide Alive, Owner, PcOf, Team, Counter, Exited;
  }

  lemma JoinBooks(th: Threads, k: Kin, th': Threads, n: Kin, p: Ref, tid: Tid)
    requires Joins(th, k, th', n, p, tid) && forall r: Ref :: Counter(n, r) == Counter(k, r)
    requires forall c :: c in n.procs && c !in k.procs ==> c !in k.reports
    requires !Exited(n, p)
    ensures SameBooks(th, k, th', n)
  {
    hide Alive, Owner, PcOf, Team, Counter, Exited;
  }

  lemma LeaveBooks(th: Threads, k: Kin, th': Threads, n: Kin, p: Ref, t: Tid)
    requires Leaves(th, k, th', n, p, t) && PcOf(th, t) == User && Counter(k, p) == 0
    ensures SameBooks(th, k, th', n)
  {
    hide Alive, Owner, PcOf, Team, Counter, Exited;
  }

  lemma VanishBooks(th: Threads, th': Threads, k: Kin, t: Tid)
    requires Vanishes(th, th', t) && (Alive(th, t) ==> PcOf(th, t) == User)
    ensures SameBooks(th, k, th', k)
  {
    hide Alive, Owner, PcOf, Team, Counter, Exited;
  }

  lemma EvenTwice(th: Threads, k: Kin, th1: Threads, k1: Kin, th2: Threads, k2: Kin)
    requires Even(th, k, th1, k1) && Even(th1, k1, th2, k2)
    ensures Even(th, k, th2, k2)
  {
    hide Excess, Lost, Zeroed;
  }

  // ---------------------------------------------------------------- scheduling, keyboard, clean-up

  /** Neither account changes. */
  ghost predicate Quiet(s: State, n: State) { SameBooks(s.threads, s.k, n.threads, n.k) }

  lemma SwitchQuiet(s: State)
    requires Inv(s)
    ensures Quiet(s, Switch(s))
  {
    assert LinkMid(s) && s.threads[s.idle].status in {Running, Ready};
    hide Inv, LinkMid, Switch, OnlySched, SameBooks;
    SwitchView(s);
    SchedBooks(s, Switch(s));
  }

  lemma KeyQuiet(s: State, key: Key)
    requires Inv(s)
    ensures Quiet(s, KeyArrives(s, key))
  {
    assert LinkMid(s) && s.idle in s.threads;
    hide Inv, LinkMid, KeyArrives, OnlySched, SameBooks;
    QueueFacts(s, KbdQ);
    KeyView(s, key);
    SchedBooks(s, KeyArrives(s, key));
  }

  lemma BlockCrew(s: State, q: Queue, crt: Option<Queue>, front: bool)
    requires s.current in s.threads && s.threads[s.current].status == Running
    ensures SameCrew(s.threads, Block(s, q, crt, front).threads) && Block(s, q, crt, front).k == s.k
  {
  }

  lemma SameSelf(th: Threads)
    ensures SameCrew(th, th)
  {
  }

  lemma ReadQuiet(s: State)
    requires ActingOutside(s)
    ensures Quiet(s, ReadKey(s))
  {
    var s1 := s.(keys := AfterRead(s.keys));
    hide Block, SameCrew, SameBooks;
    BlockCrew(s1, KbdQ, Some(KbdQ), false);
    SameSelf(s.threads);
    CrewBooks(s.threads, ReadKey(s).threads, s.k);
  }

  lemma GrabBooks(th: Threads, k: Kin)
    requires k.clearing == []
    ensures SameBooks(th, k, th, k.(clearing := k.dead, dead := []))
  {
    var n := k.(clearing := k.dead, dead := []);
    assert n.dead + n.clearing == k.dead + k.clearing;
    assert forall p: Ref :: Counter(n, p) == Counter(k, p) && Exited(n, p) == Exited(k, p);
    hide IsWaiter, InHand, Counter, Exited;
  }

  lemma CleanQuiet(s: State)
    requires Cleaning(s) && s.k.clearing == []
    ensures Quiet(s, CleanTurn(s))
  {
    if HasDeadResource(s) {
      GrabView(s);
      hide CleanTurn, SameBooks;
      GrabBooks(s.threads, s.k);
    } else {
      hide Block, SameCrew, SameBooks;
      BlockCrew(s, CvQ, s.threads[s.current].crt, false);
      CrewBooks(s.threads, CleanTurn(s).threads, s.k);
    }
  }

  lemma DestroyThreadQuiet(s: State)
    requires Inv(s) && Q(s, ClearingQ) != []
    ensures Quiet(s, DestroyThread(s))
  {
    var n, t := DestroyThread(s), Q(s, ClearingQ)[0];
    KeepDestroyThread(s);
    hide LinkInv, DestroyThread, KinInv, CrewInv, WaitsOK, SameBooks, Vanishes;
    VanishView(s, n, t);
    assert !Alive(s.threads, t);
    VanishBooks(s.threads, n.threads, s.k, t);
  }

  lemma FreedBooks(th: Threads, k: Kin, n: Kin, c: Ref)
    requires Freed(k, n, c) && Zeroed(k) && Counter(n, c) == 0
    requires forall x :: x in k.dead + k.clearing ==> x == c || x in n.dead + n.clearing
    ensures SameBooks(th, k, th, n)
  {
    hide IsWaiter, InHand, Counter, Exited, Team;
  }

  lemma DestroyProcessQuiet(s: State)
    requires Inv(s) && s.k.clearing != [] && Zeroed(s.k)
    ensures Quiet(s, s.(k := Destroyed(s.k)))
  {
    var k, n, c := s.k, Destroyed(s.k), s.k.clearing[0];
    assert Counter(n, c) == 0;
    forall x | x in k.dead + k.clearing ensures x == c || x in n.dead + n.clearing {
      var i :| 0 <= i < |k.dead + k.clearing| && (k.dead + k.clearing)[i] == x;
      assert i < |k.dead| ==> (n.dead + n.clearing)[i] == x;
      assert i > |k.dead| ==> (n.dead + n.clearing)[i - 1] == x;
    }
    hide LinkInv, CrewInv, WaitsOK, SameBooks, Destroyed, Freed, Counter, Exited, SameWaits;
    KeepDestroyed(k);
    DestroyWaits(k);
    FreedView(k);
    FreedBooks(s.threads, k, n, c);
  }

  // ---------------------------------------------------------------- fork and spawn

  lemma ForkCounters(k: Kin, p: Ref, tid: Tid, child: Ref, pid: Pid)
    requires p in k.procs && child !in k.procs
    ensures var n := WithChild(k, p, tid, child, pid);
      (forall r: Ref :: Counter(n, r) == Counter(k, r)) && forall c :: c in n.procs && c !in k.procs ==> c == child
  {
  }

  lemma ForkQuiet(s: State, p: Ref, tid: Tid, child: Ref, pid: Pid)
    requires Inv(s) && tid !in s.threads && ForkFits(s.k, p, child, pid)
    ensures Quiet(s, Fork(s, p, tid, child, pid))
  {
    var k := WithChild(s.k, p, tid, child, pid);
    assert child !in s.k.reports by { assert CodesOK(s.k); }
    hide Inv, WithChild, SameBooks, Joins;
    ForkCounters(s.k, p, tid, child, pid);
    ForkTeams(s.k, p, tid, child, pid);
    JoinView(s, k, child, tid);
    JoinBooks(s.threads, s.k, Publish(s, child, tid).threads, k, child, tid);
  }

  lemma SpawnQuiet(s: State, p: Ref, tid: Tid)
    requires tid !in s.threads && p in s.k.procs && !Exited(s.k, p)
    ensures Quiet(s, NewThread(s, p, tid))
  {
    var k := SetThreads(s.k, p, s.k.procs[p].threads + {tid});
    hide SetThreads, SameBooks, Joins, Exited;
    SpawnTeams(s.k, p, tid);
    JoinView(s, k, p, tid);
    JoinBooks(s.threads, s.k, Publish(s, p, tid).threads, k, p, tid);
  }

  // ---------------------------------------------------------------- wait

  /** A turn that reaps nothing. */
  lemma TurnEven(th: Threads, k: Kin, th': Threads, n: Kin, p: Ref, t: Tid)
    requires Turns(th, k, th', n, p, t) && !PcOf(th, t).Handing? && !PcOf(th', t).Handing? && !Exited(k, p)
    requires n.dead == k.dead && n.clearing == k.clearing && n.reports == k.reports
    ensures Even(th, k, th', n)
  {
    TurnExcess(th, k, th', n, p, t);
    hide Alive, Owner, PcOf, Team, Counter, Exited, Excess;
    assert forall u: Tid, x: Ref :: InHand(th', u, x) <==> InHand(th, u, x);
    assert forall x: Ref :: Due(n, x) <==> Due(k, x);
    assert Zeroed(k) ==> Zeroed(n);
  }

  lemma TurnExcess(th: Threads, k: Kin, th': Threads, n: Kin, p: Ref, t: Tid)
    requires Turns(th, k, th', n, p, t)
    ensures forall r: Ref :: Excess(th', n, r) == Excess(th, k, r)
  {
    TurnWaiters(th, k, th', n, p, t);
    forall r: Ref ensures Excess(th', n, r) == Excess(th, k, r) {
      if r != p {
        hide Alive, Owner, PcOf, Team, Counter, Exited;
        FewerWaiters(th, th', r);
        FewerWaiters(th', th, r);
      }
    }
  }

  /** A turn that reaps c: it is due now, and in hand. */
  lemma ReapEven(th: Threads, k: Kin, th': Threads, n: Kin, p: Ref, t: Tid, c: Ref)
    requires Turns(th, k, th', n, p, t) && !PcOf(th, t).Handing? && PcOf(th', t) == Handing(c) && !Exited(k, p)
    requires n.dead == k.dead && n.clearing == k.clearing && n.reports.Keys == k.reports.Keys + {c} && c !in k.reports
    ensures Even(th, k, th', n)
  {
    TurnExcess(th, k, th', n, p, t);
    hide Owner, PcOf, Team, Counter, Exited, Excess, Alive;
    assert InHand(th', t, c);
    forall x: Ref ensures Lost(th', n, x) <==> Lost(th, k, x) {
      assert forall u: Tid :: u != t ==> (InHand(th', u, x) <==> InHand(th, u, x));
      assert !InHand(th, t, x) && (InHand(th', t, x) <==> x == c);
    }
  }

  /** A step that goes through leaves both accounts as they are. */
  ghost predicate Levels(s: State, o: Outcome) {
    o.Next? ==> Even(s.threads, s.k, o.s.threads, o.s.k)
  }

  lemma FailsEven(s: State)
    requires Inv(s) && Acting(s) && (s.threads[s.current].pc == User || s.threads[s.current].pc.InWait?)
    ensures Levels(s, WaitFails(s, Own(s), s.threads[s.current].pc.InWait?))
  {
    var p, t := Own(s), s.current;
    var counted := s.threads[t].pc.InWait?;
    OwnFacts(s);
    hide Inv;
    var o := WaitFails(s, p, counted);
    if o.Next? {
      var a := Uncount(s.k.procs[p], counted).value;
      RecountView(s.k, p, a);
      hide Recounted, SameKin, SameWaits, Exited, Even;
      TurnView(s, o.s.threads, o.s.k, p, o.s.threads[t]);
      assert PcOf(o.s.threads, t) == User;
      hide Turns;
      TurnEven(s.threads, s.k, o.s.threads, o.s.k, p, t);
    }
  }

  lemma BlocksEven(s: State, pid: Pid)
    requires Inv(s) && Acting(s) && (s.threads[s.current].pc == User || s.threads[s.current].pc.InWait?) && MustBlock(s.k.procs[Own(s)], pid)
    ensures Levels(s, Next(WaitBlocks(s, Own(s), pid, s.threads[s.current].pc.InWait?)))
  {
    var p, t := Own(s), s.current;
    var counted := s.threads[t].pc.InWait?;
    OwnFacts(s);
    hide Inv;
    var a := s.k.procs[p];
    var b := if counted then a else a.(waiting := a.waiting + 1);
    var at := if pid == 0 then p else a.children[pid];
    FellView(s, p, pid, counted, b, at);
    var n := WaitBlocks(s, p, pid, counted);
    hide WaitBlocks;
    RecountView(s.k, p, b);
    assert n.threads[t].pc == InWait(pid, at) && PcOf(n.threads, t) == InWait(pid, at) && n.threads[t].status == Waiting && n.threads[t].proc == Some(p);
    assert Counter(s.k, p) == a.waiting;
    hide Recounted, SameKin, SameWaits, Exited, Even;
    TurnView(s, n.threads, n.k, p, n.threads[t]);
    hide Turns;
    TurnEven(s.threads, s.k, n.threads, n.k, p, t);
  }

  lemma ReapsEven(s: State, x: Pid)
    requires Inv(s) && Acting(s) && (s.threads[s.current].pc == User || s.threads[s.current].pc.InWait?) && x in s.k.procs[Own(s)].gone
    ensures Levels(s, Reap(s, Own(s), x, s.threads[s.current].pc.InWait?))
  {
    var p, t := Own(s), s.current;
    var counted := s.threads[t].pc.InWait?;
    OwnFacts(s);
    FoundChild(s.k, p, x);
    WaiterCounted(s);
    hide Inv;
    var c := s.k.procs[p].gone[x];
    var w := s.k.procs[p].waiting - Weight(s.threads[t].pc);
    ReapOutcome(s, p, x, counted, w);
    var n := Reap(s, p, x, counted).s;
    assert n.threads[t].pc == Handing(c) && PcOf(n.threads, t) == Handing(c) && n.threads[t].status == Running && n.threads[t].proc == Some(p);
    assert Counter(s.k, p) == s.k.procs[p].waiting && n.k.dead == s.k.dead && n.k.clearing == s.k.clearing;
    assert n.k.reports.Keys == s.k.reports.Keys + {c};
    hide Reap, Bereft;
    ReapView(s.k, p, x, w);
    hide Recounted, Reaped, Exited, Even;
    TurnView(s, n.threads, n.k, p, n.threads[t]);
    hide Turns;
    ReapEven(s.threads, s.k, n.threads, n.k, p, t, c);
  }

  lemma WaitEven(s: State, pid: Pid, first: Pid)
    requires Inv(s) && Enabled(s, WaitStep(pid, first))
    ensures Levels(s, Wait(s, pid, first))
  {
    var a := s.k.procs[Own(s)];
    hide Inv, WaitFails, Reap, WaitBlocks, Wait, Levels;
    WaitCases(s, pid, first);
    FailsEven(s);
    if pid in a.gone {
      ReapsEven(s, pid);
    }
    if first in a.gone {
      ReapsEven(s, first);
    }
    if MustBlock(a, pid) {
      BlocksEven(s, pid);
    }
  }

  // ---------------------------------------------------------------- hand-over

  lemma HandEven(th: Threads, k: Kin, th': Threads, t: Tid, c: Ref)
    requires CarriedOK(th, k) && PcOf(th, t) == Handing(c) && PcOf(th', t) == User
    requires forall u: Tid :: (Alive(th', u) <==> Alive(th, u)) && Owner(th', u) == Owner(th, u) && (u != t ==> PcOf(th', u) == PcOf(th, u))
    requires Alive(th, t)
    ensures Even(th, k, th', k.(dead := k.dead + [c]))
  {
    var n := k.(dead := k.dead + [c]);
    assert forall p: Ref :: Counter(n, p) == Counter(k, p) && Exited(n, p) == Exited(k, p);
    hide Alive, Owner, PcOf, Counter, Exited;
    assert Carries(th, t, c);
    forall p: Ref ensures Excess(th', n, p) == Excess(th, k, p) {
      FewerWaiters(th, th', p);
      FewerWaiters(th', th, p);
    }
    assert forall x :: x in n.dead + n.clearing <==> x in k.dead + k.clearing || x == c;
    forall x: Ref ensures Lost(th', n, x) <==> Lost(th, k, x) {
      assert forall u: Tid :: u != t ==> (InHand(th', u, x) <==> InHand(th, u, x));
      assert !InHand(th', t, x) && (InHand(th, t, x) <==> x == c);
    }
  }

  lemma HandOverEven(s: State)
    requires Inv(s) && Acting(s) && s.threads[s.current].pc.Handing?
    ensures Even(s.threads, s.k, HandOver(s).threads, HandOver(s).k)
  {
    var c := s.threads[s.current].pc.child;
    var k := s.k.(dead := s.k.dead + [c]);
    var n := SetPc(s, User).(k := k);
    assert HandOver(s) == Notify(n) && n.k == k && Alive(s.threads, s.current) && CarriedOK(s.threads, s.k);
    hide SetPc, HandOver, Notify, Even, SameBooks, Alive, Owner, PcOf, CarriedOK, OnlySched;
    HandView(s, n, c);
    hide Inv, LinkMid, Posts, Owned, KeysOK;
    HandEven(s.threads, s.k, n.threads, s.current, c);
    QueueFacts(n, CvQ);
    NotifyView(n);
    SchedBooks(n, Notify(n));
    BooksEven(n.threads, n.k, Notify(n).threads, Notify(n).k);
    EvenTwice(s.threads, s.k, n.threads, n.k, Notify(n).threads, Notify(n).k);
  }

  // ---------------------------------------------------------------- exit, behind the killing

  lemma DieQuiet(s: State)
    requires s.current in s.threads && s.threads[s.current].pc == User && s.threads[s.current].proc.None?
    ensures Quiet(s, ToDead(s, s.current))
  {
    var n := ToDead(s, s.current);
    assert Vanishes(s.threads, n.threads, s.current) && PcOf(s.threads, s.current) == User;
    hide ToDead, Vanishes, SameBooks;
    VanishBooks(s.threads, n.threads, s.k, s.current);
    assert n.k == s.k by { SchedKin(s, ReadyQ); }
  }

  lemma MarkQuiet(s: State, n: State, p: Ref, parent: Ref, code: int)
    requires Marks(s, n, p, parent, code) && p != parent && Alone(s, p) && s.k.procs[p].waiting == 0
    ensures Quiet(s, n)
  {
    MarkTeams(s, n, p, parent, code);
    hide Leaves, Marks, SameBooks;
    LeaveBooks(s.threads, s.k, n.threads, n.k, p, s.current);
  }

  lemma ReparentQuiet(s: State, p: Ref)
    requires p in s.k.procs
    ensures Quiet(s, s.(k := Reparent(s.k, p)))
  {
    ReparentTeams(s.k, p);
    ReparentKeeps(s.k, p);
    hide Reparent, SameTeams, SameBooks;
    TeamBooks(s.threads, s.k, Reparent(s.k, p));
  }

  lemma QuietTwice(s: State, m: State, n: State)
    requires Quiet(s, m) && Quiet(m, n)
    ensures Quiet(s, n)
  {
    BooksTwice(s.threads, s.k, m.threads, m.k, n.threads, n.k);
  }

  lemma WokeQuiet(s: State, n: State, q: Queue)
    requires Woke(s, n, q)
    ensures Quiet(s, n) && n.k == s.k
  {
    SchedRest(s, n);
    hide SameBooks, OnlySched;
    SchedBooks(s, n);
  }

  lemma NotifyQuiet(s: State)
    requires LinkMid(s) && CleanOKBut(s)
    ensures Quiet(s, Notify(s))
  {
    hide LinkMid, Notify, SameBooks, OnlySched;
    QueueFacts(s, CvQ);
    NotifyView(s);
    SchedBooks(s, Notify(s));
  }

  lemma LastSwitchQuiet(s: State)
    requires LinkMid(s) && s.current in s.threads && s.idle in s.threads && s.threads[s.idle].status in {Running, Ready}
    ensures Quiet(s, Switch(s))
  {
    MidNames(s);
    hide LinkMid, Switch, SameBooks, OnlySched;
    SwitchView(s);
    SchedBooks(s, Switch(s));
  }

  /** schedule_thread_exit. */
  lemma DepartQuiet(s: State)
    requires Sound(s, {}) && OwnedBut(s, s.current) && s.current != s.idle && s.current != s.clean
    requires s.threads[s.current].status == Running && s.threads[s.current].proc.None? && s.threads[s.current].pc == User
    ensures s.current in s.threads
    ensures var m := Notify(ToDead(s, s.current)); m.current in m.threads && m.idle in m.threads && Quiet(s, Switch(m))
  {
    var n := ToDead(s, s.current);
    hide KinInv, CrewInv, WaitsOK, LinkMid, Posts, KeysOK, CleanOK, OwnedBut, ToDead, Vanishes, CleanOKBut, Notify, Owned, Switch, Quiet;
    MidNames(s);
    DieQuiet(s);
    KeepDie(s);
    DieView(s, n);
    NotifyQuiet(n);
    KeepVanish(s.threads, n.threads, s.k, s.current);
    SameWaitsLists(s.k, n.k);
    WaitsFrame(s, n, {});
    KeepNotifyStep(n, {});
    IdleAwake(Notify(n));
    MidNames(Notify(n));
    LastSwitchQuiet(Notify(n));
    QuietTwice(s, n, Notify(n));
    QuietTwice(s, Notify(n), Switch(Notify(n)));
  }

  /** From the marking on. */
  lemma EndQuiet(s4: State, p: Ref, parent: Ref)
    requires Sound(s4, {ExitWaitQ(p), AnyWaitQ(parent)}) && OwnedBut(s4, s4.current) && s4.current != s4.idle && s4.current != s4.clean
    requires s4.threads[s4.current].status == Running && s4.threads[s4.current].proc.None? && s4.threads[s4.current].pc == User
    ensures var s6 := WakeAll(WakeAll(s4, ExitWaitQ(p)), AnyWaitQ(parent));
      s6.current in s6.threads
      && var m := Notify(ToDead(s6, s6.current)); m.current in m.threads && m.idle in m.threads && Quiet(s4, Switch(m))
  {
    hide LinkMid, OwnedBut, Core, KeysOK, CleanOK, Targets, WakeAll, ToDead, Notify, Switch, Inv, Woke, Quiet;
    var e, a := ExitWaitQ(p), AnyWaitQ(parent);
    var s5 := WakeAll(s4, e);
    WakeWhileExiting(s4, s5, e, {e, a});
    WokeQuiet(s4, s5, e);
    assert {e, a} - {e} == {a};
    var s6 := WakeAll(s5, a);
    WakeWhileExiting(s5, s6, a, {a});
    WokeQuiet(s5, s6, a);
    assert {a} - {a} == {};
    MidNames(s6);
    DepartQuiet(s6);
    QuietTwice(s4, s5, s6);
    QuietTwice(s4, s6, Switch(Notify(ToDead(s6, s6.current))));
  }

  lemma AloneUser(s: State, p: Ref)
    requires Alone(s, p)
    ensures s.current in s.threads && s.threads[s.current].pc == User && p in s.k.procs
    ensures s.threads[s.current].status == Running && s.current != s.idle
  {
  }

  lemma ExitTailQuiet(s: State, p: Ref, parent: Ref, code: int)
    requires Inv(s) && Alone(s, p) && Leaving(s.k, p, parent) && Counter(s.k, p) == 0
    ensures var o := ExitTail(s, p, parent, code); o.Next? && Quiet(s, o.s)
  {
    hide KinInv, CrewInv, LinkInv, LinkMid, WaitsOK, Reparent, Leaving, Alone, Posts, KeysOK, CleanOK, Owned, OwnedBut, Core, Targets, WakeAll, MarkExit, ToDead, Notify, Switch, Inv, Woke, Quiet;
    KeepExitTail(s, p, parent, code);
    ExitNames(s, p, parent);
    var s2 := s.(k := Reparent(s.k, p));
    KeepReparentStep(s, s2, p, parent);
    ReparentQuiet(s, p);
    AloneUser(s2, p);
    var q := AnyWaitQ(s2.k.initP);
    var s3 := WakeAll(s2, q);
    WakeWhileExiting(s2, s3, q, {q});
    WokeQuiet(s2, s3, q);
    assert {q} - {q} == {};
    WokeAlone(s2, s3, q, p);
    AloneUser(s3, p);
    LeavingNames(s3.k, p, parent);
    var s4 := Orphan(s3, s3.current).(k := MarkExit(s3.k, p, parent, code, s3.current));
    KeepMarkStep(s3, s4, p, parent, code);
    QuietTwice(s, s2, s3);
    assert s3.k.procs[p].waiting == 0 by { QuietCounter(s, s3, p); }
    MarkQuiet(s3, s4, p, parent, code);
    EndQuiet(s4, p, parent);
    QuietTwice(s, s3, s4);
    QuietTwice(s, s4, ExitTail(s, p, parent, code).s);
  }

  lemma QuietCounter(s: State, n: State, p: Ref)
    requires Quiet(s, n) && Counter(s.k, p) == 0 && p in n.k.procs
    ensures n.k.procs[p].waiting == 0
  {
    assert Counter(n.k, p) == 0;
  }

  // ---------------------------------------------------------------- killing

  /** The threads a step kills, besides the current one. */
  ghost function Doomed(a: Step): set<Tid> {
    if a.ExecStep? || a.ExitStep? then Elems(a.order) else {}
  }

  /** How many threads of p the step kills inside process_wait. */
  ghost function Drain(s: State, a: Step, p: Ref): nat { |Waiters(s.threads, p) * Doomed(a)| }

  /** The step kills the thread that has reaped c and not handed it over. */
  ghost predicate KillsReaper(s: State, a: Step, c: Ref) {
    exists t :: t in Doomed(a) && Carries(s.threads, t, c)
  }

  /** How the accounts change when the threads in ts die. */
  ghost predicate Paid(th: Threads, k: Kin, th': Threads, n: Kin, ts: set<Tid>) {
    && (forall q: Ref :: Excess(th', n, q) == Excess(th, k, q) + |Waiters(th, q) * ts|)
    && (forall c: Ref :: Lost(th', n, c) <==> Lost(th, k, c) || exists t :: t in ts && Carries(th, t, c))
    && (Zeroed(k) ==> Zeroed(n))
  }

  lemma SplitSize(a: set<Tid>, b: set<Tid>)
    ensures |a| == |a * b| + |a - b|
  {
    assert a == a * b + (a - b);
  }

  lemma DeathExcess(th: Threads, k: Kin, th': Threads, n: Kin, p: Ref, ts: set<Tid>, q: Ref)
    requires Dies(th, k, th', n, p, ts) && forall t :: t in ts ==> Alive(th, t)
    ensures Excess(th', n, q) == Excess(th, k, q) + |Waiters(th, q) * ts|
  {
    hide Alive, Owner, PcOf, Team, Counter, Exited;
    assert forall t: Tid :: IsWaiter(th', q, t) <==> IsWaiter(th, q, t) && t !in ts;
    var a, b := Waiters(th, q), Waiters(th', q);
    assert b == a - ts by {
      hide IsWaiter;
      WaiterSet(th, q);
      WaiterSet(th', q);
    }
    SplitSize(a, ts);
  }

  lemma WaiterSet(th: Threads, p: Ref)
    ensures forall t: Tid :: t in Waiters(th, p) <==> IsWaiter(th, p, t)
  {
  }

  lemma DeathLost(th: Threads, k: Kin, th': Threads, n: Kin, p: Ref, ts: set<Tid>)
    requires CarriedOK(th, k) && Dies(th, k, th', n, p, ts) && forall t :: t in ts ==> Alive(th, t)
    ensures forall c: Ref :: Lost(th', n, c) <==> Lost(th, k, c) || exists t :: t in ts && Carries(th, t, c)
  {
    hide Alive, Owner, PcOf, Team, Counter, Exited;
    forall c: Ref ensures Lost(th', n, c) <==> Lost(th, k, c) || exists t :: t in ts && Carries(th, t, c) {
      assert forall t: Tid :: InHand(th', t, c) <==> InHand(th, t, c) && t !in ts;
      assert Due(n, c) <==> Due(k, c);
      if t :| t in ts && Carries(th, t, c) {
        assert Due(k, c);
        assert forall u: Tid :: Carries(th, u, c) ==> u == t;
      }
    }
  }

  lemma DeathPaid(th: Threads, k: Kin, th': Threads, n: Kin, p: Ref, ts: set<Tid>)
    requires CarriedOK(th, k) && Dies(th, k, th', n, p, ts) && forall t :: t in ts ==> Alive(th, t)
    ensures Paid(th, k, th', n, ts)
  {
    hide Dies, Excess, Lost, Waiters, Alive, Carries, Zeroed, CarriedOK;
    forall q: Ref ensures Excess(th', n, q) == Excess(th, k, q) + |Waiters(th, q) * ts| {
      DeathExcess(th, k, th', n, p, ts, q);
    }
    DeathLost(th, k, th', n, p, ts);
    DeathZeroed(th, k, th', n, p, ts);
  }

  lemma DeathZeroed(th: Threads, k: Kin, th': Threads, n: Kin, p: Ref, ts: set<Tid>)
    requires Dies(th, k, th', n, p, ts)
    ensures Zeroed(k) ==> Zeroed(n)
  {
    hide Alive, Owner, PcOf, Counter, Exited;
  }

  lemma TeamDeath(s: State, m: State, p: Ref)
    requires CrewInv(s.threads, s.k) && p in s.k.procs && s.current in Team(s.k, p) && Killed(s, m, Team(s.k, p) - {s.current})
    ensures Dies(s.threads, s.k, m.threads, SetThreads(s.k, p, {s.current}), p, Team(s.k, p) - {s.current})
    ensures forall t :: t in Team(s.k, p) ==> Alive(s.threads, t)
  {
    KilledNames(s, m, Team(s.k, p) - {s.current});
    hide CrewInv, Killed, Dies;
    forall t: Tid | t in Team(s.k, p) ensures Owner(s.threads, t) == Some(p) && Alive(s.threads, t) {
      TeamFacts(s, p, t);
    }
    DeathView(s, m, p, s.current);
  }

  lemma KillPaid(s: State, order: seq<Tid>)
    requires Inv(s) && Acting(s) && Lists(order, s, Own(s))
    ensures var o := KillOthers(s, Own(s), order); o.Next? ==> Paid(s.threads, s.k, o.s.threads, o.s.k, Elems(order))
  {
    var p := Own(s);
    assert CrewInv(s.threads, s.k) && CarriedOK(s.threads, s.k);
    hide Inv, KillMid, Victim, SetThreads, Acting, Killed, CrewInv, CarriedOK, KillAll, Dies, Paid, Lists;
    Victims(s, order);
    OwnFacts(s);
    InvKillMid(s);
    KeepKillAll(s, order);
    var m := KillAll(s, order);
    if m.Next? {
      KilledNames(s, m.s, Elems(order));
      TeamDeath(s, m.s, p);
      DeathPaid(s.threads, s.k, m.s.threads, SetThreads(s.k, p, {s.current}), p, Elems(order));
    }
  }

  lemma PaidThenEven(th: Threads, k: Kin, th1: Threads, k1: Kin, th2: Threads, k2: Kin, ts: set<Tid>)
    requires Paid(th, k, th1, k1, ts) && Even(th1, k1, th2, k2)
    ensures Paid(th, k, th2, k2, ts)
  {
    hide Excess, Lost, Zeroed, Carries, Waiters;
  }

  lemma EvenPaid(th: Threads, k: Kin, th': Threads, n: Kin)
    requires Even(th, k, th', n)
    ensures Paid(th, k, th', n, {})
  {
    assert forall q: Ref :: Waiters(th, q) * {} == {};
    hide Excess, Lost, Zeroed, Carries, Waiters;
  }

  lemma QuietPaid(s: State, n: State)
    requires Quiet(s, n)
    ensures Paid(s.threads, s.k, n.threads, n.k, {})
  {
    hide SameBooks, Even, Paid;
    BooksEven(s.threads, s.k, n.threads, n.k);
    EvenPaid(s.threads, s.k, n.threads, n.k);
  }

  // ---------------------------------------------------------------- every step

  /** What step a of s, if it goes through, does to the accounts. */
  ghost predicate Settles(s: State, a: Step, o: Outcome) {
    o.Next? ==> Paid(s.threads, s.k, o.s.threads, o.s.k, Doomed(a))
  }

  lemma TailPaid(s: State, m: State, p: Ref, parent: Ref, code: int, ts: set<Tid>)
    requires Inv(m) && Alone(m, p) && Leaving(m.k, p, parent) && Counter(m.k, p) == 0
    requires Paid(s.threads, s.k, m.threads, m.k, ts)
    ensures var o := ExitTail(m, p, parent, code); o.Next? ==> Paid(s.threads, s.k, o.s.threads, o.s.k, ts)
  {
    hide Inv, Alone, Leaving, Counter, Paid, ExitTail, SameBooks, Even;
    ExitTailQuiet(m, p, parent, code);
    var n := ExitTail(m, p, parent, code).s;
    BooksEven(m.threads, m.k, n.threads, n.k);
    PaidThenEven(s.threads, s.k, m.threads, m.k, n.threads, n.k, ts);
  }

  lemma SelfQuiet(s: State)
    ensures Quiet(s, s)
  {
  }

  lemma NobodyElse(s: State, p: Ref, order: seq<Tid>)
    requires p in s.k.procs && s.current in s.k.procs[p].threads && |s.k.procs[p].threads| <= 1 && Lists(order, s, p)
    ensures Elems(order) == {}
  {
    OneThread(s.k, p, s.current);
  }

  lemma LoneTailPaid(s: State, p: Ref, parent: Ref, code: int, order: seq<Tid>)
    requires Inv(s) && ActingOutside(s) && Own(s) == p && s.k.procs[p].waiting == 0 && |s.k.procs[p].threads| <= 1 && Lists(order, s, p)
    requires Leaving(s.k, p, parent)
    ensures var o := ExitTail(s, p, parent, code); o.Next? ==> Paid(s.threads, s.k, o.s.threads, o.s.k, Elems(order))
  {
    hide Inv, Leaving, ExitTail, Alone, Lists, Paid, SameBooks;
    OwnFacts(s);
    NobodyElse(s, p, order);
    ExitAlone(s, p);
    SelfQuiet(s);
    QuietPaid(s, s);
    TailPaid(s, s, p, parent, code, Elems(order));
  }

  lemma KillTailPaid(s: State, p: Ref, parent: Ref, code: int, order: seq<Tid>)
    requires Inv(s) && ActingOutside(s) && Own(s) == p && s.k.procs[p].waiting == 0 && Lists(order, s, p)
    requires s.k.procs[p].parent == Some(parent) && Leaving(s.k, p, parent)
    ensures var o := KillOthers(s, p, order);
      var e := if o.Next? then ExitTail(o.s, p, parent, code) else o; e.Next? ==> Paid(s.threads, s.k, e.s.threads, e.s.k, Elems(order))
  {
    hide Inv, Leaving, ExitTail, KillOthers, Alone, Lists, NoQueue, Paid, SameKin;
    KillPaid(s, order);
    KilledIn(s, p, order);
    KeepKillOthers(s, order);
    var o := KillOthers(s, p, order);
    if o.Next? {
      TailPaid(s, o.s, p, parent, code, Elems(order));
    }
  }

  lemma ExitSettles(s: State, code: int, order: seq<Tid>)
    requires Inv(s) && ActingOutside(s) && Lists(order, s, Own(s))
    ensures Settles(s, ExitStep(code, order), Exit(s, code, order))
  {
    var p := Own(s);
    hide Inv, Leaving, ExitTail, KillOthers, Alone, Exit, Lists, NoQueue, Paid, SameBooks, SameKin;
    InvNames(s);
    OwnFacts(s);
    ExitIs(s, p, code, order);
    if p != s.k.initP && s.k.procs[p].waiting == 0 {
      ExitLeaving(s, p);
      var parent := s.k.procs[p].parent.value;
      if |s.k.procs[p].threads| > 1 {
        KillTailPaid(s, p, parent, code, order);
      } else {
        LoneTailPaid(s, p, parent, code, order);
      }
    }
  }

  lemma WaitSettles(s: State, pid: Pid, first: Pid)
    requires Inv(s) && Enabled(s, WaitStep(pid, first))
    ensures Settles(s, WaitStep(pid, first), Wait(s, pid, first))
  {
    hide Inv, Wait, Even, Paid;
    WaitEven(s, pid, first);
    var o := Wait(s, pid, first);
    if o.Next? {
      EvenPaid(s.threads, s.k, o.s.threads, o.s.k);
    }
  }

  lemma HandSettles(s: State)
    requires Inv(s) && Acting(s) && s.threads[s.current].pc.Handing?
    ensures Settles(s, HandOverStep, Next(HandOver(s)))
  {
    hide Inv, HandOver, Even, Paid;
    HandOverEven(s);
    EvenPaid(s.threads, s.k, HandOver(s).threads, HandOver(s).k);
  }

  lemma PollQuiet(s: State)
    ensures Quiet(s, if s.keys == [] then s else s.(keys := s.keys[1..]))
  {
  }

  /** The steps that touch neither account. */
  lemma OthersQuiet(s: State, a: Step)
    requires Inv(s) && Enabled(s, a) && Zeroed(s.k) && !a.WaitStep? && !a.ExitStep? && !a.ExecStep? && !a.HandOverStep?
    ensures s.current in s.threads && s.idle in s.threads && Take(s, a).Next? && Quiet(s, Take(s, a).s)
  {
    InvNames(s);
    hide Inv, SameBooks, Zeroed, Switch, KeyArrives, ReadKey, CleanTurn, DestroyThread, Destroyed, Fork, NewThread;
    match a {
      case Reschedule => SwitchQuiet(s);
      case KeyEvent(key) => KeyQuiet(s, key);
      case ReadKeyTurn => ReadQuiet(s);
      case PollKey => PollQuiet(s);
      case CleanThreadTurn => CleanQuiet(s);
      case CleanThread => DestroyThreadQuiet(s);
      case CleanProcess => DestroyProcessQuiet(s);
      case ForkStep(tid, child, pid) =>
        OwnFacts(s);
        ForkQuiet(s, Own(s), tid, child, pid);
      case SpawnStep(tid) =>
        OwnFacts(s);
        SpawnQuiet(s, Own(s), tid);
    }
  }

  lemma TakeHand(s: State, a: Step)
    requires s.current in s.threads && s.idle in s.threads && Enabled(s, a) && a.HandOverStep?
    ensures Take(s, a) == Next(HandOver(s)) && Acting(s) && s.threads[s.current].pc.Handing?
  {
  }

  /** Each step raises the counters' excess by the waiters it kills, and loses exactly the children whose reapers it kills. */
  lemma StepSettles(s: State, a: Step)
    requires Inv(s) && Enabled(s, a) && Zeroed(s.k)
    ensures s.current in s.threads && s.idle in s.threads && Settles(s, a, Take(s, a))
  {
    InvNames(s);
    hide Inv, Wait, Exit, KillOthers, HandOver, Take, Lists, Paid, SameBooks, Zeroed;
    TakeCalls(s, a);
    if a.WaitStep? {
      WaitSettles(s, a.pid, a.first);
    } else if a.ExitStep? {
      ExitSettles(s, a.code, a.order);
    } else if a.ExecStep? {
      KillPaid(s, a.order);
    } else if a.HandOverStep? {
      TakeHand(s, a);
      HandSettles(s);
    } else {
      OthersQuiet(s, a);
      QuietPaid(s, Take(s, a).s);
    }
  }

  // ---------------------------------------------------------------- whole runs

  /** Threads of p killed inside process_wait by the first i steps. */
  ghost function Drained(ss: seq<State>, steps: seq<Step>, p: Ref, i: nat): nat
    requires |ss| == |steps| + 1 && i < |ss|
  {
    if i == 0 then 0 else Drained(ss, steps, p, i - 1) + Drain(ss[i - 1], steps[i - 1], p)
  }

  lemma BootBooks(mainP: Ref, initP: Ref, p: Ref, c: Ref)
    ensures var s := Boot(mainP, initP); Zeroed(s.k) && Excess(s.threads, s.k, p) == 0 && !Lost(s.threads, s.k, c)
  {
    var s := Boot(mainP, initP);
    assert Waiters(s.threads, p) == {};
  }

  /** After i steps of a run, both accounts are exactly what the killings so far make them. */
  lemma {:induction false} RunSettles(ss: seq<State>, steps: seq<Step>, mainP: Ref, initP: Ref, i: nat, p: Ref, c: Ref)
    requires IsRun(ss, steps) && mainP != initP && ss[0] == Boot(mainP, initP) && i < |ss|
    ensures Zeroed(ss[i].k) && Counter(ss[i].k, p) == |Waiters(ss[i].threads, p)| + Drained(ss, steps, p, i)
    ensures Lost(ss[i].threads, ss[i].k, c) <==> exists j :: 0 <= j < i && KillsReaper(ss[j], steps[j], c)
  {
    hide Inv, Take, Enabled, Zeroed, Lost, Waiters, Counter;
    if i == 0 {
      BootBooks(mainP, initP, p, c);
    } else {
      RunSettles(ss, steps, mainP, initP, i - 1, p, c);
      RunSafe(ss, steps, mainP, initP, i - 1);
      StepSettles(ss[i - 1], steps[i - 1]);
      hide Doomed;
      assert Lost(ss[i].threads, ss[i].k, c) <==> Lost(ss[i - 1].threads, ss[i - 1].k, c) || KillsReaper(ss[i - 1], steps[i - 1], c);
    }
  }

  lemma {:induction false} DrainedIff(ss: seq<State>, steps: seq<Step>, p: Ref, i: nat)
    requires |ss| == |steps| + 1 && i < |ss|
    ensures Drained(ss, steps, p, i) == 0 <==> forall j :: 0 <= j < i ==> Drain(ss[j], steps[j], p) == 0
  {
    hide Drain;
    if i > 0 {
      DrainedIff(ss, steps, p, i - 1);
    }
  }

  /** waiting_threads_count of p is the number of its threads inside process_wait exactly when none of them has been killed there. */
  lemma CountsExactIff(ss: seq<State>, steps: seq<Step>, mainP: Ref, initP: Ref, i: nat, p: Ref)
    requires IsRun(ss, steps) && mainP != initP && ss[0] == Boot(mainP, initP) && i < |ss|
    ensures Counter(ss[i].k, p) == |Waiters(ss[i].threads, p)| <==> forall j :: 0 <= j < i ==> Drain(ss[j], steps[j], p) == 0
  {
    hide Take, Enabled, Drain, Waiters, Counter;
    RunSettles(ss, steps, mainP, initP, i, p, p);
    DrainedIff(ss, steps, p, i);
  }

  /** A reaped process that still exists is listed for destruction or in a live thread's hands exactly when no step has killed its reaper. */
  lemma NothingLostIff(ss: seq<State>, steps: seq<Step>, mainP: Ref, initP: Ref, i: nat, c: Ref)
    requires IsRun(ss, steps) && mainP != initP && ss[0] == Boot(mainP, initP) && i < |ss|
    requires c in ss[i].k.procs && c in ss[i].k.reports
    ensures c in ss[i].k.dead + ss[i].k.clearing || (exists t :: Alive(ss[i].threads, t) && Carries(ss[i].threads, t, c))
       <==> forall j :: 0 <= j < i ==> !KillsReaper(ss[j], steps[j], c)
  {
    hide Take, Enabled, KillsReaper, Alive, Carries;
    RunSettles(ss, steps, mainP, initP, i, c, c);
    assert forall t: Tid :: InHand(ss[i].threads, t, c) <==> Alive(ss[i].threads, t) && Carries(ss[i].threads, t, c);
  }

  /** A lost process stays lost: it is never destroyed. */
  lemma LostStays(ss: seq<State>, steps: seq<Step>, mainP: Ref, initP: Ref, i: nat, j: nat, c: Ref)
    requires IsRun(ss, steps) && mainP != initP && ss[0] == Boot(mainP, initP) && i <= j < |ss| && Lost(ss[i].threads, ss[i].k, c)
    ensures Lost(ss[j].threads, ss[j].k, c) && c in ss[j].k.procs
  {
    hide Take, Enabled, KillsReaper, Alive, Carries;
    RunSettles(ss, steps, mainP, initP, i, c, c);
    RunSettles(ss, steps, mainP, initP, j, c, c);
  }

  lemma {:induction false} DrainedGrows(ss: seq<State>, steps: seq<Step>, p: Ref, i: nat, j: nat)
    requires |ss| == |steps| + 1 && i <= j < |ss|
    ensures Drained(ss, steps, p, i) <= Drained(ss, steps, p, j)
    decreases j
  {
    hide Drain;
    if i < j {
      DrainedGrows(ss, steps, p, i, j - 1);
    }
  }

  /** Once a thread of p has been killed inside process_wait, p never exits: process_exit of p panics ever after. */
  lemma LeakedCounterPanics(ss: seq<State>, steps: seq<Step>, mainP: Ref, initP: Ref, i: nat, j: nat, p: Ref, code: int, order: seq<Tid>)
    requires IsRun(ss, steps) && mainP != initP && ss[0] == Boot(mainP, initP) && i < j < |ss| && Drain(ss[i], steps[i], p) > 0
    ensures p in ss[j].k.procs && !ss[j].k.procs[p].exited
    ensures ss[j].current in ss[j].threads && ss[j].idle in ss[j].threads
    ensures ActingOutside(ss[j]) && Own(ss[j]) == p && Lists(order, ss[j], p) ==> Exit(ss[j], code, order).Panics?
  {
    var s := ss[j];
    hide Take, Enabled, Inv, Lists, NoQueue, Exit, Drain, Waiters;
    assert Drained(ss, steps, p, i + 1) > 0;
    DrainedGrows(ss, steps, p, i + 1, j);
    RunSettles(ss, steps, mainP, initP, j, p, p);
    RunSafe(ss, steps, mainP, initP, j);
    InvNames(s);
    assert Counter(s.k, p) > 0 && !Exited(s.k, p);
    if ActingOutside(s) && Own(s) == p && Lists(order, s, p) {
      KeepExitStep(s, code, order);
    }
  }
}
