/** The whole invariant: links, tree, crew, and why each sleeping thread is right to sleep. */
module TaskInv {
  import opened Wrappers
  import opened TaskSpec
  import opened TaskLink
  import opened TaskTree
  import opened TaskCrew

  // ---------------------------------------------------------------- who may sleep

  /** process_wait(0) has something to wait for and nothing to collect. */
  ghost predicate AnyPending(k: Kin, p: Ref) {
    (forall y: Pid :: Gone(k, p, y) == None) && exists y: Pid :: Kid(k, p, y).Some?
  }

  /** A thread of process o may sleep in process_wait(x), registered at `at`. */
  ghost predicate MaySleep(k: Kin, o: Option<Ref>, x: Pid, at: Ref) {
    o.Some? && if x == 0 then at == o.value && AnyPending(k, at) else Kid(k, o.value, x) == Some(at) && !Exited(k, at)
  }

  ghost predicate Sleeps(th: Threads, t: Tid) {
    t in th && th[t].status == Waiting && th[t].pc.InWait?
  }

  ghost function Bed(pc: Pc): Queue
    requires pc.InWait?
  {
    if pc.pid == 0 then AnyWaitQ(pc.at) else ExitWaitQ(pc.at)
  }

  /** Every thread asleep in process_wait, except at the queues in `but`, has reason to sleep. */
  ghost predicate WaitsOK(s: State, but: set<Queue>) {
    forall t :: Sleeps(s.threads, t) ==>
      && s.threads[t].crt == None
      && (Bed(s.threads[t].pc) in but || MaySleep(s.k, s.threads[t].proc, s.threads[t].pc.pid, s.threads[t].pc.at))
  }

  /** A blocked keyboard reader means an empty key queue. */
  ghost predicate KeysOK(s: State) {
    Q(s, KbdQ) != [] ==> s.keys == []
  }

  /** Only the clean thread blocks on the condition variable, and only while nothing is dead. */
  ghost predicate CleanOK(s: State) {
    && (forall t :: t in Q(s, CvQ) ==> t == s.clean)
    && (Q(s, CvQ) != [] ==> !HasDeadResource(s))
  }

  /** The two kernel threads. */
  ghost predicate Posts(s: State) {
    && s.idle in s.threads && s.clean in s.threads && s.idle != s.clean
    && s.threads[s.idle].status in {Running, Ready} && s.threads[s.clean].status != Dead
    && s.threads[s.idle].pc == User && s.threads[s.clean].pc == User
    && s.threads[s.idle].proc == Some(s.k.mainP) && s.threads[s.clean].proc == Some(s.k.mainP)
    && forall t :: t in s.threads && s.threads[t].status != Dead && s.threads[t].proc == Some(s.k.mainP) ==> t == s.idle || t == s.clean
  }

  ghost predicate Owned(s: State) {
    forall t :: t in s.threads && s.threads[t].status != Dead ==> s.threads[t].proc.Some?
  }

  /** The part that scheduling does not touch. */
  ghost predicate Core(s: State, but: set<Queue>) {
    KinInv(s.k) && CrewInv(s.threads, s.k) && WaitsOK(s, but) && Posts(s)
  }

  ghost predicate Inv(s: State) {
    LinkInv(s) && Core(s, {}) && KeysOK(s) && CleanOK(s) && Owned(s)
  }

  // ---------------------------------------------------------------- views of the scheduler functions

  /** Thread t is as before apart from its status and queue field; if it sleeps now it slept then. */
  ghost predicate StillOwn(c: Tcb, d: Tcb) {
    (d.status == Dead <==> c.status == Dead) && d.proc == c.proc && d.pc == c.pc && (d.status == Waiting ==> d == c)
  }

  ghost predicate OnlySched(s: State, n: State) {
    && n.k == s.k && n.idle == s.idle && n.clean == s.clean
    && n.threads.Keys == s.threads.Keys
    && forall t :: t in s.threads ==> StillOwn(s.threads[t], n.threads[t])
  }

  lemma SchedWaits(s: State, n: State, but: set<Queue>)
    requires OnlySched(s, n) && WaitsOK(s, but)
    ensures WaitsOK(n, but)
  {
    forall t | Sleeps(n.threads, t) ensures Sleeps(s.threads, t) && n.threads[t] == s.threads[t] {
    }
    hide MaySleep;
  }

  lemma SchedRest(s: State, n: State)
    requires OnlySched(s, n)
    ensures SameCrew(s.threads, n.threads)
    ensures n.k == s.k && n.clean == s.clean && n.idle == s.idle
    ensures Owned(s) ==> Owned(n)
    ensures Posts(s) && n.threads[n.idle].status in {Running, Ready} ==> Posts(n)
  {
  }

  lemma SchedCore(s: State, n: State, but: set<Queue>)
    requires OnlySched(s, n) && Core(s, but) && n.threads[n.idle].status in {Running, Ready}
    ensures Core(n, but) && (Owned(s) ==> Owned(n)) && n.k == s.k && n.clean == s.clean && n.idle == s.idle
  {
    hide OnlySched, KinInv, CrewInv, WaitsOK, Owned, Posts, SameCrew;
    SchedRest(s, n);
    SchedWaits(s, n, but);
    KeepSameCrew(s.threads, n.threads, s.k);
  }

  lemma SwitchView(s: State)
    requires LinkMid(s) && s.threads[s.idle].status in {Running, Ready}
    ensures var n := Switch(s); OnlySched(s, n) && n.keys == s.keys && n.threads[n.idle].status in {Running, Ready}
    ensures forall q :: q != ReadyQ ==> Q(Switch(s), q) == Q(s, q)
  {
    var l := Q(s, ReadyQ);
    if l != [] {
      assert QueueLinked(s, ReadyQ) && l[0] in l;
      SwitchToReady(s);
      hide Switch;
    } else {
      SwitchToIdle(s);
      assert Switch(s).k == s.k && Switch(s).keys == s.keys;
      hide Switch;
    }
  }

  lemma TwoMembers(l: seq<nat>)
    requires NoDup(l) && |l| > 1
    ensures exists a, b :: a in l && b in l && a != b
  {
    assert l[0] in l && l[1] in l && l[0] != l[1];
  }

  lemma NotifyView(s: State)
    requires CleanOKBut(s) && NoDup(Q(s, CvQ)) && (forall t :: t in Q(s, CvQ) ==> t in s.threads && s.threads[t].status == Waiting)
    ensures var n := Notify(s); OnlySched(s, n) && n.keys == s.keys && Q(n, CvQ) == [] && n.current == s.current
    ensures forall q :: q != ReadyQ && q != CvQ ==> Q(Notify(s), q) == Q(s, q)
    ensures forall t :: t in s.threads && t != s.clean ==> Notify(s).threads[t] == s.threads[t]
  {
    var l := Q(s, CvQ);
    if l != [] {
      assert l[0] in l;
      if |l| > 1 {
        TwoMembers(l);
      }
    }
  }

  ghost predicate CleanOKBut(s: State) {
    forall t :: t in Q(s, CvQ) ==> t == s.clean
  }

  /** n is s after waking queue q. */
  ghost predicate Woke(s: State, n: State, q: Queue) {
    && OnlySched(s, n) && n.keys == s.keys && n.current == s.current
    && (forall r :: r != ReadyQ && r != q ==> Q(n, r) == Q(s, r))
    && (forall t :: t in s.threads && t !in Q(s, q) ==> n.threads[t] == s.threads[t])
    && (forall t :: t in Q(s, q) ==> t in n.threads && n.threads[t].status == Ready)
  }

  lemma WakeView(s: State, q: Queue)
    requires q.AnyWaitQ? || q.ExitWaitQ?
    requires forall t :: t in Q(s, q) ==> t in s.threads && s.threads[t].status == Waiting
    ensures Woke(s, WakeAll(s, q), q)
  {
  }
}
