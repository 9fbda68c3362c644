/** exec's removal of the other threads, and process_exit, keep the invariant. */
module TaskExit {
  import opened Wrappers
  import opened TaskSpec
  import opened TaskLink
  import opened TaskTree
  import opened TaskCrew
  import opened TaskInv
  import opened TaskSteps
  import opened TaskCalls

  // ---------------------------------------------------------------- killing threads

  /** What holds between two turns of the killing loop: the thread table still lists the dead. */
  ghost predicate KillMid(s: State) {
    LinkInv(s) && WaitsOK(s, {}) && KeysOK(s) && CleanOK(s) && Posts(s)
  }

  /** The threads in ts have died; nothing else about owners or sleepers has changed. */
  ghost predicate Killed(s: State, n: State, ts: set<Tid>) {
    && n.k == s.k && n.current == s.current && n.idle == s.idle && n.clean == s.clean
    && n.threads.Keys == s.threads.Keys
    && forall t :: t in s.threads ==>
      && n.threads[t].proc == s.threads[t].proc && n.threads[t].pc == s.threads[t].pc
      && (n.threads[t].status == Dead <==> s.threads[t].status == Dead || t in ts)
      && (n.threads[t].status == Waiting ==> n.threads[t] == s.threads[t])
      && (t !in ts && t != s.clean ==> n.threads[t] == s.threads[t])
  }

  lemma KilledParts(s: State, n: State, ts: set<Tid>)
    requires Posts(s) && Killed(s, n, ts) && n.threads[n.idle].status in {Running, Ready} && s.clean !in ts
    ensures Posts(n)
    ensures forall t :: Sleeps(n.threads, t) ==> Sleeps(s.threads, t) && n.threads[t] == s.threads[t]
  {
  }

  lemma KilledTwice(s: State, m: State, n: State, ts: set<Tid>, us: set<Tid>)
    requires Killed(s, m, ts) && Killed(m, n, us)
    ensures Killed(s, n, ts + us)
  {
  }

  /** A thread may be killed while it is alive, not running and not a kernel thread. */
  ghost predicate Victim(s: State, t: Tid) {
    t in s.threads && t != s.current && t != s.idle && t != s.clean && s.threads[t].status in {Ready, Waiting}
  }

  lemma VictimAfter(s: State, n: State, t: Tid, u: Tid)
    requires Killed(s, n, {t}) && Victim(s, u) && u != t && LinkInv(n)
    ensures Victim(n, u)
  {
  }

  lemma ToDeadView(s: State, t: Tid)
    requires Victim(s, t) && s.threads[t].crt.Some? && s.threads[t].crt.value in {ReadyQ, KbdQ} && Posts(s)
    ensures var q := s.threads[t].crt.value;
      var n := ToDead(SetQ(s, q, Without(Q(s, q), t)), t);
      && Killed(s, n, {t}) && n.keys == s.keys && n.threads[n.idle] == s.threads[s.idle]
      && Q(n, CvQ) == Q(s, CvQ) && Q(n, KbdQ) == if q == KbdQ then Without(Q(s, KbdQ), t) else Q(s, KbdQ)
  {
  }

  lemma NotifyKilled(s: State, ts: set<Tid>, n: State, m: State)
    requires Killed(s, n, ts) && OnlySched(n, m) && m.current == n.current
    requires forall u :: u in n.threads && u != n.clean ==> m.threads[u] == n.threads[u]
    ensures Killed(s, m, ts)
  {
  }

  /** One turn of the killing loop. */
  lemma KeepKill(s: State, t: Tid)
    requires KillMid(s) && Victim(s, t)
    ensures var o := Kill(s, t); !o.Fails? && (o.Next? ==> KillMid(o.s) && Killed(s, o.s, {t}))
  {
    var o := Kill(s, t);
    if o.Next? {
      var q := s.threads[t].crt.value;
      assert CrtFits(s.threads[t]) && q in {ReadyQ, KbdQ};
      var n := ToDead(SetQ(s, q, Without(Q(s, q), t)), t);
      assert o.s == Notify(n);
      hide WaitsOK, ToDead, SetQ, Kill, Notify, Killed;
      KeepToDead(s, t);
      ToDeadView(s, t);
      hide LinkInv;
      KillEnd(s, n, t);
    }
  }

  lemma KillEnd(s: State, n: State, t: Tid)
    requires KillMid(s) && Victim(s, t) && LinkMid(n) && Killed(s, n, {t}) && n.keys == s.keys && n.threads[n.idle] == s.threads[s.idle]
    requires Q(n, CvQ) == Q(s, CvQ) && (Q(s, KbdQ) == [] ==> Q(n, KbdQ) == [])
    ensures KillMid(Notify(n)) && Killed(s, Notify(n), {t})
  {
    var m := Notify(n);
    hide WaitsOK, Notify, Killed, LinkMid, LinkInv, OnlySched, Posts;
    assert n.clean == s.clean && n.idle == s.idle && n.current == s.current && s.clean !in {t} by { KilledNames(s, n, {t}); }
    QueueFacts(n, CvQ);
    NotifyView(n);
    KeepNotify(n);
    NotifyKilled(s, {t}, n, m);
    IdleAwake(s);
    KilledNames(s, m, {t});
    assert m.threads[m.idle].status in {Running, Ready} by { KilledIdle(s, n, m, t); }
    KilledParts(s, m, {t});
    SameWaitsLists(s.k, m.k);
    WaitsFrame(s, m, {});
    KilledLink(s, m, {t});
  }

  lemma KilledNames(s: State, n: State, ts: set<Tid>)
    requires Killed(s, n, ts)
    ensures n.clean == s.clean && n.idle == s.idle && n.current == s.current && n.k == s.k
  {
  }

  lemma KilledIdle(s: State, n: State, m: State, t: Tid)
    requires Posts(s) && Killed(s, n, {t}) && n.threads[n.idle] == s.threads[s.idle]
    requires OnlySched(n, m) && forall u :: u in n.threads && u != n.clean ==> m.threads[u] == n.threads[u]
    ensures m.threads[m.idle].status in {Running, Ready}
  {
  }

  lemma KilledLink(s: State, m: State, ts: set<Tid>)
    requires LinkInv(s) && LinkMid(m) && Killed(s, m, ts) && s.current !in ts
    ensures LinkInv(m)
  {
  }

  ghost function Elems(l: seq<Tid>): set<Tid> { set t | t in l }

  lemma ElemsStep(l: seq<Tid>)
    ensures l == [] ==> Elems(l) == {}
    ensures l != [] ==> Elems(l) == {l[0]} + Elems(l[1..])
  {
    if l != [] {
      assert l == [l[0]] + l[1..];
    }
  }

  lemma KillAllStep(s: State, order: seq<Tid>)
    ensures order == [] ==> KillAll(s, order) == Next(s)
    ensures order != [] && order[0] in s.threads ==>
      KillAll(s, order) == if Kill(s, order[0]).Next? then KillAll(Kill(s, order[0]).s, order[1..]) else Kill(s, order[0])
  {
  }

  lemma KilledNone(s: State)
    ensures Killed(s, s, {})
  {
  }

  /** A thread whose crt_queue is NULL: it waits in process_wait. */
  ghost predicate NoQueue(s: State, t: Tid) { t in s.threads && s.threads[t].crt.None? }

  lemma KillPanics(s: State, t: Tid)
    requires t in s.threads
    ensures Kill(s, t).Panics? <==> NoQueue(s, t)
  {
  }

  lemma SameQueueField(s: State, n: State, t: Tid, u: Tid)
    requires Killed(s, n, {t}) && Victim(s, u) && u != t
    ensures NoQueue(n, u) <==> NoQueue(s, u)
  {
  }

  /** The killing loop never meets a thread it cannot find; it stops only at one without a queue. */
  lemma {:induction false} KeepKillAll(s: State, order: seq<Tid>)
    requires KillMid(s) && NoDup(order) && forall t :: t in order ==> Victim(s, t)
    ensures var o := KillAll(s, order); !o.Fails? && (o.Next? ==> KillMid(o.s) && Killed(s, o.s, Elems(order)))
    ensures KillAll(s, order).Panics? <==> exists t :: t in order && NoQueue(s, t)
    decreases |order|
  {
    hide KillMid, Kill, Killed, Victim, KillAll, Elems;
    KillAllStep(s, order);
    ElemsStep(order);
    if order == [] {
      KilledNone(s);
    } else {
      var t := order[0];
      assert t in order;
      VictimIn(s, t);
      KeepKill(s, t);
      KillPanics(s, t);
      hide NoQueue;
      var o := Kill(s, t);
      if o.Next? {
        TailDistinct(order);
        MidLink(o.s);
        hide LinkInv, NoDup;
        forall u | u in order[1..] ensures Victim(o.s, u) {
          VictimAfter(s, o.s, t, u);
        }
        forall u | u in order[1..] ensures NoQueue(o.s, u) <==> NoQueue(s, u) {
          SameQueueField(s, o.s, t, u);
        }
        KeepKillAll(o.s, order[1..]);
        var o2 := KillAll(o.s, order[1..]);
        if o2.Next? {
          KilledTwice(s, o.s, o2.s, {t}, Elems(order[1..]));
        }
      }
    }
  }

  lemma VictimIn(s: State, t: Tid)
    requires Victim(s, t)
    ensures t in s.threads
  {
  }

  lemma MidLink(s: State)
    requires KillMid(s)
    ensures LinkInv(s)
  {
  }

  lemma TeamFacts(s: State, p: Ref, t: Tid)
    requires CrewInv(s.threads, s.k) && t in Team(s.k, p)
    ensures t in s.threads && s.threads[t].status != Dead && s.threads[t].proc == Some(p)
  {
    assert Alive(s.threads, t) && Owner(s.threads, t) == Some(p);
  }

  lemma VictimFacts(s: State, p: Ref, t: Tid)
    requires LinkInv(s) && Posts(s) && t in s.threads && s.threads[t].status != Dead && s.threads[t].proc == Some(p)
    requires p != s.k.mainP && t != s.current
    ensures Victim(s, t)
  {
  }

  lemma Victims(s: State, order: seq<Tid>)
    requires Inv(s) && Acting(s) && Lists(order, s, Own(s))
    ensures forall t :: t in order ==> Victim(s, t)
    ensures Elems(order) == Team(s.k, Own(s)) - {s.current}
    ensures NoDup(order)
  {
    hide LinkInv, CrewInv, KinInv, WaitsOK, Posts, Victim;
    OwnFacts(s);
    var p := Own(s);
    assert forall t :: t in order <==> t in Team(s.k, p) && t != s.current;
    forall t | t in order ensures Victim(s, t) {
      TeamFacts(s, p, t);
      VictimFacts(s, p, t);
    }
  }

  lemma DeathView(s: State, m: State, p: Ref, cur: Tid)
    requires Killed(s, m, Team(s.k, p) - {cur}) && p in s.k.procs && cur in Team(s.k, p)
    requires forall t: Tid :: t in Team(s.k, p) ==> Owner(s.threads, t) == Some(p)
    ensures Dies(s.threads, s.k, m.threads, SetThreads(m.k, p, {cur}), p, Team(s.k, p) - {cur})
  {
  }

  /** The thread sets do not matter to links, posts and owners. */
  lemma KillParts(s: State, m: State, n: State, ts: set<Tid>)
    requires LinkInv(m) && Posts(m) && Owned(s) && Killed(s, m, ts) && n == m.(k := n.k) && n.k.mainP == m.k.mainP
    ensures LinkInv(n) && Posts(n) && Owned(n)
  {
    KeepSame(m, n);
  }

  lemma KillActs(s: State, m: State, p: Ref, ts: set<Tid>)
    requires Acting(s) && p == Own(s) && Killed(s, m, ts) && s.current !in ts
    ensures var n := m.(k := SetThreads(m.k, p, {s.current})); Acting(n) && Own(n) == p && n.threads[n.current] == s.threads[s.current]
  {
  }

  lemma KillCrew(s: State, m: State, p: Ref, k: Kin)
    requires CrewInv(s.threads, s.k) && p in s.k.procs && s.current in Team(s.k, p)
    requires Killed(s, m, Team(s.k, p) - {s.current}) && k == SetThreads(s.k, p, {s.current})
    ensures CrewInv(m.threads, k)
  {
    KilledNames(s, m, Team(s.k, p) - {s.current});
    hide CrewInv, Killed;
    forall t: Tid | t in Team(s.k, p) ensures Owner(s.threads, t) == Some(p) {
      TeamFacts(s, p, t);
    }
    DeathView(s, m, p, s.current);
    hide Dies, SetThreads;
    KeepDeaths(s.threads, s.k, m.threads, k, p, Team(s.k, p) - {s.current});
  }

  /** Only the thread set of p changes. */
  lemma KillInvariant(s: State, m: State, p: Ref, k: Kin)
    requires Inv(s) && Acting(s) && p == Own(s) && KillMid(m) && Killed(s, m, Team(s.k, p) - {s.current})
    requires k == SetThreads(s.k, p, {s.current})
    ensures Inv(m.(k := k))
  {
    var ts, n := Team(s.k, p) - {s.current}, m.(k := k);
    hide LinkInv, Posts, Owned, KinInv, CrewInv, WaitsOK, SameKin, SameWaits, Killed, SetThreads;
    KilledNames(s, m, ts);
    OwnFacts(s);
    SetThreadsKin(s.k, p, {s.current});
    KinNames(s.k, k);
    KillParts(s, m, n, ts);
    KillCrew(s, m, p, k);
    KeepSameKin(s.k, k);
    KillQueues(m, n);
    hide KeysOK, CleanOK;
    WaitsFrame(m, n, {});
  }

  lemma KillQueues(m: State, n: State)
    requires KeysOK(m) && CleanOK(m) && n == m.(k := n.k) && n.k.dead == m.k.dead
    ensures KeysOK(n) && CleanOK(n)
  {
  }

  lemma KinNames(k: Kin, n: Kin)
    requires SameKin(k, n)
    ensures n.mainP == k.mainP && n.dead == k.dead && n.initP == k.initP
  {
  }

  /** clear_crt_process_other_thread_locked keeps the invariant and leaves the current thread alone in its process. */
  lemma KeepKillOthers(s: State, order: seq<Tid>)
    requires Inv(s) && Acting(s) && Lists(order, s, Own(s))
    ensures var o := KillOthers(s, Own(s), order);
      && !o.Fails? && (o.Panics? <==> exists t :: t in Team(s.k, Own(s)) && t != s.current && NoQueue(s, t))
      && (o.Next? ==> Inv(o.s) && Acting(o.s) && Own(o.s) == Own(s) && o.s.threads[o.s.current] == s.threads[s.current]
                      && Team(o.s.k, Own(s)) == {s.current} && SameKin(s.k, o.s.k) && Counter(o.s.k, Own(s)) == Counter(s.k, Own(s)) && o.s.current == s.current)
  {
    var p := Own(s);
    Victims(s, order);
    OwnFacts(s);
    InvKillMid(s);
    assert forall t :: t in order <==> t in Team(s.k, p) && t != s.current;
    hide KillMid, Inv, Victim, SetThreads, SameKin, Acting, Killed, NoQueue;
    KeepKillAll(s, order);
    var o := KillAll(s, order);
    if o.Next? {
      KilledNames(s, o.s, Elems(order));
      KillActs(s, o.s, p, Elems(order));
      KillInvariant(s, o.s, p, SetThreads(s.k, p, {s.current}));
      SetThreadsKin(s.k, p, {s.current});
      SetTeam(s.k, p, {s.current});
    }
  }

  lemma InvKillMid(s: State)
    requires Inv(s)
    ensures KillMid(s)
  {
  }

  lemma SetTeam(k: Kin, p: Ref, ts: set<Tid>)
    requires p in k.procs
    ensures Team(SetThreads(k, p, ts), p) == ts && Counter(SetThreads(k, p, ts), p) == Counter(k, p)
  {
  }
}
