/** What process_exit leaves behind: the dead thread, the adopted children, the exited child in its parent's table, nobody asleep on it. */
module TaskEffects {
  import opened Wrappers
  import opened TaskSpec
  import opened TaskTree
  import opened TaskCrew
  import opened TaskInv
  import opened TaskCalls
  import opened TaskExit
  import opened TaskExitTail
  import opened TaskRun

  /** The tables behind the exit of p with `code`: init has its children, its parent has it among the exited. */
  ghost predicate Bequeathed(k: Kin, n: Kin, p: Ref, parent: Ref, code: int) {
    && Exited(n, p) && Code(n, p) == code
    && (forall c :: c in k.procs ==> Par(n, c) == if Kid(k, p, Id(k, c)) == Some(c) then Some(k.initP) else Par(k, c))
    && (forall q: Ref, x: Pid :: Kid(n, q, x) ==
          if q == p then None else if q == k.initP && Kid(k, p, x).Some? then Kid(k, p, x) else Kid(k, q, x))
    && (forall q: Ref, x: Pid :: Gone(n, q, x) ==
          if q == parent && x == Id(k, p) then Some(p)
          else if q == p then None else if q == k.initP && Gone(k, p, x).Some? then Gone(k, p, x) else Gone(k, q, x))
  }

  lemma Bequeaths(k: Kin, m: Kin, n: Kin, p: Ref, parent: Ref, code: int)
    requires p in k.procs && Reparented(k, m, p) && ExitMarked(m, n, p, parent, code)
    ensures Bequeathed(k, n, p, parent, code)
  {
    hide Id, Par, Code, Kid, Gone, Exited, SameLists, SameLog;
  }

  lemma BequeathedFrom(k: Kin, m: Kin, n: Kin, p: Ref, parent: Ref, code: int)
    requires p in k.procs && SameKin(k, m) && Bequeathed(m, n, p, parent, code)
    ensures Bequeathed(k, n, p, parent, code)
  {
    hide Par, Code, Kid, Gone, Exited, SameLog;
    assert forall c :: c in k.procs ==> c in m.procs;
    hide Id;
  }

  // ---------------------------------------------------------------- queues along the way

  ghost predicate SamePlayers(s: State, n: State) {
    n.current == s.current && n.idle == s.idle && n.threads.Keys == s.threads.Keys
  }

  lemma WokenQueue(s: State, q: Queue, r: Queue)
    requires q != ReadyQ && r != ReadyQ
    ensures Q(WakeAll(s, q), r) == if r == q then [] else Q(s, r)
    ensures SamePlayers(s, WakeAll(s, q))
  {
  }

  lemma RestQueues(s: State, r: Queue)
    requires r.ExitWaitQ? || r.AnyWaitQ?
    ensures Q(Notify(s), r) == Q(s, r) && SamePlayers(s, Notify(s))
    ensures s.current in s.threads ==> Q(ToDead(s, s.current), r) == Q(s, r) && SamePlayers(s, ToDead(s, s.current))
    ensures s.current in s.threads && s.idle in s.threads ==> Q(Switch(s), r) == Q(s, r)
  {
  }

  /** The end of process_exit. */
  lemma TailEffect(s: State, p: Ref, parent: Ref, code: int)
    requires p in s.k.procs && parent in s.k.procs && ExitTail(s, p, parent, code).Next?
    ensures var n := ExitTail(s, p, parent, code).s;
      && n.k == MarkExit(Reparent(s.k, p), p, parent, code, s.current)
      && Q(n, ExitWaitQ(p)) == [] && Q(n, AnyWaitQ(parent)) == []
  {
    hide WakeAll, Notify, ToDead, Switch, Targets, Reparent, MarkExit;
    var e, a := ExitWaitQ(p), AnyWaitQ(parent);
    var s2 := s.(k := Reparent(s.k, p));
    var i := AnyWaitQ(s2.k.initP);
    ReparentKeeps(s.k, p);
    SchedKin(s2, i);
    WokenQueue(s2, i, e);
    var s3 := WakeAll(s2, i);
    var s4 := Orphan(s3, s3.current).(k := MarkExit(s3.k, p, parent, code, s3.current));
    SchedKin(s4, e);
    WokenQueue(s4, e, e);
    var s5 := WakeAll(s4, e);
    SchedKin(s5, a);
    WokenQueue(s5, a, e);
    WokenQueue(s5, a, a);
    var s6 := WakeAll(s5, a);
    SchedKin(s6, ReadyQ);
    RestQueues(s6, e);
    RestQueues(s6, a);
    var s7 := ToDead(s6, s6.current);
    SchedKin(s7, ReadyQ);
    RestQueues(s7, e);
    RestQueues(s7, a);
    SchedKin(Notify(s7), ReadyQ);
    RestQueues(Notify(s7), e);
    RestQueues(Notify(s7), a);
  }

  ghost predicate Departed(s: State, o: Outcome, p: Ref, parent: Ref, code: int) {
    o.Next? ==> Bequeathed(s.k, o.s.k, p, parent, code) && Q(o.s, ExitWaitQ(p)) == [] && Q(o.s, AnyWaitQ(parent)) == []
  }

  lemma TailDeparts(s: State, p: Ref, parent: Ref, code: int)
    requires Inv(s) && Leaving(s.k, p, parent)
    ensures Departed(s, ExitTail(s, p, parent, code), p, parent, code)
  {
    var o := ExitTail(s, p, parent, code);
    assert KinInv(s.k);
    hide Inv, ExitTail, MarkExit, Reparent, Bequeathed;
    LeavingNames(s.k, p, parent);
    if o.Next? {
      TailEffect(s, p, parent, code);
      ReparentView(s.k, p);
      ReparentKeeps(s.k, p);
      ExitView(Reparent(s.k, p), p, parent, code, s.current);
      Bequeaths(s.k, Reparent(s.k, p), o.s.k, p, parent, code);
    }
  }

  /** A process that exits leaves its children to init, itself to its parent, and nobody asleep on either. */
  lemma ExitLeavesBehind(s: State, code: int, order: seq<Tid>)
    requires Inv(s) && ActingOutside(s) && Lists(order, s, Own(s))
    ensures s.idle in s.threads
    ensures Exit(s, code, order).Next? ==> s.k.procs[Own(s)].parent.Some? && Departed(s, Exit(s, code, order), Own(s), s.k.procs[Own(s)].parent.value, code)
  {
    var p := Own(s);
    hide Inv, Leaving, ExitTail, KillOthers, Alone, Exit, Lists, NoQueue, Bequeathed, SameKin;
    InvNames(s);
    ExitIs(s, p, code, order);
    if p != s.k.initP && s.k.procs[p].waiting == 0 {
      ExitLeaving(s, p);
      var parent := s.k.procs[p].parent.value;
      TailDeparts(s, p, parent, code);
      var m := KillOthers(s, p, order);
      if m.Next? {
        KilledIn(s, p, order);
        KeepKillOthers(s, order);
        TailDeparts(m.s, p, parent, code);
        var o := ExitTail(m.s, p, parent, code);
        if o.Next? {
          BequeathedFrom(s.k, m.s.k, o.s.k, p, parent, code);
        }
      }
    }
  }
}
