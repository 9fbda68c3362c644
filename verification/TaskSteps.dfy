/** The scheduling, keyboard and clean-up steps keep the invariant. */
module TaskSteps {
  import opened Wrappers
  import opened TaskSpec
  import opened TaskLink
  import opened TaskTree
  import opened TaskCrew
  import opened TaskInv

  /** A context switch completes any consistent state, whether or not the thread it leaves is still alive. */
  lemma KeepSwitchStep(s: State)
    requires LinkMid(s) && Core(s, {}) && KeysOK(s) && CleanOK(s) && Owned(s)
    ensures Inv(Switch(s))
  {
    hide KinInv, CrewInv, WaitsOK, OnlySched, Switch;
    KeepSwitch(s);
    SwitchView(s);
    SchedCore(s, Switch(s), {});
  }

  /** cond_var_notify restores what a new dead resource has broken. */
  lemma KeepNotifyStep(s: State, but: set<Queue>)
    requires LinkMid(s) && Core(s, but) && KeysOK(s) && CleanOKBut(s)
    ensures var n := Notify(s); LinkMid(n) && Core(n, but) && KeysOK(n) && CleanOK(n) && n.current == s.current && (Owned(s) ==> Owned(n))
    ensures forall t :: t in s.threads && t != s.clean ==> t in Notify(s).threads && Notify(s).threads[t] == s.threads[t]
  {
    var n := Notify(s);
    QueueFacts(s, CvQ);
    KeepNotify(s);
    NotifyView(s);
    hide KinInv, CrewInv, WaitsOK, LinkMid, Notify, OnlySched;
    IdleAwake(s);
    SchedCore(s, n, but);
  }

  /** Waking a wait queue makes the exception for it unnecessary. */
  lemma KeepWakeStep(s: State, n: State, q: Queue, but: set<Queue>)
    requires LinkMid(s) && Core(s, but) && KeysOK(s) && CleanOK(s) && (q.AnyWaitQ? || q.ExitWaitQ?) && n == WakeAll(s, q)
    ensures LinkMid(n) && Core(n, but - {q}) && KeysOK(n) && CleanOK(n) && Woke(s, n, q)
  {
    hide KinInv, CrewInv, LinkMid, WakeAll, OnlySched, WaitsOK;
    QueueFacts(s, q);
    KeepWakeAll(s, q);
    WakeView(s, q);
    IdleAwake(s);
    SchedRest(s, n);
    SchedCore(s, n, but);
    WokenWaits(s, n, q, but);
  }

  lemma QueueFacts(s: State, q: Queue)
    requires LinkMid(s) && (q.AnyWaitQ? || q.ExitWaitQ? || q == KbdQ || q == CvQ)
    ensures QueueLinked(s, q) && forall t :: t in Q(s, q) ==> t in s.threads && s.threads[t].status == Waiting && t != s.idle
  {
    assert QueueLinked(s, q);
  }

  lemma IdleAwake(s: State)
    requires Posts(s)
    ensures s.idle in s.threads && s.threads[s.idle].status in {Running, Ready} && !Sleeps(s.threads, s.idle)
  {
  }

  lemma WokenWaits(s: State, n: State, q: Queue, but: set<Queue>)
    requires WaitsOK(n, but) && QueueLinked(s, q) && !Sleeps(s.threads, s.idle)
    requires OnlySched(s, n) && forall t :: t in Q(s, q) ==> t in n.threads && n.threads[t].status == Ready
    ensures WaitsOK(n, but - {q})
  {
    forall t | Sleeps(n.threads, t) ensures Bed(n.threads[t].pc) != q {
      assert t in s.threads && n.threads[t] == s.threads[t];
      assert t != s.idle;
      assert Home(s, t) == Some(Bed(n.threads[t].pc));
    }
  }

  // ---------------------------------------------------------------- keyboard

  lemma KeyView(s: State, key: Key)
    requires forall t :: t in Q(s, KbdQ) ==> t in s.threads && s.threads[t].status == Waiting && t != s.idle
    requires s.idle in s.threads
    ensures var n := KeyArrives(s, key); OnlySched(s, n) && n.threads[n.idle] == s.threads[s.idle] && Q(n, KbdQ) == []
    ensures forall r :: r != ReadyQ && r != KbdQ ==> Q(KeyArrives(s, key), r) == Q(s, r)
  {
  }

  lemma {:induction false} ReverseAt(l: seq<nat>, i: nat)
    requires i < |l|
    ensures |Reverse(l)| == |l| && Reverse(l)[i] == l[|l| - 1 - i]
  {
    if |l| > 1 {
      ReverseAt(l[1..], if i < |l| - 1 then i else 0);
    }
  }

  /** The new key is the last one, and the readers woken come before all ready threads, the last to block first. */
  lemma KeyOrder(s: State, key: Key)
    requires Inv(s)
    ensures var n := KeyArrives(s, key); n.keys == if |s.keys| == KEY_BUFFER then s.keys else s.keys + [key]
    ensures var n, l := KeyArrives(s, key), Q(s, KbdQ);
      && |Q(n, ReadyQ)| == |l| + |Q(s, ReadyQ)| && Q(n, ReadyQ)[|l|..] == Q(s, ReadyQ)
      && (forall i :: 0 <= i < |l| ==> Q(n, ReadyQ)[i] == l[|l| - 1 - i])
      && (forall t :: t in l ==> t in n.threads && n.threads[t].status == Ready)
  {
    assert LinkMid(s);
    QueueFacts(s, KbdQ);
    hide Inv, LinkMid;
    Fronts(s, key);
  }

  lemma Fronts(s: State, key: Key)
    requires forall t :: t in Q(s, KbdQ) ==> t in s.threads && s.threads[t].status == Waiting
    ensures var n := KeyArrives(s, key); n.keys == if |s.keys| == KEY_BUFFER then s.keys else s.keys + [key]
    ensures var n, l := KeyArrives(s, key), Q(s, KbdQ);
      && |Q(n, ReadyQ)| == |l| + |Q(s, ReadyQ)| && Q(n, ReadyQ)[|l|..] == Q(s, ReadyQ)
      && (forall i :: 0 <= i < |l| ==> Q(n, ReadyQ)[i] == l[|l| - 1 - i])
      && (forall t :: t in l ==> t in n.threads && n.threads[t].status == Ready)
  {
    var l := Q(s, KbdQ);
    if l != [] {
      ReverseAt(l, 0);
      assert Q(KeyArrives(s, key), ReadyQ) == Reverse(l) + Q(s, ReadyQ);
      forall i | 0 <= i < |l| ensures Reverse(l)[i] == l[|l| - 1 - i] {
        ReverseAt(l, i);
      }
    }
  }

  /** A key event wakes every reader; those woken before they yield included. */
  lemma KeepKey(s: State, key: Key)
    requires Inv(s)
    ensures Inv(KeyArrives(s, key))
  {
    var n := KeyArrives(s, key);
    hide KeyArrives, KinInv, CrewInv, OnlySched, WaitsOK;
    assert LinkMid(s);
    QueueFacts(s, KbdQ);
    KeepKeyArrives(s, key);
    hide LinkInv, LinkMid;
    IdleAwake(s);
    KeyView(s, key);
    SchedCore(s, n, {});
  }

  /** Only the queue field and the status of the current thread change: it blocks outside process_wait. */
  ghost predicate BlocksOutside(s: State, n: State) {
    && s.current in s.threads && s.threads[s.current].status == Running && s.threads[s.current].pc == User && s.current != s.idle
    && n.k == s.k && n.idle == s.idle && n.clean == s.clean && n.current == s.current && n.current in n.threads
    && n.threads == s.threads[s.current := s.threads[s.current].(status := Waiting, crt := n.threads[s.current].crt)]
  }

  lemma BlockParts(s: State, n: State)
    requires BlocksOutside(s, n)
    ensures SameCrew(s.threads, n.threads) && (Posts(s) ==> Posts(n)) && (Owned(s) ==> Owned(n))
    ensures forall t :: Sleeps(n.threads, t) ==> Sleeps(s.threads, t) && n.threads[t] == s.threads[t]
  {
  }

  lemma BlockCore(s: State, n: State)
    requires Core(s, {}) && Owned(s) && BlocksOutside(s, n)
    ensures Core(n, {}) && Owned(n)
  {
    hide KinInv, CrewInv, WaitsOK, SameCrew, Posts, Owned;
    BlockParts(s, n);
    WaitsFrame(s, n, {});
    KeepSameCrew(s.threads, n.threads, s.k);
  }

  lemma {:induction false} ReadEmpties(keys: seq<Key>)
    ensures !HasPress(keys) ==> AfterRead(keys) == []
  {
    if keys != [] {
      ReadEmpties(keys[1..]);
      if !HasPress(keys) {
        assert !keys[0].make;
        forall i | 0 <= i < |keys[1..]| ensures !keys[1..][i].make {
          assert keys[1..][i] == keys[i + 1];
        }
      }
    }
  }

  lemma KeysFrame(s: State, n: State)
    requires Inv(s) && n == s.(keys := n.keys) && (s.keys == [] ==> n.keys == [])
    ensures Inv(n)
  {
    hide Core, Owned;
    assert OnlySched(s, n);
    KeepSame(s, n);
    hide OnlySched, Linked, CrtOK;
    KeysCore(s, n);
  }

  lemma KeysCore(s: State, n: State)
    requires Core(s, {}) && OnlySched(s, n) && n.threads == s.threads && n.idle == s.idle
    ensures Core(n, {}) && (Owned(s) ==> Owned(n))
  {
    hide KinInv, CrewInv, WaitsOK, OnlySched;
    IdleAwake(s);
    SchedCore(s, n, {});
  }

  lemma BlockView(s: State, q: Queue, crt: Option<Queue>, front: bool)
    requires s.current in s.threads && s.threads[s.current].status == Running && s.threads[s.current].pc == User && s.current != s.idle
    ensures var n := Block(s, q, crt, front); BlocksOutside(s, n) && n.keys == s.keys
    ensures forall r :: r != q ==> Q(Block(s, q, crt, front), r) == Q(s, r)
    ensures !front ==> Q(Block(s, q, crt, front), q) == Q(s, q) + [s.current]
    ensures q == (if crt == Some(KbdQ) then KbdQ else CvQ) ==> Home(Block(s, q, crt, front), s.current) == Some(q)
  {
  }

  lemma KeepKbdBlock(s: State)
    requires Inv(s) && ActingOutside(s) && s.keys == []
    ensures Inv(Block(s, KbdQ, Some(KbdQ), false))
  {
    var n := Block(s, KbdQ, Some(KbdQ), false);
    hide Core, Linked, CrtOK, Owned, Block, BlocksOutside, Home;
    BlockView(s, KbdQ, Some(KbdQ), false);
    KeepBlock(s, KbdQ, Some(KbdQ), false);
    hide LinkInv;
    assert n.k == s.k && n.clean == s.clean by { BlockKeeps(s, n); }
    BlockCore(s, n);
  }

  lemma BlockKeeps(s: State, n: State)
    requires BlocksOutside(s, n)
    ensures n.k == s.k && n.clean == s.clean
  {
  }

  /** The reader blocks only on an empty key queue. */
  lemma KeepReadKey(s: State)
    requires Inv(s) && ActingOutside(s)
    ensures Inv(ReadKey(s))
  {
    hide Inv;
    ReadEmpties(s.keys);
    var s1 := s.(keys := AfterRead(s.keys));
    KeysFrame(s, s1);
    if !HasPress(s.keys) {
      KeepKbdBlock(s1);
    }
  }

  // ---------------------------------------------------------------- clean thread

  lemma KeepCleanBlock(s: State)
    requires Inv(s) && Cleaning(s) && !HasDeadResource(s)
    ensures Inv(CleanTurn(s))
  {
    var n := CleanTurn(s);
    assert CrtFits(s.threads[s.current]) && s.threads[s.current].crt == None;
    assert s.threads[s.current].pc == User;
    hide Core, Linked, CrtOK, Block, BlocksOutside, Home, Owned;
    BlockView(s, CvQ, None, false);
    KeepBlock(s, CvQ, None, false);
    hide LinkInv;
    assert n.k == s.k && n.clean == s.clean by { BlockKeeps(s, n); }
    BlockCore(s, n);
    NewCleanOK(s, n);
  }

  lemma NewCleanOK(s: State, n: State)
    requires CleanOK(s) && !HasDeadResource(s) && n.k == s.k && n.clean == s.clean && Q(n, DeadQ) == Q(s, DeadQ) && Q(n, CvQ) == Q(s, CvQ) + [s.clean]
    ensures CleanOK(n)
  {
  }

  lemma GrabView(s: State)
    requires s.current in s.threads && HasDeadResource(s) && s.k.clearing == []
    ensures var n := CleanTurn(s); n.threads == s.threads && n.k == s.k.(clearing := s.k.dead, dead := []) && n.idle == s.idle && n.clean == s.clean && n.keys == s.keys
    ensures Q(CleanTurn(s), CvQ) == Q(s, CvQ) && Q(CleanTurn(s), KbdQ) == Q(s, KbdQ)
  {
  }

  lemma KeepCleanGrab(s: State)
    requires Inv(s) && Cleaning(s) && HasDeadResource(s) && Q(s, ClearingQ) == [] && s.k.clearing == []
    ensures Inv(CleanTurn(s))
  {
    var n := CleanTurn(s);
    hide LinkInv, KinInv, CrewInv, WaitsOK, CleanTurn, SameWaits;
    KeepGrab(s);
    GrabView(s);
    KeepGrabbed(s.k);
    KeepGrabbedCrew(s.threads, s.k);
    SameWaitsLists(s.k, n.k);
    WaitsFrame(s, n, {});
  }

  lemma SameWaitsLists(k: Kin, n: Kin)
    requires n.procs == k.procs
    ensures SameWaits(k, n)
  {
  }

  /** Children that are in a table stay there, and none of them exits. */
  ghost predicate SameWaits(k: Kin, n: Kin) {
    && (forall p: Ref, x: Pid :: Kid(k, p, x).Some? ==> Kid(n, p, x) == Kid(k, p, x) && Exited(n, Kid(k, p, x).value) == Exited(k, Kid(k, p, x).value))
    && (forall p: Ref, x: Pid :: Gone(n, p, x) == Gone(k, p, x))
  }

  lemma MaySleepFrame(k: Kin, n: Kin, o: Option<Ref>, x: Pid, at: Ref)
    requires SameWaits(k, n) && MaySleep(k, o, x, at)
    ensures MaySleep(n, o, x, at)
  {
    hide Kid, Gone, Exited;
    if x == 0 {
      var y: Pid :| Kid(k, at, y).Some?;
      assert Kid(n, at, y).Some?;
    }
  }

  lemma WaitsFrame(s: State, n: State, but: set<Queue>)
    requires WaitsOK(s, but) && SameWaits(s.k, n.k)
    requires forall t :: Sleeps(n.threads, t) ==> Sleeps(s.threads, t) && n.threads[t] == s.threads[t]
    ensures WaitsOK(n, but)
  {
    forall t | Sleeps(n.threads, t)
      ensures n.threads[t].crt == None
      ensures Bed(n.threads[t].pc) in but || MaySleep(n.k, n.threads[t].proc, n.threads[t].pc.pid, n.threads[t].pc.at)
    {
      if Bed(s.threads[t].pc) !in but {
        MaySleepFrame(s.k, n.k, s.threads[t].proc, s.threads[t].pc.pid, s.threads[t].pc.at);
      }
    }
  }

  lemma KeepCleanThread(s: State)
    requires Inv(s) && Q(s, ClearingQ) != []
    ensures Inv(DestroyThread(s))
  {
    var n, t := DestroyThread(s), Q(s, ClearingQ)[0];
    KeepDestroyThread(s);
    hide LinkInv;
    VanishView(s, n, t);
    hide KinInv, CrewInv, Posts, Owned, DestroyThread;
    KeepVanish(s.threads, n.threads, s.k, t);
    WaitsFrame(s, n, {});
  }

  lemma VanishView(s: State, n: State, t: Tid)
    requires Q(s, ClearingQ) != [] && t == Q(s, ClearingQ)[0] && t in s.threads && t != s.idle && s.threads[t].status == Dead
    requires Posts(s) && Owned(s) && n == DestroyThread(s)
    ensures Vanishes(s.threads, n.threads, t) && Posts(n) && Owned(n) && SameWaits(s.k, n.k)
    ensures forall u :: Sleeps(n.threads, u) ==> Sleeps(s.threads, u) && n.threads[u] == s.threads[u]
    ensures Q(n, KbdQ) == Q(s, KbdQ) && Q(n, CvQ) == Q(s, CvQ) && Q(n, DeadQ) == Q(s, DeadQ)
  {
  }

  /** A reaped process has exited, has no children, and is nobody's child. */
  lemma ReapedApart(k: Kin, c: Ref)
    requires KidsOK(k) && CodesOK(k) && c in k.procs && c in k.reports
    ensures Exited(k, c) && forall p: Ref, x: Pid :: Kid(k, p, x).Some? ==> p != c && Kid(k, p, x).value != c && Kid(k, p, x).value in k.procs
  {
    hide Id, Par, Code, Kid, Gone;
    assert Exited(k, c);
  }

  lemma RemovedWaits(k: Kin, n: Kin, c: Ref)
    requires Removed(k, n, c) && GoneOK(k)
    requires forall p: Ref, x: Pid :: Kid(k, p, x).Some? ==> p != c && Kid(k, p, x).value != c && Kid(k, p, x).value in k.procs
    ensures SameWaits(k, n)
  {
    hide Id, Par, Code, Kid, Gone, Exited;
    assert forall x: Pid :: Kid(k, c, x) == None;
  }

  lemma DestroyWaits(k: Kin)
    requires KinInv(k) && k.clearing != [] && k.clearing[0] in k.procs && k.clearing[0] in k.reports
    ensures SameWaits(k, Destroyed(k)) && Exited(k, k.clearing[0])
  {
    hide Roots, Ids, KidsOK, GoneOK, Placed, CodesOK, Corpses, Removed, SameWaits, Destroyed;
    DestroyView(k, k.clearing[0]);
    ReapedApart(k, k.clearing[0]);
    RemovedWaits(k, Destroyed(k), k.clearing[0]);
  }

  /** Only the processes change, and no sleeper's reason. */
  lemma KeepKinStep(s: State, n: State)
    requires Inv(s) && n == s.(k := n.k) && n.k.mainP == s.k.mainP && n.k.dead == s.k.dead
    requires KinInv(n.k) && CrewInv(n.threads, n.k) && SameWaits(s.k, n.k)
    ensures Inv(n)
  {
    hide KinInv, CrewInv, SameWaits, WaitsOK;
    KeepSame(s, n);
    hide Linked, CrtOK;
    WaitsFrame(s, n, {});
  }

  lemma KeepCleanProcess(s: State)
    requires Inv(s) && s.k.clearing != []
    ensures Inv(s.(k := Destroyed(s.k)))
  {
    var n := s.(k := Destroyed(s.k));
    assert n.k.mainP == s.k.mainP && n.k.dead == s.k.dead;
    hide LinkInv, KinInv, CrewInv, SameWaits, WaitsOK, Destroyed, Posts, Owned, CleanOK, KeysOK, Exited;
    KeepDestroyed(s.k);
    DestroyWaits(s.k);
    FreedView(s.k);
    hide Freed;
    KeepFreed(s.threads, s.k, n.k, s.k.clearing[0]);
    KeepKinStep(s, n);
  }
}
