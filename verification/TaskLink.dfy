/** The linking invariant: what a thread's status says about the queue it is in, in both directions. */
module TaskLink {
  import opened Wrappers
  import opened TaskSpec

  /** The queue a thread belongs to, read off its control block. */
  ghost function Home(s: State, t: Tid): Option<Queue>
    requires t in s.threads
  {
    var c := s.threads[t];
    match c.status
    case Running => None
    case Ready => Some(ReadyQ)
    case Dead => if t in Q(s, ClearingQ) then Some(ClearingQ) else Some(DeadQ)
    case Waiting =>
      if c.crt == Some(KbdQ) then Some(KbdQ)
      else if c.pc.InWait? then Some(if c.pc.pid == 0 then AnyWaitQ(c.pc.at) else ExitWaitQ(c.pc.at))
      else Some(CvQ)
  }

  /** q holds, once each, exactly the threads whose home it is. */
  ghost predicate QueueLinked(s: State, q: Queue) {
    NoDup(Q(s, q)) && forall t :: t in Q(s, q) <==> t in s.threads && t != s.idle && Home(s, t) == Some(q)
  }

  ghost predicate Linked(s: State) {
    forall q :: QueueLinked(s, q)
  }

  /** The crt_queue field: known for the queues that set it. */
  predicate CrtFits(c: Tcb) {
    match c.status
    case Running => c.crt == None
    case Ready => c.crt == Some(ReadyQ)
    case Dead => c.crt == Some(DeadQ)
    case Waiting => c.crt == None || c.crt == Some(KbdQ)
  }

  ghost predicate CrtOK(s: State) {
    forall t :: t in s.threads && t != s.idle ==> CrtFits(s.threads[t])
  }

  ghost predicate RunOK(s: State) {
    && s.idle in s.threads && s.current in s.threads && s.clean != s.idle
    && (forall t :: t in s.threads && t != s.idle && s.threads[t].status == Running ==> t == s.current)
    && (s.current != s.idle ==> s.threads[s.current].status != Dead)
  }

  ghost predicate LinkInv(s: State) {
    Linked(s) && CrtOK(s) && RunOK(s)
  }

  // ---------------------------------------------------------------- sequences

  lemma {:induction false} WithoutMembers(l: seq<nat>, t: nat)
    requires NoDup(l)
    ensures NoDup(Without(l, t)) && forall x :: x in Without(l, t) <==> x in l && x != t
  {
    if l != [] {
      assert NoDup(l[1..]);
      assert l == [l[0]] + l[1..];
      if l[0] == t {
        assert forall i :: 0 <= i < |l[1..]| ==> l[1..][i] == l[i + 1];
      } else {
        WithoutMembers(l[1..], t);
        var w := Without(l[1..], t);
        assert forall i :: 0 <= i < |w| ==> w[i] in w;
        assert l[0] !in l[1..] by {
          forall i | 0 <= i < |l[1..]| ensures l[1..][i] != l[0] { assert l[1..][i] == l[i + 1]; }
        }
      }
    }
  }

  lemma {:induction false} ReverseMembers(l: seq<nat>)
    requires NoDup(l)
    ensures NoDup(Reverse(l)) && forall x :: x in Reverse(l) <==> x in l
  {
    if l != [] {
      assert NoDup(l[1..]);
      assert l == [l[0]] + l[1..];
      ReverseMembers(l[1..]);
      var r := Reverse(l[1..]);
      assert l[0] !in l[1..] by {
        forall i | 0 <= i < |l[1..]| ensures l[1..][i] != l[0] { assert l[1..][i] == l[i + 1]; }
      }
      assert forall i :: 0 <= i < |r| ==> r[i] in r;
    }
  }

  lemma AddDistinct(l: seq<nat>, t: nat)
    requires NoDup(l) && t !in l
    ensures NoDup(l + [t]) && forall x :: x in l + [t] <==> x in l || x == t
    ensures NoDup([t] + l) && forall x :: x in [t] + l <==> x in l || x == t
  {
  }

  lemma TailDistinct(l: seq<nat>)
    requires NoDup(l) && l != []
    ensures NoDup(l[1..]) && forall x :: x in l[1..] <==> x in l && x != l[0]
  {
    assert l == [l[0]] + l[1..];
    forall i | 0 <= i < |l[1..]| ensures l[1..][i] != l[0] { assert l[1..][i] == l[i + 1]; }
  }

  lemma AppendDistinct(l: seq<nat>, m: seq<nat>)
    requires NoDup(l) && NoDup(m) && forall x :: x in l ==> x !in m
    ensures NoDup(l + m) && forall x :: x in l + m <==> x in l || x in m
  {
    forall i, j | 0 <= i < j < |l + m| ensures (l + m)[i] != (l + m)[j] {
      if i < |l| <= j {
        assert (l + m)[i] in l && (l + m)[j] in m;
      }
    }
  }

  // ---------------------------------------------------------------- one thread moves

  ghost predicate LostOne(l: seq<Tid>, l': seq<Tid>, t: Tid) {
    NoDup(l') && forall x :: x in l' <==> x in l && x != t
  }

  ghost predicate GainedOne(l: seq<Tid>, l': seq<Tid>, t: Tid) {
    NoDup(l') && forall x :: x in l' <==> x in l || x == t
  }

  /** Only thread t changes, and it leaves its old home for its new one. */
  ghost predicate Moves(s: State, s': State, t: Tid) {
    && t in s.threads && t in s'.threads && t != s.idle && s'.idle == s.idle
    && s'.threads == s.threads[t := s'.threads[t]]
    && Home(s, t) != Home(s', t)
    && (forall q :: Some(q) != Home(s, t) && Some(q) != Home(s', t) ==> Q(s', q) == Q(s, q))
    && (Home(s, t).Some? ==> LostOne(Q(s, Home(s, t).value), Q(s', Home(s, t).value), t))
    && (Home(s', t).Some? ==> GainedOne(Q(s, Home(s', t).value), Q(s', Home(s', t).value), t))
  }

  lemma HomeSame(s: State, s': State, t: Tid, x: Tid)
    requires Moves(s, s', t) && x in s.threads && x != t
    ensures x in s'.threads && Home(s', x) == Home(s, x)
  {
    assert s'.threads[x] == s.threads[x];
    assert x in Q(s', ClearingQ) <==> x in Q(s, ClearingQ);
  }

  lemma KeepMove(s: State, s': State, t: Tid)
    requires Linked(s) && Moves(s, s', t)
    ensures Linked(s')
  {
    forall q ensures QueueLinked(s', q) {
      assert QueueLinked(s, q);
      forall x ensures x in Q(s', q) <==> x in s'.threads && x != s'.idle && Home(s', x) == Some(q) {
        if x in s.threads && x != t {
          HomeSame(s, s', t, x);
        }
      }
    }
  }

  // ---------------------------------------------------------------- scheduler steps

  /** The running thread goes to the end of the ready queue. */
  lemma KeepRequeue(s: State, s': State)
    requires LinkMid(s) && s.current != s.idle && s.threads[s.current].status == Running
    requires s' == s.(threads := s.threads[s.current := s.threads[s.current].(status := Ready, crt := Some(ReadyQ))],
                      queues := s.queues[ReadyQ := Q(s, ReadyQ) + [s.current]])
    ensures Linked(s') && CrtOK(s')
    ensures forall t :: t in s'.threads && t != s'.idle ==> s'.threads[t].status != Running
  {
    assert QueueLinked(s, ReadyQ);
    AddDistinct(Q(s, ReadyQ), s.current);
    KeepMove(s, s', s.current);
  }

  /** The first ready thread starts to run. */
  lemma KeepDispatch(s: State, s': State)
    requires Linked(s) && CrtOK(s) && Q(s, ReadyQ) != [] && s.idle in s.threads && s.clean != s.idle
    requires forall t :: t in s.threads && t != s.idle ==> s.threads[t].status != Running
    requires var t := Q(s, ReadyQ)[0];
      t in s.threads && s' == s.(threads := s.threads[t := s.threads[t].(status := Running, crt := None)],
                                 queues := s.queues[ReadyQ := Q(s, ReadyQ)[1..]], current := t)
    ensures LinkInv(s')
  {
    var l := Q(s, ReadyQ);
    assert QueueLinked(s, ReadyQ);
    assert l[0] in l;
    TailDistinct(l);
    KeepMove(s, s', l[0]);
  }

  /** Nothing changes that the linking invariant reads. */
  lemma KeepSame(s: State, s': State)
    requires Linked(s) && s'.idle == s.idle && s'.threads.Keys == s.threads.Keys
    requires forall q :: Q(s', q) == Q(s, q)
    requires forall t :: t in s.threads && t != s.idle ==>
      && s'.threads[t].status == s.threads[t].status && s'.threads[t].crt == s.threads[t].crt
      && (s.threads[t].status == Waiting ==> s'.threads[t].pc == s.threads[t].pc)
    ensures Linked(s')
    ensures CrtOK(s) ==> CrtOK(s')
  {
    forall q ensures QueueLinked(s', q) {
      assert QueueLinked(s, q);
      forall x ensures x in Q(s', q) <==> x in s'.threads && x != s'.idle && Home(s', x) == Some(q) {
        if x in s.threads && x != s.idle {
          assert Home(s', x) == Home(s, x);
        }
      }
    }
  }

  /** RunOK, but the current thread may have died. */
  ghost predicate LinkMid(s: State) {
    && Linked(s) && CrtOK(s)
    && s.idle in s.threads && s.current in s.threads && s.clean != s.idle
    && (forall t :: t in s.threads && t != s.idle && s.threads[t].status == Running ==> t == s.current)
  }

  /** The first half of do_context_switch: a running thread other than the idle one is requeued. */
  ghost function Requeued(s: State): State
    requires s.current in s.threads
  {
    var c := s.threads[s.current];
    if c.status == Running && s.current != s.idle
    then s.(threads := s.threads[s.current := c.(status := Ready, crt := Some(ReadyQ))],
            queues := s.queues[ReadyQ := Q(s, ReadyQ) + [s.current]])
    else s
  }

  /** An empty ready queue hands the processor to the idle thread, which is never queued. */
  lemma SwitchToIdle(s: State)
    requires s.current in s.threads && s.idle in s.threads && Q(s, ReadyQ) == []
    ensures var r, n := Requeued(s), Switch(s);
      && n.current == s.idle && n.idle == s.idle && n.clean == s.clean
      && n.threads == r.threads[s.idle := r.threads[s.idle].(status := Running, crt := None)]
      && forall q :: Q(n, q) == Q(r, q)
  {
  }

  lemma SwitchToReady(s: State)
    requires s.current in s.threads && s.idle in s.threads && Q(s, ReadyQ) != [] && Q(s, ReadyQ)[0] in s.threads
    ensures var r, n, t := Requeued(s), Switch(s), Q(s, ReadyQ)[0];
      && Q(r, ReadyQ) != [] && Q(r, ReadyQ)[0] == t
      && n == r.(threads := r.threads[t := r.threads[t].(status := Running, crt := None)],
                 queues := r.queues[ReadyQ := Q(r, ReadyQ)[1..]], current := t)
  {
  }

  /** do_context_switch keeps the links; it is also the way out for a thread that has died. */
  lemma KeepSwitch(s: State)
    requires LinkMid(s)
    ensures LinkInv(Switch(s))
  {
    var r, n := Requeued(s), Switch(s);
    assert Linked(r) && CrtOK(r) && (forall t :: t in r.threads && t != r.idle ==> r.threads[t].status != Running) by {
      if r != s {
        KeepRequeue(s, r);
      }
    }
    hide Switch;
    if Q(s, ReadyQ) == [] {
      SwitchToIdle(s);
      hide Requeued;
      KeepSame(r, n);
    } else {
      assert QueueLinked(s, ReadyQ) && Q(s, ReadyQ)[0] in Q(s, ReadyQ);
      SwitchToReady(s);
      hide Requeued;
      KeepDispatch(r, n);
    }
  }

  /** Every thread of a wait queue becomes ready. */
  lemma KeepBulk(s: State, s': State, q: Queue)
    requires Linked(s) && CrtOK(s) && (q == KbdQ || q.AnyWaitQ? || q.ExitWaitQ?)
    requires s'.idle == s.idle && s'.threads == WakeThreads(s.threads, Q(s, q))
    requires Q(s', q) == [] && (forall r :: r != q && r != ReadyQ ==> Q(s', r) == Q(s, r))
    requires NoDup(Q(s', ReadyQ)) && forall t :: t in Q(s', ReadyQ) <==> t in Q(s, ReadyQ) || t in Q(s, q)
    ensures Linked(s') && CrtOK(s')
  {
    assert QueueLinked(s, q);
    forall r ensures QueueLinked(s', r) {
      assert QueueLinked(s, r);
      forall x ensures x in Q(s', r) <==> x in s'.threads && x != s'.idle && Home(s', x) == Some(r) {
        if x in s.threads && x != s.idle {
          assert x in Q(s', ClearingQ) <==> x in Q(s, ClearingQ);
          assert x !in Q(s, q) ==> Home(s', x) == Home(s, x);
          assert x in Q(s, q) ==> Home(s', x) == Some(ReadyQ);
        }
      }
    }
  }

  /** Two queues have no thread in common. */
  lemma Apart(s: State, q: Queue, r: Queue)
    requires Linked(s) && q != r
    ensures forall t :: t in Q(s, q) ==> t !in Q(s, r)
  {
    assert QueueLinked(s, q) && QueueLinked(s, r);
  }

  lemma KeepWakeAll(s: State, q: Queue)
    requires LinkMid(s) && (q.AnyWaitQ? || q.ExitWaitQ?)
    ensures LinkMid(WakeAll(s, q))
    ensures s.threads[s.current].status == Running && s.current != s.idle ==> WakeAll(s, q).threads[s.current] == s.threads[s.current]
  {
    var n := WakeAll(s, q);
    assert QueueLinked(s, ReadyQ) && QueueLinked(s, q);
    Apart(s, ReadyQ, q);
    AppendDistinct(Q(s, ReadyQ), Q(s, q));
    KeepBulk(s, n, q);
  }

  lemma KeepKeyArrives(s: State, k: Key)
    requires LinkInv(s)
    ensures LinkInv(KeyArrives(s, k))
  {
    var n := KeyArrives(s, k);
    assert QueueLinked(s, ReadyQ) && QueueLinked(s, KbdQ);
    Apart(s, KbdQ, ReadyQ);
    ReverseMembers(Q(s, KbdQ));
    AppendDistinct(Reverse(Q(s, KbdQ)), Q(s, ReadyQ));
    KeepBulk(s, n, KbdQ);
  }

  lemma KeepNotify(s: State)
    requires LinkMid(s)
    ensures LinkMid(Notify(s)) && Notify(s).current == s.current
    ensures s.threads[s.current].status in {Running, Dead} && s.current != s.idle ==> Notify(s).threads[s.current] == s.threads[s.current]
  {
    var l := Q(s, CvQ);
    assert QueueLinked(s, CvQ) && QueueLinked(s, ReadyQ);
    if l != [] {
      var t := l[0];
      assert t in l;
      TailDistinct(l);
      AddDistinct(Q(s, ReadyQ), t);
      KeepMove(s, Notify(s), t);
    }
  }

  /** The running thread dies. */
  lemma KeepDie(s: State)
    requires LinkMid(s) && s.current != s.idle && s.threads[s.current].status == Running
    ensures LinkMid(ToDead(s, s.current))
  {
    var t, n := s.current, ToDead(s, s.current);
    assert QueueLinked(s, DeadQ) && QueueLinked(s, ClearingQ);
    AddDistinct(Q(s, DeadQ), t);
    KeepMove(s, n, t);
  }

  /** A live thread leaves its queue for dead_tasks. */
  lemma KeepToDead(s: State, t: Tid)
    requires LinkInv(s) && t in s.threads && t != s.idle && s.threads[t].status in {Ready, Waiting} && s.threads[t].crt.Some?
    ensures var q := s.threads[t].crt.value; LinkMid(ToDead(SetQ(s, q, Without(Q(s, q), t)), t))
  {
    var q := s.threads[t].crt.value;
    var n := ToDead(SetQ(s, q, Without(Q(s, q), t)), t);
    assert CrtFits(s.threads[t]);
    assert QueueLinked(s, DeadQ) && QueueLinked(s, ClearingQ) && QueueLinked(s, q);
    AddDistinct(Q(s, DeadQ), t);
    WithoutMembers(Q(s, q), t);
    KeepMove(s, n, t);
  }

  /** The running thread blocks on a queue that becomes its home. */
  lemma KeepBlock(s: State, q: Queue, crt: Option<Queue>, front: bool)
    requires LinkInv(s) && s.current != s.idle && s.threads[s.current].status == Running
    requires Home(Block(s, q, crt, front), s.current) == Some(q) && (crt == None || crt == Some(KbdQ))
    ensures LinkInv(Block(s, q, crt, front))
  {
    var n := Block(s, q, crt, front);
    assert QueueLinked(s, q);
    AddDistinct(Q(s, q), s.current);
    KeepMove(s, n, s.current);
  }

  /** A new thread is published at the end of the ready queue. */
  lemma KeepNew(s: State, s': State, t: Tid)
    requires LinkInv(s) && t !in s.threads && s'.idle == s.idle && s'.current == s.current && s'.clean == s.clean
    requires t in s'.threads && s'.threads == s.threads[t := s'.threads[t]]
    requires s'.threads[t].status == Ready && s'.threads[t].crt == Some(ReadyQ)
    requires forall q :: Q(s', q) == if q == ReadyQ then Q(s, ReadyQ) + [t] else Q(s, q)
    ensures LinkInv(s')
  {
    assert QueueLinked(s, ReadyQ);
    AddDistinct(Q(s, ReadyQ), t);
    forall q ensures QueueLinked(s', q) {
      assert QueueLinked(s, q);
      forall x ensures x in Q(s', q) <==> x in s'.threads && x != s'.idle && Home(s', x) == Some(q) {
        if x in s.threads {
          assert Home(s', x) == Home(s, x);
        }
      }
    }
  }

  /** dead_tasks becomes the clean thread's own list. */
  lemma KeepGrab(s: State)
    requires LinkInv(s) && HasDeadResource(s) && Q(s, ClearingQ) == []
    ensures LinkInv(CleanTurn(s))
  {
    var n := CleanTurn(s);
    assert QueueLinked(s, DeadQ);
    forall q ensures QueueLinked(n, q) {
      assert QueueLinked(s, q);
      forall x ensures x in Q(n, q) <==> x in n.threads && x != n.idle && Home(n, x) == Some(q) {
        if x in s.threads && x != s.idle {
          assert s.threads[x].status == Dead ==> x in Q(s, DeadQ);
        }
      }
    }
  }

  lemma KeepDestroyThread(s: State)
    requires LinkInv(s) && Q(s, ClearingQ) != []
    ensures LinkInv(DestroyThread(s))
    ensures var t := Q(s, ClearingQ)[0]; t in s.threads && t != s.idle && s.threads[t].status == Dead && forall q :: t !in Q(DestroyThread(s), q)
  {
    var n, l := DestroyThread(s), Q(s, ClearingQ);
    var t := l[0];
    assert QueueLinked(s, ClearingQ) && t in l;
    TailDistinct(l);
    forall q ensures QueueLinked(n, q) {
      assert QueueLinked(s, q);
      forall x ensures x in Q(n, q) <==> x in n.threads && x != n.idle && Home(n, x) == Some(q) {
        if x in n.threads {
          assert Home(n, x) == Home(s, x);
        }
      }
    }
    forall q ensures t !in Q(n, q) {
      assert QueueLinked(n, q);
    }
  }
}
