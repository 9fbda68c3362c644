/**
  The scheduler, the blocking queues and the process calls as they update the kernel's data in place,
  each proved against its step in TaskSpec.
 */
module TaskCode {
  import opened Wrappers
  import opened TaskSpec
  import opened TaskLink
  import opened TaskTree
  import opened TaskCrew
  import opened TaskInv
  import opened TaskCalls
  import opened TaskExit
  import opened TaskExitTail
  import opened TaskRun
  import TaskKeys

  // ---------------------------------------------------------------- facts about the specification

  lemma WakeThreadsEmpty(th: Threads)
    ensures WakeThreads(th, []) == th
  {
  }

  lemma WakeThreadsNext(th: Threads, l: seq<Tid>, t: Tid)
    requires t in th
    ensures var w := WakeThreads(th, l); t in w && WakeThreads(th, l + [t]) == w[t := Woken(w[t])]
  {
    var w, v := WakeThreads(th, l), WakeThreads(th, l + [t]);
    assert forall u :: u in th ==> v[u] == if u == t then Woken(w[t]) else w[u];
  }

  lemma {:induction false} ReverseNext(l: seq<Tid>, t: Tid)
    ensures Reverse(l + [t]) == [t] + Reverse(l)
  {
    if l != [] {
      ReverseNext(l[1..], t);
      assert (l + [t])[1..] == l[1..] + [t] && (l + [t])[0] == l[0];
    } else {
      assert (l + [t])[1..] == [];
    }
  }

  lemma AfterReadNext(keys: seq<Key>)
    requires keys != []
    ensures AfterRead(keys) == if keys[0].make then keys[1..] else AfterRead(keys[1..])
    ensures HasPress(keys) == (keys[0].make || HasPress(keys[1..]))
  {
    if HasPress(keys[1..]) {
      var i :| 0 <= i < |keys[1..]| && keys[1..][i].make;
      assert keys[i + 1].make;
    }
    if HasPress(keys) && !keys[0].make {
      var i :| 0 <= i < |keys| && keys[i].make;
      assert keys[1..][i - 1].make;
    }
  }

  lemma SeqStep(l: seq<Tid>, i: nat)
    requires i < |l|
    ensures l[i] in l && l[i..] != [] && l[i..][0] == l[i] && l[i..][1..] == l[i + 1..] && l[..i] + [l[i]] == l[..i + 1]
  {
  }

  type Queues = map<Queue, seq<Tid>>

  function Get(qs: Queues, q: Queue): seq<Tid> { if q in qs then qs[q] else [] }

  /** Queue q after its first i threads have moved to the end of the ready queue. */
  ghost function Moving(qs: Queues, q: Queue, i: nat): Queues
    requires i <= |Get(qs, q)|
  {
    if i == 0 then qs else qs[q := Get(qs, q)[i..]][ReadyQ := Get(qs, ReadyQ) + Get(qs, q)[..i]]
  }

  /** Key i is the oldest one that was pressed. */
  ghost predicate FirstPress(keys: seq<Key>, i: nat) {
    i < |keys| && keys[i].make && forall j :: 0 <= j < i ==> !keys[j].make
  }

  /** When the loop is done the state is the specified one. */
  lemma MovedAll(s: State, q: Queue)
    requires q != ReadyQ
    ensures WakeAll(s, q) == s.(threads := WakeThreads(s.threads, Q(s, q)), queues := Moving(s.queues, q, |Q(s, q)|))
  {
    WakeThreadsEmpty(s.threads);
    var l := Q(s, q);
    assert l[|l|..] == [] && l[..|l|] == l;
  }

  /** The waiters come behind the ready threads, in their order. */
  lemma MovedOrder(s: State, q: Queue)
    requires q != ReadyQ
    ensures Q(WakeAll(s, q), q) == [] && Q(WakeAll(s, q), ReadyQ) == Q(s, ReadyQ) + Q(s, q)
  {
  }

  lemma MovingNext(qs: Queues, q: Queue, i: nat)
    requires q != ReadyQ && i < |Get(qs, q)|
    ensures var m, t := Moving(qs, q, i), Get(qs, q)[i];
      && Get(m, q) == Get(qs, q)[i..] && Get(m, q)[0] == t && Get(Moving(qs, q, i + 1), q) == Get(qs, q)[i + 1..]
      && Moving(qs, q, i + 1) == m[ReadyQ := Get(m, ReadyQ) + [t]][q := Get(m, q)[1..]]
  {
    var l, m := Get(qs, q), Moving(qs, q, i);
    assert l[..i] + [l[i]] == l[..i + 1] && l[i..][1..] == l[i + 1..] && l[i..][0] == l[i];
    assert Get(m, ReadyQ) == Get(qs, ReadyQ) + l[..i];
    assert Get(m, ReadyQ) + [l[i]] == Get(qs, ReadyQ) + l[..i + 1];
  }

  /** Marking a thread DEAD before or after the notification is the same. */
  lemma DeadCommutes(s: State, t: Tid)
    requires t in s.threads && (Q(s, CvQ) != [] ==> Q(s, CvQ)[0] in s.threads && Q(s, CvQ)[0] != t)
    ensures var s1 := s.(threads := s.threads[t := s.threads[t].(crt := Some(DeadQ))], queues := s.queues[DeadQ := Q(s, DeadQ) + [t]]);
      var n := Notify(s1);
      t in n.threads && Notify(ToDead(s, t)) == n.(threads := n.threads[t := n.threads[t].(status := Dead)])
  {
  }

  /** do_context_switch before it picks the next thread: the idle thread and the old one have been queued where they are to be. */
  ghost predicate BeforePick(s: State, th: Threads, q: seq<Tid>) {
    && s.current in s.threads && s.idle in s.threads && (Q(s, ReadyQ) != [] ==> Q(s, ReadyQ)[0] in s.threads)
    && var requeue := s.threads[s.current].status == Running && s.current != s.idle;
       var th0 := if Q(s, ReadyQ) == [] then s.threads[s.idle := s.threads[s.idle].(crt := Some(ReadyQ))] else s.threads;
       && th == (if requeue then th0[s.current := s.threads[s.current].(status := Ready, crt := Some(ReadyQ))] else th0)
       && q == (if Q(s, ReadyQ) == [] then [s.idle] else Q(s, ReadyQ)) + if requeue then [s.current] else []
  }

  lemma Picked(s: State, th: Threads, q: seq<Tid>)
    requires BeforePick(s, th, q)
    ensures q != [] && q[0] in th
    ensures Switch(s) == s.(threads := th[q[0] := th[q[0]].(status := Running, crt := None)], queues := s.queues[ReadyQ := q[1..]], current := q[0])
  {
    var n := Switch(s);
    assert q[0] == n.current && Q(n, ReadyQ) == q[1..];
    assert n.threads == th[q[0] := th[q[0]].(status := Running, crt := None)];
  }

  lemma Replaced(qs: Queues, qs': Queues, l: seq<Tid>)
    requires qs[ReadyQ := []] == qs'[ReadyQ := []]
    ensures qs[ReadyQ := l] == qs'[ReadyQ := l]
  {
    assert qs[ReadyQ := l] == qs[ReadyQ := []][ReadyQ := l];
    assert qs'[ReadyQ := l] == qs'[ReadyQ := []][ReadyQ := l];
  }

  /** The ready queue after the first i readers have been put in front of it. */
  ghost function Fronted(l: seq<Tid>, i: nat, r: seq<Tid>): seq<Tid>
    requires i <= |l|
  {
    Reverse(l[..i]) + r
  }

  lemma FrontedNext(l: seq<Tid>, i: nat, r: seq<Tid>)
    requires i < |l|
    ensures Fronted(l, 0, r) == r && Fronted(l, i + 1, r) == [l[i]] + Fronted(l, i, r)
  {
    assert l[..0] == [] && Reverse([]) + r == r;
    ReverseNext(l[..i], l[i]);
    assert l[..i] + [l[i]] == l[..i + 1];
    assert [l[i]] + Reverse(l[..i]) + r == [l[i]] + (Reverse(l[..i]) + r);
  }

  // ---------------------------------------------------------------- the killing loop

  lemma {:induction false} KillAllMore(s: State, l: seq<Tid>, m: seq<Tid>)
    ensures KillAll(s, l + m) == if KillAll(s, l).Next? then KillAll(KillAll(s, l).s, m) else KillAll(s, l)
    decreases |l|
  {
    if l == [] {
      assert l + m == m;
    } else {
      assert (l + m)[0] == l[0] && (l + m)[1..] == l[1..] + m;
      if l[0] in s.threads {
        var o := Kill(s, l[0]);
        if o.Next? {
          KillAllMore(o.s, l[1..], m);
        }
      }
    }
  }

  lemma KillAllOne(s: State, t: Tid)
    ensures t in s.threads ==> KillAll(s, [t]) == Kill(s, t)
  {
    assert [t][1..] == [];
    if t in s.threads && Kill(s, t).Next? {
      assert KillAll(Kill(s, t).s, []) == Next(Kill(s, t).s);
    }
  }

  /** The i-th turn within the loop. */
  lemma KillSplit(s: State, m: State, order: seq<Tid>, i: nat)
    requires i < |order| && KillAll(s, order[..i]) == Next(m) && order[i] in m.threads
    ensures KillAll(s, order[..i + 1]) == Kill(m, order[i])
    ensures Kill(m, order[i]).Panics? ==> KillAll(s, order).Panics?
  {
    var t, l, rest := order[i], order[..i], order[i + 1..];
    assert order[..i + 1] == l + [t] && order == l + ([t] + rest);
    hide KillAll, Kill;
    KillAllMore(s, l, [t]);
    KillAllMore(s, l, [t] + rest);
    KillAllMore(m, [t], rest);
    KillAllOne(m, t);
  }

  /** What the i-th turn of the killing loop finds. */
  lemma KillReady(s: State, m: State, order: seq<Tid>, i: nat)
    requires KillMid(s) && NoDup(order) && (forall t :: t in order ==> Victim(s, t)) && i < |order| && KillAll(s, order[..i]) == Next(m)
    ensures var t := order[i];
      && t in m.threads && m.threads[t].crt != Some(CvQ) && (Q(m, CvQ) != [] ==> Q(m, CvQ)[0] in m.threads && Q(m, CvQ)[0] != t)
      && KillAll(s, order[..i + 1]) == Kill(m, t) && (Kill(m, t).Panics? ==> KillAll(s, order).Panics?)
  {
    var t, l := order[i], order[..i];
    assert t in order && t !in l && NoDup(l);
    hide KillAll, Kill, KillMid, Killed, Victim, NoQueue, NoDup;
    KeepKillAll(s, l);
    VictimStill(s, m, l, t);
    KillSplit(s, m, order, i);
  }

  lemma VictimStill(s: State, m: State, l: seq<Tid>, t: Tid)
    requires Victim(s, t) && Killed(s, m, Elems(l)) && t !in l && KillMid(m)
    ensures t in m.threads && m.threads[t].crt != Some(CvQ) && (Q(m, CvQ) != [] ==> Q(m, CvQ)[0] in m.threads && Q(m, CvQ)[0] != t)
  {
    assert CrtFits(m.threads[t]);
    assert QueueLinked(m, CvQ);
    assert Q(m, CvQ) != [] ==> Q(m, CvQ)[0] in Q(m, CvQ);
  }

  /** The order in which a table yields its keys. */
  method Enumerate(ts: set<Tid>) returns (order: seq<Tid>)
    ensures NoDup(order) && forall t :: t in order <==> t in ts
  {
    var rest := ts;
    order := [];
    while rest != {}
      invariant rest <= ts && NoDup(order) && forall t :: t in order <==> t in ts && t !in rest
      decreases rest
    {
      var t :| t in rest;
      AddDistinct(order, t);
      order := order + [t];
      rest := rest - {t};
    }
  }

  // ---------------------------------------------------------------- the reparenting loops

  type Table = map<Pid, Ref>

  ghost function Pick(m: Table, d: set<Pid>): Table { map y | y in m && y in d :: m[y] }

  lemma PickFacts(m: Table, d: set<Pid>, x: Pid)
    ensures Pick(m, {}) == map[] && Pick(m, m.Keys) == m && m - {} == m
    ensures x in m ==> Pick(m, d + {x}) == Pick(m, d)[x := m[x]] && m - (d + {x}) == (m - d) - {x}
  {
  }

  lemma AddThenSet(a: Table, b: Table, x: Pid, c: Ref)
    ensures a + b[x := c] == (a + b)[x := c]
  {
  }

  /** r is filed under its own id in m, among the keys d. */
  ghost predicate FiledIn(k: Kin, r: Ref, m: Table, d: set<Pid>)
    requires r in k.procs
  {
    k.procs[r].id in d && k.procs[r].id in m && m[k.procs[r].id] == r
  }

  /** Process r after the children under the keys d and the exited children under the keys e have moved from p to init. */
  ghost function Part(k: Kin, p: Ref, r: Ref, d: set<Pid>, e: set<Pid>): Pcb
    requires p in k.procs && r in k.procs
  {
    var b := k.procs[p];
    var a := if FiledIn(k, r, b.children, d) || FiledIn(k, r, b.gone, e) then k.procs[r].(parent := Some(k.initP)) else k.procs[r];
    if r == p then a.(children := b.children - d, gone := b.gone - e)
    else if r == k.initP then a.(children := a.children + Pick(b.children, d) + Pick(b.gone, e), gone := a.gone + Pick(b.gone, e))
    else a
  }

  ghost predicate Partly(k: Kin, procs: map<Ref, Pcb>, p: Ref, d: set<Pid>, e: set<Pid>)
    requires p in k.procs
  {
    procs.Keys == k.procs.Keys && forall r :: r in procs ==> procs[r] == Part(k, p, r, d, e)
  }

  lemma PartNone(k: Kin, p: Ref)
    requires p in k.procs
    ensures Partly(k, k.procs, p, {}, {})
  {
    PickFacts(k.procs[p].children, {}, 0);
    PickFacts(k.procs[p].gone, {}, 0);
    hide Pick;
  }

  /** A child under key x: its own id is x, and it is neither p nor init. */
  lemma ChildFacts(k: Kin, p: Ref, x: Pid)
    requires KinInv(k) && p in k.procs
    ensures x in k.procs[p].children ==> var c := k.procs[p].children[x]; c in k.procs && k.procs[c].id == x && c != p && c != k.initP
    ensures x in k.procs[p].gone ==> x in k.procs[p].children && k.procs[p].gone[x] == k.procs[p].children[x]
  {
    assert Kid(k, p, x) == if x in k.procs[p].children then Some(k.procs[p].children[x]) else None;
    assert Gone(k, p, x) == if x in k.procs[p].gone then Some(k.procs[p].gone[x]) else None;
  }

  /** init and p are not among the children of p. */
  lemma NotFiled(k: Kin, p: Ref, d: set<Pid>, e: set<Pid>)
    requires KinInv(k) && p in k.procs
    ensures k.initP in k.procs && !FiledIn(k, k.initP, k.procs[p].children, d) && !FiledIn(k, k.initP, k.procs[p].gone, e)
    ensures !FiledIn(k, p, k.procs[p].children, d) && !FiledIn(k, p, k.procs[p].gone, e)
  {
    ChildFacts(k, p, k.procs[k.initP].id);
    ChildFacts(k, p, k.procs[p].id);
  }

  /** What the reparenting loops find: child c under key x, distinct from p and init, which are no children of p. */
  ghost predicate Movable(k: Kin, p: Ref, x: Pid, c: Ref, d: set<Pid>, e: set<Pid>) {
    && p in k.procs && k.initP in k.procs && p != k.initP && c in k.procs && k.procs[c].id == x && c != p && c != k.initP
    && !FiledIn(k, k.initP, k.procs[p].children, d) && !FiledIn(k, k.initP, k.procs[p].gone, e)
    && !FiledIn(k, p, k.procs[p].children, d) && !FiledIn(k, p, k.procs[p].gone, e)
  }

  lemma MovableChild(k: Kin, p: Ref, x: Pid, d: set<Pid>, e: set<Pid>)
    requires KinInv(k) && p in k.procs && p != k.initP
    ensures x in k.procs[p].children ==> Movable(k, p, x, k.procs[p].children[x], d, e)
    ensures x in k.procs[p].gone ==> Movable(k, p, x, k.procs[p].gone[x], d, e)
  {
    ChildFacts(k, p, x);
    NotFiled(k, p, d, e);
  }

  /** One turn of the first reparenting loop. */
  ghost function MovedChild(procs: map<Ref, Pcb>, initP: Ref, p: Ref, x: Pid, c: Ref): map<Ref, Pcb>
    requires p in procs && c in procs && initP in procs
  {
    var a := procs[p := procs[p].(children := procs[p].children - {x})];
    var b := a[c := a[c].(parent := Some(initP))];
    b[initP := b[initP].(children := b[initP].children[x := c])]
  }

  lemma MovedAt(procs: map<Ref, Pcb>, initP: Ref, p: Ref, x: Pid, c: Ref, r: Ref)
    requires p in procs && c in procs && initP in procs && p != c && c != initP && p != initP && r in procs
    ensures MovedChild(procs, initP, p, x, c)[r] ==
      if r == p then procs[p].(children := procs[p].children - {x})
      else if r == c then procs[c].(parent := Some(initP))
      else if r == initP then procs[initP].(children := procs[initP].children[x := c])
      else procs[r]
  {
  }

  lemma MovePart(k: Kin, p: Ref, d: set<Pid>, x: Pid, c: Ref, r: Ref)
    requires p in k.procs && r in k.procs && k.initP in k.procs && p != k.initP && x in k.procs[p].children && c == k.procs[p].children[x]
    requires c in k.procs && k.procs[c].id == x && c != p && c != k.initP && !FiledIn(k, k.initP, k.procs[p].children, d + {x}) && !FiledIn(k, p, k.procs[p].children, d + {x})
    ensures var a, b := Part(k, p, r, d, {}), Part(k, p, r, d + {x}, {});
      && (r == p ==> b == a.(children := a.children - {x}))
      && (r == c ==> b == a.(parent := Some(k.initP)))
      && (r == k.initP ==> b == a.(children := a.children[x := c]))
      && (r != p && r != c && r != k.initP ==> b == a)
  {
    PickFacts(k.procs[p].children, d, x);
    PickFacts(k.procs[p].gone, {}, 0);
    hide Pick;
    if r == k.initP {
      AddThenSet(k.procs[r].children, Pick(k.procs[p].children, d), x, c);
    }
  }

  lemma MoveEntry(k: Kin, procs: map<Ref, Pcb>, p: Ref, d: set<Pid>, x: Pid, c: Ref, r: Ref)
    requires Movable(k, p, x, c, d + {x}, {}) && r in k.procs && x in k.procs[p].children && c == k.procs[p].children[x]
    requires procs.Keys == k.procs.Keys && procs[r] == Part(k, p, r, d, {})
    ensures MovedChild(procs, k.initP, p, x, c)[r] == Part(k, p, r, d + {x}, {})
  {
    hide Part, FiledIn, MovedChild;
    MovedAt(procs, k.initP, p, x, c, r);
    MovePart(k, p, d, x, c, r);
  }

  lemma MoveNext(k: Kin, procs: map<Ref, Pcb>, p: Ref, d: set<Pid>, x: Pid, c: Ref)
    requires Movable(k, p, x, c, d + {x}, {}) && Partly(k, procs, p, d, {}) && x in k.procs[p].children && c == k.procs[p].children[x]
    ensures c in procs && p in procs && k.initP in procs && procs[c].id == x && Partly(k, MovedChild(procs, k.initP, p, x, c), p, d + {x}, {})
  {
    var n := MovedChild(procs, k.initP, p, x, c);
    assert n.Keys == procs.Keys;
    hide Part, FiledIn, MovedChild;
    PartId(k, p, c, d, {});
    forall r | r in n ensures n[r] == Part(k, p, r, d + {x}, {}) {
      MoveEntry(k, procs, p, d, x, c, r);
    }
  }

  lemma PartId(k: Kin, p: Ref, r: Ref, d: set<Pid>, e: set<Pid>)
    requires p in k.procs && r in k.procs
    ensures Part(k, p, r, d, e).id == k.procs[r].id
  {
  }

  lemma PartlyFacts(k: Kin, procs: map<Ref, Pcb>, p: Ref, d: set<Pid>, e: set<Pid>)
    requires p in k.procs && Partly(k, procs, p, d, e)
    ensures procs.Keys == k.procs.Keys && procs[p].children == k.procs[p].children - d && procs[p].gone == k.procs[p].gone - e
  {
  }

  /** One turn of the second loop. */
  ghost function MovedGone(procs: map<Ref, Pcb>, initP: Ref, p: Ref, x: Pid, c: Ref): map<Ref, Pcb>
    requires p in procs && c in procs && initP in procs
  {
    var a := procs[p := procs[p].(gone := procs[p].gone - {x})];
    var b := a[c := a[c].(parent := Some(initP))];
    b[initP := b[initP].(children := b[initP].children[x := c], gone := b[initP].gone[x := c])]
  }

  lemma GoneAt(procs: map<Ref, Pcb>, initP: Ref, p: Ref, x: Pid, c: Ref, r: Ref)
    requires p in procs && c in procs && initP in procs && p != c && c != initP && p != initP && r in procs
    ensures MovedGone(procs, initP, p, x, c)[r] ==
      if r == p then procs[p].(gone := procs[p].gone - {x})
      else if r == c then procs[c].(parent := Some(initP))
      else if r == initP then procs[initP].(children := procs[initP].children[x := c], gone := procs[initP].gone[x := c])
      else procs[r]
  {
  }

  lemma GonePart(k: Kin, p: Ref, e: set<Pid>, x: Pid, c: Ref, r: Ref)
    requires p in k.procs && r in k.procs && k.initP in k.procs && p != k.initP && x in k.procs[p].gone && c == k.procs[p].gone[x]
    requires c in k.procs && k.procs[c].id == x && c != p && c != k.initP
    requires !FiledIn(k, k.initP, k.procs[p].gone, e + {x}) && !FiledIn(k, p, k.procs[p].gone, e + {x})
    ensures var d := k.procs[p].children.Keys;
      var a, b := Part(k, p, r, d, e), Part(k, p, r, d, e + {x});
      && (r == p ==> b == a.(gone := a.gone - {x}))
      && (r == c ==> b == a.(parent := Some(k.initP)))
      && (r == k.initP ==> b == a.(children := a.children[x := c], gone := a.gone[x := c]))
      && (r != p && r != c && r != k.initP ==> b == a)
  {
    PickFacts(k.procs[p].gone, e, x);
    hide Pick;
    if r == k.initP {
      var base: Table, up: Table := k.procs[r].children, k.procs[r].gone;
      var d := k.procs[p].children.Keys;
      var pick: Table := Pick(k.procs[p].gone, e);
      var kids: Table := base + Pick(k.procs[p].children, d);
      AddThenSet(kids, pick, x, c);
      AddThenSet(up, pick, x, c);
    }
  }

  lemma GoneEntry(k: Kin, procs: map<Ref, Pcb>, p: Ref, e: set<Pid>, x: Pid, c: Ref, r: Ref)
    requires Movable(k, p, x, c, {}, e + {x}) && r in k.procs && x in k.procs[p].gone && c == k.procs[p].gone[x]
    requires procs.Keys == k.procs.Keys && procs[r] == Part(k, p, r, k.procs[p].children.Keys, e)
    ensures MovedGone(procs, k.initP, p, x, c)[r] == Part(k, p, r, k.procs[p].children.Keys, e + {x})
  {
    hide Part, FiledIn, MovedGone;
    GoneAt(procs, k.initP, p, x, c, r);
    GonePart(k, p, e, x, c, r);
  }

  lemma GoneNext(k: Kin, procs: map<Ref, Pcb>, p: Ref, e: set<Pid>, x: Pid, c: Ref)
    requires Movable(k, p, x, c, {}, e + {x}) && Partly(k, procs, p, k.procs[p].children.Keys, e) && x in k.procs[p].gone && c == k.procs[p].gone[x]
    ensures c in procs && p in procs && k.initP in procs && procs[c].id == x && Partly(k, MovedGone(procs, k.initP, p, x, c), p, k.procs[p].children.Keys, e + {x})
  {
    var n, d := MovedGone(procs, k.initP, p, x, c), k.procs[p].children.Keys;
    assert n.Keys == procs.Keys;
    hide Part, FiledIn, MovedGone;
    PartId(k, p, c, d, e);
    forall r | r in n ensures n[r] == Part(k, p, r, d, e + {x}) {
      GoneEntry(k, procs, p, e, x, c, r);
    }
  }

  /** When both loops are done the result is the specified one. */
  lemma PartAll(k: Kin, procs: map<Ref, Pcb>, p: Ref)
    requires KinInv(k) && p in k.procs && p != k.initP && Partly(k, procs, p, k.procs[p].children.Keys, k.procs[p].gone.Keys)
    ensures procs == Reparent(k, p).procs
  {
    var d, e := k.procs[p].children.Keys, k.procs[p].gone.Keys;
    forall r | r in procs ensures procs[r] == Adopted(k, p, r) {
      PartAdopted(k, p, r);
    }
  }

  lemma PartAdopted(k: Kin, p: Ref, r: Ref)
    requires KinInv(k) && p in k.procs && r in k.procs && p != k.initP
    ensures Part(k, p, r, k.procs[p].children.Keys, k.procs[p].gone.Keys) == Adopted(k, p, r)
  {
    KidValue(k, p, r);
    PickFacts(k.procs[p].children, {}, 0);
    PickFacts(k.procs[p].gone, {}, 0);
    ChildFacts(k, p, k.procs[r].id);
    hide Pick, KinInv;
    assert KidOf(k, p, r) <==> FiledIn(k, r, k.procs[p].children, k.procs[p].children.Keys) || FiledIn(k, r, k.procs[p].gone, k.procs[p].gone.Keys);
    assert k.procs[p].children - k.procs[p].children.Keys == map[] && k.procs[p].gone - k.procs[p].gone.Keys == map[];
  }

  // ---------------------------------------------------------------- wait

  /** The exited children of p are filed under their ids, in both tables. */
  ghost predicate Sorted(procs: map<Ref, Pcb>, p: Ref) {
    p in procs && forall x :: x in procs[p].gone ==>
      procs[p].gone[x] in procs && procs[procs[p].gone[x]].id == x && x in procs[p].children && procs[p].children[x] == procs[p].gone[x]
  }

  /** process_wait(pid) has nothing to wait for. */
  ghost predicate NoSuchChild(a: Pcb, pid: Pid) { a.children == map[] || (pid > 0 && pid !in a.children) }

  /** The exited child under x is one that process_wait(pid) asks for. */
  ghost predicate Wanted(a: Pcb, pid: Pid, x: Pid) { x in a.gone && (pid == 0 || x == pid) }

  /** Where a thread of p that waits for pid sleeps. */
  function Bedside(p: Ref, a: Pcb, pid: Pid): Queue
    requires pid == 0 || pid in a.children
  {
    if pid == 0 then AnyWaitQ(p) else ExitWaitQ(a.children[pid])
  }

  /** The answer, when x is the key looked up. */
  ghost predicate Answer(a: Pcb, pid: Pid, x: Pid, r: WaitResult) {
    && (r.NoChild? <==> NoSuchChild(a, pid))
    && (r.Collected? <==> exists y :: Wanted(a, pid, y))
    && (r.Collected? ==> Wanted(a, pid, x))
  }

  lemma AnswerIs(a: Pcb, pid: Pid, x: Pid, r: WaitResult)
    requires a.gone.Keys <= a.children.Keys && if a.gone != map[] && pid == 0 then x in a.gone else x == pid
    requires r.NoChild? <==> NoSuchChild(a, pid)
    requires !NoSuchChild(a, pid) ==> (r.Collected? <==> a.gone != map[] && x in a.gone)
    ensures Answer(a, pid, x, r)
  {
    if y :| Wanted(a, pid, y) {
      assert y in a.gone.Keys && Wanted(a, pid, x);
    }
  }

  /**
    What process_wait(pid) answers: -1 exactly without such a child; it sleeps exactly when it says so; a child is
    collected exactly when one it asks for has exited, and the code is that child's.
   */
  ghost predicate Answered(s: State, n: State, pid: Pid, r: WaitResult)
    requires Acting(s)
  {
    var a := s.k.procs[Own(s)];
    && (r.NoChild? <==> a.children == map[] || (pid > 0 && pid !in a.children))
    && (r.Blocked? <==> s.current in n.threads && n.threads[s.current].status == Waiting)
    && (r.Blocked? ==> (pid == 0 || pid in a.children) && Q(n, Bedside(Own(s), a, pid)) == [s.current] + Q(s, Bedside(Own(s), a, pid)))
    && (r.Collected? <==> exists x :: Wanted(a, pid, x))
    && (r.Collected? ==> exists x :: Wanted(a, pid, x) && Reports(s, n, a.gone[x], r.code))
  }

  ghost predicate Reports(s: State, n: State, c: Ref, code: int) {
    c in s.k.procs && code == s.k.procs[c].code && n.k.reports == s.k.reports[c := code]
  }

  lemma AnsweredIs(s: State, n: State, pid: Pid, x: Pid, r: WaitResult)
    requires Acting(s) && Answer(s.k.procs[Own(s)], pid, x, r)
    requires s.current in n.threads && n.threads[s.current].status == if r.Blocked? then Waiting else Running
    requires r.Blocked? ==> var a := s.k.procs[Own(s)]; (pid == 0 || pid in a.children) && Q(n, Bedside(Own(s), a, pid)) == [s.current] + Q(s, Bedside(Own(s), a, pid))
    requires r.Collected? ==> x in s.k.procs[Own(s)].gone && Reports(s, n, s.k.procs[Own(s)].gone[x], r.code)
    ensures Answered(s, n, pid, r)
  {
  }

  /** What process_wait finds. */
  lemma WaitFinds(s: State)
    requires Inv(s) && Acting(s)
    ensures s.k.procs[Own(s)].waiting >= Weight(s.threads[s.current].pc) && s.threads[s.current].crt == None && Sorted(s.k.procs, Own(s))
  {
    WaiterCounted(s);
    OwnFacts(s);
    hide Inv;
    forall x | x in s.k.procs[Own(s)].gone
      ensures var c := s.k.procs[Own(s)].gone[x]; c in s.k.procs && s.k.procs[c].id == x && x in s.k.procs[Own(s)].children && s.k.procs[Own(s)].children[x] == c
    {
      WaitFindsChild(s, x);
    }
  }

  lemma WaitFindsChild(s: State, x: Pid)
    requires Inv(s) && Acting(s) && x in s.k.procs[Own(s)].gone
    ensures var c := s.k.procs[Own(s)].gone[x];
      && c in s.k.procs && s.k.procs[c].id == x && x in s.k.procs[Own(s)].children && s.k.procs[Own(s)].children[x] == c
      && c !in s.k.reports && c in s.k.exits && s.k.exits[c] == s.k.procs[c].code
  {
    FoundChild(s.k, Own(s), x);
  }

  /** The key hash_table_get_first yields: x if it is there. */
  ghost function FirstKey(m: Table, x: Pid): (y: Pid)
    ensures m != map[] ==> y in m
    ensures x in m ==> y == x
  {
    if x in m then x else if m == map[] then 0 else var z :| z in m; z
  }

  /** Which way a turn of process_wait goes. */
  lemma WaitIs(s: State, p: Ref, pid: Pid, first: Pid, x: Pid)
    requires s.current in s.threads && s.threads[s.current].proc == Some(p) && p in s.k.procs
    requires var a := s.k.procs[p];
      if a.gone == map[] then x == pid else if pid == 0 then x in a.gone && first == x else x == pid && first in a.gone && (x in a.gone ==> first == x)
    ensures var counted, o := s.threads[s.current].pc.InWait?, Wait(s, pid, first);
      var a := s.k.procs[p];
      if |a.children| == 0 || (pid > 0 && pid !in a.children) then o == WaitFails(s, p, counted)
      else if a.gone != map[] && x in a.gone then o == Reap(s, p, x, counted)
      else (pid == 0 || pid in a.children) && o == Next(WaitBlocks(s, p, pid, counted))
  {
  }

  // ---------------------------------------------------------------- exit

  lemma InvKin(s: State)
    requires Inv(s)
    ensures KinInv(s.k)
  {
  }

  lemma OnlyProcs(s: State, m: State, p: Ref)
    requires p in s.k.procs && m == s.(k := s.k.(procs := m.k.procs)) && m.k.procs == Reparent(s.k, p).procs
    ensures m == s.(k := Reparent(s.k, p))
  {
  }

  /** The marked state, in which only sleepers on p and on any child of its parent wait in vain. */
  ghost predicate Departing(s4: State, p: Ref, parent: Ref) {
    && Sound(s4, {ExitWaitQ(p), AnyWaitQ(parent)}) && OwnedBut(s4, s4.current) && s4.current != s4.idle && s4.current != s4.clean
    && s4.threads[s4.current].status == Running && s4.threads[s4.current].proc.None?
  }

  lemma DepartingSound(s4: State, p: Ref, parent: Ref)
    requires Departing(s4, p, parent)
    ensures Sound(s4, {ExitWaitQ(p), AnyWaitQ(parent)}) && OwnedBut(s4, s4.current) && s4.current != s4.idle && s4.current != s4.clean
    ensures s4.threads[s4.current].status == Running && s4.threads[s4.current].proc.None?
  {
  }

  lemma IdleIn(s6: State, s8: State)
    requires s6.current in s6.threads && s8 == Notify(ToDead(s6, s6.current)) && s8.idle in s8.threads
    ensures s6.idle in s6.threads
  {
  }

  /** process_exit up to the marking, as ExitTail has it. */
  ghost predicate Dissolved(s: State, s4: State, p: Ref, parent: Ref, code: int) {
    && p in s.k.procs && parent in s.k.procs && s.current in s.threads && s.idle in s.threads
    && DissolvedFrom(s.(k := Reparent(s.k, p)), s4, p, parent, code)
  }

  ghost predicate DissolvedFrom(s2: State, s4: State, p: Ref, parent: Ref, code: int) {
    var s3 := WakeAll(s2, AnyWaitQ(s2.k.initP));
    && p in s2.k.procs && Targets(s2, AnyWaitQ(s2.k.initP), 0) && s2.current in s2.k.procs[p].threads
    && s3.current in s3.threads && p in s3.k.procs && parent in s3.k.procs
    && s4 == Orphan(s3, s3.current).(k := MarkExit(s3.k, p, parent, code, s3.current))
    && p in s4.k.procs && Targets(s4, ExitWaitQ(p), s4.k.procs[p].id) && Departing(s4, p, parent)
  }

  /** What a turn of process_wait reports. */
  ghost predicate Reported(s: State, n: State, r: WaitResult) {
    if r.Collected? then exists c :: c !in s.k.reports && c in s.k.exits && r.code == s.k.exits[c] && n.k.reports == s.k.reports[c := r.code]
    else n.k.reports == s.k.reports
  }

  lemma NothingReported(s: State, n: State, r: WaitResult)
    requires !r.Collected? && n.k.reports == s.k.reports
    ensures Reported(s, n, r)
  {
  }

  lemma CollectReports(s: State, n: State, x: Pid, r: WaitResult)
    requires Inv(s) && Acting(s) && x in s.k.procs[Own(s)].gone
    requires var c := s.k.procs[Own(s)].gone[x]; c in s.k.procs && r == Collected(s.k.procs[c].code) && n.k.reports == s.k.reports[c := r.code]
    ensures Reported(s, n, r)
  {
    WaitFindsChild(s, x);
  }

  lemma CanWait(s: State, pid: Pid, first: Pid)
    requires Inv(s) && Acting(s) && (s.threads[s.current].pc == User || (s.threads[s.current].pc.InWait? && s.threads[s.current].pc.pid == pid))
    requires s.k.procs[Own(s)].gone != map[] ==> first in s.k.procs[Own(s)].gone
    ensures Enabled(s, WaitStep(pid, first)) && Wait(s, pid, first).Next? && Inv(Wait(s, pid, first).s)
  {
    hide Inv, Wait;
    KeepWaitStep(s, pid, first);
  }

  datatype WaitResult = NoChild | Collected(code: int) | Blocked

  /** The state after the first i waiters of q have been woken. */
  ghost predicate Progress(s: State, q: Queue, i: nat, th: Threads, qs: Queues) {
    i <= |Q(s, q)| && th == WakeThreads(s.threads, Q(s, q)[..i]) && qs == Moving(s.queues, q, i)
  }

  lemma ProgressStarts(s: State, q: Queue)
    ensures Progress(s, q, 0, s.threads, s.queues)
  {
    assert Q(s, q)[..0] == [];
    WakeThreadsEmpty(s.threads);
  }

  lemma ProgressHead(s: State, q: Queue, i: nat, th: Threads, qs: Queues)
    requires q != ReadyQ && Progress(s, q, i, th, qs) && i < |Q(s, q)| && forall t :: t in Q(s, q) ==> t in s.threads
    ensures Get(qs, q) != [] && Get(qs, q)[0] == Q(s, q)[i] && Q(s, q)[i] in th
  {
    MovingNext(s.queues, q, i);
    SeqStep(Q(s, q), i);
  }

  lemma ProgressNext(s: State, q: Queue, i: nat, th: Threads, qs: Queues, th': Threads, qs': Queues)
    requires q != ReadyQ && Progress(s, q, i, th, qs) && i < |Q(s, q)| && forall t :: t in Q(s, q) ==> t in s.threads
    requires Get(qs, q) != [] && Get(qs, q)[0] == Q(s, q)[i] && Q(s, q)[i] in th
    requires var t := Get(qs, q)[0]; th' == th[t := Woken(th[t])] && qs' == qs[ReadyQ := Get(qs, ReadyQ) + [t]][q := Get(qs, q)[1..]]
    ensures Progress(s, q, i + 1, th', qs') && Get(qs', q) == Q(s, q)[i + 1..]
  {
    var l := Q(s, q);
    SeqStep(l, i);
    WakeThreadsNext(s.threads, l[..i], l[i]);
    MovingNext(s.queues, q, i);
  }

  lemma ProgressEnds(s: State, q: Queue, i: nat, th: Threads, qs: Queues)
    requires q != ReadyQ && Progress(s, q, i, th, qs) && Get(qs, q) == Q(s, q)[i..] == []
    ensures WakeAll(s, q) == s.(threads := th, queues := qs)
  {
    assert i == |Q(s, q)| && Q(s, q)[..i] == Q(s, q);
    MovedAll(s, q);
  }

  class Kernel {
    var threads: map<Tid, Tcb>
    var queues: Queues
    var current: Tid
    const idle: Tid
    const clean: Tid
    var keys: seq<Key>
    var procs: map<Ref, Pcb>
    const mainP: Ref
    const initP: Ref
    var dead: seq<Ref>
    var clearing: seq<Ref>
    ghost var exits: map<Ref, int>
    ghost var reports: map<Ref, int>

    ghost function Kindred(): Kin
      reads this
    {
      Kin(procs, mainP, initP, dead, clearing, exits, reports)
    }

    /** The state as the specification sees it. */
    ghost function Abs(): State
      reads this
    {
      State(threads, queues, current, idle, clean, keys, Kindred())
    }

    /** The kernel as kernel_main_thread leaves it. */
    constructor (mainP: Ref, initP: Ref)
      requires mainP != initP
      ensures Abs() == Boot(mainP, initP) && Inv(Abs())
    {
      threads := map[0 := Tcb(Ready, None, Some(mainP), User), 1 := Tcb(Ready, Some(ReadyQ), Some(mainP), User), 2 := Tcb(Ready, Some(ReadyQ), Some(initP), User)];
      queues := map[ReadyQ := [1, 2]];
      current, idle, clean, keys := 0, 0, 1, [];
      procs := map[mainP := Pcb(0, None, false, 0, {0, 1}, map[], map[], 0), initP := Pcb(1, None, false, 0, {2}, map[], map[], 0)];
      this.mainP, this.initP, dead, clearing, exits, reports := mainP, initP, [], [], map[], map[];
      new;
      BootInv(mainP, initP);
    }

    // -------------------------------------------------------------- scheduler

    /** add_thread_node_to_schedule(_head). */
    method Schedule(t: Tid, head: bool)
      requires t in threads
      modifies this`threads, this`queues
      ensures threads == old(threads)[t := Woken(old(threads[t]))]
      ensures queues == old(queues)[ReadyQ := if head then [t] + old(Get(queues, ReadyQ)) else old(Get(queues, ReadyQ)) + [t]]
    {
      threads := threads[t := threads[t].(status := if threads[t].status == Dead then Dead else Ready, crt := Some(ReadyQ))];
      queues := queues[ReadyQ := if head then [t] + Get(queues, ReadyQ) else Get(queues, ReadyQ) + [t]];
    }

    /** The first half of do_context_switch: the idle thread steps in for an empty queue, a running thread is requeued. */
    method QueueOld()
      requires current in threads && idle in threads && (Get(queues, ReadyQ) != [] ==> Get(queues, ReadyQ)[0] in threads)
      modifies this`threads, this`queues
      ensures BeforePick(old(Abs()), threads, Get(queues, ReadyQ))
      ensures queues[ReadyQ := []] == old(queues)[ReadyQ := []]
    {
      if Get(queues, ReadyQ) == [] {
        threads := threads[idle := threads[idle].(crt := Some(ReadyQ))];
        queues := queues[ReadyQ := [idle]];
      }
      if threads[current].status == Running && current != idle {
        threads := threads[current := threads[current].(status := Ready, crt := Some(ReadyQ))];
        queues := queues[ReadyQ := Get(queues, ReadyQ) + [current]];
      }
    }

    /** do_context_switch. */
    method DoContextSwitch()
      requires current in threads && idle in threads && (Get(queues, ReadyQ) != [] ==> Get(queues, ReadyQ)[0] in threads)
      modifies this`threads, this`queues, this`current
      ensures Abs() == Switch(old(Abs()))
    {
      hide BeforePick, Switch;
      ghost var s := Abs();
      QueueOld();
      Picked(s, threads, Get(queues, ReadyQ));
      Replaced(queues, s.queues, Get(queues, ReadyQ)[1..]);
      var next := Get(queues, ReadyQ)[0];
      threads := threads[next := threads[next].(status := Running)];
      queues := queues[ReadyQ := Get(queues, ReadyQ)[1..]];
      threads := threads[next := threads[next].(crt := None)];
      current := next;
    }

    /** cond_var_notify on dead_cv. */
    method CondVarNotify()
      requires Get(queues, CvQ) != [] ==> Get(queues, CvQ)[0] in threads
      modifies this`threads, this`queues
      ensures Abs() == Notify(old(Abs()))
      ensures var l := old(Get(queues, CvQ)); l != [] ==>
        Get(queues, CvQ) == l[1..] && Get(queues, ReadyQ) == old(Get(queues, ReadyQ)) + [l[0]]
    {
      if |Get(queues, CvQ)| != 0 {
        var t := Get(queues, CvQ)[0];
        queues := queues[CvQ := Get(queues, CvQ)[1..]];
        Schedule(t, false);
      }
    }

    /** One turn of those loops: the first waiter. */
    method WakeFirst(q: Queue)
      requires q != ReadyQ && Get(queues, q) != [] && Get(queues, q)[0] in threads
      modifies this`threads, this`queues
      ensures var t := old(Get(queues, q)[0]);
        && threads == old(threads)[t := Woken(old(threads)[t])]
        && queues == old(queues)[ReadyQ := old(Get(queues, ReadyQ)) + [t]][q := old(Get(queues, q))[1..]]
    {
      var t := Get(queues, q)[0];
      Schedule(t, false);
      queues := queues[q := Get(queues, q)[1..]];
    }

    /** The loops that empty a wait queue into the ready queue. */
    method WakeQueue(q: Queue)
      requires q != ReadyQ && forall t :: t in Get(queues, q) ==> t in threads
      modifies this`threads, this`queues
      ensures Abs() == WakeAll(old(Abs()), q)
      ensures Get(queues, q) == [] && Get(queues, ReadyQ) == old(Get(queues, ReadyQ)) + old(Get(queues, q))
    {
      ghost var s, i := Abs(), 0;
      ProgressStarts(s, q);
      MovedOrder(s, q);
      hide Progress, WakeAll;
      while Get(queues, q) != []
        invariant i <= |Q(s, q)| && Progress(s, q, i, threads, queues) && Get(queues, q) == Q(s, q)[i..]
        decreases |Q(s, q)| - i
      {
        ProgressHead(s, q, i, threads, queues);
        ghost var th, qs := threads, queues;
        WakeFirst(q);
        ProgressNext(s, q, i, th, qs, threads, queues);
        i := i + 1;
      }
      ProgressEnds(s, q, i, threads, queues);
    }

    /** add_dead_tasks, and the status its callers set behind it. */
    method AddDeadTask(t: Tid)
      requires t in threads && (Get(queues, CvQ) != [] ==> Get(queues, CvQ)[0] in threads && Get(queues, CvQ)[0] != t)
      modifies this`threads, this`queues
      ensures Abs() == Notify(ToDead(old(Abs()), t))
    {
      ghost var s := Abs();
      threads := threads[t := threads[t].(crt := Some(DeadQ))];
      queues := queues[DeadQ := Get(queues, DeadQ) + [t]];
      CondVarNotify();
      threads := threads[t := threads[t].(status := Dead)];
      DeadCommutes(s, t);
    }

    // -------------------------------------------------------------- keyboard

    /** keyboard_interrupt_handler, from the decoded key on. */
    method KeyboardInterrupt(key: Key)
      requires forall t :: t in Get(queues, KbdQ) ==> t in threads
      modifies this`threads, this`queues, this`keys
      ensures Abs() == KeyArrives(old(Abs()), key)
    {
      if |keys| != KEY_BUFFER {
        keys := keys + [key];
      }
      var moved := Get(queues, KbdQ);
      ghost var th, qs, l, i := threads, queues[KbdQ := []], moved, 0;
      queues := queues[KbdQ := []];
      ghost var ks := keys;
      WakeThreadsEmpty(threads);
      assert l[..0] == [];
      while moved != []
        invariant keys == ks && 0 <= i <= |l| && moved == l[i..]
        invariant threads == WakeThreads(th, l[..i])
        invariant queues == if i == 0 then qs else qs[ReadyQ := Fronted(l, i, Get(qs, ReadyQ))]
        decreases |l| - i
      {
        var t := moved[0];
        assert t == l[i] && t in l;
        moved := moved[1..];
        WakeThreadsNext(th, l[..i], t);
        FrontedNext(l, i, Get(qs, ReadyQ));
        Schedule(t, true);
        assert l[..i] + [t] == l[..i + 1];
        i := i + 1;
      }
      assert l[..i] == l;
    }

    /** One turn of read_keyboard_char_wait: the oldest pressed key, whose predecessors are dropped, or the thread blocks on an empty queue. */
    method ReadKeyTurn() returns (c: Option<int>)
      requires current in threads
      modifies this`threads, this`queues, this`keys
      ensures Abs() == ReadKey(old(Abs()))
      ensures c.Some? ==> exists i: nat :: FirstPress(old(keys), i) && c.value == old(keys)[i].character && keys == old(keys)[i + 1..]
      ensures c.Some? ==> threads == old(threads) && TaskKeys.Handed(old(Abs()), Step.ReadKeyTurn) == [Key(true, c.value)]
      ensures c.None? <==> forall i :: 0 <= i < |old(keys)| ==> !old(keys)[i].make
      ensures c.None? ==> keys == [] && threads[current].status == Waiting && Get(queues, KbdQ) == old(Get(queues, KbdQ)) + [current]
    {
      ghost var ks, i := keys, 0;
      c := None;
      assert ks[0..] == ks;
      while keys != [] && c == None
        invariant i <= |ks| && keys == ks[i..]
        invariant c == None ==> forall j :: 0 <= j < i ==> !ks[j].make
        invariant c != None ==> i > 0 && FirstPress(ks, i - 1) && c.value == ks[i - 1].character
        invariant c == None ==> AfterRead(ks) == AfterRead(keys) && HasPress(ks) == HasPress(keys)
        invariant c != None ==> AfterRead(ks) == keys && HasPress(ks)
        invariant unchanged(this`threads, this`queues)
        decreases |keys|
      {
        AfterReadNext(keys);
        var e := keys[0];
        keys := keys[1..];
        i := i + 1;
        if e.make {
          c := Some(e.character);
        }
      }
      if c != None {
        TaskKeys.FirstHanded(ks, i - 1);
      } else {
        threads := threads[current := threads[current].(crt := Some(KbdQ))];
        queues := queues[KbdQ := Get(queues, KbdQ) + [current]];
        threads := threads[current := threads[current].(status := Waiting)];
      }
    }

    /** read_keyboard_char_right_now: the oldest event, pressed or released. */
    method PollKeyTurn() returns (e: Option<Key>)
      modifies this`keys
      ensures e.None? <==> old(keys) == []
      ensures TaskKeys.Handed(old(Abs()), Step.PollKey) == if e.Some? then [e.value] else []
      ensures old(keys) == (if e.Some? then [e.value] else []) + keys
      ensures ActingOutside(old(Abs())) && old(idle in threads) ==> Take(old(Abs()), PollKey) == Next(Abs())
    {
      if keys == [] {
        return None;
      }
      e := Some(keys[0]);
      keys := keys[1..];
    }

    // -------------------------------------------------------------- clean thread

    /** cond_var_wait of the clean thread and, once something is dead, the two list moves. */
    method CleanThreadTurn() returns (blocked: bool)
      requires current in threads && Get(queues, ClearingQ) == [] && clearing == []
      modifies this`threads, this`queues, this`dead, this`clearing
      ensures Abs() == CleanTurn(old(Abs()))
      ensures blocked <==> old(dead) == [] && old(Get(queues, DeadQ)) == []
      ensures blocked ==> threads[current].status == Waiting && Get(queues, CvQ) == old(Get(queues, CvQ)) + [current]
      ensures !blocked ==> clearing == old(dead) && dead == [] && Get(queues, ClearingQ) == old(Get(queues, DeadQ)) && Get(queues, DeadQ) == []
    {
      if !(|dead| > 0 || |Get(queues, DeadQ)| > 0) {
        queues := queues[CvQ := Get(queues, CvQ) + [current]];
        threads := threads[current := threads[current].(status := Waiting)];
        return true;
      }
      queues := queues[ClearingQ := Get(queues, DeadQ)][DeadQ := []];
      clearing := dead;
      dead := [];
      blocked := false;
    }

    // -------------------------------------------------------------- fork and wait

    /** process_fork: the child's number, structure and thread are fresh. */
    method ProcessFork(tid: Tid, child: Ref, pid: Pid)
      requires current in threads && threads[current].proc.Some? && threads[current].proc.value in procs
      modifies this`threads, this`queues, this`procs
      ensures Abs() == Fork(old(Abs()), old(threads[current].proc.value), tid, child, pid)
    {
      var p := threads[current].proc.value;
      procs := procs[p := procs[p].(children := procs[p].children[pid := child])];
      procs := procs[child := Pcb(pid, Some(p), false, 0, {tid}, map[], map[], 0)];
      threads := threads[tid := Tcb(Ready, Some(ReadyQ), Some(child), User)];
      queues := queues[ReadyQ := Get(queues, ReadyQ) + [tid]];
    }

    /** add_dead_process of the child the current thread has reaped. */
    method AddDeadProcess()
      requires current in threads && threads[current].pc.Handing? && (Get(queues, CvQ) != [] ==> Get(queues, CvQ)[0] in threads)
      modifies this`threads, this`queues, this`dead
      ensures Abs() == HandOver(old(Abs()))
    {
      dead := dead + [threads[current].pc.child];
      threads := threads[current := threads[current].(pc := User)];
      CondVarNotify();
    }

    // -------------------------------------------------------------- killing the other threads

    /** One turn of the loop in clear_crt_process_other_thread_locked. */
    method KillThread(t: Tid) returns (panicked: bool)
      requires t in threads && (Get(queues, CvQ) != [] ==> Get(queues, CvQ)[0] in threads && Get(queues, CvQ)[0] != t)
      requires threads[t].crt != Some(CvQ)
      modifies this`threads, this`queues
      ensures panicked == Kill(old(Abs()), t).Panics? && (!panicked ==> Kill(old(Abs()), t) == Next(Abs()))
    {
      var c := threads[t];
      if c.crt.None? {
        return true;
      }
      queues := queues[c.crt.value := Without(Get(queues, c.crt.value), t)];
      threads := threads[t := c.(crt := None)];
      ghost var s := Abs();
      AddDeadTask(t);
      panicked := false;
      assert ToDead(s, t) == ToDead(old(Abs()).(queues := s.queues), t);
    }

    /** The killing loop over the listed threads. */
    method KillList(order: seq<Tid>) returns (panicked: bool)
      requires KillMid(Abs()) && NoDup(order) && forall t :: t in order ==> Victim(Abs(), t)
      modifies this`threads, this`queues
      ensures panicked == KillAll(old(Abs()), order).Panics?
      ensures !panicked ==> KillAll(old(Abs()), order) == Next(Abs())
    {
      ghost var s := Abs();
      hide KillMid, Kill, Victim, NoQueue, Killed, KillAll, NoDup;
      KeepKillAll(s, order);
      assert order[..0] == [];
      KillAllStep(s, []);
      for i := 0 to |order|
        invariant KillAll(s, order[..i]) == Next(Abs())
      {
        KillReady(s, Abs(), order, i);
        panicked := KillThread(order[i]);
        if panicked {
          return;
        }
      }
      assert order[..|order|] == order;
      panicked := false;
    }

    /** clear_crt_process_other_thread_locked. */
    method ClearOtherThreads(p: Ref) returns (panicked: bool, order: seq<Tid>)
      requires Inv(Abs()) && Acting(Abs()) && p == Own(Abs())
      modifies this`threads, this`queues, this`procs
      ensures Lists(order, old(Abs()), p)
      ensures panicked == KillOthers(old(Abs()), p, order).Panics?
      ensures !panicked ==> KillOthers(old(Abs()), p, order) == Next(Abs())
    {
      hide Inv, KillMid, Victim, KillAll;
      ghost var s := Abs();
      order := Enumerate(procs[p].threads - {current});
      Victims(s, order);
      InvKillMid(s);
      KeepKillAll(s, order);
      panicked := KillList(order);
      if !panicked {
        procs := procs[p := procs[p].(threads := {current})];
      }
    }

    // -------------------------------------------------------------- reparenting

    /** The first reparenting loop: the children go to init. */
    method MoveChildren(p: Ref)
      requires KinInv(Kindred()) && p in procs && p != initP
      modifies this`procs
      ensures Partly(old(Kindred()), procs, p, old(procs[p].children.Keys), {})
    {
      ghost var k := Kindred();
      ghost var d: set<Pid> := {};
      PartNone(k, p);
      hide KinInv, Partly, MovedChild, Movable;
      assert procs.Keys == k.procs.Keys && procs[p].children == k.procs[p].children - d;
      while procs[p].children != map[]
        invariant Partly(k, procs, p, d, {}) && procs.Keys == k.procs.Keys && procs[p].children == k.procs[p].children - d && d <= k.procs[p].children.Keys
        decreases k.procs[p].children.Keys - d
      {
        var x :| x in procs[p].children;
        var c := procs[p].children[x];
        MovableChild(k, p, x, d + {x}, {});
        MoveNext(k, procs, p, d, x, c);
        TakeChild(p, c);
        d := d + {x};
        assert procs.Keys == k.procs.Keys && procs[p].children == k.procs[p].children - d by { PartlyFacts(k, procs, p, d, {}); }
      }
      assert d == k.procs[p].children.Keys by {
        assert forall y :: y in k.procs[p].children && y !in d ==> y in procs[p].children;
      }
    }

    /** hash_table_remove and hash_table_put of one child. */
    method TakeChild(p: Ref, c: Ref)
      requires p in procs && c in procs && initP in procs
      modifies this`procs
      ensures procs == MovedChild(old(procs), initP, p, old(procs[c].id), c)
    {
      var id := procs[c].id;
      procs := procs[p := procs[p].(children := procs[p].children - {id})];
      procs := procs[c := procs[c].(parent := Some(initP))];
      procs := procs[initP := procs[initP].(children := procs[initP].children[id := c])];
    }

    method TakeGone(p: Ref, c: Ref)
      requires p in procs && c in procs && initP in procs
      modifies this`procs
      ensures procs == MovedGone(old(procs), initP, p, old(procs[c].id), c)
    {
      var id := procs[c].id;
      procs := procs[p := procs[p].(gone := procs[p].gone - {id})];
      procs := procs[c := procs[c].(parent := Some(initP))];
      procs := procs[initP := procs[initP].(children := procs[initP].children[id := c])];
      procs := procs[initP := procs[initP].(gone := procs[initP].gone[id := c])];
    }

    /** The second reparenting loop: the exited children go to init, into both of its tables. */
    method MoveGone(p: Ref, ghost k: Kin)
      requires KinInv(k) && p in k.procs && p != initP && initP == k.initP && Partly(k, procs, p, k.procs[p].children.Keys, {})
      modifies this`procs
      ensures procs == Reparent(k, p).procs
    {
      ghost var d, e := k.procs[p].children.Keys, {};
      PartlyFacts(k, procs, p, d, e);
      hide KinInv, Partly, MovedGone, Movable, Reparent;
      while procs[p].gone != map[]
        invariant Partly(k, procs, p, d, e) && procs.Keys == k.procs.Keys && procs[p].gone == k.procs[p].gone - e && e <= k.procs[p].gone.Keys
        decreases k.procs[p].gone.Keys - e
      {
        var x :| x in procs[p].gone;
        var c := procs[p].gone[x];
        MovableChild(k, p, x, {}, e + {x});
        GoneNext(k, procs, p, e, x, c);
        TakeGone(p, c);
        e := e + {x};
        PartlyFacts(k, procs, p, d, e);
      }
      assert e == k.procs[p].gone.Keys by {
        assert forall y :: y in k.procs[p].gone && y !in e ==> y in procs[p].gone;
      }
      PartAll(k, procs, p);
    }

    // -------------------------------------------------------------- wait

    /** The counter goes back and the thread leaves the loop of process_wait. */
    method LeaveWait(p: Ref, pc: Pc)
      requires current in threads && p in procs && procs[p].waiting >= Weight(threads[current].pc)
      modifies this`threads, this`procs
      ensures threads == old(threads)[current := old(threads[current]).(pc := pc)]
      ensures procs == old(procs)[p := old(procs[p]).(waiting := old(procs[p].waiting) - Weight(old(threads[current].pc)))]
    {
      if threads[current].pc.InWait? {
        procs := procs[p := procs[p].(waiting := procs[p].waiting - 1)];
      }
      threads := threads[current := threads[current].(pc := pc)];
    }

    /** process_wait gives up. */
    method GiveUp(p: Ref)
      requires current in threads && p in procs && procs[p].waiting >= Weight(threads[current].pc)
      modifies this`threads, this`procs
      ensures WaitFails(old(Abs()), p, old(threads[current].pc.InWait?)) == Next(Abs())
    {
      LeaveWait(p, User);
    }

    /** The end of process_wait: the child filed under x leaves both tables. */
    method Collect(p: Ref, x: Pid) returns (r: WaitResult)
      requires current in threads && p in procs && x in procs[p].gone && procs[p].waiting >= Weight(threads[current].pc)
      requires var c := procs[p].gone[x]; c in procs && procs[c].id == x && x in procs[p].children && procs[p].children[x] == c
      modifies this`threads, this`procs, this`reports
      ensures Reap(old(Abs()), p, x, old(threads[current].pc.InWait?)) == Next(Abs())
      ensures r == Collected(old(procs[procs[p].gone[x]].code)) && reports == old(reports)[old(procs[p].gone[x]) := r.code]
    {
      var c := procs[p].gone[x];
      var id, code := procs[c].id, procs[c].code;
      procs := procs[p := procs[p].(gone := procs[p].gone - {id})];
      procs := procs[p := procs[p].(children := procs[p].children - {id})];
      reports := reports[c := code];
      LeaveWait(p, Handing(c));
      r := Collected(code);
    }

    /** process_wait registers the thread, in front, and marks it blocked. */
    method GoToSleep(p: Ref, pid: Pid)
      requires current in threads && p in procs && (pid == 0 || pid in procs[p].children) && threads[current].crt == None && !threads[current].pc.Handing?
      modifies this`threads, this`queues, this`procs
      ensures Abs() == WaitBlocks(old(Abs()), p, pid, old(threads[current].pc.InWait?))
      ensures var q := old(Bedside(p, procs[p], pid)); Get(queues, q) == [current] + old(Get(queues, q))
    {
      var a := procs[p];
      if !threads[current].pc.InWait? {
        procs := procs[p := a.(waiting := a.waiting + 1)];
      } else {
        procs := procs[p := a];
      }
      var at := if pid == 0 then p else a.children[pid];
      var q := Bedside(p, a, pid);
      queues := queues[q := [current] + Get(queues, q)];
      threads := threads[current := threads[current].(pc := InWait(pid, at), status := Waiting)];
    }

    /** The body of the loop of process_wait(pid), on sound tables. */
    method WaitTurn(p: Ref, pid: Pid) returns (r: WaitResult, x: Pid)
      requires current in threads && threads[current].proc == Some(p) && Sorted(procs, p)
      requires procs[p].waiting >= Weight(threads[current].pc) && threads[current].crt == None && !threads[current].pc.Handing?
      modifies this`threads, this`queues, this`procs, this`reports
      ensures Wait(old(Abs()), pid, FirstKey(old(procs[p].gone), x)) == Next(Abs())
      ensures r.Collected? ==> x in old(procs[p].gone) && old(procs[p].gone[x]) in old(procs)
      ensures r.Collected? ==> r.code == old(procs)[old(procs[p].gone[x])].code && reports == old(reports)[old(procs[p].gone[x]) := r.code]
      ensures !r.Collected? ==> reports == old(reports)
      ensures Answer(old(procs[p]), pid, x, r)
      ensures r.Blocked? ==> (pid == 0 || pid in old(procs[p]).children)
      ensures r.Blocked? ==> var q := old(Bedside(p, procs[p], pid)); Get(queues, q) == [current] + old(Get(queues, q))
      ensures current in threads && threads[current].status == if r.Blocked? then Waiting else old(threads[current].status)
    {
      ghost var s := Abs();
      var a := procs[p];
      x := pid;
      if |a.gone| > 0 && pid == 0 {
        x :| x in a.gone;
      }
      ghost var first := FirstKey(a.gone, x);
      WaitIs(s, p, pid, first, x);
      hide Wait, WaitFails, Reap, WaitBlocks, Answer;
      if |a.children| == 0 || (pid > 0 && pid !in a.children) {
        GiveUp(p);
        r := NoChild;
      } else if |a.gone| > 0 && x in a.gone {
        r := Collect(p, x);
      } else {
        GoToSleep(p, pid);
        r := Blocked;
      }
      AnswerIs(a, pid, x, r);
    }

    /** One turn of process_wait(pid): the Asserts hold, and a collected child is reported once, with its code. */
    method ProcessWaitTurn(pid: Pid) returns (r: WaitResult, ghost first: Pid)
      requires Inv(Abs()) && Acting(Abs()) && (threads[current].pc == User || (threads[current].pc.InWait? && threads[current].pc.pid == pid))
      modifies this`threads, this`queues, this`procs, this`reports
      ensures Enabled(old(Abs()), WaitStep(pid, first)) && Wait(old(Abs()), pid, first) == Next(Abs()) && Inv(Abs())
      ensures Reported(old(Abs()), Abs(), r)
      ensures Answered(old(Abs()), Abs(), pid, r)
    {
      ghost var s := Abs();
      var p, x := threads[current].proc.value, 0;
      hide Inv, Wait, Enabled, Reported, Answer, Answered;
      WaitFinds(s);
      r, x := WaitTurn(p, pid);
      AnsweredIs(s, Abs(), pid, x, r);
      first := FirstKey(s.k.procs[p].gone, x);
      CanWait(s, pid, first);
      if r.Collected? {
        CollectReports(s, Abs(), x, r);
      } else {
        NothingReported(s, Abs(), r);
      }
    }

    // -------------------------------------------------------------- exit

    /** The exiting process is marked and filed with its parent; its last thread leaves it. */
    method MarkExited(p: Ref, parent: Ref, code: int)
      requires current in threads && p in procs && parent in procs && p != parent
      modifies this`threads, this`procs, this`exits
      ensures Abs() == Orphan(old(Abs()), current).(k := MarkExit(old(Kindred()), p, parent, code, current))
    {
      procs := procs[p := procs[p].(threads := procs[p].threads - {current})];
      procs := procs[p := procs[p].(exited := true, code := code)];
      exits := exits[p := code];
      threads := threads[current := threads[current].(proc := None)];
      procs := procs[parent := procs[parent].(gone := procs[parent].gone[procs[p].id := p])];
    }

    /** process_exit: both reparenting loops, the wake-up of init, the marking. */
    method Dissolve(p: Ref, parent: Ref, code: int)
      requires Inv(Abs()) && Alone(Abs(), p) && Leaving(Kindred(), p, parent)
      modifies this
      ensures Dissolved(old(Abs()), Abs(), p, parent, code)
    {
      hide Inv, Leaving, Alone, WakeAll, Reparent, MarkExit, Partly, Targets, Sound, OwnedBut, KinInv;
      ghost var s := Abs();
      ExitNames(s, p, parent);
      ghost var s2 := s.(k := Reparent(s.k, p));
      ghost var s3 := WakeAll(s2, AnyWaitQ(s2.k.initP));
      ghost var s4 := if s3.current in s3.threads && p in s3.k.procs && parent in s3.k.procs
                      then Orphan(s3, s3.current).(k := MarkExit(s3.k, p, parent, code, s3.current)) else s3;
      PathToMark(s, p, parent, code, s2, s3, s4);
      InvKin(s);
      MoveChildren(p);
      MoveGone(p, s.k);
      OnlyProcs(s, Abs(), p);
      assert initP == s2.k.initP;
      WakeQueue(AnyWaitQ(initP));
      MarkExited(p, parent, code);
    }

    /** process_exit from the marking on: wake-ups, death, the next thread. */
    method Depart(p: Ref, parent: Ref)
      requires Departing(Abs(), p, parent)
      modifies this
      ensures var s4 := old(Abs());
        var s5 := WakeAll(s4, ExitWaitQ(p));
        var s6 := WakeAll(s5, AnyWaitQ(parent));
        && Targets(s5, AnyWaitQ(parent), 0) && s6.current in s6.threads && s6.idle in s6.threads
        && (var s8 := Notify(ToDead(s6, s6.current)); s8.current in s8.threads && s8.idle in s8.threads && Abs() == Switch(s8) && Inv(Abs()))
    {
      hide Inv, WakeAll, ToDead, Notify, Switch, Targets;
      ghost var s4 := Abs();
      ghost var s5 := WakeAll(s4, ExitWaitQ(p));
      ghost var s6 := WakeAll(s5, AnyWaitQ(parent));
      ghost var s8 := if s6.current in s6.threads then Notify(ToDead(s6, s6.current)) else s6;
      DepartingSound(s4, p, parent);
      PathToSwitch(s4, p, parent, s5, s6, s8);
      hide Departing, Sound, OwnedBut;
      WakeQueue(ExitWaitQ(p));
      WakeQueue(AnyWaitQ(parent));
      AddDeadTask(current);
      DoContextSwitch();
      assert s6.idle in s6.threads by { IdleIn(s6, s8); }
    }

    /** process_exit from the reparenting on. */
    method ExitTailCode(p: Ref, parent: Ref, code: int)
      requires Inv(Abs()) && Alone(Abs(), p) && Leaving(Kindred(), p, parent)
      modifies this
      ensures ExitTail(old(Abs()), p, parent, code) == Next(Abs()) && Inv(Abs())
    {
      hide Inv, Leaving, Alone, WakeAll, ToDead, Notify, Switch, Reparent, MarkExit, Targets, Departing;
      Dissolve(p, parent, code);
      Depart(p, parent);
    }

    /** process_exit: panics exactly in the listed cases, otherwise ends in the next thread's context. */
    method ProcessExit(code: int) returns (panicked: bool, order: seq<Tid>)
      requires Inv(Abs()) && ActingOutside(Abs())
      modifies this
      ensures Lists(order, old(Abs()), old(Own(Abs())))
      ensures panicked <==> ExitPanics(old(Abs()))
      ensures !panicked ==> Exit(old(Abs()), code, order) == Next(Abs()) && Inv(Abs())
    {
      ghost var s := Abs();
      var p := threads[current].proc.value;
      var a := procs[p];
      order := Enumerate(a.threads - {current});
      hide Inv, Exit, ExitTail, KillOthers, Leaving, Alone;
      InvNames(s);
      if p == initP || a.waiting > 0 {
        return true, order;
      }
      ExitLeaving(s, p);
      if |a.threads| > 1 {
        panicked, order := ClearOtherThreads(p);
        KillPanicsExit(s, p, order);
        if panicked {
          return;
        }
        KilledIn(s, p, order);
        ExitIs(s, p, code, order);
        ExitTailCode(p, a.parent.value, code);
      } else {
        ExitAlone(s, p);
        ExitIs(s, p, code, order);
        ExitTailCode(p, a.parent.value, code);
      }
      panicked := false;
    }
  }
}
