/** Bounded waiting: without insertions at the head, a ready thread runs after as many switches as its place says. */
module TaskFair {
  import opened Wrappers
  import opened TaskSpec
  import opened TaskLink
  import opened TaskCrew
  import opened TaskInv
  import opened TaskCalls
  import opened TaskExit
  import opened TaskRun

  /** The place of t in l. */
  ghost function Pos(l: seq<Tid>, t: Tid): nat {
    if l == [] || l[0] == t then 0 else 1 + Pos(l[1..], t)
  }

  /** t is still in the queue and no further from its head. */
  ghost predicate NoLater(l: seq<Tid>, m: seq<Tid>, t: Tid) {
    t in l && t in m && Pos(m, t) <= Pos(l, t)
  }

  lemma {:induction false} PosAppend(l: seq<Tid>, m: seq<Tid>, t: Tid)
    requires t in l
    ensures Pos(l + m, t) == Pos(l, t)
  {
    if l[0] != t {
      PosAppend(l[1..], m, t);
      assert (l + m)[1..] == l[1..] + m;
    }
  }

  lemma {:induction false} PosWithout(l: seq<Tid>, u: Tid, t: Tid)
    requires t in l && t != u
    ensures t in Without(l, u) && Pos(Without(l, u), t) <= Pos(l, t)
  {
    if l[0] != t {
      if l[0] != u {
        PosWithout(l[1..], u, t);
        assert Without(l, u)[1..] == Without(l[1..], u);
      }
    }
  }

  lemma AppendNoLater(l: seq<Tid>, m: seq<Tid>, t: Tid)
    requires t in l
    ensures NoLater(l, l + m, t)
  {
    PosAppend(l, m, t);
  }

  // ---------------------------------------------------------------- the pieces

  lemma NotifyNoLater(s: State, t: Tid)
    requires t in Q(s, ReadyQ)
    ensures NoLater(Q(s, ReadyQ), Q(Notify(s), ReadyQ), t)
  {
    var l := Q(s, CvQ);
    if l != [] && l[0] in s.threads {
      AppendNoLater(Q(s, ReadyQ), [l[0]], t);
    }
  }

  lemma Through(l: seq<Tid>, m: seq<Tid>, n: seq<Tid>, t: Tid)
    requires NoLater(l, m, t) && NoLater(m, n, t)
    ensures NoLater(l, n, t)
  {
  }

  lemma KillNoLater(s: State, u: Tid, t: Tid)
    requires u in s.threads && u != t && t in Q(s, ReadyQ) && Kill(s, u).Next? && s.threads[u].crt != Some(DeadQ)
    ensures NoLater(Q(s, ReadyQ), Q(Kill(s, u).s, ReadyQ), t)
  {
    var q := s.threads[u].crt.value;
    var n := ToDead(SetQ(s, q, Without(Q(s, q), u)), u);
    assert NoLater(Q(s, ReadyQ), Q(n, ReadyQ), t) by {
      if q == ReadyQ { PosWithout(Q(s, ReadyQ), u, t); }
    }
    NotifyNoLater(n, t);
    Through(Q(s, ReadyQ), Q(n, ReadyQ), Q(Notify(n), ReadyQ), t);
  }

  lemma {:induction false} KillAllNoLater(s: State, order: seq<Tid>, t: Tid)
    requires KillMid(s) && NoDup(order) && (forall u :: u in order ==> Victim(s, u)) && t !in order && t in Q(s, ReadyQ)
    ensures var o := KillAll(s, order); o.Next? ==> NoLater(Q(s, ReadyQ), Q(o.s, ReadyQ), t)
    decreases |order|
  {
    hide KillMid, Kill, Killed, Victim, KillAll, Pos;
    KillAllStep(s, order);
    if order != [] {
      var u := order[0];
      assert u in order;
      VictimIn(s, u);
      KeepKill(s, u);
      var o := Kill(s, u);
      if o.Next? {
        TailDistinct(order);
        MidLink(o.s);
        MidLink(s);
        assert s.threads[u].crt != Some(DeadQ) by { VictimField(s, u); }
        hide LinkInv, NoDup;
        KillNoLater(s, u, t);
        forall v | v in order[1..] ensures Victim(o.s, v) {
          VictimAfter(s, o.s, u, v);
        }
        KillAllNoLater(o.s, order[1..], t);
        var o2 := KillAll(o.s, order[1..]);
        if o2.Next? {
          Through(Q(s, ReadyQ), Q(o.s, ReadyQ), Q(o2.s, ReadyQ), t);
        }
      }
    }
  }

  lemma VictimField(s: State, u: Tid)
    requires LinkInv(s) && Victim(s, u)
    ensures s.threads[u].crt != Some(DeadQ)
  {
    assert CrtFits(s.threads[u]);
  }

  lemma ExecNoLater(s: State, order: seq<Tid>, t: Tid)
    requires Inv(s) && Acting(s) && Lists(order, s, Own(s)) && t in Q(s, ReadyQ) && t !in order
    ensures var o := KillOthers(s, Own(s), order); o.Next? ==> NoLater(Q(s, ReadyQ), Q(o.s, ReadyQ), t)
  {
    Victims(s, order);
    InvKillMid(s);
    hide KillMid, Inv, Victim, KillAll, Pos;
    KillAllNoLater(s, order, t);
  }

  /** A context switch brings t forward, or to the processor. */
  lemma SwitchNearer(s: State, t: Tid)
    requires s.current in s.threads && s.idle in s.threads && t in Q(s, ReadyQ) && Q(s, ReadyQ)[0] in s.threads
    ensures var n := Switch(s);
      if Pos(Q(s, ReadyQ), t) == 0 then n.current == t
      else t in Q(n, ReadyQ) && Pos(Q(n, ReadyQ), t) == Pos(Q(s, ReadyQ), t) - 1
  {
    var l := Q(s, ReadyQ);
    SwitchToReady(s);
    var r := Requeued(s);
    hide Switch;
    if l[0] != t {
      var m := if r == s then [] else [s.current];
      assert Q(r, ReadyQ) == l + m;
      assert (l + m)[1..] == l[1..] + m;
      PosAppend(l[1..], m, t);
    }
  }

  lemma PrefixPos(l: seq<Tid>, m: seq<Tid>, t: Tid)
    requires l <= m && t in l
    ensures t in m && Pos(m, t) == Pos(l, t) && m[0] == l[0]
  {
    var rest := m[|l|..];
    assert m == l + rest;
    PosAppend(l, rest, t);
  }

  /** Apart from appending to the ready queue, n has the same threads on the processor and in the table. */
  ghost predicate Appends(s: State, n: State) {
    n.current == s.current && n.idle == s.idle && n.threads.Keys == s.threads.Keys && Q(s, ReadyQ) <= Q(n, ReadyQ)
  }

  lemma WakeAppends(s: State, q: Queue)
    requires q != ReadyQ
    ensures Appends(s, WakeAll(s, q)) && WakeAll(s, q).k == s.k
  {
  }

  lemma ReparentKeys(k: Kin, p: Ref)
    requires p in k.procs
    ensures Reparent(k, p).procs.Keys == k.procs.Keys
  {
  }

  lemma DieAppends(s: State)
    requires s.current in s.threads
    ensures Appends(s, Notify(ToDead(s, s.current)))
  {
  }

  /** The end of process_exit only appends to the ready queue before it switches. */
  lemma ExitAppends(s: State, p: Ref, parent: Ref, code: int) returns (n: State)
    requires ExitTail(s, p, parent, code).Next?
    ensures s.current in s.threads && s.idle in s.threads && Appends(s, n)
    ensures n.current in n.threads && n.idle in n.threads && ExitTail(s, p, parent, code).s == Switch(n)
  {
    hide Switch, Reparent, MarkExit, WakeAll, Notify, ToDead, Targets;
    var s2 := s.(k := Reparent(s.k, p));
    ReparentKeys(s.k, p);
    var s3 := WakeAll(s2, AnyWaitQ(s2.k.initP));
    WakeAppends(s2, AnyWaitQ(s2.k.initP));
    var s4 := Orphan(s3, s3.current).(k := MarkExit(s3.k, p, parent, code, s3.current));
    var s5 := WakeAll(s4, ExitWaitQ(p));
    WakeAppends(s4, ExitWaitQ(p));
    var s6 := WakeAll(s5, AnyWaitQ(parent));
    WakeAppends(s5, AnyWaitQ(parent));
    DieAppends(s6);
    n := Notify(ToDead(s6, s6.current));
    assert Appends(s2, s3) && Appends(s4, s5) && Appends(s5, s6) && Appends(s6, n);
  }

  predicate IsSwitch(a: Step) { a.Reschedule? || a.ExitStep? }

  /** n is one step after s: t is no further back, one place nearer if the step switched, or it runs. */
  ghost predicate Nearer(s: State, n: State, t: Tid, switched: bool) {
    || (switched && n.current == t)
    || (t in Q(n, ReadyQ) && Pos(Q(n, ReadyQ), t) + (if switched then 1 else 0) <= Pos(Q(s, ReadyQ), t))
  }

  lemma TailNearer(s: State, m: State, p: Ref, parent: Ref, code: int, t: Tid)
    requires Inv(m) && NoLater(Q(s, ReadyQ), Q(m, ReadyQ), t)
    requires ExitTail(m, p, parent, code).Next?
    ensures Nearer(s, ExitTail(m, p, parent, code).s, t, true)
  {
    hide ExitTail, Pos, Switch, Inv;
    var n := ExitAppends(m, p, parent, code);
    PrefixPos(Q(m, ReadyQ), Q(n, ReadyQ), t);
    HeadIn(m);
    SwitchNearer(n, t);
  }

  lemma ExitNearer(s: State, code: int, order: seq<Tid>, t: Tid)
    requires Inv(s) && ActingOutside(s) && Lists(order, s, Own(s)) && t in Q(s, ReadyQ) && t !in order
    ensures var o := Exit(s, code, order); o.Next? ==> Nearer(s, o.s, t, true)
  {
    var o := Exit(s, code, order);
    if o.Next? {
      var p := Own(s);
      var parent := s.k.procs[p].parent.value;
      hide ExitTail, KillOthers, Inv, Pos, Nearer;
      if |s.k.procs[p].threads| > 1 {
        KeepKillOthers(s, order);
        ExecNoLater(s, order, t);
        TailNearer(s, KillOthers(s, p, order).s, p, parent, code, t);
      } else {
        TailNearer(s, s, p, parent, code, t);
      }
    }
  }

  lemma HeadIn(s: State)
    requires Inv(s) && Q(s, ReadyQ) != []
    ensures Q(s, ReadyQ)[0] in s.threads
  {
    assert QueueLinked(s, ReadyQ) && Q(s, ReadyQ)[0] in Q(s, ReadyQ);
  }

  /** No thread is put in front of t, and t is not killed with its process. */
  ghost predicate Undisturbed(s: State, a: Step, t: Tid) {
    && (a.KeyEvent? ==> Q(s, KbdQ) == [])
    && (a.ExecStep? || a.ExitStep? ==> t !in a.order)
  }

  lemma QuietReady(s: State, a: Step, t: Tid)
    requires s.current in s.threads && s.idle in s.threads && Enabled(s, a)
    requires a.KeyEvent? || a.ReadKeyTurn? || a.PollKey? || a.CleanThreadTurn? || a.CleanThread? || a.CleanProcess? || a.ForkStep? || a.SpawnStep? || a.HandOverStep?
    requires a.KeyEvent? ==> Q(s, KbdQ) == []
    ensures Take(s, a).Next? && Q(s, ReadyQ) <= Q(Take(s, a).s, ReadyQ)
  {
  }

  lemma WaitReady(s: State, pid: Pid, first: Pid)
    requires s.current in s.threads
    ensures var o := Wait(s, pid, first); o.Next? ==> Q(o.s, ReadyQ) == Q(s, ReadyQ)
  {
  }

  lemma StepNearer(s: State, a: Step, t: Tid)
    requires Inv(s) && Enabled(s, a) && t in Q(s, ReadyQ) && Undisturbed(s, a, t)
    ensures s.current in s.threads && s.idle in s.threads
    ensures Take(s, a).Next? ==> Nearer(s, Take(s, a).s, t, IsSwitch(a))
  {
    InvNames(s);
    hide Inv, Wait, Exit, KillOthers, Take, Pos, Switch;
    TakeCalls(s, a);
    if a.Reschedule? {
      HeadIn(s);
      SwitchNearer(s, t);
      assert Take(s, a) == Next(Switch(s)) by { TakeSwitch(s); }
    } else if a.WaitStep? {
      WaitReady(s, a.pid, a.first);
    } else if a.ExitStep? {
      ExitNearer(s, a.code, a.order, t);
    } else if a.ExecStep? {
      ExecNoLater(s, a.order, t);
    } else {
      QuietReady(s, a, t);
      PrefixPos(Q(s, ReadyQ), Q(Take(s, a).s, ReadyQ), t);
    }
  }

  lemma TakeSwitch(s: State)
    requires s.current in s.threads && s.idle in s.threads
    ensures Take(s, Reschedule) == Next(Switch(s))
  {
  }

  ghost function Switches(steps: seq<Step>): nat {
    if steps == [] then 0 else (if IsSwitch(steps[0]) then 1 else 0) + Switches(steps[1..])
  }

  /** A ready thread at place k runs within k + 1 context switches. */
  lemma {:induction false} BoundedWaiting(ss: seq<State>, steps: seq<Step>, t: Tid) returns (i: nat)
    requires IsRun(ss, steps) && Inv(ss[0]) && t in Q(ss[0], ReadyQ) && Switches(steps) >= Pos(Q(ss[0], ReadyQ), t) + 1
    requires forall j :: 0 <= j < |steps| ==> Undisturbed(ss[j], steps[j], t)
    ensures 0 < i < |ss| && ss[i].current == t && Switches(steps[..i]) <= Pos(Q(ss[0], ReadyQ), t) + 1
    decreases |steps|
  {
    hide Inv, Take, Enabled, Undisturbed, Pos;
    var a := steps[0];
    assert Undisturbed(ss[0], a, t);
    StepNearer(ss[0], a, t);
    StepKeeps(ss[0], a);
    if IsSwitch(a) && ss[1].current == t {
      i := 1;
      assert steps[..1] == [a];
    } else {
      var rest, later := ss[1..], steps[1..];
      assert IsRun(rest, later);
      var j := BoundedWaiting(rest, later, t);
      i := j + 1;
      assert steps[..i][1..] == later[..j] && steps[..i][0] == a;
    }
  }
}
