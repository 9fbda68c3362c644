/** Every key press is handed to a reader once, in the order of arrival, in every run. */
module TaskKeys {
  import opened Wrappers
  import opened TaskSpec
  import opened TaskCrew
  import opened TaskInv
  import opened TaskCalls
  import opened TaskRun

  /** The presses among the events, in their order. */
  function Presses(keys: seq<Key>): seq<Key> {
    if keys == [] then [] else (if keys[0].make then [keys[0]] else []) + Presses(keys[1..])
  }

  lemma {:induction false} PressesConcat(a: seq<Key>, b: seq<Key>)
    ensures Presses(a + b) == Presses(a) + Presses(b)
  {
    if a == [] {
      assert a + b == b;
    } else {
      assert (a + b)[0] == a[0] && (a + b)[1..] == a[1..] + b;
      PressesConcat(a[1..], b);
    }
  }

  // ---------------------------------------------------------------- one step

  /** The event that a step puts into the buffer: none when it is full. */
  function Accepted(s: State, a: Step): seq<Key> {
    if a.KeyEvent? && |s.keys| < KEY_BUFFER then [a.key] else []
  }

  /** The event that a step hands to its caller. */
  function Handed(s: State, a: Step): seq<Key> {
    if a.ReadKeyTurn? && Presses(s.keys) != [] then [Presses(s.keys)[0]]
    else if a.PollKey? && s.keys != [] then [s.keys[0]]
    else []
  }

  lemma {:induction false} ReadTakesFirst(keys: seq<Key>)
    ensures HasPress(keys) <==> Presses(keys) != []
    ensures HasPress(keys) ==> Presses(keys) == [Presses(keys)[0]] + Presses(AfterRead(keys)) && Presses(keys)[0].make
    ensures !HasPress(keys) ==> AfterRead(keys) == []
  {
    if keys != [] && !keys[0].make {
      ReadTakesFirst(keys[1..]);
      if HasPress(keys[1..]) {
        var i :| 0 <= i < |keys[1..]| && keys[1..][i].make;
        assert keys[i + 1].make;
      }
      if HasPress(keys) {
        var i :| 0 <= i < |keys| && keys[i].make;
        assert keys[1..][i - 1].make;
      }
    } else if keys != [] {
      assert keys[0].make;
    }
  }

  /** The press handed to a reader is the oldest one. */
  lemma {:induction false} FirstHanded(keys: seq<Key>, i: nat)
    requires i < |keys| && keys[i].make && forall j :: 0 <= j < i ==> !keys[j].make
    ensures Presses(keys) != [] && Presses(keys)[0] == keys[i]
  {
    if i > 0 {
      assert forall j :: 0 <= j < i - 1 ==> keys[1..][j] == keys[j + 1];
      FirstHanded(keys[1..], i - 1);
    }
  }

  lemma OneStay(key: Key)
    ensures Presses([key]) == if key.make then [key] else []
  {
    assert Presses([key][1..]) == [];
  }

  ghost predicate SameKeys(s: State, o: Outcome) { o.Next? ==> o.s.keys == s.keys }

  lemma {:induction false} KillAllKeys(s: State, order: seq<Tid>)
    ensures SameKeys(s, KillAll(s, order))
    decreases |order|
  {
    if order != [] && order[0] in s.threads {
      var o := Kill(s, order[0]);
      if o.Next? {
        KillAllKeys(o.s, order[1..]);
      }
    }
  }

  lemma SchedKeys(s: State, q: Queue)
    ensures WakeAll(s, q).keys == s.keys && Notify(s).keys == s.keys
    ensures s.current in s.threads ==> ToDead(s, s.current).keys == s.keys
    ensures s.current in s.threads && s.idle in s.threads ==> Switch(s).keys == s.keys
  {
  }

  lemma TailKeys(s: State, p: Ref, parent: Ref, code: int)
    ensures SameKeys(s, ExitTail(s, p, parent, code))
  {
    var o := ExitTail(s, p, parent, code);
    if o.Next? {
      hide WakeAll, Notify, ToDead, Switch, Targets;
      var s2 := s.(k := Reparent(s.k, p));
      SchedKeys(s2, AnyWaitQ(s2.k.initP));
      var s3 := WakeAll(s2, AnyWaitQ(s2.k.initP));
      var s4 := Orphan(s3, s3.current).(k := MarkExit(s3.k, p, parent, code, s3.current));
      SchedKeys(s4, ExitWaitQ(p));
      var s5 := WakeAll(s4, ExitWaitQ(p));
      SchedKeys(s5, AnyWaitQ(parent));
      var s6 := WakeAll(s5, AnyWaitQ(parent));
      SchedKeys(s6, ReadyQ);
      SchedKeys(ToDead(s6, s6.current), ReadyQ);
      SchedKeys(Notify(ToDead(s6, s6.current)), ReadyQ);
    }
  }

  lemma ExitKeys(s: State, code: int, order: seq<Tid>)
    requires s.current in s.threads && s.idle in s.threads
    ensures SameKeys(s, Exit(s, code, order))
  {
    hide ExitTail, KillAll;
    KillAllKeys(s, order);
    var t := s.threads[s.current];
    if t.proc.Some? && t.proc.value in s.k.procs && s.k.procs[t.proc.value].parent.Some? {
      var parent := s.k.procs[t.proc.value].parent.value;
      TailKeys(s, t.proc.value, parent, code);
      var o := KillOthers(s, t.proc.value, order);
      if o.Next? {
        TailKeys(o.s, t.proc.value, parent, code);
      }
    }
  }

  lemma ExecKeys(s: State, p: Ref, order: seq<Tid>)
    requires p in s.k.procs
    ensures SameKeys(s, KillOthers(s, p, order))
  {
    hide KillAll;
    KillAllKeys(s, order);
  }

  lemma WaitKeys(s: State, pid: Pid, first: Pid)
    requires s.current in s.threads
    ensures SameKeys(s, Wait(s, pid, first))
  {
  }

  /** Steps that are not about the keyboard leave the buffer alone. */
  lemma OthersKeys(s: State, a: Step)
    requires s.current in s.threads && s.idle in s.threads && Enabled(s, a) && !a.KeyEvent? && !a.ReadKeyTurn? && !a.PollKey?
    ensures SameKeys(s, Take(s, a))
  {
    hide Wait, Exit, KillOthers, SameKeys;
    TakeCalls(s, a);
    match a {
      case WaitStep(pid, first) => WaitKeys(s, pid, first);
      case ExitStep(code, order) => ExitKeys(s, code, order);
      case ExecStep(order) => ExecKeys(s, Own(s), order);
      case _ => QuietKeys(s, a);
    }
  }

  lemma QuietKeys(s: State, a: Step)
    requires s.current in s.threads && s.idle in s.threads && Enabled(s, a)
    requires !a.KeyEvent? && !a.ReadKeyTurn? && !a.PollKey? && !a.WaitStep? && !a.ExitStep? && !a.ExecStep?
    ensures SameKeys(s, Take(s, a))
  {
  }

  /** What a step accepts and hands out balances the presses in the buffer. */
  lemma StepBalances(s: State, a: Step)
    requires s.current in s.threads && s.idle in s.threads && Enabled(s, a) && Take(s, a).Next? && |s.keys| <= KEY_BUFFER
    ensures var n := Take(s, a).s;
      && Presses(s.keys) + Presses(Accepted(s, a)) == Presses(Handed(s, a)) + Presses(n.keys)
      && |n.keys| <= KEY_BUFFER
  {
    if a.KeyEvent? || a.ReadKeyTurn? || a.PollKey? {
      KeyboardBalances(s, a);
    } else {
      hide Take, Enabled;
      OthersKeys(s, a);
    }
  }

  lemma {:induction false} ReadShortens(keys: seq<Key>)
    ensures |AfterRead(keys)| <= |keys|
  {
    if keys != [] {
      ReadShortens(keys[1..]);
    }
  }

  lemma KeyboardBalances(s: State, a: Step)
    requires s.current in s.threads && s.idle in s.threads && Enabled(s, a) && (a.KeyEvent? || a.ReadKeyTurn? || a.PollKey?) && |s.keys| <= KEY_BUFFER
    ensures Take(s, a).Next?
    ensures var n := Take(s, a).s;
      && Presses(s.keys) + Presses(Accepted(s, a)) == Presses(Handed(s, a)) + Presses(n.keys)
      && |n.keys| <= KEY_BUFFER
  {
    match a {
      case KeyEvent(key) => PressesConcat(s.keys, [key]);
      case ReadKeyTurn =>
        ReadTakesFirst(s.keys);
        ReadShortens(s.keys);
        if HasPress(s.keys) {
          OneStay(Presses(s.keys)[0]);
        }
      case PollKey =>
        if s.keys != [] {
          OneStay(s.keys[0]);
        }
      case _ =>
    }
  }

  // ---------------------------------------------------------------- whole runs

  ghost function AllAccepted(ss: seq<State>, steps: seq<Step>, i: nat): seq<Key>
    requires |ss| == |steps| + 1 && i < |ss|
  {
    if i == 0 then [] else AllAccepted(ss, steps, i - 1) + Accepted(ss[i - 1], steps[i - 1])
  }

  ghost function AllHanded(ss: seq<State>, steps: seq<Step>, i: nat): seq<Key>
    requires |ss| == |steps| + 1 && i < |ss|
  {
    if i == 0 then [] else AllHanded(ss, steps, i - 1) + Handed(ss[i - 1], steps[i - 1])
  }

  /** The presses accepted so far are, in order, those handed to readers and those still in the buffer, and never more than 1024 events wait. */
  lemma {:induction false} PressesConserved(ss: seq<State>, steps: seq<Step>, mainP: Ref, initP: Ref, i: nat)
    requires IsRun(ss, steps) && mainP != initP && ss[0] == Boot(mainP, initP) && i < |ss|
    ensures Presses(AllAccepted(ss, steps, i)) == Presses(AllHanded(ss, steps, i)) + Presses(ss[i].keys)
    ensures |ss[i].keys| <= KEY_BUFFER
  {
    hide Take, Enabled, Presses, Accepted, Handed;
    if i == 0 {
      NoKeys();
    } else {
      var j := i - 1;
      PressesConserved(ss, steps, mainP, initP, j);
      assert Take(ss[j], steps[j]) == Next(ss[j + 1]) && ss[j].idle in ss[j].threads && Enabled(ss[j], steps[j]);
      StepBalances(ss[j], steps[j]);
      PressesConcat(AllAccepted(ss, steps, j), Accepted(ss[j], steps[j]));
      PressesConcat(AllHanded(ss, steps, j), Handed(ss[j], steps[j]));
      Balance(Presses(AllAccepted(ss, steps, j)), Presses(AllHanded(ss, steps, j)), Presses(ss[j].keys),
              Presses(Accepted(ss[j], steps[j])), Presses(Handed(ss[j], steps[j])), Presses(ss[i].keys));
    }
  }

  lemma NoKeys()
    ensures Presses([]) == []
  {
  }

  lemma Balance(all: seq<Key>, got: seq<Key>, keys: seq<Key>, new_: seq<Key>, out: seq<Key>, rest: seq<Key>)
    requires all == got + keys && keys + new_ == out + rest
    ensures all + new_ == (got + out) + rest
  {
    assert all + new_ == got + (keys + new_);
    assert got + (out + rest) == (got + out) + rest;
  }
}
