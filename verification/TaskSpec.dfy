/**
  Threads, wait queues and processes: the state that src/task/scheduler.c, src/sync/cond_var.c,
  src/driver/kerboard.c and src/task/process.c share, and each of their critical sections as one step.
 */
module TaskSpec {
  import opened Wrappers

  type Tid = nat
  type Pid = nat
  /** The identity (address) of a process structure; never used twice. */
  type Ref = nat

  datatype Status = Running | Ready | Waiting | Dead

  datatype Queue =
    | ReadyQ                // ready_tasks
    | KbdQ                  // wait_tasks of the keyboard
    | CvQ                   // waiting_queue of dead_cv
    | DeadQ                 // dead_tasks
    | ClearingQ             // clearing_tasks of the clean thread
    | ExitWaitQ(p: Ref)     // exit_wait_queue of process p
    | AnyWaitQ(p: Ref)      // wait_any_exit_queue of process p

  /** Where a thread stands inside process_wait: outside, counted as a waiter, or about to hand over a child. */
  datatype Pc = User | InWait(pid: Pid, at: Ref) | Handing(child: Ref)

  datatype Tcb = Tcb(status: Status, crt: Option<Queue>, proc: Option<Ref>, pc: Pc)

  datatype Pcb = Pcb(id: Pid, parent: Option<Ref>, exited: bool, code: int, threads: set<Tid>,
                     children: map<Pid, Ref>, gone: map<Pid, Ref>, waiting: nat)

  datatype Key = Key(make: bool, character: int)

  const KEY_BUFFER: nat := 1024

  /**
    The processes. `gone` of a process is its exit_children_processes; dead is dead_processes, clearing the
    clean thread's list. exits and reports are history: the code each process exited with, and what
    process_wait reported for it.
   */
  datatype Kin = Kin(procs: map<Ref, Pcb>, mainP: Ref, initP: Ref, dead: seq<Ref>, clearing: seq<Ref>,
                     exits: map<Ref, int>, reports: map<Ref, int>)

  datatype State = State(threads: map<Tid, Tcb>, queues: map<Queue, seq<Tid>>, current: Tid, idle: Tid, clean: Tid,
                         keys: seq<Key>, k: Kin)

  /** Panics: a documented stop. Fails: an internal Assert of wait or exit does not hold. */
  datatype Outcome = Next(s: State) | Panics | Fails

  function Q(s: State, q: Queue): seq<Tid> {
    if q in s.queues then s.queues[q] else []
  }

  function SetQ(s: State, q: Queue, l: seq<Tid>): State {
    s.(queues := s.queues[q := l])
  }

  function Without(l: seq<nat>, t: nat): seq<nat> {
    if l == [] then [] else if l[0] == t then l[1..] else [l[0]] + Without(l[1..], t)
  }

  function Reverse(l: seq<nat>): seq<nat> {
    if l == [] then [] else Reverse(l[1..]) + [l[0]]
  }

  // ---------------------------------------------------------------- scheduler

  /** do_context_switch. */
  function Switch(s: State): State
    requires s.current in s.threads && s.idle in s.threads
  {
    var prev := s.threads[s.current];
    var q1 := if Q(s, ReadyQ) == [] then [s.idle] else Q(s, ReadyQ);
    var requeue := prev.status == Running && s.current != s.idle;
    var q2 := if requeue then q1 + [s.current] else q1;
    var th1 := if requeue then s.threads[s.current := prev.(status := Ready, crt := Some(ReadyQ))] else s.threads;
    var next := q2[0];
    var th2 := if next in th1 then th1[next := th1[next].(status := Running, crt := None)] else th1;
    s.(threads := th2, queues := s.queues[ReadyQ := q2[1..]], current := next)
  }

  function Woken(c: Tcb): Tcb {
    c.(status := if c.status == Dead then Dead else Ready, crt := Some(ReadyQ))
  }

  /** The threads of `from`, all made ready. */
  function WakeThreads(threads: map<Tid, Tcb>, l: seq<Tid>): map<Tid, Tcb> {
    map t | t in threads :: if t in l then Woken(threads[t]) else threads[t]
  }

  /** Every thread of q goes to the end of the ready queue. */
  function WakeAll(s: State, q: Queue): State {
    if Q(s, q) == [] then s else
    s.(threads := WakeThreads(s.threads, Q(s, q)),
       queues := s.queues[q := []][ReadyQ := Q(s, ReadyQ) + Q(s, q)])
  }

  /** cond_var_notify: the first waiter goes to the end of the ready queue. */
  function Notify(s: State): State {
    var l := Q(s, CvQ);
    if l == [] || l[0] !in s.threads then s
    else s.(threads := s.threads[l[0] := Woken(s.threads[l[0]])],
            queues := s.queues[CvQ := l[1..]][ReadyQ := Q(s, ReadyQ) + [l[0]]])
  }

  /** A thread becomes DEAD and joins dead_tasks. */
  function ToDead(s: State, t: Tid): State
    requires t in s.threads
  {
    s.(threads := s.threads[t := s.threads[t].(status := Dead, crt := Some(DeadQ))],
       queues := s.queues[DeadQ := Q(s, DeadQ) + [t]])
  }

  /** The current thread blocks on q; wait nodes are pushed in front, list nodes appended. */
  function Block(s: State, q: Queue, crt: Option<Queue>, front: bool): State
    requires s.current in s.threads
  {
    s.(threads := s.threads[s.current := s.threads[s.current].(status := Waiting, crt := crt)],
       queues := s.queues[q := if front then [s.current] + Q(s, q) else Q(s, q) + [s.current]])
  }

  // ---------------------------------------------------------------- keyboard

  /** keyboard_interrupt_handler: the key is queued unless the buffer is full; all readers go to the head of the ready queue. */
  function KeyArrives(s: State, k: Key): State {
    s.(keys := if |s.keys| == KEY_BUFFER then s.keys else s.keys + [k],
       threads := WakeThreads(s.threads, Q(s, KbdQ)),
       queues := if Q(s, KbdQ) == [] then s.queues[KbdQ := []]
                 else s.queues[KbdQ := []][ReadyQ := Reverse(Q(s, KbdQ)) + Q(s, ReadyQ)])
  }

  /** read_keyboard_char_impl: releases are dropped up to the first press. */
  function AfterRead(keys: seq<Key>): (rest: seq<Key>) {
    if keys == [] then [] else if keys[0].make then keys[1..] else AfterRead(keys[1..])
  }

  predicate HasPress(keys: seq<Key>) {
    exists i :: 0 <= i < |keys| && keys[i].make
  }

  /** One turn of read_keyboard_char_wait by the current thread. */
  function ReadKey(s: State): State
    requires s.current in s.threads
  {
    var s1 := s.(keys := AfterRead(s.keys));
    if HasPress(s.keys) then s1 else Block(s1, KbdQ, Some(KbdQ), false)
  }

  // ---------------------------------------------------------------- clean thread

  predicate HasDeadResource(s: State) { s.k.dead != [] || Q(s, DeadQ) != [] }

  /** cond_var_wait of the clean thread, and the two list moves once there is something to do. */
  function CleanTurn(s: State): State
    requires s.current in s.threads
  {
    if HasDeadResource(s)
    then s.(queues := s.queues[ClearingQ := Q(s, DeadQ)][DeadQ := []], k := s.k.(clearing := s.k.dead, dead := []))
    else Block(s, CvQ, s.threads[s.current].crt, false)
  }

  /** destroy_thread of the first cleared thread. */
  function DestroyThread(s: State): State
    requires Q(s, ClearingQ) != []
  {
    var l := Q(s, ClearingQ);
    s.(threads := map t | t in s.threads && t != l[0] :: s.threads[t], queues := s.queues[ClearingQ := l[1..]])
  }

  /** destroy_process of the first cleared process. */
  function Destroyed(k: Kin): Kin
    requires k.clearing != []
  {
    k.(procs := map p | p in k.procs && p != k.clearing[0] :: k.procs[p], clearing := k.clearing[1..])
  }

  // ---------------------------------------------------------------- processes

  /** A new child of p. */
  function WithChild(k: Kin, p: Ref, tid: Tid, child: Ref, pid: Pid): Kin
    requires p in k.procs
  {
    var a := k.procs[p];
    k.(procs := k.procs[p := a.(children := a.children[pid := child])]
                       [child := Pcb(pid, Some(p), false, 0, {tid}, map[], map[], 0)])
  }

  function SetThreads(k: Kin, p: Ref, ts: set<Tid>): Kin
    requires p in k.procs
  {
    k.(procs := k.procs[p := k.procs[p].(threads := ts)])
  }

  /** A new thread of process p at the end of the ready queue. */
  function Publish(s: State, p: Ref, tid: Tid): State {
    s.(threads := s.threads[tid := Tcb(Ready, Some(ReadyQ), Some(p), User)],
       queues := s.queues[ReadyQ := Q(s, ReadyQ) + [tid]])
  }

  /** process_fork by a thread of process p. */
  function Fork(s: State, p: Ref, tid: Tid, child: Ref, pid: Pid): State
    requires p in s.k.procs
  {
    Publish(s, child, tid).(k := WithChild(s.k, p, tid, child, pid))
  }

  /** A further thread of process p: create_new_user_thread and its publication. */
  function NewThread(s: State, p: Ref, tid: Tid): State
    requires p in s.k.procs
  {
    Publish(s, p, tid).(k := SetThreads(s.k, p, s.k.procs[p].threads + {tid}))
  }

  /** One turn of the loop in clear_crt_process_other_thread_locked: it panics on a thread without a queue. */
  function Kill(s: State, t: Tid): Outcome
    requires t in s.threads
  {
    var c := s.threads[t];
    if c.crt.None? then Panics else
      var s1 := SetQ(s, c.crt.value, Without(Q(s, c.crt.value), t));
      Next(Notify(ToDead(s1, t)))
  }

  /** The loop, over the threads in the order the table yields them. */
  function KillAll(s: State, order: seq<Tid>): Outcome
    decreases |order|
  {
    if order == [] then Next(s)
    else if order[0] !in s.threads then Fails
    else
      var o := Kill(s, order[0]);
      if o.Next? then KillAll(o.s, order[1..]) else o
  }

  /** clear_crt_process_other_thread_locked for process p of the current thread. */
  function KillOthers(s: State, p: Ref, order: seq<Tid>): Outcome
    requires p in s.k.procs
  {
    var o := KillAll(s, order);
    if o.Next? && p in o.s.k.procs then Next(o.s.(k := SetThreads(o.s.k, p, {s.current}))) else if o.Next? then Fails else o
  }

  ghost predicate NoDup(l: seq<nat>) {
    forall i, j :: 0 <= i < j < |l| ==> l[i] != l[j]
  }

  /** `order` lists the other threads of process p, each once. */
  ghost predicate Lists(order: seq<Tid>, s: State, p: Ref)
    requires p in s.k.procs
  {
    NoDup(order) && forall t :: t in order <==> t in s.k.procs[p].threads && t != s.current
  }

  // ---------------------------------------------------------------- exit

  predicate KidOf(k: Kin, p: Ref, r: Ref)
    requires p in k.procs
  {
    r in k.procs[p].children.Values || r in k.procs[p].gone.Values
  }

  /** Process r after p's children have gone to init: its parent, and the tables of init and p, may change. */
  function Adopted(k: Kin, p: Ref, r: Ref): Pcb
    requires p in k.procs && r in k.procs
  {
    var a := if KidOf(k, p, r) then k.procs[r].(parent := Some(k.initP)) else k.procs[r];
    if r == p then a.(children := map[], gone := map[])
    else if r == k.initP then a.(children := a.children + k.procs[p].children + k.procs[p].gone, gone := a.gone + k.procs[p].gone)
    else a
  }

  /** Both reparenting loops of process_exit. */
  function Reparent(k: Kin, p: Ref): Kin
    requires p in k.procs
  {
    k.(procs := map r | r in k.procs :: Adopted(k, p, r))
  }

  /** The exiting process loses its last thread, keeps its code and enters the parent's table. */
  function MarkExit(k: Kin, p: Ref, parent: Ref, code: int, t: Tid): Kin
    requires p in k.procs && parent in k.procs
  {
    var a := k.procs[p];
    var procs1 := k.procs[p := a.(threads := a.threads - {t}, exited := true, code := code)];
    var b := procs1[parent];
    k.(procs := procs1[parent := b.(gone := b.gone[a.id := p])], exits := k.exits[p := code])
  }

  /** The target_pid Asserts of the wake-up loops. */
  ghost predicate Targets(s: State, q: Queue, pid: Pid) {
    forall t :: t in Q(s, q) ==> t in s.threads && s.threads[t].pc.InWait? && s.threads[t].pc.pid == pid
  }

  function Orphan(s: State, t: Tid): State
    requires t in s.threads
  {
    s.(threads := s.threads[t := s.threads[t].(proc := None)])
  }

  /** process_exit by the current thread, up to and including the final context switch. */
  ghost function Exit(s: State, code: int, order: seq<Tid>): Outcome
    requires s.current in s.threads && s.idle in s.threads
  {
    var t := s.threads[s.current];
    if t.proc.None? || t.proc.value !in s.k.procs then Fails else
      var p := t.proc.value;
      var a := s.k.procs[p];
      if a.parent.None? || p == s.k.initP || a.waiting > 0 then Panics
      else
        var o := if |a.threads| > 1 then KillOthers(s, p, order) else Next(s);
        if !o.Next? then o else ExitTail(o.s, p, a.parent.value, code)
  }

  ghost function ExitTail(s1: State, p: Ref, parent: Ref, code: int): Outcome {
    if !(p in s1.k.procs && parent in s1.k.procs && s1.current in s1.threads && s1.idle in s1.threads) then Fails else
      var s2 := s1.(k := Reparent(s1.k, p));
      if !Targets(s2, AnyWaitQ(s2.k.initP), 0) || s2.current !in s2.k.procs[p].threads then Fails else
        var s3 := WakeAll(s2, AnyWaitQ(s2.k.initP));
        var s4 := Orphan(s3, s3.current).(k := MarkExit(s3.k, p, parent, code, s3.current));
        if !Targets(s4, ExitWaitQ(p), s4.k.procs[p].id) then Fails else
          var s5 := WakeAll(s4, ExitWaitQ(p));
          if !Targets(s5, AnyWaitQ(parent), 0) then Fails else
            var s6 := WakeAll(s5, AnyWaitQ(parent));
            Next(Switch(Notify(ToDead(s6, s6.current))))
  }

  // ---------------------------------------------------------------- wait

  function SetPc(s: State, pc: Pc): State
    requires s.current in s.threads
  {
    s.(threads := s.threads[s.current := s.threads[s.current].(pc := pc)])
  }

  /** The counter a waiter gives back when it leaves process_wait. */
  function Uncount(a: Pcb, counted: bool): Option<Pcb> {
    if !counted then Some(a) else if a.waiting == 0 then None else Some(a.(waiting := a.waiting - 1))
  }

  /** process_wait gives up: no such child. */
  function WaitFails(s: State, p: Ref, counted: bool): Outcome
    requires s.current in s.threads && p in s.k.procs
  {
    var a := Uncount(s.k.procs[p], counted);
    if a.None? then Fails else Next(SetPc(s, User).(k := s.k.(procs := s.k.procs[p := a.value])))
  }

  /** process_wait has found the exited child filed under x. */
  function Reap(s: State, p: Ref, x: Pid, counted: bool): Outcome
    requires s.current in s.threads && p in s.k.procs && x in s.k.procs[p].gone
  {
    var k, a := s.k, s.k.procs[p];
    var c := a.gone[x];
    if c !in k.procs || k.procs[c].id !in a.gone || k.procs[c].id !in a.children || a.children[k.procs[c].id] != c then Fails else
      var id := k.procs[c].id;
      var b := Uncount(a.(gone := a.gone - {id}, children := a.children - {id}), counted);
      if b.None? then Fails
      else Next(SetPc(s, Handing(c)).(k := k.(procs := k.procs[p := b.value], reports := k.reports[c := k.procs[c].code])))
  }

  /** process_wait blocks the current thread on its own process or on the child. */
  function WaitBlocks(s: State, p: Ref, pid: Pid, counted: bool): State
    requires s.current in s.threads && p in s.k.procs && (pid == 0 || pid in s.k.procs[p].children)
  {
    var a := s.k.procs[p];
    var at := if pid == 0 then p else a.children[pid];
    var s1 := SetPc(s, InWait(pid, at)).(k := s.k.(procs := s.k.procs[p := if counted then a else a.(waiting := a.waiting + 1)]));
    Block(s1, if pid == 0 then AnyWaitQ(at) else ExitWaitQ(at), s.threads[s.current].crt, true)
  }

  /** One turn of process_wait(pid); `first` is the key hash_table_get_first yields. */
  function Wait(s: State, pid: Pid, first: Pid): Outcome
    requires s.current in s.threads
  {
    var t := s.threads[s.current];
    if t.proc.None? || t.proc.value !in s.k.procs then Fails else
      var p, counted := t.proc.value, t.pc.InWait?;
      var a := s.k.procs[p];
      if a.children == map[] || (pid > 0 && pid !in a.children) then WaitFails(s, p, counted)
      else if a.gone != map[] && pid == 0 then (if first in a.gone then Reap(s, p, first, counted) else Fails)
      else if pid in a.gone && pid > 0 then Reap(s, p, pid, counted)
      else Next(WaitBlocks(s, p, pid, counted))
  }

  /** add_dead_process of the reaped child. */
  function HandOver(s: State): State
    requires s.current in s.threads && s.threads[s.current].pc.Handing?
  {
    Notify(SetPc(s, User).(k := s.k.(dead := s.k.dead + [s.threads[s.current].pc.child])))
  }

  // ---------------------------------------------------------------- steps

  datatype Step =
    | Reschedule
    | KeyEvent(key: Key)
    | ReadKeyTurn
    | PollKey
    | CleanThreadTurn
    | CleanThread
    | CleanProcess
    | ForkStep(tid: Tid, child: Ref, pid: Pid)
    | SpawnStep(tid: Tid)
    | ExecStep(order: seq<Tid>)
    | ExitStep(code: int, order: seq<Tid>)
    | WaitStep(pid: Pid, first: Pid)
    | HandOverStep

  /** The current thread runs user or system-call code of its own, for process Own(s). */
  predicate Acting(s: State) {
    && s.current in s.threads && s.current != s.idle && s.current != s.clean && s.threads[s.current].status == Running
    && s.threads[s.current].proc.Some? && s.threads[s.current].proc.value in s.k.procs
  }

  function Own(s: State): Ref
    requires Acting(s)
  {
    s.threads[s.current].proc.value
  }

  predicate ActingOutside(s: State) {
    Acting(s) && s.threads[s.current].pc == User
  }

  predicate Cleaning(s: State) {
    s.current == s.clean && s.current in s.threads && s.threads[s.current].status == Running
  }

  /** Which step the current thread, or an interrupt, can take next. */
  ghost predicate Enabled(s: State, a: Step) {
    match a
    case Reschedule => true
    case KeyEvent(_) => true
    case ReadKeyTurn => ActingOutside(s)
    case PollKey => ActingOutside(s)
    case CleanThreadTurn => Cleaning(s) && Q(s, ClearingQ) == [] && s.k.clearing == []
    case CleanThread => Cleaning(s) && Q(s, ClearingQ) != []
    case CleanProcess => Cleaning(s) && Q(s, ClearingQ) == [] && s.k.clearing != []
    case ForkStep(tid, child, pid) =>
      && ActingOutside(s) && tid !in s.threads && child !in s.k.procs && child !in s.k.exits
      && forall r :: r in s.k.procs ==> s.k.procs[r].id != pid
    case SpawnStep(tid) => ActingOutside(s) && tid !in s.threads
    case ExecStep(order) => ActingOutside(s) && Lists(order, s, Own(s))
    case ExitStep(_, order) => ActingOutside(s) && Lists(order, s, Own(s))
    case WaitStep(pid, first) =>
      && Acting(s)
      && (s.threads[s.current].pc == User || (s.threads[s.current].pc.InWait? && s.threads[s.current].pc.pid == pid))
      && (s.k.procs[Own(s)].gone != map[] ==> first in s.k.procs[Own(s)].gone)
    case HandOverStep => Acting(s) && s.threads[s.current].pc.Handing?
  }

  ghost function Take(s: State, a: Step): Outcome
    requires s.current in s.threads && s.idle in s.threads && Enabled(s, a)
  {
    match a
    case Reschedule => Next(Switch(s))
    case KeyEvent(key) => Next(KeyArrives(s, key))
    case ReadKeyTurn => Next(ReadKey(s))
    case PollKey => Next(if s.keys == [] then s else s.(keys := s.keys[1..]))
    case CleanThreadTurn => Next(CleanTurn(s))
    case CleanThread => Next(DestroyThread(s))
    case CleanProcess => Next(s.(k := Destroyed(s.k)))
    case ForkStep(tid, child, pid) => Next(Fork(s, Own(s), tid, child, pid))
    case SpawnStep(tid) => Next(NewThread(s, Own(s), tid))
    case ExecStep(order) => KillOthers(s, Own(s), order)
    case ExitStep(code, order) => Exit(s, code, order)
    case WaitStep(pid, first) => Wait(s, pid, first)
    case HandOverStep => Next(HandOver(s))
  }
}
