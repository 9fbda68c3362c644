/** The process tree: who is whose child, who has exited, who has been reaped. */
module TaskTree {
  import opened Wrappers
  import opened TaskSpec

  // ---------------------------------------------------------------- the tables, seen one entry at a time

  ghost function Id(k: Kin, r: Ref): Pid { if r in k.procs then k.procs[r].id else 0 }

  ghost function Par(k: Kin, r: Ref): Option<Ref> { if r in k.procs then k.procs[r].parent else None }

  ghost predicate Exited(k: Kin, r: Ref) { r in k.procs && k.procs[r].exited }

  ghost function Code(k: Kin, r: Ref): int { if r in k.procs then k.procs[r].code else 0 }

  /** children_processes of p at key x. */
  ghost function Kid(k: Kin, p: Ref, x: Pid): Option<Ref> {
    if p in k.procs && x in k.procs[p].children then Some(k.procs[p].children[x]) else None
  }

  /** exit_children_processes of p at key x. */
  ghost function Gone(k: Kin, p: Ref, x: Pid): Option<Ref> {
    if p in k.procs && x in k.procs[p].gone then Some(k.procs[p].gone[x]) else None
  }

  // ---------------------------------------------------------------- invariant

  ghost predicate Roots(k: Kin) {
    && k.mainP in k.procs && k.initP in k.procs && k.mainP != k.initP && Id(k, k.mainP) == 0
    && Par(k, k.mainP) == None && Par(k, k.initP) == None
    && !Exited(k, k.mainP) && !Exited(k, k.initP)
  }

  ghost predicate Ids(k: Kin) {
    forall a, b :: a in k.procs && b in k.procs && a != b ==> Id(k, a) != Id(k, b)
  }

  /** Entry x of p's children: a process with that id and that parent, not reaped, of a parent that has not exited. */
  ghost predicate KidsOK(k: Kin) {
    forall p: Ref, x: Pid :: Kid(k, p, x).Some? ==>
      var c := Kid(k, p, x).value;
      c in k.procs && c != p && Id(k, c) == x && Par(k, c) == Some(p) && c !in k.reports && p in k.procs && !Exited(k, p)
  }

  /** The exited children of p are those of its children that have exited. */
  ghost predicate GoneOK(k: Kin) {
    forall p: Ref, x: Pid :: Gone(k, p, x) == if Kid(k, p, x).Some? && Exited(k, Kid(k, p, x).value) then Kid(k, p, x) else None
  }

  /** A process other than the two roots that has not been reaped is in its parent's table. */
  ghost predicate Placed(k: Kin) {
    forall c :: c in k.procs && c != k.mainP && c != k.initP && c !in k.reports ==>
      Par(k, c).Some? && Kid(k, Par(k, c).value, Id(k, c)) == Some(c)
  }

  /** Exit codes are recorded once; what was reported for a process is what it exited with. */
  ghost predicate CodesOK(k: Kin) {
    && (forall c :: c in k.procs ==> (Exited(k, c) <==> c in k.exits))
    && (forall c :: c in k.procs && c in k.exits ==> k.exits[c] == Code(k, c))
    && (forall c :: c in k.reports ==> c in k.exits && k.reports[c] == k.exits[c])
  }

  /** A reaped process awaiting destruction is in one list, once. */
  ghost predicate Corpses(k: Kin) {
    && NoDup(k.dead + k.clearing)
    && forall c :: c in k.dead + k.clearing ==> c in k.procs && c in k.reports
  }

  ghost predicate KinInv(k: Kin) {
    Roots(k) && Ids(k) && KidsOK(k) && GoneOK(k) && Placed(k) && CodesOK(k) && Corpses(k)
  }

  // ---------------------------------------------------------------- what a step leaves alone

  ghost predicate SameLists(k: Kin, n: Kin) {
    n.dead == k.dead && n.clearing == k.clearing && n.mainP == k.mainP && n.initP == k.initP
  }

  ghost predicate SameLog(k: Kin, n: Kin) { n.exits == k.exits && n.reports == k.reports }

  /** Ids, parents and exit status of the processes of k are unchanged. */
  ghost predicate SameFaces(k: Kin, n: Kin) {
    forall r :: r in k.procs && r in n.procs ==>
      Id(n, r) == Id(k, r) && Par(n, r) == Par(k, r) && Exited(n, r) == Exited(k, r) && Code(n, r) == Code(k, r)
  }

  ghost predicate SameTables(k: Kin, n: Kin) {
    forall p: Ref, x: Pid :: Kid(n, p, x) == Kid(k, p, x) && Gone(n, p, x) == Gone(k, p, x)
  }

  /** Thread sets and counters may differ, nothing else. */
  ghost predicate SameKin(k: Kin, n: Kin) {
    SameLists(k, n) && SameLog(k, n) && n.procs.Keys == k.procs.Keys && SameFaces(k, n) && SameTables(k, n)
  }

  lemma SameKinTables(k: Kin, n: Kin)
    requires SameKin(k, n) && KidsOK(k) && GoneOK(k) && Placed(k)
    ensures KidsOK(n) && GoneOK(n) && Placed(n)
  {
    hide Id, Par, Code, Kid, Gone, Exited;
  }

  lemma SameKinRest(k: Kin, n: Kin)
    requires SameKin(k, n) && Roots(k) && Ids(k) && CodesOK(k) && Corpses(k)
    ensures Roots(n) && Ids(n) && CodesOK(n) && Corpses(n)
  {
    hide Id, Par, Code, Exited, SameTables;
  }

  lemma KeepSameKin(k: Kin, n: Kin)
    requires KinInv(k) && SameKin(k, n)
    ensures KinInv(n)
  {
    hide SameKin, Roots, Ids, KidsOK, GoneOK, Placed, CodesOK, Corpses;
    SameKinTables(k, n);
    SameKinRest(k, n);
  }

  // ---------------------------------------------------------------- fork

  ghost predicate ForkFits(k: Kin, p: Ref, child: Ref, pid: Pid) {
    && p in k.procs && !Exited(k, p) && child !in k.procs && child !in k.exits
    && forall r :: r in k.procs ==> Id(k, r) != pid
  }

  ghost predicate Forked(k: Kin, n: Kin, p: Ref, child: Ref, pid: Pid) {
    && SameLists(k, n) && SameLog(k, n) && SameFaces(k, n) && n.procs.Keys == k.procs.Keys + {child}
    && Id(n, child) == pid && Par(n, child) == Some(p) && !Exited(n, child)
    && (forall q: Ref, x: Pid :: Kid(n, q, x) == if q == p && x == pid then Some(child) else Kid(k, q, x))
    && (forall q: Ref, x: Pid :: Gone(n, q, x) == Gone(k, q, x))
  }

  lemma ForkTables(k: Kin, p: Ref, tid: Tid, child: Ref, pid: Pid, q: Ref, x: Pid)
    requires ForkFits(k, p, child, pid)
    ensures var n := WithChild(k, p, tid, child, pid);
      && Kid(n, q, x) == (if q == p && x == pid then Some(child) else Kid(k, q, x))
      && Gone(n, q, x) == Gone(k, q, x)
  {
  }

  lemma ForkView(k: Kin, p: Ref, tid: Tid, child: Ref, pid: Pid)
    requires ForkFits(k, p, child, pid)
    ensures Forked(k, WithChild(k, p, tid, child, pid), p, child, pid)
  {
    var n := WithChild(k, p, tid, child, pid);
    assert SameLists(k, n) && SameLog(k, n) && SameFaces(k, n) && n.procs.Keys == k.procs.Keys + {child};
    assert Id(n, child) == pid && Par(n, child) == Some(p) && !Exited(n, child);
    hide Id, Par, Code, Kid, Gone, Exited, SameFaces, WithChild;
    forall q: Ref, x: Pid
      ensures Kid(n, q, x) == if q == p && x == pid then Some(child) else Kid(k, q, x)
      ensures Gone(n, q, x) == Gone(k, q, x)
    {
      ForkTables(k, p, tid, child, pid, q, x);
    }
  }

  lemma KeepForkKids(k: Kin, n: Kin, p: Ref, child: Ref, pid: Pid)
    requires KidsOK(k) && GoneOK(k) && Placed(k) && CodesOK(k) && Roots(k) && Ids(k)
    requires ForkFits(k, p, child, pid) && Forked(k, n, p, child, pid)
    ensures KidsOK(n)
  {
    hide Id, Par, Code, Kid, Gone, Exited;
    assert child !in k.reports;
    assert Kid(k, p, pid) == None;
  }

  lemma KeepForkGone(k: Kin, n: Kin, p: Ref, child: Ref, pid: Pid)
    requires KidsOK(k) && GoneOK(k) && CodesOK(k) && Ids(k) && Placed(k)
    requires ForkFits(k, p, child, pid) && Forked(k, n, p, child, pid)
    ensures GoneOK(n)
  {
    hide Id, Par, Code, Kid, Gone, Exited;
    assert child !in k.reports;
    assert Kid(k, p, pid) == None;
  }

  lemma KeepForkPlaced(k: Kin, n: Kin, p: Ref, child: Ref, pid: Pid)
    requires KidsOK(k) && GoneOK(k) && Placed(k) && CodesOK(k) && Ids(k)
    requires ForkFits(k, p, child, pid) && Forked(k, n, p, child, pid)
    ensures Placed(n)
  {
    hide Id, Par, Code, Kid, Gone, Exited;
    assert child !in k.reports;
    assert Kid(k, p, pid) == None;
  }

  lemma KeepForkRest(k: Kin, n: Kin, p: Ref, child: Ref, pid: Pid)
    requires Roots(k) && Ids(k) && CodesOK(k) && Corpses(k)
    requires ForkFits(k, p, child, pid) && Forked(k, n, p, child, pid)
    ensures Roots(n) && Ids(n) && CodesOK(n) && Corpses(n)
  {
    hide Id, Par, Code, Kid, Gone, Exited;
    assert child !in k.reports;
  }

  lemma KeepFork(k: Kin, n: Kin, p: Ref, child: Ref, pid: Pid)
    requires KinInv(k)
    requires ForkFits(k, p, child, pid) && Forked(k, n, p, child, pid)
    ensures KinInv(n)
  {
    hide Roots, Ids, KidsOK, GoneOK, Placed, CodesOK, Corpses, Forked, ForkFits;
    KeepForkKids(k, n, p, child, pid);
    KeepForkGone(k, n, p, child, pid);
    KeepForkPlaced(k, n, p, child, pid);
    KeepForkRest(k, n, p, child, pid);
  }

  // ---------------------------------------------------------------- exit

  /** init takes over the children of p, both kinds. */
  ghost predicate Reparented(k: Kin, n: Kin, p: Ref) {
    && SameLists(k, n) && SameLog(k, n) && n.procs.Keys == k.procs.Keys
    && (forall r :: r in k.procs ==> Id(n, r) == Id(k, r) && Exited(n, r) == Exited(k, r) && Code(n, r) == Code(k, r))
    && (forall r :: r in k.procs ==> Par(n, r) == if Kid(k, p, Id(k, r)) == Some(r) then Some(k.initP) else Par(k, r))
    && (forall q: Ref, x: Pid :: Kid(n, q, x) ==
          if q == p then None else if q == k.initP && Kid(k, p, x).Some? then Kid(k, p, x) else Kid(k, q, x))
    && (forall q: Ref, x: Pid :: Gone(n, q, x) ==
          if q == p then None else if q == k.initP && Gone(k, p, x).Some? then Gone(k, p, x) else Gone(k, q, x))
  }

  lemma KidValue(k: Kin, p: Ref, r: Ref)
    requires KidsOK(k) && GoneOK(k) && p in k.procs && r in k.procs
    ensures KidOf(k, p, r) <==> Kid(k, p, Id(k, r)) == Some(r)
  {
    if r in k.procs[p].children.Values {
      var x :| x in k.procs[p].children && k.procs[p].children[x] == r;
      assert Kid(k, p, x) == Some(r);
    }
    if r in k.procs[p].gone.Values {
      var x :| x in k.procs[p].gone && k.procs[p].gone[x] == r;
      assert Gone(k, p, x) == Some(r) && Kid(k, p, x) == Some(r);
    }
  }

  lemma ReparentFaces(k: Kin, p: Ref, r: Ref)
    requires KidsOK(k) && GoneOK(k) && p in k.procs && r in k.procs
    ensures var n := Reparent(k, p);
      && Id(n, r) == Id(k, r) && Exited(n, r) == Exited(k, r) && Code(n, r) == Code(k, r)
      && Par(n, r) == if Kid(k, p, Id(k, r)) == Some(r) then Some(k.initP) else Par(k, r)
  {
    KidValue(k, p, r);
    assert Reparent(k, p).procs[r] == Adopted(k, p, r);
  }

  lemma ReparentTables(k: Kin, p: Ref, q: Ref, x: Pid)
    requires GoneOK(k) && p in k.procs && p != k.initP && k.initP in k.procs
    ensures var n := Reparent(k, p);
      && Kid(n, q, x) == (if q == p then None else if q == k.initP && Kid(k, p, x).Some? then Kid(k, p, x) else Kid(k, q, x))
      && Gone(n, q, x) == (if q == p then None else if q == k.initP && Gone(k, p, x).Some? then Gone(k, p, x) else Gone(k, q, x))
  {
    assert Gone(k, p, x).Some? ==> Kid(k, p, x) == Gone(k, p, x);
    if q in k.procs {
      assert Reparent(k, p).procs[q] == Adopted(k, p, q);
    }
  }

  lemma ReparentAllFaces(k: Kin, n: Kin, p: Ref)
    requires KidsOK(k) && GoneOK(k) && p in k.procs && n == Reparent(k, p)
    ensures forall r :: r in k.procs ==> Id(n, r) == Id(k, r) && Exited(n, r) == Exited(k, r) && Code(n, r) == Code(k, r)
    ensures forall r :: r in k.procs ==> Par(n, r) == if Kid(k, p, Id(k, r)) == Some(r) then Some(k.initP) else Par(k, r)
  {
    hide Id, Par, Code, Kid, Gone, Exited, Reparent, KidsOK, GoneOK;
    forall r | r in k.procs
      ensures Id(n, r) == Id(k, r) && Exited(n, r) == Exited(k, r) && Code(n, r) == Code(k, r)
      ensures Par(n, r) == if Kid(k, p, Id(k, r)) == Some(r) then Some(k.initP) else Par(k, r)
    {
      ReparentFaces(k, p, r);
    }
  }

  lemma ReparentAllTables(k: Kin, n: Kin, p: Ref)
    requires GoneOK(k) && p in k.procs && p != k.initP && k.initP in k.procs && n == Reparent(k, p)
    ensures forall q: Ref, x: Pid :: Kid(n, q, x) == if q == p then None else if q == k.initP && Kid(k, p, x).Some? then Kid(k, p, x) else Kid(k, q, x)
    ensures forall q: Ref, x: Pid :: Gone(n, q, x) == if q == p then None else if q == k.initP && Gone(k, p, x).Some? then Gone(k, p, x) else Gone(k, q, x)
  {
    hide Id, Par, Code, Kid, Gone, Exited, Reparent, KidsOK, GoneOK;
    forall q: Ref, x: Pid
      ensures Kid(n, q, x) == if q == p then None else if q == k.initP && Kid(k, p, x).Some? then Kid(k, p, x) else Kid(k, q, x)
      ensures Gone(n, q, x) == if q == p then None else if q == k.initP && Gone(k, p, x).Some? then Gone(k, p, x) else Gone(k, q, x)
    {
      ReparentTables(k, p, q, x);
    }
  }

  lemma ReparentKeeps(k: Kin, p: Ref)
    requires p in k.procs
    ensures var n := Reparent(k, p); SameLists(k, n) && SameLog(k, n) && n.procs.Keys == k.procs.Keys
  {
  }

  lemma ReparentView(k: Kin, p: Ref)
    requires KidsOK(k) && GoneOK(k) && p in k.procs && p != k.initP && k.initP in k.procs
    ensures Reparented(k, Reparent(k, p), p)
  {
    hide Id, Par, Code, Kid, Gone, Exited, Reparent, KidsOK, GoneOK, SameLists, SameLog;
    var n := Reparent(k, p);
    ReparentKeeps(k, p);
    ReparentAllFaces(k, n, p);
    ReparentAllTables(k, n, p);
  }

  /** Reparenting to init keeps the tree. */
  lemma KeepReparentKids(k: Kin, n: Kin, p: Ref)
    requires KidsOK(k) && GoneOK(k) && Placed(k) && CodesOK(k) && Roots(k) && Ids(k)
    requires p in k.procs && p != k.initP && k.initP in k.procs && !Exited(k, k.initP) && Reparented(k, n, p)
    ensures KidsOK(n)
  {
    hide Id, Par, Code, Kid, Gone, Exited;
  }

  lemma KeepReparentGone(k: Kin, n: Kin, p: Ref)
    requires KidsOK(k) && GoneOK(k) && CodesOK(k) && Ids(k) && Placed(k)
    requires p in k.procs && p != k.initP && k.initP in k.procs && !Exited(k, k.initP) && Reparented(k, n, p)
    ensures GoneOK(n)
  {
    hide Id, Par, Code, Kid, Gone, Exited;
  }

  lemma KeepReparentPlaced(k: Kin, n: Kin, p: Ref)
    requires KidsOK(k) && GoneOK(k) && Placed(k) && CodesOK(k) && Ids(k)
    requires p in k.procs && p != k.initP && k.initP in k.procs && !Exited(k, k.initP) && Reparented(k, n, p)
    ensures Placed(n)
  {
    hide Id, Par, Code, Kid, Gone, Exited;
  }

  lemma KeepReparentRest(k: Kin, n: Kin, p: Ref)
    requires Roots(k) && Ids(k) && CodesOK(k) && Corpses(k) && KidsOK(k)
    requires p in k.procs && p != k.initP && k.initP in k.procs && !Exited(k, k.initP) && Reparented(k, n, p)
    ensures Roots(n) && Ids(n) && CodesOK(n) && Corpses(n)
  {
    hide Id, Par, Code, Kid, Gone, Exited;
  }

  lemma KeepReparent(k: Kin, n: Kin, p: Ref)
    requires KinInv(k)
    requires p in k.procs && p != k.initP && k.initP in k.procs && !Exited(k, k.initP) && Reparented(k, n, p)
    ensures KinInv(n)
  {
    hide Roots, Ids, KidsOK, GoneOK, Placed, CodesOK, Corpses, Reparented;
    KeepReparentKids(k, n, p);
    KeepReparentGone(k, n, p);
    KeepReparentPlaced(k, n, p);
    KeepReparentRest(k, n, p);
  }

  /** p has exited and is filed with its parent. */
  ghost predicate ExitMarked(k: Kin, n: Kin, p: Ref, parent: Ref, code: int) {
    && SameLists(k, n) && n.reports == k.reports && n.exits == k.exits[p := code] && n.procs.Keys == k.procs.Keys
    && (forall r :: r in k.procs ==> Id(n, r) == Id(k, r) && Par(n, r) == Par(k, r))
    && (forall r :: r in k.procs && r != p ==> Exited(n, r) == Exited(k, r) && Code(n, r) == Code(k, r))
    && Exited(n, p) && Code(n, p) == code
    && (forall q: Ref, x: Pid :: Kid(n, q, x) == Kid(k, q, x))
    && (forall q: Ref, x: Pid :: Gone(n, q, x) == if q == parent && x == Id(k, p) then Some(p) else Gone(k, q, x))
  }

  lemma ExitView(k: Kin, p: Ref, parent: Ref, code: int, t: Tid)
    requires p in k.procs && parent in k.procs && p != parent
    ensures ExitMarked(k, MarkExit(k, p, parent, code, t), p, parent, code)
  {
  }

  lemma KeepExitKids(k: Kin, n: Kin, p: Ref, parent: Ref, code: int)
    requires KidsOK(k) && GoneOK(k) && Placed(k) && CodesOK(k) && Roots(k) && Ids(k)
    requires p in k.procs && p != k.initP && p != k.mainP && !Exited(k, p) && Par(k, p) == Some(parent) && p !in k.reports
    requires ExitMarked(k, n, p, parent, code) && forall x: Pid :: Kid(k, p, x) == None
    ensures KidsOK(n)
  {
    hide Id, Par, Code, Kid, Gone, Exited;
  }

  lemma KeepExitGone(k: Kin, n: Kin, p: Ref, parent: Ref, code: int)
    requires KidsOK(k) && GoneOK(k) && CodesOK(k) && Ids(k) && Placed(k)
    requires p in k.procs && p != k.initP && p != k.mainP && !Exited(k, p) && Par(k, p) == Some(parent) && p !in k.reports
    requires ExitMarked(k, n, p, parent, code) && forall x: Pid :: Kid(k, p, x) == None
    ensures GoneOK(n)
  {
    hide Id, Par, Code, Kid, Gone, Exited;
    assert Kid(k, parent, Id(k, p)) == Some(p);
  }

  lemma KeepExitPlaced(k: Kin, n: Kin, p: Ref, parent: Ref, code: int)
    requires KidsOK(k) && GoneOK(k) && Placed(k) && CodesOK(k) && Ids(k)
    requires p in k.procs && p != k.initP && p != k.mainP && !Exited(k, p) && Par(k, p) == Some(parent) && p !in k.reports
    requires ExitMarked(k, n, p, parent, code) && forall x: Pid :: Kid(k, p, x) == None
    ensures Placed(n)
  {
    hide Id, Par, Code, Kid, Gone, Exited;
  }

  lemma KeepExitRest(k: Kin, n: Kin, p: Ref, parent: Ref, code: int)
    requires Roots(k) && Ids(k) && CodesOK(k) && Corpses(k)
    requires p in k.procs && p != k.initP && p != k.mainP && !Exited(k, p) && Par(k, p) == Some(parent) && p !in k.reports
    requires ExitMarked(k, n, p, parent, code) && forall x: Pid :: Kid(k, p, x) == None
    ensures Roots(n) && Ids(n) && CodesOK(n) && Corpses(n)
  {
    hide Id, Par, Code, Kid, Gone, Exited;
  }

  lemma KeepExit(k: Kin, n: Kin, p: Ref, parent: Ref, code: int)
    requires KinInv(k)
    requires p in k.procs && p != k.initP && p != k.mainP && !Exited(k, p) && Par(k, p) == Some(parent) && p !in k.reports
    requires ExitMarked(k, n, p, parent, code) && forall x: Pid :: Kid(k, p, x) == None
    ensures KinInv(n)
  {
    hide Roots, Ids, KidsOK, GoneOK, Placed, CodesOK, Corpses, ExitMarked;
    KeepExitKids(k, n, p, parent, code);
    KeepExitGone(k, n, p, parent, code);
    KeepExitPlaced(k, n, p, parent, code);
    KeepExitRest(k, n, p, parent, code);
  }

  // ---------------------------------------------------------------- wait

  /** Child c of p has been reaped. */
  ghost predicate Reaped(k: Kin, n: Kin, p: Ref, c: Ref) {
    && SameLists(k, n) && n.exits == k.exits && n.reports == k.reports[c := Code(k, c)] && n.procs.Keys == k.procs.Keys && SameFaces(k, n)
    && (forall q: Ref, x: Pid :: Kid(n, q, x) == if q == p && x == Id(k, c) then None else Kid(k, q, x))
    && (forall q: Ref, x: Pid :: Gone(n, q, x) == if q == p && x == Id(k, c) then None else Gone(k, q, x))
  }

  lemma KeepReapKids(k: Kin, n: Kin, p: Ref, c: Ref)
    requires KidsOK(k) && GoneOK(k) && Placed(k) && CodesOK(k) && Roots(k) && Ids(k)
    requires c in k.procs && Gone(k, p, Id(k, c)) == Some(c) && Reaped(k, n, p, c)
    ensures KidsOK(n)
  {
    hide Id, Par, Code, Kid, Gone, Exited;
    assert Kid(k, p, Id(k, c)) == Some(c) && Exited(k, c);
  }

  lemma KeepReapGone(k: Kin, n: Kin, p: Ref, c: Ref)
    requires KidsOK(k) && GoneOK(k) && CodesOK(k) && Ids(k) && Placed(k)
    requires c in k.procs && Gone(k, p, Id(k, c)) == Some(c) && Reaped(k, n, p, c)
    ensures GoneOK(n)
  {
    hide Id, Par, Code, Kid, Gone, Exited;
    assert Kid(k, p, Id(k, c)) == Some(c) && Exited(k, c);
  }

  lemma KeepReapPlaced(k: Kin, n: Kin, p: Ref, c: Ref)
    requires KidsOK(k) && GoneOK(k) && Placed(k) && CodesOK(k) && Ids(k)
    requires c in k.procs && Gone(k, p, Id(k, c)) == Some(c) && Reaped(k, n, p, c)
    ensures Placed(n)
  {
    hide Id, Par, Code, Kid, Gone, Exited;
    assert Kid(k, p, Id(k, c)) == Some(c) && Exited(k, c);
  }

  lemma KeepReapRest(k: Kin, n: Kin, p: Ref, c: Ref)
    requires Roots(k) && Ids(k) && CodesOK(k) && GoneOK(k) && KidsOK(k) && Corpses(k)
    requires c in k.procs && Gone(k, p, Id(k, c)) == Some(c) && Reaped(k, n, p, c)
    ensures Roots(n) && Ids(n) && CodesOK(n) && Corpses(n)
  {
    hide Id, Par, Code, Kid, Gone, Exited;
    assert Kid(k, p, Id(k, c)) == Some(c) && Exited(k, c);
  }

  lemma KeepReap(k: Kin, n: Kin, p: Ref, c: Ref)
    requires KinInv(k)
    requires c in k.procs && Gone(k, p, Id(k, c)) == Some(c) && Reaped(k, n, p, c)
    ensures KinInv(n)
  {
    hide Roots, Ids, KidsOK, GoneOK, Placed, CodesOK, Corpses, Reaped;
    KeepReapKids(k, n, p, c);
    KeepReapGone(k, n, p, c);
    KeepReapPlaced(k, n, p, c);
    KeepReapRest(k, n, p, c);
  }

  // ---------------------------------------------------------------- destruction

  /** The lists of corpses do not matter to the rest. */
  lemma KeepLists(k: Kin, n: Kin)
    requires KinInv(k) && n == k.(dead := n.dead, clearing := n.clearing) && Corpses(n)
    ensures KinInv(n)
  {
    assert SameFaces(k, n) && SameTables(k, n);
    hide Id, Par, Code, Kid, Gone, Exited;
    assert KidsOK(n);
    assert GoneOK(n);
    assert Placed(n);
  }

  lemma KeepListed(k: Kin, n: Kin, c: Ref)
    requires KinInv(k) && n == k.(dead := k.dead + [c]) && c in k.procs && c in k.reports && c !in k.dead + k.clearing
    ensures KinInv(n)
  {
    hide KidsOK, GoneOK, Placed, CodesOK, Roots, Ids;
    forall i, j | 0 <= i < j < |n.dead + n.clearing| ensures (n.dead + n.clearing)[i] != (n.dead + n.clearing)[j] {
      var l := k.dead + k.clearing;
      var i', j' := if i < |k.dead| then i else i - 1, if j < |k.dead| then j else j - 1;
      assert i != |k.dead| ==> (n.dead + n.clearing)[i] == l[i'] && l[i'] in l;
      assert j != |k.dead| ==> (n.dead + n.clearing)[j] == l[j'] && l[j'] in l;
    }
    KeepLists(k, n);
  }

  /** The clean thread takes over all dead processes. */
  lemma KeepGrabbed(k: Kin)
    requires KinInv(k) && k.clearing == []
    ensures KinInv(k.(clearing := k.dead, dead := []))
  {
    var n := k.(clearing := k.dead, dead := []);
    assert n.dead + n.clearing == k.dead + k.clearing;
    KeepLists(k, n);
  }

  ghost predicate Removed(k: Kin, n: Kin, c: Ref) {
    && n.mainP == k.mainP && n.initP == k.initP && SameLog(k, n) && n.procs.Keys == k.procs.Keys - {c} && SameFaces(k, n)
    && (forall q: Ref, x: Pid :: Kid(n, q, x) == if q == c then None else Kid(k, q, x))
    && (forall q: Ref, x: Pid :: Gone(n, q, x) == if q == c then None else Gone(k, q, x))
  }

  lemma KeepRemoved(k: Kin, n: Kin, c: Ref)
    requires KinInv(k) && c in k.procs && c in k.reports && Removed(k, n, c)
    ensures Roots(n) && Ids(n) && KidsOK(n) && GoneOK(n) && Placed(n) && CodesOK(n)
  {
    hide Id, Par, Code, Kid, Gone, Exited;
    assert Exited(k, c);
    assert forall x: Pid :: Kid(k, c, x) == None;
  }

  lemma DestroyView(k: Kin, c: Ref)
    requires k.clearing != [] && c == k.clearing[0]
    ensures Removed(k, Destroyed(k), c)
  {
  }

  lemma DestroyLists(k: Kin, n: Kin)
    requires Corpses(k) && k.clearing != [] && n.dead == k.dead && n.clearing == k.clearing[1..] && n.reports == k.reports
    requires n.procs.Keys == k.procs.Keys - {k.clearing[0]}
    ensures Corpses(n) && k.clearing[0] in k.procs && k.clearing[0] in k.reports
  {
    var l, m := k.dead + k.clearing, n.dead + n.clearing;
    assert l[|k.dead|] == k.clearing[0] && k.clearing[0] in l;
    forall i | 0 <= i < |m| ensures m[i] == l[if i < |k.dead| then i else i + 1] && m[i] != k.clearing[0] && m[i] in l {
    }
  }

  lemma KeepDestroyed(k: Kin)
    requires KinInv(k) && k.clearing != []
    ensures KinInv(Destroyed(k)) && k.clearing[0] in k.procs && k.clearing[0] in k.reports
  {
    hide KidsOK, GoneOK, Placed, CodesOK, Roots, Ids, Corpses, Removed;
    DestroyLists(k, Destroyed(k));
    DestroyView(k, k.clearing[0]);
    KeepRemoved(k, Destroyed(k), k.clearing[0]);
  }
}
