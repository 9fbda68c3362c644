/**
  All address spaces together: who refers to which frame, and the invariant that the
  reference counts of src/mem/page.c keep over every step.
 */
module PageMachine {
  import opened Wrappers
  import opened PageSpec
  import opened RefCount

  /** `kernel` holds the frames the kernel half maps; they are never shared. */
  datatype Machine = Machine(phys: Phys, spaces: map<nat, Space>, kernel: set<nat>)

  /** A counted reference to a frame. */
  datatype Ref =
    | Dir(s: nat)             // the page directory of space s
    | Tab(s: nat, i: nat)     // page table i of space s
    | Pag(s: nat, v: nat)     // user page v of space s
    | Ker(f: nat)             // a frame held by the kernel half

  ghost predicate Sized(m: Machine) {
    && m.phys.Ok()
    && (forall s :: s in m.spaces ==> m.spaces[s].Ok())
    && (forall f :: f in m.kernel ==> f < FRAMES)
  }

  predicate Maps(es: seq<Pte>, k: nat) { k < |es| && es[k].present }

  /** Whether the reference exists. */
  ghost predicate Live(m: Machine, r: Ref) {
    match r
    case Dir(s) => s in m.spaces
    case Tab(s, i) => s in m.spaces && UserTable(i) && Maps(m.spaces[s].pd, i)
    case Pag(s, v) => s in m.spaces && UserPage(v) && Maps(m.spaces[s].pt, v)
    case Ker(f) => f in m.kernel
  }

  ghost function Frame(m: Machine, r: Ref): (f: nat)
    requires Live(m, r)
  {
    match r
    case Dir(s) => m.spaces[s].pdFrame
    case Tab(s, i) => m.spaces[s].pd[i].frame
    case Pag(s, v) => m.spaces[s].pt[v].frame
    case Ker(f) => f
  }

  /** Every reference that could exist: a finite superset. */
  ghost function Slots(m: Machine): (rs: set<Ref>) {
    (set s | s in m.spaces :: Dir(s))
    + (set s, i | s in m.spaces && 0 <= i < TABLE :: Tab(s, i))
    + (set s, v | s in m.spaces && 0 <= v < PAGES :: Pag(s, v))
    + (set f | f in m.kernel :: Ker(f))
  }

  /** The references of the machine and the frames they point at. */
  ghost function Graph(m: Machine): (g: map<Ref, nat>)
    ensures forall r :: r in g <==> Live(m, r)
    ensures forall r :: r in g ==> g[r] == Frame(m, r)
  {
    assert forall r :: Live(m, r) ==> r in Slots(m) by {
      forall r | Live(m, r) ensures r in Slots(m) {
        LiveInSlots(m, r);
      }
    }
    map r | r in Slots(m) && Live(m, r) :: Frame(m, r)
  }

  lemma LiveInSlots(m: Machine, r: Ref)
    requires Live(m, r)
    ensures r in Slots(m)
  {
  }

  // ---------------------------------------------------------------- invariant

  /** Two references to one frame map the same user page of two address spaces. */
  ghost predicate SharedAtSamePage(g: map<Ref, nat>) {
    forall r, q :: r in g && q in g && r != q && g[r] == g[q] ==> r.Pag? && q.Pag? && r.v == q.v
  }

  /** A reference in w is the only one to its frame. */
  ghost predicate Private(g: map<Ref, nat>, w: iset<Ref>) {
    forall r, q :: r in w && r in g && q in g && g[q] == g[r] ==> q == r
  }

  /** The writable user pages. */
  ghost function Writable(m: Machine): iset<Ref> {
    iset r: Ref | r.Pag? && Live(m, r) && m.spaces[r.s].pt[r.v].rw
  }

  /** Present user pages sit in present tables, and user mappings carry the user bit. */
  ghost predicate TablesCover(sp: Space)
    requires sp.Ok()
  {
    && (forall v :: UserPage(v) && sp.pt[v].present ==> sp.pd[v / TABLE].present && sp.pt[v].user)
    && (forall i :: UserTable(i) && sp.pd[i].present ==> sp.pd[i].user && sp.pd[i].rw)
  }

  ghost predicate Inv(m: Machine) {
    && Sized(m)
    && Counted(m.phys.counts, Graph(m))
    && SharedAtSamePage(Graph(m))
    && Private(Graph(m), Writable(m))
    && (forall s :: s in m.spaces ==> TablesCover(m.spaces[s]))
  }

  // ---------------------------------------------------------------- one reference changes

  /** Adding a reference to an unused frame. */
  lemma AddFresh(g: map<Ref, nat>, w: iset<Ref>, x: iset<Ref>, r: Ref, f: nat)
    requires SharedAtSamePage(g) && Private(g, w)
    requires forall q :: q in g ==> g[q] != f
    requires forall q :: q in x && q != r ==> q in w
    ensures SharedAtSamePage(g[r := f]) && Private(g[r := f], x)
  {
  }

  lemma Drop(g: map<Ref, nat>, w: iset<Ref>, x: iset<Ref>, r: Ref)
    requires SharedAtSamePage(g) && Private(g, w)
    requires forall q :: q in x && q != r ==> q in w
    ensures SharedAtSamePage(g - {r}) && Private(g - {r}, x)
  {
  }

  // ---------------------------------------------------------------- the uint16_t never wraps

  /** Every live space owns a directory frame of its own, so there are at most FRAMES of them. */
  lemma SpacesBounded(m: Machine)
    requires Sized(m) && SharedAtSamePage(Graph(m))
    ensures |m.spaces| <= FRAMES
  {
    var h := (s: nat) => if s in m.spaces then m.spaces[s].pdFrame else 0;
    forall s, t | s in m.spaces.Keys && t in m.spaces.Keys && h(s) == h(t) ensures s == t {
      OwnDirectory(m, s, t);
    }
    hide Graph, SharedAtSamePage;
    InjectiveCard(m.spaces.Keys, Below(FRAMES), h);
    assert |m.spaces| == |m.spaces.Keys|;
  }

  lemma OwnDirectory(m: Machine, s: nat, t: nat)
    requires SharedAtSamePage(Graph(m)) && s in m.spaces && t in m.spaces && m.spaces[s].pdFrame == m.spaces[t].pdFrame
    ensures s == t
  {
    assert Dir(s) in Graph(m) && Dir(t) in Graph(m);
  }

  lemma SharedRefIsPage(g: map<Ref, nat>, r: Ref)
    requires SharedAtSamePage(g) && r in g && |Users(g, g[r])| > 1
    ensures r.Pag?
  {
    var q := Another(Users(g, g[r]), r);
    assert q in g;
  }

  /** The count of a shared frame is at most the number of live spaces. */
  lemma CountBounded(m: Machine, f: nat)
    requires Inv(m) && f < FRAMES && m.phys.counts[f] > 1
    ensures m.phys.counts[f] <= |m.spaces| <= FRAMES < COUNT_MOD
  {
    SpacesBounded(m);
    var g := Graph(m);
    var rs := Users(g, f);
    var h := (r: Ref) => if r.Ker? then 0 else r.s;
    forall r | r in rs ensures r in g && g[r] == f && r.Pag? && h(r) in m.spaces.Keys {
      SharedRefIsPage(g, r);
      assert Live(m, r);
    }
    InjectiveCard(rs, m.spaces.Keys, h);
    assert |m.spaces| == |m.spaces.Keys|;
  }
}
