/**
  Reference counting in general: `g` maps each live reference to the cell it points at, and
  `counts` is the array of counters beside it.
 */
module RefCount {
  ghost function Users<R(!new)>(g: map<R, nat>, f: nat): (rs: set<R>) {
    set r | r in g && g[r] == f
  }

  /** Every counter is the number of references to its cell. */
  ghost predicate Counted<R(!new)>(counts: seq<nat>, g: map<R, nat>) {
    && (forall r :: r in g ==> g[r] < |counts|)
    && (forall f: nat :: f < |counts| ==> counts[f] == |Users(g, f)|)
  }

  lemma UsersAfterAdd<R(!new)>(g: map<R, nat>, r: R, f: nat, c: nat)
    requires r !in g
    ensures Users(g[r := f], c) == if c == f then Users(g, c) + {r} else Users(g, c)
  {
  }

  lemma UsersAfterDrop<R(!new)>(g: map<R, nat>, r: R, c: nat)
    requires r in g
    ensures Users(g - {r}, c) == if c == g[r] then Users(g, c) - {r} else Users(g, c)
  {
  }

  lemma AddRef<R(!new)>(counts: seq<nat>, g: map<R, nat>, r: R, f: nat)
    requires Counted(counts, g) && r !in g && f < |counts|
    ensures Counted(counts[f := counts[f] + 1], g[r := f])
  {
    var after := counts[f := counts[f] + 1];
    forall c: nat | c < |after| ensures after[c] == |Users(g[r := f], c)| {
      UsersAfterAdd(g, r, f, c);
      assert counts[c] == |Users(g, c)|;
    }
  }

  lemma DropRef<R(!new)>(counts: seq<nat>, g: map<R, nat>, r: R)
    requires Counted(counts, g) && r in g
    ensures counts[g[r]] >= 1
    ensures Counted(counts[g[r] := counts[g[r]] - 1], g - {r})
  {
    assert r in Users(g, g[r]);
    var after := counts[g[r] := counts[g[r]] - 1];
    forall c: nat | c < |after| ensures after[c] == |Users(g - {r}, c)| {
      UsersAfterDrop(g, r, c);
      assert counts[c] == |Users(g, c)|;
    }
  }

  lemma MoveRef<R(!new)>(counts: seq<nat>, g: map<R, nat>, r: R, f: nat)
    requires Counted(counts, g) && r in g && f < |counts| && f != g[r]
    ensures counts[g[r]] >= 1
    ensures Counted(counts[f := counts[f] + 1][g[r] := counts[g[r]] - 1], g[r := f])
  {
    DropRef(counts, g, r);
    AddRef(counts[g[r] := counts[g[r]] - 1], g - {r}, r, f);
    assert (g - {r})[r := f] == g[r := f];
    assert counts[f := counts[f] + 1][g[r] := counts[g[r]] - 1]
        == counts[g[r] := counts[g[r]] - 1][f := counts[f] + 1];
  }

  /** A zero counter means that no reference points at the cell. */
  lemma ZeroIsUnused<R(!new)>(counts: seq<nat>, g: map<R, nat>, f: nat)
    requires Counted(counts, g) && f < |counts| && counts[f] == 0
    ensures forall r :: r in g ==> g[r] != f
  {
    forall r | r in g ensures g[r] != f {
      assert r !in Users(g, f);
    }
  }

  lemma UsedIsCounted<R(!new)>(counts: seq<nat>, g: map<R, nat>, r: R)
    requires Counted(counts, g) && r in g
    ensures counts[g[r]] >= 1
  {
    assert r in Users(g, g[r]);
  }

  /** A counter of one means that the reference is the only one. */
  lemma OneIsSole<R(!new)>(counts: seq<nat>, g: map<R, nat>, r: R)
    requires Counted(counts, g) && r in g && counts[g[r]] == 1
    ensures forall q :: q in g && g[q] == g[r] ==> q == r
  {
    var us := Users(g, g[r]);
    assert r in us && |us - {r}| == 0;
    forall q | q in g && g[q] == g[r] ensures q == r {
      assert q in us && q !in us - {r};
    }
  }

  // ---------------------------------------------------------------- cardinalities

  lemma {:induction false} InjectiveCard<A, B>(xs: set<A>, ys: set<B>, h: A -> B)
    requires forall x :: x in xs ==> h(x) in ys
    requires forall x, z :: x in xs && z in xs && h(x) == h(z) ==> x == z
    ensures |xs| <= |ys|
    decreases |xs|
  {
    if xs != {} {
      var x :| x in xs;
      InjectiveCard(xs - {x}, ys - {h(x)}, h);
    }
  }

  lemma Another<A>(xs: set<A>, x: A) returns (y: A)
    requires |xs| > 1
    ensures y in xs && y != x
  {
    var ys := xs - {x};
    if ys == {} {
      InjectiveCard(xs, {x}, z => z);
    }
    y :| y in ys;
  }
}
