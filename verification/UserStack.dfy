/** The initial user stack that prepare_user_stack of src/task/thread.c builds for a new program. */
module UserStack {
  import opened Wrappers
  import opened Bytes

  const STACK_SIZE: nat := 65536
  const PAGE: nat := 4096

  type CString = seq<Byte>

  ghost predicate IsCString(s: CString) { forall i :: 0 <= i < |s| ==> s[i] != 0 }

  /** The bytes from a up to the first zero are s. */
  ghost predicate StringAt(m: seq<Byte>, a: nat, s: CString) {
    IsCString(s) && a + |s| < |m| && m[a..a + |s|] == s && m[a + |s|] == 0
  }

  /** There is only one string at an address. */
  lemma StringUnique(m: seq<Byte>, a: nat, s: CString, t: CString)
    requires StringAt(m, a, s) && StringAt(m, a, t)
    ensures s == t
  {
    if |s| < |t| {
      CharAt(m, a, t, |s|);
    } else if |t| < |s| {
      CharAt(m, a, s, |t|);
    }
  }

  lemma CharAt(m: seq<Byte>, a: nat, s: CString, i: nat)
    requires StringAt(m, a, s) && i < |s|
    ensures m[a + i] == s[i] != 0
  {
    assert m[a..a + |s|][i] == m[a + i];
  }

  /** Room for the strings and their terminators. */
  function Length(argv: seq<CString>): (n: nat)
    ensures n >= |argv|
  {
    if argv == [] then 0 else Length(argv[..|argv| - 1]) + |argv[|argv| - 1]| + 1
  }

  lemma {:induction false} LengthPrefix(argv: seq<CString>, i: nat)
    requires i <= |argv|
    ensures Length(argv[..i]) <= Length(argv)
    decreases |argv|
  {
    if i < |argv| {
      LengthPrefix(argv[..|argv| - 1], i);
      assert argv[..|argv| - 1][..i] == argv[..i];
    } else {
      assert argv[..i] == argv;
    }
  }

  lemma LengthNext(argv: seq<CString>, i: nat)
    requires i < |argv|
    ensures Length(argv[..i + 1]) == Length(argv[..i]) + |argv[i]| + 1 <= Length(argv)
  {
    assert argv[..i + 1][..i] == argv[..i];
    LengthPrefix(argv, i + 1);
  }

  /** strcpy_with_len. */
  method StrCpy(mem: array<Byte>, at: nat, s: CString) returns (len: nat)
    requires at + |s| < mem.Length && IsCString(s)
    modifies mem
    ensures len == |s| && StringAt(mem[..], at, s) && SameOutside(old(mem[..]), mem[..], at, at + |s| + 1)
  {
    for i := 0 to |s|
      invariant forall x :: 0 <= x < mem.Length ==> mem[x] == if at <= x < at + i then s[x - at] else old(mem[x])
    {
      mem[at + i] := s[i];
    }
    mem[at + |s|] := 0;
    len := |s|;
  }

  lemma StringKept(m: seq<Byte>, n: seq<Byte>, a: nat, s: CString, lo: nat, hi: nat)
    requires StringAt(m, a, s) && SameOutside(m, n, lo, hi) && (a + |s| < lo || hi <= a)
    ensures StringAt(n, a, s)
  {
    assert n[a..a + |s|] == m[a..a + |s|];
  }

  /** The strings argv[0..i] lie at the addresses args, between lo and hi. */
  ghost predicate Placed(m: seq<Byte>, argv: seq<CString>, args: seq<nat>, lo: nat, hi: nat) {
    |args| <= |argv| && forall j :: 0 <= j < |args| ==> StringAt(m, args[j], argv[j]) && lo <= args[j] && args[j] + |argv[j]| < hi
  }

  lemma PlacedKept(m: seq<Byte>, n: seq<Byte>, argv: seq<CString>, args: seq<nat>, lo: nat, hi: nat, from: nat, to_: nat)
    requires Placed(m, argv, args, lo, hi) && SameOutside(m, n, from, to_) && (to_ <= lo || hi <= from)
    ensures Placed(n, argv, args, lo, hi)
  {
    forall j | 0 <= j < |args| ensures StringAt(n, args[j], argv[j]) {
      StringKept(m, n, args[j], argv[j], from, to_);
    }
  }

  /** Where string j has to end. */
  function Behind(args: seq<nat>, j: nat, hi: nat): nat { if j + 1 < |args| then args[j + 1] else hi }

  /** The strings follow one another without gaps, from lo to hi. */
  ghost predicate Packed(args: seq<nat>, argv: seq<CString>, lo: nat, hi: nat) {
    && |args| == |argv| && (if args == [] then hi == lo else args[0] == lo)
    && forall j :: 0 <= j < |args| ==> args[j] + |argv[j]| + 1 == Behind(args, j, hi)
  }

  lemma PackedNext(args: seq<nat>, argv: seq<CString>, i: nat, lo: nat, hi: nat)
    requires i < |argv| && Packed(args, argv[..i], lo, hi)
    ensures Packed(args + [hi], argv[..i + 1], lo, hi + |argv[i]| + 1)
  {
    var more, l, end := args + [hi], argv[..i + 1], hi + |argv[i]| + 1;
    forall j | 0 <= j < |more| ensures more[j] + |l[j]| + 1 == Behind(more, j, end) {
      assert j < i ==> args[j] + |argv[..i][j]| + 1 == Behind(args, j, hi) == Behind(more, j, end);
    }
  }

  lemma CopyStarts(m: seq<Byte>, argv: seq<CString>, at: nat)
    ensures argv[..0] == [] && Length([]) == 0 && Packed([], [], at, at) && Placed(m, argv, [], at, at) && SameOutside(m, m, at, at)
  {
  }

  lemma PlacedNext(m: seq<Byte>, n: seq<Byte>, argv: seq<CString>, args: seq<nat>, lo: nat, hi: nat)
    requires |args| < |argv| && Placed(m, argv, args, lo, hi) && lo <= hi && StringAt(n, hi, argv[|args|])
    requires SameOutside(m, n, hi, hi + |argv[|args|]| + 1)
    ensures Placed(n, argv, args + [hi], lo, hi + |argv[|args|]| + 1)
  {
    PlacedKept(m, n, argv, args, lo, hi, hi, hi + |argv[|args|]| + 1);
    hide StringAt;
  }

  lemma OutsideNext(m: seq<Byte>, n: seq<Byte>, o: seq<Byte>, lo: nat, mid: nat, hi: nat)
    requires SameOutside(m, n, lo, mid) && SameOutside(n, o, mid, hi) && lo <= mid <= hi
    ensures SameOutside(m, o, lo, hi)
  {
  }

  /** The first loop: strings upwards from `at`. */
  method CopyStrings(mem: array<Byte>, argv: seq<CString>, at: nat) returns (args: seq<nat>)
    requires at + Length(argv) <= mem.Length && forall i :: 0 <= i < |argv| ==> IsCString(argv[i])
    modifies mem
    ensures |args| == |argv| && Placed(mem[..], argv, args, at, at + Length(argv)) && Packed(args, argv, at, at + Length(argv))
    ensures SameOutside(old(mem[..]), mem[..], at, at + Length(argv))
  {
    hide StringAt, IsCString, Packed, Length, SameOutside, Placed;
    CopyStarts(mem[..], argv, at);
    args := [];
    var next := at;
    for i := 0 to |argv|
      invariant Packed(args, argv[..i], at, next)
      invariant |args| == i && next == at + Length(argv[..i]) && Placed(mem[..], argv, args, at, next)
      invariant SameOutside(old(mem[..]), mem[..], at, next)
    {
      LengthNext(argv, i);
      ghost var m := mem[..];
      var len := StrCpy(mem, next, argv[i]);
      PackedNext(args, argv, i, at, next);
      PlacedNext(m, mem[..], argv, args, at, next);
      OutsideNext(old(mem[..]), m, mem[..], at, next, next + len + 1);
      args := args + [next];
      next := next + len + 1;
    }
    assert argv[..|argv|] == argv;
  }

  /** The words ws lie at `at`. */
  ghost predicate WordsAt(m: seq<Byte>, at: nat, ws: seq<nat>) {
    at + 4 * |ws| <= |m| && forall j :: 0 <= j < |ws| ==> Load32(m, at + 4 * j) == ws[j]
  }

  lemma WordsKept(m: seq<Byte>, n: seq<Byte>, at: nat, ws: seq<nat>, lo: nat, hi: nat)
    requires WordsAt(m, at, ws) && SameOutside(m, n, lo, hi) && (at + 4 * |ws| <= lo || hi <= at)
    ensures WordsAt(n, at, ws)
  {
    forall j | 0 <= j < |ws| ensures Load32(n, at + 4 * j) == ws[j] {
      assert Load32(m, at + 4 * j) == ws[j];
    }
  }

  /** The second loop: the pointer array. */
  method StoreWords(mem: array<Byte>, at: nat, ws: seq<nat>)
    requires at + 4 * |ws| <= mem.Length && forall i :: 0 <= i < |ws| ==> ws[i] < WORD_MOD
    modifies mem
    ensures WordsAt(mem[..], at, ws) && SameOutside(old(mem[..]), mem[..], at, at + 4 * |ws|)
  {
    for i := 0 to |ws|
      invariant WordsAt(mem[..], at, ws[..i]) && SameOutside(old(mem[..]), mem[..], at, at + 4 * i)
    {
      ghost var m := mem[..];
      Store32(mem, at + 4 * i, ws[i]);
      WordsKept(m, mem[..], at, ws[..i], at + 4 * i, at + 4 * i + 4);
      assert ws[..i + 1] == ws[..i] + [ws[i]];
    }
    assert ws[..|ws|] == ws;
  }

  /** What the program finds: return address, argc, argv; argv's pointers lead to the strings and end with NULL. */
  ghost predicate ProgramSees(m: seq<Byte>, sp: nat, argv: seq<CString>, returnAddr: nat) {
    && sp + 16 + 4 * |argv| <= |m|
    && Load32(m, sp) == returnAddr && Load32(m, sp + 4) == |argv| && Load32(m, sp + 8) == sp + 12
    && (forall i :: 0 <= i < |argv| ==> StringAt(m, Load32(m, sp + 12 + 4 * i), argv[i]))
    && Load32(m, sp + 12 + 4 * |argv|) == 0
  }

  /** The pointers of the program's argv. */
  ghost function Pointers(m: seq<Byte>, sp: nat, n: nat): (args: seq<nat>)
    requires sp + 16 + 4 * n <= |m|
  {
    seq(n, i requires 0 <= i < n => Load32(m, sp + 12 + 4 * i))
  }

  lemma Assembled(m: seq<Byte>, sp: nat, argv: seq<CString>, args: seq<nat>, lo: nat, hi: nat, returnAddr: nat)
    requires |args| == |argv| && Placed(m, argv, args, lo, hi) && WordsAt(m, sp + 12, args + [0]) && WordsAt(m, sp, [returnAddr, |argv|, sp + 12])
    ensures ProgramSees(m, sp, argv, returnAddr) && Pointers(m, sp, |argv|) == args
  {
    var ws := args + [0];
    var head := [returnAddr, |argv|, sp + 12];
    assert Load32(m, sp + 4 * 0) == head[0] && Load32(m, sp + 4 * 1) == head[1] && Load32(m, sp + 4 * 2) == head[2];
    forall i | 0 <= i < |argv| ensures StringAt(m, Load32(m, sp + 12 + 4 * i), argv[i]) {
      assert Load32(m, sp + 12 + 4 * i) == ws[i] == args[i];
    }
    assert Load32(m, sp + 12 + 4 * |argv|) == ws[|argv|];
    forall i | 0 <= i < |argv| ensures Pointers(m, sp, |argv|)[i] == args[i] {
      assert Load32(m, sp + 12 + 4 * i) == ws[i];
    }
  }

  /** The strings lie without gaps between the pointer array and the last word of the stack. */
  ghost predicate PackedBelow(m: seq<Byte>, sp: nat, argv: seq<CString>, top: nat) {
    && sp + 16 + 4 * |argv| <= |m|
    && var args, start := Pointers(m, sp, |argv|), sp + 16 + 4 * |argv|;
       var end := if args == [] then start else args[|args| - 1] + |argv[|args| - 1]| + 1;
       Packed(args, argv, start, end) && top - 3 <= end <= top
  }

  lemma EndsBelow(m: seq<Byte>, sp: nat, argv: seq<CString>, end: nat, top: nat)
    requires sp + 16 + 4 * |argv| <= |m| && Packed(Pointers(m, sp, |argv|), argv, sp + 16 + 4 * |argv|, end) && top - 3 <= end <= top
    ensures PackedBelow(m, sp, argv, top)
  {
    var args := Pointers(m, sp, |argv|);
    assert args != [] ==> args[|args| - 1] + |argv[|args| - 1]| + 1 == Behind(args, |args| - 1, end);
    hide Pointers;
  }

  /** The room the strings need. */
  method TotalLength(argv: seq<CString>) returns (total: nat)
    ensures total == Length(argv)
  {
    total := 0;
    for i := 0 to |argv|
      invariant total == Length(argv[..i])
    {
      LengthNext(argv, i);
      total := total + |argv[i]| + 1;
    }
    assert argv[..|argv|] == argv;
  }

  /** The writes: strings at `at`, the pointer array below them, the three words below that. */
  method BuildStack(mem: array<Byte>, at: nat, argv: seq<CString>, returnAddr: nat) returns (sp: nat)
    requires at + Length(argv) <= mem.Length <= WORD_MOD && (|argv| + 1) * 4 + 12 <= at && returnAddr < WORD_MOD
    requires forall i :: 0 <= i < |argv| ==> IsCString(argv[i])
    modifies mem
    ensures sp == at - (|argv| + 1) * 4 - 12 && ProgramSees(mem[..], sp, argv, returnAddr)
    ensures Packed(Pointers(mem[..], sp, |argv|), argv, at, at + Length(argv))
    ensures SameOutside(old(mem[..]), mem[..], sp, at + Length(argv))
  {
    ghost var end := at + Length(argv);
    hide Length, Packed;
    var args := CopyStrings(mem, argv, at);
    ghost var m1 := mem[..];
    var start := at - (|argv| + 1) * 4;
    StoreWords(mem, start, args + [0]);
    ghost var m2 := mem[..];
    PlacedKept(m1, m2, argv, args, at, end, start, at);
    StoreWords(mem, start - 12, [returnAddr, |argv|, start]);
    ghost var m3 := mem[..];
    hide StringAt;
    PlacedKept(m2, m3, argv, args, at, end, start - 12, start);
    WordsKept(m2, m3, start, args + [0], start - 12, start);
    sp := start - 12;
    Assembled(m3, sp, argv, args, at, end, returnAddr);
  }

  /** prepare_user_stack: a panic if the arguments reach into the guard page, otherwise a stack from which argc and argv read back exactly. */
  method PrepareUserStack(mem: array<Byte>, top: nat, argv: seq<CString>, returnAddr: nat) returns (sp: Option<nat>)
    requires top <= mem.Length <= WORD_MOD && top >= STACK_SIZE && returnAddr < WORD_MOD
    requires (forall i :: 0 <= i < |argv| ==> IsCString(argv[i])) && Length(argv) + 4 * |argv| + 20 <= top
    modifies mem
    ensures sp.None? <==> (top - Length(argv)) / 4 * 4 - 4 * (|argv| + 1) - 12 < top - STACK_SIZE + PAGE
    ensures sp.None? ==> mem[..] == old(mem[..])
    ensures sp.Some? ==> sp.value % 4 == 0 && top - STACK_SIZE + PAGE <= sp.value <= top && ProgramSees(mem[..], sp.value, argv, returnAddr)
    ensures sp.Some? ==> sp.value == (top - Length(argv)) / 4 * 4 - 4 * (|argv| + 1) - 12
    ensures sp.Some? ==> PackedBelow(mem[..], sp.value, argv, top)
    ensures sp.Some? ==> SameOutside(old(mem[..]), mem[..], sp.value, top)
  {
    hide ProgramSees, Packed, PackedBelow, Pointers, Length;
    var total := TotalLength(argv);
    var at := (top - total) / 4 * 4;
    var final := at - (|argv| + 1) * 4 - 12;
    if final < top - STACK_SIZE + PAGE {
      return None;
    }
    var s := BuildStack(mem, at, argv, returnAddr);
    sp := Some(s);
    EndsBelow(mem[..], s, argv, at + total, top);
  }
}
