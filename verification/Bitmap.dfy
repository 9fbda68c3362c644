/** The word bitmap of src/utils/bit_map.c as a finite set, and the kernel stack slots of src/task/thread.c on top of it. */
module Bitmap {
  import opened Wrappers
  import opened Bits

  const ONES: nat := 0xffff_ffff

  lemma OnesIs()
    ensures Pow2(32) == ONES + 1
  {
    assert Pow2(4) == 16;
    assert Pow2(8) == 256;
    assert Pow2(12) == 4096;
    assert Pow2(16) == 65536;
    assert Pow2(20) == 1048576;
    assert Pow2(24) == 16777216;
    assert Pow2(28) == 268435456;
  }

  /** Bit i of the words. */
  predicate Has(words: seq<nat>, i: nat)
    requires i / 32 < |words|
  {
    Bit(words[i / 32], i % 32)
  }

  /** The indices the search looks at: the last word only when it is a partial one. */
  function Searched(totalbits: nat): nat
    requires totalbits > 0
  {
    if totalbits % 32 == 0 then totalbits - 32 else totalbits
  }

  /** All of 0..n are taken. */
  predicate Full(s: set<nat>, n: nat) {
    forall i :: 0 <= i < n ==> i in s
  }

  /** The least index from i on, below n, that is not in s. */
  ghost function LeastClear(s: set<nat>, i: nat, n: nat): Option<nat>
    decreases n - i
  {
    if i >= n then None else if i !in s then Some(i) else LeastClear(s, i + 1, n)
  }

  /** What the search finds when s is taken. */
  ghost function FirstFree(s: set<nat>, totalbits: nat): Option<nat>
    requires totalbits > 0
  {
    LeastClear(s, 0, Searched(totalbits))
  }

  lemma {:induction false} LeastClearIs(s: set<nat>, i: nat, n: nat)
    ensures var r := LeastClear(s, i, n);
      if r.None? then forall j :: i <= j < n ==> j in s
      else i <= r.value < n && r.value !in s && forall j :: i <= j < r.value ==> j in s
    decreases n - i
  {
    if i < n && i in s {
      LeastClearIs(s, i + 1, n);
    }
  }

  /** The search finds the least free index searched, or all searched indices are taken. */
  lemma FirstFreeIs(s: set<nat>, totalbits: nat, r: Option<nat>)
    requires totalbits > 0
    ensures r == FirstFree(s, totalbits) <==>
      if r.None? then Full(s, Searched(totalbits)) else r.value < Searched(totalbits) && r.value !in s && Full(s, r.value)
  {
    LeastClearIs(s, 0, Searched(totalbits));
  }

  /** "Fails only when full" holds exactly when the last word is a partial one. */
  lemma FailsOnlyWhenFull(totalbits: nat)
    requires totalbits > 0
    ensures (forall s: set<nat> :: FirstFree(s, totalbits).None? ==> Full(s, totalbits)) <==> totalbits % 32 != 0
  {
    forall s: set<nat> ensures FirstFree(s, totalbits).None? <==> Full(s, Searched(totalbits)) {
      LeastClearIs(s, 0, Searched(totalbits));
    }
    if totalbits % 32 == 0 {
      var s := Below(totalbits - 32);
      assert FirstFree(s, totalbits).None? && totalbits - 32 !in s;
    }
  }

  /** Without a partial word the last 32 indices are never handed out, whatever is free. */
  lemma LastWordLost(totalbits: nat, s: set<nat>)
    requires totalbits > 0 && totalbits % 32 == 0
    ensures FirstFree(s, totalbits).Some? ==> FirstFree(s, totalbits).value < totalbits - 32
    ensures FirstFree(Below(totalbits - 32), totalbits) == None
  {
    LeastClearIs(s, 0, totalbits - 32);
    LeastClearIs(Below(totalbits - 32), 0, totalbits - 32);
  }

  const USER_THREADS: nat := 4096     // user stacks of one process
  const THREAD_IDS: nat := 2048
  const PROCESS_IDS: nat := 1024

  /** The kernel's own pools: user stacks 4064.., thread ids 2016.. and process ids 992.. can never be allocated; all kernel stack slots can. */
  lemma KernelPools(s: set<nat>)
    ensures FirstFree(s, USER_THREADS).Some? ==> FirstFree(s, USER_THREADS).value < 4064
    ensures FirstFree(s, THREAD_IDS).Some? ==> FirstFree(s, THREAD_IDS).value < 2016
    ensures FirstFree(s, PROCESS_IDS).Some? ==> FirstFree(s, PROCESS_IDS).value < 992
    ensures FirstFree(s, MAX_SLOTS).None? ==> Full(s, MAX_SLOTS)
  {
    LastWordLost(USER_THREADS, s);
    LastWordLost(THREAD_IDS, s);
    LastWordLost(PROCESS_IDS, s);
    LeastClearIs(s, 0, MAX_SLOTS);
  }

  class Bits32 {
    const words: array<nat>
    const totalbits: nat

    ghost predicate Valid()
      reads this, words
    {
      && totalbits > 0 && words.Length == (totalbits + 31) / 32
      && forall i :: 0 <= i < words.Length ==> words[i] <= ONES
    }

    /** The set the bitmap stands for. */
    ghost function Members(): set<nat>
      requires Valid()
      reads this, words
    {
      set i | 0 <= i < totalbits && Has(words[..], i)
    }

    /** bitmap_init with its own storage. */
    constructor (totalbits: nat)
      requires totalbits > 0
      ensures Valid() && fresh(words) && this.totalbits == totalbits && Members() == {}
    {
      this.totalbits := totalbits;
      words := new nat[(totalbits + 31) / 32](_ => 0);
      new;
      forall i | 0 <= i < totalbits ensures !Has(words[..], i) {
        ZeroBits(i % 32);
      }
    }

    /** bitmap_clear. */
    method Clear()
      requires Valid()
      modifies words
      ensures Valid() && Members() == {}
    {
      for i := 0 to words.Length
        invariant Valid() && forall j :: 0 <= j < i ==> words[j] == 0
      {
        words[i] := 0;
      }
      forall i | 0 <= i < totalbits ensures !Has(words[..], i) {
        ZeroBits(i % 32);
      }
    }

    /** bitmap_set_bit. */
    method SetAt(index: nat)
      requires Valid()
      modifies words
      ensures Valid() && Members() == if index < totalbits then old(Members()) + {index} else old(Members())
    {
      if index >= totalbits {
        return;
      }
      ghost var was := words[..];
      var w, j := words[index / 32], index % 32;
      OnesIs();
      BitOpsFit(w, j, 32);
      words[index / 32] := SetBit(w, j);
      forall i | 0 <= i < totalbits ensures Has(words[..], i) <==> i == index || Has(was, i) {
        SetBitAt(w, j, i % 32);
        assert i == i / 32 * 32 + i % 32 && index == index / 32 * 32 + j;
      }
    }

    /** bitmap_clear_bit. */
    method ClearAt(index: nat)
      requires Valid()
      modifies words
      ensures Valid() && Members() == old(Members()) - {index}
    {
      if index >= totalbits {
        return;
      }
      ghost var was := words[..];
      var w, j := words[index / 32], index % 32;
      OnesIs();
      BitOpsFit(w, j, 32);
      words[index / 32] := ClearBit(w, j);
      forall i | 0 <= i < totalbits ensures Has(words[..], i) <==> i != index && Has(was, i) {
        ClearBitAt(w, j, i % 32);
        assert i == i / 32 * 32 + i % 32 && index == index / 32 * 32 + j;
      }
    }

    /** bitmap_test_bit. */
    method Test(index: nat) returns (r: bool)
      requires Valid()
      ensures r <==> index in Members()
    {
      if index >= totalbits {
        return false;
      }
      r := Bit(words[index / 32], index % 32);
      assert words[..][index / 32] == words[index / 32];
    }

    /** The inner loops: the least clear bit among the first n of word i. */
    method ScanWord(i: nat, n: nat) returns (j: nat)
      requires Valid() && i < words.Length && n <= 32
      ensures j <= n && (j < n ==> !Bit(words[i], j)) && forall x :: 0 <= x < j ==> Bit(words[i], x)
    {
      j := 0;
      while j < n && Bit(words[i], j)
        invariant j <= n && forall x :: 0 <= x < j ==> Bit(words[i], x)
      {
        j := j + 1;
      }
    }

    /** bitmap_find_first_free: the least index not in the set among those searched. */
    method FindFirstFree() returns (bit: Option<nat>)
      requires Valid()
      ensures bit == FirstFree(Members(), totalbits)
      ensures bit.Some? ==> bit.value < totalbits
    {
      bit := Scan();
      FirstFreeIs(Members(), totalbits, bit);
    }

    /** Its two loops: the full words, then the bits of a partial one. */
    method Scan() returns (bit: Option<nat>)
      requires Valid()
      ensures bit.Some? ==> bit.value < Searched(totalbits) && bit.value !in Members() && Full(Members(), bit.value)
      ensures bit.None? ==> Full(Members(), Searched(totalbits))
    {
      ghost var m := words[..];
      for i := 0 to words.Length - 1
        invariant forall x :: 0 <= x < 32 * i ==> Has(m, x)
      {
        if words[i] != ONES {
          var j := ScanWord(i, 32);
          WordScanned(m, i, j);
          WordNotFull(m[i], j);
          return Some(i * 32 + j);
        } else {
          WordFull(m, i);
        }
      }
      var last := words.Length - 1;
      var j := ScanWord(last, totalbits % 32);
      WordScanned(m, last, j);
      if j < totalbits % 32 {
        return Some(last * 32 + j);
      }
      bit := None;
    }

    /** bitmap_alloc_first_free: takes the least free index searched, and only it. */
    method AllocFirstFree() returns (bit: Option<nat>)
      requires Valid()
      modifies words
      ensures Valid()
      ensures bit == FirstFree(old(Members()), totalbits) && (bit.Some? ==> bit.value < totalbits && bit.value !in old(Members()))
      ensures Members() == if bit.Some? then old(Members()) + {bit.value} else old(Members())
    {
      bit := FindFirstFree();
      FirstFreeIs(Members(), totalbits, bit);
      if bit.Some? {
        SetAt(bit.value);
      }
    }
  }

  /** The first j bits of word i are set. */
  lemma WordScanned(m: seq<nat>, i: nat, j: nat)
    requires i < |m| && j <= 32 && (forall x :: 0 <= x < j ==> Bit(m[i], x)) && forall x :: 0 <= x < 32 * i ==> Has(m, x)
    ensures forall x :: 0 <= x < 32 * i + j ==> Has(m, x)
    ensures j < 32 && !Bit(m[i], j) ==> !Has(m, i * 32 + j)
  {
    forall x | 32 * i <= x < 32 * i + j ensures Has(m, x) {
      assert x / 32 == i && x % 32 == x - 32 * i;
    }
    if j < 32 {
      assert (i * 32 + j) / 32 == i && (i * 32 + j) % 32 == j;
    }
  }

  lemma WordFull(m: seq<nat>, i: nat)
    requires i < |m| && m[i] == ONES && forall x :: 0 <= x < 32 * i ==> Has(m, x)
    ensures forall x :: 0 <= x < 32 * (i + 1) ==> Has(m, x)
  {
    OnesIs();
    forall x | 0 <= x < 32 ensures Bit(m[i], x) {
      AllOnes(32, x);
    }
    WordScanned(m, i, 32);
  }

  /** A word below all ones has a clear bit for the scan to find. */
  lemma WordNotFull(w: nat, j: nat)
    requires w < ONES && j <= 32 && forall x :: 0 <= x < j ==> Bit(w, x)
    ensures j < 32
  {
    OnesIs();
    var x := ClearBitExists(w, 32);
  }

  // ---------------------------------------------------------------- kernel stacks

  const PAGE: nat := 4096
  const AREA_START: nat := 0xE000_0000
  const AREA_END: nat := 0xF000_0000
  const SLOT_SIZE: nat := 12288          // a guard page and two stack pages
  const MAX_SLOTS: nat := 21845          // (AREA_END - AREA_START) / SLOT_SIZE

  function SlotAddr(slot: nat): nat { AREA_START + slot * SLOT_SIZE }

  /** Page i of the stack in a slot. */
  function StackPage(slot: nat, i: nat): nat { SlotAddr(slot) + PAGE + i * PAGE }

  predicate InStack(slot: nat, a: nat) { SlotAddr(slot) + PAGE <= a < SlotAddr(slot) + SLOT_SIZE }

  predicate InGuard(slot: nat, a: nat) { SlotAddr(slot) <= a < SlotAddr(slot) + PAGE }

  /** Stacks of different slots are disjoint, lie inside the area, and no guard page overlaps a stack. */
  lemma StacksApart(s: nat, t: nat, a: nat)
    requires s < MAX_SLOTS && t < MAX_SLOTS
    ensures InStack(s, a) && InStack(t, a) ==> s == t
    ensures !(InStack(s, a) && InGuard(t, a))
    ensures InStack(s, a) || InGuard(s, a) ==> AREA_START <= a < AREA_END
  {
  }

  /** The stack of a slot consists of its two stack pages. */
  lemma StackPages(s: nat, a: nat)
    ensures InStack(s, a) <==> exists i :: 0 <= i < 2 && StackPage(s, i) <= a < StackPage(s, i) + PAGE
  {
    if InStack(s, a) {
      var i := (a - StackPage(s, 0)) / PAGE;
      assert 0 <= i < 2 && StackPage(s, i) <= a < StackPage(s, i) + PAGE;
    }
  }

  /** Address a lies on one of the pages. */
  ghost predicate OnPage(pages: set<nat>, a: nat) {
    exists p :: p in pages && p <= a < p + PAGE
  }

  /** Mapped are the stacks of the slots in s, to the byte, and no guard page of any slot; the pages are page aligned. */
  ghost predicate CoversStacks(pages: set<nat>, s: set<nat>) {
    && (forall a: nat :: OnPage(pages, a) <==> exists t :: t in s && InStack(t, a))
    && (forall a: nat, t: nat :: t < MAX_SLOTS && OnPage(pages, a) ==> !InGuard(t, a))
    && (forall p :: p in pages ==> p % PAGE == 0)
  }

  lemma PagesCover(s: set<nat>)
    requires forall t :: t in s ==> t < MAX_SLOTS
    ensures CoversStacks(Pages(s), s)
  {
    forall a: nat ensures OnPage(Pages(s), a) <==> exists t :: t in s && InStack(t, a) {
      if OnPage(Pages(s), a) {
        var p :| p in Pages(s) && p <= a < p + PAGE;
        var t, i :| t in s && 0 <= i < 2 && p == StackPage(t, i);
        StackPages(t, a);
      }
      if t :| t in s && InStack(t, a) {
        StackPages(t, a);
        var i :| 0 <= i < 2 && StackPage(t, i) <= a < StackPage(t, i) + PAGE;
        assert StackPage(t, i) in Pages(s);
      }
    }
    forall a: nat, t: nat | t < MAX_SLOTS && OnPage(Pages(s), a) ensures !InGuard(t, a) {
      var u :| u in s && InStack(u, a);
      StacksApart(u, t, a);
    }
  }

  class Stacks {
    const slots: Bits32
    var mapped: set<nat>        // the mapped pages of the stack area

    ghost predicate Valid()
      reads this, slots, slots.words
    {
      slots.Valid() && slots.totalbits == MAX_SLOTS && mapped == Pages(slots.Members())
    }

    constructor ()
      ensures Valid() && fresh(slots) && fresh(slots.words) && slots.Members() == {} && CoversStacks(mapped, slots.Members())
    {
      slots := new Bits32(MAX_SLOTS);
      mapped := {};
      new;
      PagesCover({});
    }

    /** The pages of a stack are mapped, the guard page below them is not. */
    method MapStack(slot: nat)
      modifies this`mapped
      ensures mapped == old(mapped) + {StackPage(slot, 0), StackPage(slot, 1)}
    {
      var stack := SlotAddr(slot) + PAGE;
      for i := 0 to 2
        invariant mapped == old(mapped) + if i == 0 then {} else if i == 1 then {StackPage(slot, 0)} else {StackPage(slot, 0), StackPage(slot, 1)}
      {
        mapped := mapped + {stack + i * PAGE};
      }
    }

    /** alloc_kernel_stack_slot: fails (the source panics) only when all 21845 slots are taken. */
    method Alloc() returns (addr: Option<nat>, ghost slot: nat)
      requires Valid()
      modifies this`mapped, slots.words
      ensures Valid()
      ensures addr.None? <==> Full(old(slots.Members()), MAX_SLOTS)
      ensures addr.None? ==> slots.Members() == old(slots.Members())
      ensures addr.Some? ==> slot < MAX_SLOTS && slot !in old(slots.Members()) && addr.value == SlotAddr(slot)
      ensures addr.Some? ==> slots.Members() == old(slots.Members()) + {slot}
      ensures CoversStacks(mapped, slots.Members())
    {
      FirstFreeIs(slots.Members(), MAX_SLOTS, None);
      var bit := slots.AllocFirstFree();
      if bit.None? {
        PagesCover(slots.Members());
        return None, 0;
      }
      slot := bit.value;
      MapStack(bit.value);
      PagesAdd(old(slots.Members()), slot);
      PagesCover(slots.Members());
      addr := Some(AREA_START + bit.value * SLOT_SIZE);
    }

    /** release_kernel_stack_slot of a live slot. */
    method Release(addr: nat)
      requires Valid() && AREA_START <= addr < AREA_END && (addr - AREA_START) % SLOT_SIZE == 0
      requires (addr - AREA_START) / SLOT_SIZE in slots.Members()
      modifies this`mapped, slots.words
      ensures Valid() && slots.Members() == old(slots.Members()) - {(addr - AREA_START) / SLOT_SIZE}
      ensures CoversStacks(mapped, slots.Members())
    {
      var stack := addr + PAGE;
      var slot := (addr - AREA_START) / SLOT_SIZE;
      mapped := mapped - {stack, stack + PAGE};
      slots.ClearAt(slot);
      PagesRemove(old(slots.Members()), slot);
      PagesCover(slots.Members());
    }
  }

  ghost function Pages(s: set<nat>): set<nat> {
    set t, i | t in s && 0 <= i < 2 :: StackPage(t, i)
  }

  lemma PagesAdd(s: set<nat>, t: nat)
    ensures Pages(s + {t}) == Pages(s) + {StackPage(t, 0), StackPage(t, 1)}
  {
  }

  lemma PagesRemove(s: set<nat>, t: nat)
    ensures Pages(s - {t}) == Pages(s) - {StackPage(t, 0), StackPage(t, 1)}
  {
    forall x | x in Pages(s - {t}) ensures x in Pages(s) && x != StackPage(t, 0) && x != StackPage(t, 1) {
      var u, i :| u in s - {t} && 0 <= i < 2 && x == StackPage(u, i);
    }
    forall x | x in Pages(s) && x != StackPage(t, 0) && x != StackPage(t, 1) ensures x in Pages(s - {t}) {
      var u, i :| u in s && 0 <= i < 2 && x == StackPage(u, i);
    }
  }
}
