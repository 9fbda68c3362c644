/** The image writers: user/fs/mkfs.c and user/fs/fs_inject.c. */
module FsWrite {
  import opened Wrappers
  import opened Bytes
  import opened Bits
  import opened FsSpec

  // ---------------------------------------------------------------- raw writes

  /** fwrite of some bytes at an offset. */
  method Put(image: array<Byte>, at: nat, bytes: seq<Byte>)
    requires at + |bytes| <= image.Length
    modifies image
    ensures SameOutside(old(image[..]), image[..], at, at + |bytes|)
    ensures image[at..at + |bytes|] == bytes
  {
    for i := 0 to |bytes|
      invariant forall x :: 0 <= x < image.Length ==>
        image[x] == if at <= x < at + i then bytes[x - at] else old(image[x])
    {
      image[at + i] := bytes[i];
    }
  }

  // ---------------------------------------------------------------- bitmaps

  /** bitmap[i / 8] |= 1 << i % 8. */
  method MarkBit(bitmap: array<Byte>, i: nat)
    requires i / 8 < bitmap.Length
    modifies bitmap
    ensures forall k :: 0 <= k / 8 < bitmap.Length ==>
      (BitAt(bitmap[..], 0, k) <==> k == i || BitAt(old(bitmap[..]), 0, k))
  {
    var x, j := bitmap[i / 8] as nat, i % 8;
    assert Pow2(8) == 256;
    BitOpsFit(x, j, 8);
    bitmap[i / 8] := SetBit(x, j) as Byte;
    forall k | 0 <= k / 8 < bitmap.Length
      ensures BitAt(bitmap[..], 0, k) <==> k == i || BitAt(old(bitmap[..]), 0, k)
    {
      SetBitAt(x, j, k % 8);
      assert k == k / 8 * 8 + k % 8 && i == i / 8 * 8 + i % 8;
    }
  }

  ghost predicate Ascending(s: seq<nat>) {
    forall k, l :: 0 <= k < l < |s| ==> s[k] < s[l]
  }

  /** found are the clear bits of the bitmap below hi, in order. */
  ghost predicate ClearBelow(m: seq<Byte>, hi: nat, found: seq<nat>)
    requires hi <= 8 * |m|
  {
    && Ascending(found)
    && forall k :: 0 <= k < hi ==> (k in found <==> !BitAt(m, 0, k))
  }

  /** n is m with the bits in found set. */
  ghost predicate WithBits(m: seq<Byte>, n: seq<Byte>, found: seq<nat>) {
    |m| == |n| && forall k :: 0 <= k / 8 < |m| ==> (BitAt(n, 0, k) <==> k in found || BitAt(m, 0, k))
  }

  /** find_free_blocks: the first `needed` clear bits are found and set. */
  method FindFreeBlocks(bitmap: array<Byte>, needed: nat, dataStart: nat) returns (blocks: Option<seq<nat>>, ghost found: seq<nat>, ghost hi: nat)
    requires bitmap.Length == BLOCK
    modifies bitmap
    ensures hi <= BITS && ClearBelow(old(bitmap[..]), hi, found) && WithBits(old(bitmap[..]), bitmap[..], found)
    ensures forall k <- found :: k < hi
    ensures blocks.None? ==> |found| < needed && hi == BITS
    ensures blocks.Some? ==> |found| == needed == |blocks.value| && forall k :: 0 <= k < needed ==> blocks.value[k] == dataStart + found[k]
  {
    ghost var was := bitmap[..];
    var i := 0;
    var taken: seq<nat> := [];
    found := [];
    while i < BITS && |taken| < needed
      invariant i <= BITS && |taken| == |found| <= needed
      invariant ClearBelow(was, i, found) && (forall k <- found :: k < i)
      invariant WithBits(was, bitmap[..], found)
      invariant forall k :: 0 <= k < |found| ==> taken[k] == dataStart + found[k]
    {
      assert BitAt(bitmap[..], 0, i) == BitAt(was, 0, i);
      if !Bit(bitmap[i / 8] as nat, i % 8) {
        MarkBit(bitmap, i);
        taken := taken + [dataStart + i];
        assert forall k :: 0 <= k < |found| ==> found[k] in found;
        found := found + [i];
      }
      i := i + 1;
    }
    hi := i;
    blocks := if |taken| < needed then None else Some(taken);
  }

  /** get_free_inode_num: the least clear bit is set; 2^32 - 1 when there is none. */
  method GetFreeInodeNum(bitmap: array<Byte>) returns (n: nat)
    requires bitmap.Length == BLOCK
    modifies bitmap
    ensures n < BITS || n == WORD_MOD - 1
    ensures n < BITS ==> ClearBelow(old(bitmap[..]), n + 1, [n]) && WithBits(old(bitmap[..]), bitmap[..], [n])
    ensures n >= BITS ==> bitmap[..] == old(bitmap[..]) && ClearBelow(old(bitmap[..]), BITS, [])
  {
    ghost var was := bitmap[..];
    for i := 0 to BITS
      invariant bitmap[..] == was && ClearBelow(was, i, [])
    {
      if !Bit(bitmap[i / 8] as nat, i % 8) {
        assert !BitAt(was, 0, i);
        MarkBit(bitmap, i);
        return i;
      }
    }
    n := WORD_MOD - 1;
  }

  /** On a bitmap with exactly its first n bits set, the search takes n, n + 1, ... */
  lemma {:induction false} PrefixFound(m: seq<Byte>, hi: nat, found: seq<nat>, n: nat, k: nat)
    requires |m| == BLOCK && hi <= BITS && ClearBelow(m, hi, found) && Marked(m, 0, n)
    requires forall x <- found :: x < hi
    requires k < |found|
    ensures found[k] == n + k
  {
    assert found[k] in found && !BitAt(m, 0, found[k]);
    if k > 0 {
      PrefixFound(m, hi, found, n, k - 1);
    }
    // the bit n + k is clear; if it lies below found[k] it was found, at a place between k - 1 and k
    if n + k < found[k] {
      assert !BitAt(m, 0, n + k);
      assert n + k in found;
      var j :| 0 <= j < |found| && found[j] == n + k;
      if j < k { PrefixFound(m, hi, found, n, j); }
      assert false;
    }
  }

  /** Only a search that runs out of bits finds too few. */
  lemma {:induction false} PrefixEnough(m: seq<Byte>, found: seq<nat>, n: nat)
    requires |m| == BLOCK && n <= BITS && ClearBelow(m, BITS, found) && Marked(m, 0, n)
    requires forall x <- found :: x < BITS
    ensures |found| == BITS - n
  {
    if |found| < BITS - n {
      var y := n + |found|;
      assert !BitAt(m, 0, y);
      assert y in found;
      var j :| 0 <= j < |found| && found[j] == y;
      PrefixFound(m, BITS, found, n, j);
    } else if |found| > BITS - n {
      assert found[BITS - n] in found;
      PrefixFound(m, BITS, found, n, BITS - n);
    }
  }

  /** Setting the bits n .. n + c - 1 extends the prefix. */
  lemma PrefixMarked(m: seq<Byte>, m': seq<Byte>, found: seq<nat>, hi: nat, n: nat)
    requires |m| == BLOCK && hi <= BITS && ClearBelow(m, hi, found) && WithBits(m, m', found) && Marked(m, 0, n)
    requires forall x <- found :: x < hi
    ensures Marked(m', 0, n + |found|)
  {
    forall i | 0 <= i < BITS ensures BitAt(m', 0, i) <==> i < n + |found| {
      assert BitAt(m, 0, i) <==> i < n;
      if i in found {
        var j :| 0 <= j < |found| && found[j] == i;
        PrefixFound(m, hi, found, n, j);
      } else if n <= i < n + |found| {
        PrefixFound(m, hi, found, n, i - n);
      }
    }
  }

  // ---------------------------------------------------------------- structures as bytes

  function Le32(v: nat): seq<Byte> { [B0(v), B1(v), B2(v), B3(v)] }

  /** Consecutive words. */
  function Le32s(ws: seq<nat>): (b: seq<Byte>)
    ensures |b| == 4 * |ws|
  {
    if ws == [] then [] else Le32s(ws[..|ws| - 1]) + Le32(ws[|ws| - 1])
  }

  lemma {:induction false} Le32sAt(ws: seq<nat>, i: nat)
    requires i < |ws| && ws[i] < WORD_MOD
    ensures Load32(Le32s(ws), 4 * i) == ws[i]
  {
    var l := |ws| - 1;
    var rest := Le32s(ws[..l]);
    assert Le32s(ws) == rest + Le32(ws[l]);
    if i < l {
      Le32sAt(ws[..l], i);
      assert ws[..l][i] == ws[i];
      assert Load32(Le32s(ws), 4 * i) == Load32(rest, 4 * i);
    } else {
      WordRoundTrip(ws[l]);
    }
  }

  /** A word of written bytes is read back from the image. */
  lemma LoadPut(m: seq<Byte>, at: nat, bytes: seq<Byte>, o: nat)
    requires at + |bytes| <= |m| && m[at..at + |bytes|] == bytes && o + 4 <= |bytes|
    ensures Load32(m, at + o) == Load32(bytes, o)
  {
    assert forall i :: 0 <= i < |bytes| ==> bytes[i] == m[at + i];
  }

  function Zeros(n: nat): (z: seq<Byte>)
    ensures |z| == n
  {
    seq(n, _ => 0)
  }

  function Blocks14(blocks: seq<nat>): (r: seq<nat>)
    requires |blocks| <= DIRECT
    ensures |r| == 14
  {
    blocks + seq(14 - |blocks|, _ => 0)
  }

  function InodeBytes(kind: nat, size: nat, blocks: seq<nat>): (b: seq<Byte>)
    requires |blocks| <= DIRECT
    ensures |b| == INODE_SIZE
  {
    [B0(kind), B1(kind)] + Le32s([size] + Blocks14(blocks))
  }

  lemma LoadBehind(m: seq<Byte>, off: nat, head: seq<Byte>, body: seq<Byte>, o: nat)
    requires off + |head| + |body| <= |m| && m[off..off + |head| + |body|] == head + body && o + 4 <= |body|
    ensures Load32(m, off + |head| + o) == Load32(body, o)
  {
    assert forall i :: 0 <= i < |body| ==> body[i] == (head + body)[|head| + i] == m[off + (|head| + i)];
  }

  /** Written inode bytes make an inode. */
  lemma InodePut(m: seq<Byte>, off: nat, kind: nat, size: nat, first: nat, blocks: seq<nat>)
    requires off + INODE_SIZE <= |m| && |blocks| <= DIRECT && kind < 256 && size < WORD_MOD && first + |blocks| < WORD_MOD
    requires m[off..off + INODE_SIZE] == InodeBytes(kind, size, blocks)
    requires forall i :: 0 <= i < |blocks| ==> blocks[i] == first + i
    ensures InodeAt(m, off, kind, size, first, |blocks|)
  {
    var head, rest := [B0(kind), B1(kind)], Blocks14(blocks);
    var ws := [size] + rest;
    hide Le32s, Load32;
    var body := Le32s(ws);
    assert m[off..off + 2 + 60] == head + body;
    assert Load16(m, off) == kind by {
      var b := m[off..off + INODE_SIZE];
      assert b[0] == head[0] && b[1] == head[1] && b[0] == m[off] && b[1] == m[off + 1];
    }
    Le32sAt(ws, 0);
    LoadBehind(m, off, head, body, 0);
    forall i | 0 <= i < 14 ensures Load32(m, off + 6 + 4 * i) == BlockNo(first, |blocks|, i) {
      assert ws[i + 1] == rest[i] == BlockNo(first, |blocks|, i);
      Le32sAt(ws, i + 1);
      LoadBehind(m, off, head, body, 4 * i + 4);
    }
  }

  /** strncpy into a 28-byte field whose last byte is then cleared. */
  function NameField(name: seq<Byte>): (b: seq<Byte>)
    ensures |b| == 28
  {
    if |name| < MAX_NAME then name + Zeros(28 - |name|) else name[..MAX_NAME] + [0]
  }

  function DirentBytes(inode: nat, name: seq<Byte>): (b: seq<Byte>)
    ensures |b| == DIRENT
  {
    Le32(inode) + NameField(name)
  }

  lemma NamePut(m: seq<Byte>, o: nat, name: seq<Byte>)
    requires o + 28 <= |m| && m[o..o + 28] == NameField(name)
    requires |name| <= MAX_NAME && forall i :: 0 <= i < |name| ==> name[i] != 0
    ensures NameAt(m, o, name)
  {
    var b := NameField(name);
    assert forall i :: 0 <= i < 28 ==> b[i] == m[o + i];
    assert forall i :: 0 <= i < |name| ==> b[i] == name[i];
    assert b[|name|] == 0;
  }

  lemma DirentPut(m: seq<Byte>, j: nat, inode: nat, name: seq<Byte>)
    requires DirOff(j) + DIRENT <= |m| && inode < WORD_MOD
    requires |name| <= MAX_NAME && forall i :: 0 <= i < |name| ==> name[i] != 0
    requires m[DirOff(j)..DirOff(j) + DIRENT] == DirentBytes(inode, name)
    ensures DirentAt(m, j, inode, name)
  {
    var b := DirentBytes(inode, name);
    var o := DirOff(j);
    hide DirOff, NameField, Load32, NameAt;
    assert Load32(m, o) == inode by {
      LoadPut(m, o, b, 0);
      DirentWord(inode, name);
    }
    assert NameAt(m, o + 4, name) by {
      assert m[o + 4..o + 32] == b[4..] == NameField(name);
      NamePut(m, o + 4, name);
    }
  }

  lemma DirentWord(inode: nat, name: seq<Byte>)
    requires inode < WORD_MOD
    ensures Load32(DirentBytes(inode, name), 0) == inode
  {
    WordRoundTrip(inode);
  }

  // ---------------------------------------------------------------- mkfs

  const SUPER: seq<nat> := [FS_MAGIC, TOTAL_BLOCKS, 1, 2, 3, DATA_START]

  lemma SuperPut(m: seq<Byte>)
    requires 24 <= |m| && m[0..24] == Le32s(SUPER)
    ensures SuperAt(m)
  {
    forall i | 0 <= i < 6 ensures Load32(m, 4 * i) == SUPER[i] {
      Le32sAt(SUPER, i);
      LoadPut(m, 0, Le32s(SUPER), 4 * i);
    }
    assert Load32(m, 4 * 0) == SUPER[0] && Load32(m, 4 * 1) == SUPER[1] && Load32(m, 4 * 2) == SUPER[2];
    assert Load32(m, 4 * 3) == SUPER[3] && Load32(m, 4 * 4) == SUPER[4] && Load32(m, 4 * 5) == SUPER[5];
  }

  /** A bitmap block whose first byte has its n low bits set. */
  lemma FirstByteMarked(m: seq<Byte>, base: nat, first: Byte, n: nat)
    requires base + BLOCK <= |m| && m[base..base + BLOCK] == [first] + Zeros(BLOCK - 1)
    requires (n == 1 && first == 1) || (n == 2 && first == 3)
    ensures Marked(m, base, n)
  {
    forall i | 0 <= i < BITS ensures BitAt(m, base, i) <==> i < n {
      var byte := m[base + i / 8];
      assert m[base..base + BLOCK][i / 8] == byte;
      if i >= 8 {
        ZeroBits(i % 8);
      } else {
        FewBits(i);
      }
    }
  }

  lemma FewBits(i: nat)
    ensures Bit(1, i) <==> i < 1
    ensures Bit(3, i) <==> i < 2
  {
    if i >= 1 { ZeroBits(i - 1); }
    if i >= 2 { ZeroBits(i - 2); }
    assert Bit(3, i) == if i == 0 then true else Bit(1, i - 1);
  }

  /** mkfs: whatever the disk held before, afterwards it is an empty file system. */
  method Mkfs(image: array<Byte>)
    requires image.Length == DISK_SIZE
    modifies image
    ensures Holds(image[..], [])
  {
    Put(image, 0, Le32s(SUPER));
    ghost var m1 := image[..];
    Put(image, INODE_BITMAP, [3] + Zeros(BLOCK - 1));
    ghost var m2 := image[..];
    Put(image, DATA_BITMAP, [1] + Zeros(BLOCK - 1));
    ghost var m3 := image[..];
    Put(image, INODE_TABLE + INODE_SIZE, InodeBytes(FS_DIR, BLOCK, [DATA_START]));
    ghost var m4 := image[..];
    Put(image, DATA_START * BLOCK, Zeros(BLOCK));
    ghost var m5 := image[..];
    Put(image, DATA_START * BLOCK, DirentBytes(1, DOT));
    ghost var m6 := image[..];
    Put(image, DATA_START * BLOCK + DIRENT, DirentBytes(1, DOTDOT));
    MkfsHolds(m1, m2, m3, m4, m5, m6, image[..]);
  }

  lemma MkfsHolds(m1: seq<Byte>, m2: seq<Byte>, m3: seq<Byte>, m4: seq<Byte>, m5: seq<Byte>, m6: seq<Byte>, m: seq<Byte>)
    requires |m1| == DISK_SIZE && m1[0..24] == Le32s(SUPER)
    requires SameOutside(m1, m2, INODE_BITMAP, INODE_BITMAP + BLOCK) && m2[INODE_BITMAP..INODE_BITMAP + BLOCK] == [3] + Zeros(BLOCK - 1)
    requires SameOutside(m2, m3, DATA_BITMAP, DATA_BITMAP + BLOCK) && m3[DATA_BITMAP..DATA_BITMAP + BLOCK] == [1] + Zeros(BLOCK - 1)
    requires SameOutside(m3, m4, InodeOff(1), InodeOff(1) + INODE_SIZE) && m4[InodeOff(1)..InodeOff(1) + INODE_SIZE] == InodeBytes(FS_DIR, BLOCK, [DATA_START])
    requires SameOutside(m4, m5, ROOT_DIR, ROOT_DIR + BLOCK) && m5[ROOT_DIR..ROOT_DIR + BLOCK] == Zeros(BLOCK)
    requires SameOutside(m5, m6, DirOff(0), DirOff(0) + DIRENT) && m6[DirOff(0)..DirOff(0) + DIRENT] == DirentBytes(1, DOT)
    requires SameOutside(m6, m, DirOff(1), DirOff(1) + DIRENT) && m[DirOff(1)..DirOff(1) + DIRENT] == DirentBytes(1, DOTDOT)
    ensures Holds(m, [])
  {
    SuperPut(m1);
    SuperFrame(m1, m);
    FirstByteMarked(m2, INODE_BITMAP, 3, 2);
    MarkedFrame(m2, m, INODE_BITMAP, 2);
    FirstByteMarked(m3, DATA_BITMAP, 1, 1);
    MarkedFrame(m3, m, DATA_BITMAP, 1);
    InodePut(m4, InodeOff(1), FS_DIR, BLOCK, DATA_START, [DATA_START]);
    InodeFrame(m4, m, InodeOff(1), FS_DIR, BLOCK, DATA_START, 1);
    DirentPut(m6, 0, 1, DOT);
    DirentFrame(m6, m, 0, 1, DOT);
    DirentPut(m, 1, 1, DOTDOT);
    MkfsFree(m5, m);
  }

  lemma MkfsFree(m5: seq<Byte>, m: seq<Byte>)
    requires |m5| == DISK_SIZE && m5[ROOT_DIR..ROOT_DIR + BLOCK] == Zeros(BLOCK) && SameOutside(m5, m, ROOT_DIR, ROOT_DIR + 2 * DIRENT)
    ensures FreeSlots(m, 2)
  {
    forall j | 2 <= j < SLOTS ensures Load32(m, DirOff(j)) == 0 {
      LoadPut(m5, ROOT_DIR, Zeros(BLOCK), j * DIRENT);
    }
  }

  // ---------------------------------------------------------------- inject

  datatype Superblock = Superblock(magic: nat, totalBlocks: nat, inodeBitmap: nat, dataBitmap: nat, inodeTable: nat, dataStart: nat)

  method ReadSuper(image: array<Byte>) returns (sb: Superblock)
    requires 24 <= image.Length
    ensures SuperAt(image[..]) ==> sb == Superblock(FS_MAGIC, TOTAL_BLOCKS, 1, 2, 3, DATA_START)
  {
    var a := Fetch32(image, 0);
    var b := Fetch32(image, 4);
    var c := Fetch32(image, 8);
    var d := Fetch32(image, 12);
    var e := Fetch32(image, 16);
    var f := Fetch32(image, 20);
    sb := Superblock(a, b, c, d, e, f);
  }

  /** The block-wise copy of the file's bytes; the last block may be written only in part. */
  method WriteBlocks(image: array<Byte>, blocks: seq<nat>, content: seq<Byte>, ghost first: nat)
    requires |blocks| == (|content| + BLOCK - 1) / BLOCK && (first + |blocks|) * BLOCK <= image.Length
    requires forall i :: 0 <= i < |blocks| ==> blocks[i] == first + i
    modifies image
    ensures SameOutside(old(image[..]), image[..], first * BLOCK, first * BLOCK + |content|)
    ensures image[first * BLOCK..first * BLOCK + |content|] == content
  {
    ghost var was, base := image[..], first * BLOCK;
    ghost var done: nat := 0;
    for i := 0 to |blocks|
      invariant done == (if i == |blocks| then |content| else i * BLOCK)
      invariant SameOutside(was, image[..], base, base + done)
      invariant image[base..base + done] == content[..done]
    {
      var size := if i == |blocks| - 1 && |content| % BLOCK != 0 then |content| % BLOCK else BLOCK;
      assert i * BLOCK + size == if i == |blocks| - 1 then |content| else (i + 1) * BLOCK;
      assert blocks[i] * BLOCK == base + done;
      ghost var m := image[..];
      Put(image, blocks[i] * BLOCK, content[i * BLOCK..i * BLOCK + size]);
      Appended(was, m, image[..], base, content, done, size);
      done := done + size;
    }
    assert content[..|content|] == content;
  }

  lemma Appended(was: seq<Byte>, m: seq<Byte>, n: seq<Byte>, base: nat, content: seq<Byte>, done: nat, size: nat)
    requires done + size <= |content| && base + done + size <= |m|
    requires SameOutside(was, m, base, base + done) && m[base..base + done] == content[..done]
    requires SameOutside(m, n, base + done, base + done + size)
    requires n[base + done..base + done + size] == content[done..done + size]
    ensures SameOutside(was, n, base, base + done + size)
    ensures n[base..base + done + size] == content[..done + size]
  {
    assert n[base..base + done] == m[base..base + done];
    assert n[base..base + done + size] == n[base..base + done] + n[base + done..base + done + size];
  }

  /** write_inode_to_disk. */
  method WriteInode(image: array<Byte>, num: nat, kind: nat, size: nat, blocks: seq<nat>, ghost first: nat)
    requires image.Length == DISK_SIZE && SuperAt(image[..]) && InodeOff(num) + INODE_SIZE <= ROOT_DIR
    requires |blocks| <= DIRECT && kind < 256 && size < WORD_MOD && first + |blocks| < WORD_MOD
    requires forall i :: 0 <= i < |blocks| ==> blocks[i] == first + i
    modifies image
    ensures SameOutside(old(image[..]), image[..], InodeOff(num), InodeOff(num) + INODE_SIZE)
    ensures InodeAt(image[..], InodeOff(num), kind, size, first, |blocks|)
  {
    var sb := ReadSuper(image);
    var off := sb.inodeTable * BLOCK + num * INODE_SIZE;
    Put(image, off, InodeBytes(kind, size, blocks));
    InodePut(image[..], off, kind, size, first, blocks);
  }

  /** add_dirent_to_root: the first free slot takes the entry; a full directory is left as it is. */
  method AddDirent(image: array<Byte>, name: seq<Byte>, inode: nat) returns (slot: nat)
    requires image.Length == DISK_SIZE && SuperAt(image[..]) && InodeAt(image[..], InodeOff(1), FS_DIR, BLOCK, DATA_START, 1)
    requires |name| <= MAX_NAME && inode < WORD_MOD && forall i :: 0 <= i < |name| ==> name[i] != 0
    modifies image
    ensures slot <= SLOTS && forall j :: 0 <= j < slot ==> Load32(old(image[..]), DirOff(j)) != 0
    ensures slot == SLOTS ==> image[..] == old(image[..])
    ensures slot < SLOTS ==>
      && Load32(old(image[..]), DirOff(slot)) == 0
      && SameOutside(old(image[..]), image[..], DirOff(slot), DirOff(slot) + DIRENT)
      && DirentAt(image[..], slot, inode, name)
  {
    ghost var was := image[..];
    var sb := ReadSuper(image);
    var root := sb.inodeTable * BLOCK + 1 * INODE_SIZE;
    var block := Fetch32(image, root + 6);
    assert block == DATA_START by {
      assert Load32(was, InodeOff(1) + 6 + 4 * 0) == BlockNo(DATA_START, 1, 0);
    }
    for i := 0 to SLOTS
      invariant image[..] == was
      invariant forall j :: 0 <= j < i ==> Load32(was, DirOff(j)) != 0
    {
      var entry := Fetch32(image, block * BLOCK + i * DIRENT);
      if entry == 0 {
        Put(image, block * BLOCK + i * DIRENT, DirentBytes(inode, name));
        DirentPut(image[..], i, inode, name);
        return i;
      }
    }
    slot := SLOTS;
  }

  /** An injection of f as file number k writes the bitmaps, the data, one inode and one slot. */
  predicate Injects(x: nat, k: nat, f: File) {
    || INODE_BITMAP <= x < DATA_BITMAP + BLOCK
    || f.first * BLOCK <= x < f.first * BLOCK + |f.data|
    || InodeOff(k + 2) <= x < InodeOff(k + 3)
    || DirOff(k + 2) <= x < DirOff(k + 3)
  }

  /** m and n agree everywhere else. */
  ghost predicate OnlyInjected(m: seq<Byte>, n: seq<Byte>, k: nat, f: File) {
    |m| == |n| && forall x :: 0 <= x < |m| && !Injects(x, k, f) ==> m[x] == n[x]
  }

  lemma Elsewhere(m: seq<Byte>, n: seq<Byte>, k: nat, f: File, lo: nat, hi: nat)
    requires OnlyInjected(m, n, k, f) && k < MAX_FILES && f.first > DATA_START
    requires
      || hi <= INODE_BITMAP
      || (INODE_TABLE <= lo && hi <= InodeOff(k + 2))
      || (ROOT_DIR <= lo && hi <= DirOff(k + 2))
      || (DirOff(k + 3) <= lo && hi <= ROOT_DIR + BLOCK)
      || (ROOT_DIR + BLOCK <= lo && hi <= f.first * BLOCK)
    ensures SameOn(m, n, lo, hi)
  {
    forall x | lo <= x < hi && x < |m| ensures m[x] == n[x] {
      assert !Injects(x, k, f);
    }
  }

  /** Files lie in pairwise disjoint regions behind the root directory and inside the disk. */
  lemma FilePlaces(files: seq<File>, i: nat, k: nat)
    requires i < k <= |files| <= MAX_FILES && forall j :: 0 <= j < |files| ==> GoodFile(files[j])
    ensures ROOT_DIR + BLOCK <= (DATA_START + Used(files[..i])) * BLOCK
    ensures (DATA_START + Used(files[..i])) * BLOCK + |files[i].data| <= (DATA_START + Used(files[..k])) * BLOCK
    ensures (DATA_START + Used(files[..k]) + DIRECT) * BLOCK <= DISK_SIZE
  {
    UsedGrows(files, i, k);
    CountCovers(files[i]);
    UsedBound(files, k);
  }

  /** What stays of an earlier file g, given where it lies. */
  lemma FileFrame(m: seq<Byte>, n: seq<Byte>, k: nat, f: File, i: nat, g: File)
    requires |m| == DISK_SIZE && OnlyInjected(m, n, k, f) && i < k < MAX_FILES && f.first > DATA_START
    requires ROOT_DIR + BLOCK <= g.first * BLOCK && g.first * BLOCK + |g.data| <= f.first * BLOCK
    requires InodeAt(m, InodeOff(i + 2), FS_FILE, |g.data|, g.first, g.Count()) && DirentAt(m, i + 2, i + 2, g.name) && DataAt(m, g)
    ensures InodeAt(n, InodeOff(i + 2), FS_FILE, |g.data|, g.first, g.Count()) && DirentAt(n, i + 2, i + 2, g.name) && DataAt(n, g)
  {
    hide OnlyInjected, InodeAt, DirentAt, DataAt, SameOn;
    Elsewhere(m, n, k, f, InodeOff(i + 2), InodeOff(i + 2) + INODE_SIZE);
    InodeFrame(m, n, InodeOff(i + 2), FS_FILE, |g.data|, g.first, g.Count());
    Elsewhere(m, n, k, f, DirOff(i + 2), DirOff(i + 2) + DIRENT);
    DirentFrame(m, n, i + 2, i + 2, g.name);
    Elsewhere(m, n, k, f, g.first * BLOCK, g.first * BLOCK + |g.data|);
    DataFrame(m, n, g);
  }

  /** An earlier file survives the injection of f. */
  lemma FileKept(m: seq<Byte>, n: seq<Byte>, files: seq<File>, f: File, i: nat)
    requires Holds(m, files) && i < |files| < MAX_FILES && GoodFile(f) && f.first == DATA_START + Used(files)
    requires OnlyInjected(m, n, |files|, f)
    ensures FileAt(n, files + [f], i)
  {
    var all, g := files + [f], files[i];
    assert FileAt(m, files, i);
    hide OnlyInjected, InodeAt, DirentAt, DataAt, Holds;
    assert all[i] == g && all[..i] == files[..i];
    assert files[..|files|] == files;
    assert forall j :: 0 <= j < |files| ==> GoodFile(files[j]) by { AllGood(m, files); }
    FilePlaces(files, i, |files|);
    FileFrame(m, n, |files|, f, i, g);
  }

  lemma AllGood(m: seq<Byte>, files: seq<File>)
    requires Holds(m, files)
    ensures forall j :: 0 <= j < |files| ==> GoodFile(files[j])
  {
    forall j | 0 <= j < |files| ensures GoodFile(files[j]) {
      assert FileAt(m, files, j);
    }
  }

  lemma RestKept(m: seq<Byte>, n: seq<Byte>, k: nat, f: File)
    requires |m| == DISK_SIZE && SuperAt(m) && RootAt(m) && FreeSlots(m, k + 2) && OnlyInjected(m, n, k, f)
    requires f.first > DATA_START && k < MAX_FILES
    ensures SuperAt(n) && RootAt(n) && FreeSlots(n, k + 3)
  {
    hide OnlyInjected, InodeAt, DirentAt, SuperAt;
    Elsewhere(m, n, k, f, 0, 24);
    SuperFrame(m, n);
    Elsewhere(m, n, k, f, InodeOff(1), InodeOff(2));
    InodeFrame(m, n, InodeOff(1), FS_DIR, BLOCK, DATA_START, 1);
    Elsewhere(m, n, k, f, ROOT_DIR, DirOff(2));
    DirentFrame(m, n, 0, 1, DOT);
    DirentFrame(m, n, 1, 1, DOTDOT);
    forall j | k + 3 <= j < SLOTS ensures Load32(n, DirOff(j)) == 0 {
      Elsewhere(m, n, k, f, DirOff(j), DirOff(j + 1));
      assert Load32(m, DirOff(j)) == 0;
    }
  }

  /** What the injection of f as file number k, with u data blocks in use, leaves behind. */
  ghost predicate Written(n: seq<Byte>, k: nat, u: nat, f: File)
    requires |n| == DISK_SIZE && k < MAX_FILES
  {
    && f.first == DATA_START + u && GoodFile(f)
    && Marked(n, INODE_BITMAP, k + 3) && Marked(n, DATA_BITMAP, u + f.Count())
    && InodeAt(n, InodeOff(k + 2), FS_FILE, |f.data|, f.first, f.Count())
    && DirentAt(n, k + 2, k + 2, f.name)
    && DataAt(n, f)
  }

  lemma LastFile(n: seq<Byte>, files: seq<File>, f: File)
    requires |n| == DISK_SIZE && |files| < MAX_FILES && Written(n, |files|, Used(files), f)
    ensures FileAt(n, files + [f], |files|)
  {
    hide InodeAt, DirentAt, DataAt;
    assert (files + [f])[..|files|] == files;
  }

  lemma FilesKept(m: seq<Byte>, n: seq<Byte>, files: seq<File>, f: File)
    requires Holds(m, files) && |files| < MAX_FILES && |n| == DISK_SIZE && Written(n, |files|, Used(files), f)
    requires OnlyInjected(m, n, |files|, f)
    ensures FilesAt(n, files + [f])
  {
    hide FileAt, OnlyInjected, Holds, InodeAt, DirentAt, DataAt, GoodFile;
    forall i | 0 <= i < |files| + 1 ensures FileAt(n, files + [f], i) {
      if i < |files| {
        FileKept(m, n, files, f, i);
      } else {
        LastFile(n, files, f);
      }
    }
  }

  lemma Snoc(n: seq<Byte>, files: seq<File>, f: File)
    requires DistinctNames(files) && forall i :: 0 <= i < |files| ==> files[i].name != f.name
    requires |n| == DISK_SIZE && |files| < MAX_FILES && Written(n, |files|, Used(files), f)
    ensures DistinctNames(files + [f])
    ensures Marked(n, INODE_BITMAP, |files + [f]| + 2) && Marked(n, DATA_BITMAP, Used(files + [f]))
  {
    assert (files + [f])[..|files|] == files;
  }

  /** The injection's writes together turn an image of `files` into one of `files + [f]`. */
  lemma InjectHolds(m: seq<Byte>, n: seq<Byte>, files: seq<File>, f: File)
    requires Holds(m, files) && |files| < MAX_FILES && forall i :: 0 <= i < |files| ==> files[i].name != f.name
    requires |n| == DISK_SIZE && Written(n, |files|, Used(files), f) && OnlyInjected(m, n, |files|, f)
    ensures Holds(n, files + [f])
  {
    hide FilesAt, OnlyInjected, Marked, SuperAt, RootAt, FreeSlots, DistinctNames, GoodFile;
    RestKept(m, n, |files|, f);
    FilesKept(m, n, files, f);
    Snoc(n, files, f);
  }

  /** A bitmap block and its copy in memory mark the same bits. */
  lemma MarkedCopy(m: seq<Byte>, base: nat, d: seq<Byte>, n: nat)
    requires base + BLOCK <= |m| && |d| == BLOCK && d == m[base..base + BLOCK]
    ensures Marked(m, base, n) <==> Marked(d, 0, n)
  {
    assert forall i :: 0 <= i < BITS ==> d[0 + i / 8] == m[base + i / 8];
    assert forall i :: 0 <= i < BITS ==> BitAt(d, 0, i) == BitAt(m, base, i);
  }

  method ReadBitmap(image: array<Byte>, base: nat, ghost n: nat) returns (bitmap: array<Byte>)
    requires base + BLOCK <= image.Length && Marked(image[..], base, n)
    ensures fresh(bitmap) && bitmap.Length == BLOCK && Marked(bitmap[..], 0, n)
  {
    bitmap := new Byte[BLOCK](_ => 0);
    Copy(image, base, bitmap, 0, BLOCK);
    assert bitmap[..] == image[..][base..base + BLOCK];
    MarkedCopy(image[..], base, bitmap[..], n);
  }

  method WriteBitmap(image: array<Byte>, base: nat, bitmap: array<Byte>, ghost n: nat)
    requires image != bitmap && base + BLOCK <= image.Length && bitmap.Length == BLOCK && Marked(bitmap[..], 0, n)
    modifies image
    ensures SameOutside(old(image[..]), image[..], base, base + BLOCK) && Marked(image[..], base, n)
  {
    Put(image, base, bitmap[..]);
    assert image[..][base..base + BLOCK] == bitmap[..];
    MarkedCopy(image[..], base, bitmap[..], n);
  }

  /** The search on a bitmap with n bits marked: it succeeds exactly when `needed` more fit. */
  method TakeBlocks(bitmap: array<Byte>, needed: nat, dataStart: nat, ghost n: nat) returns (blocks: Option<seq<nat>>)
    requires bitmap.Length == BLOCK && n <= BITS && Marked(bitmap[..], 0, n)
    modifies bitmap
    ensures blocks.Some? <==> n + needed <= BITS
    ensures blocks.Some? ==> Marked(bitmap[..], 0, n + needed) && |blocks.value| == needed
    ensures blocks.Some? ==> forall i :: 0 <= i < needed ==> blocks.value[i] == dataStart + n + i
  {
    ghost var was := bitmap[..];
    ghost var found, hi;
    blocks, found, hi := FindFreeBlocks(bitmap, needed, dataStart);
    if blocks.None? {
      PrefixEnough(was, found, n);
    } else {
      forall i | 0 <= i < |found| ensures found[i] == n + i && found[i] < BITS {
        PrefixFound(was, hi, found, n, i);
        assert found[i] in found;
      }
      PrefixMarked(was, bitmap[..], found, hi, n);
      assert needed > 0 ==> found[needed - 1] < BITS;
    }
  }

  method TakeInode(bitmap: array<Byte>, ghost n: nat) returns (num: nat)
    requires bitmap.Length == BLOCK && n <= BITS && Marked(bitmap[..], 0, n)
    modifies bitmap
    ensures num == if n < BITS then n else WORD_MOD - 1
    ensures n < BITS ==> Marked(bitmap[..], 0, n + 1)
  {
    ghost var was := bitmap[..];
    num := GetFreeInodeNum(bitmap);
    if num < BITS {
      PrefixFound(was, num + 1, [num], n, 0);
      PrefixMarked(was, bitmap[..], [num], num + 1, n);
    } else {
      PrefixEnough(was, [], n);
    }
  }

  datatype Reserved = Reserved(inode: nat, blocks: seq<nat>)

  /** The reservation at the start of inject_file: bitmaps are flushed only if both searches succeed. */
  method Reserve(image: array<Byte>, needed: nat, ghost n: nat, ghost u: nat) returns (r: Option<Reserved>)
    requires image.Length == DISK_SIZE && SuperAt(image[..]) && n <= BITS && u <= BITS
    requires Marked(image[..], INODE_BITMAP, n) && Marked(image[..], DATA_BITMAP, u)
    modifies image
    ensures r.Some? <==> n < BITS && u + needed <= BITS
    ensures r.None? ==> image[..] == old(image[..])
    ensures SameOutside(old(image[..]), image[..], INODE_BITMAP, DATA_BITMAP + BLOCK)
    ensures r.Some? ==> Marked(image[..], INODE_BITMAP, n + 1) && Marked(image[..], DATA_BITMAP, u + needed)
    ensures r.Some? ==> r.value.inode == n && |r.value.blocks| == needed
    ensures r.Some? ==> forall i :: 0 <= i < needed ==> r.value.blocks[i] == DATA_START + u + i
  {
    var sb := ReadSuper(image);
    var dataBitmap := ReadBitmap(image, sb.dataBitmap * BLOCK, u);
    var inodeBitmap := ReadBitmap(image, sb.inodeBitmap * BLOCK, n);
    var blocks := TakeBlocks(dataBitmap, needed, sb.dataStart, u);
    var num := TakeInode(inodeBitmap, n);
    if blocks.None? || num == WORD_MOD - 1 {
      return None;
    }
    WriteBitmap(image, sb.dataBitmap * BLOCK, dataBitmap, u + needed);
    ghost var m := image[..];
    WriteBitmap(image, sb.inodeBitmap * BLOCK, inodeBitmap, n + 1);
    MarkedFrame(m, image[..], DATA_BITMAP, u + needed);
    r := Some(Reserved(num, blocks.value));
  }

  lemma UsedAll(m: seq<Byte>, files: seq<File>)
    requires Holds(m, files)
    ensures Used(files) <= 1 + DIRECT * |files|
  {
    AllGood(m, files);
    UsedBound(files, |files|);
    assert files[..|files|] == files;
  }

  /** Before the directory is written, superblock, root inode and directory are as they were. */
  lemma InjectMid(m: seq<Byte>, m3: seq<Byte>, k: nat, f: File)
    requires |m| == DISK_SIZE && k < MAX_FILES && OnlyInjected(m, m3, k, f) && f.first > DATA_START
    requires SuperAt(m) && RootAt(m)
    ensures SuperAt(m3) && InodeAt(m3, InodeOff(1), FS_DIR, BLOCK, DATA_START, 1)
  {
    hide SuperAt, InodeAt, OnlyInjected;
    Elsewhere(m, m3, k, f, 0, 24);
    SuperFrame(m, m3);
    Elsewhere(m, m3, k, f, InodeOff(1), InodeOff(2));
    InodeFrame(m, m3, InodeOff(1), FS_DIR, BLOCK, DATA_START, 1);
  }

  /** What the later steps need of the image m before an injection: k files, u data blocks in use. */
  ghost predicate Ready(m: seq<Byte>, k: nat, u: nat) {
    && |m| == DISK_SIZE && k < MAX_FILES && 1 <= u <= 1 + DIRECT * k
    && SuperAt(m) && RootAt(m) && FirstFree(m, k + 2)
  }

  /** Slot s of the root directory is its first free one. */
  ghost predicate FirstFree(m: seq<Byte>, s: nat)
    requires |m| == DISK_SIZE
  {
    s < SLOTS && Load32(m, DirOff(s)) == 0 && forall j :: 0 <= j < s ==> Load32(m, DirOff(j)) != 0
  }

  lemma HoldsReady(m: seq<Byte>, files: seq<File>)
    requires Holds(m, files) && |files| < MAX_FILES
    ensures Ready(m, |files|, Used(files))
  {
    UsedAll(m, files);
    forall j | 0 <= j < |files| + 2 ensures Load32(m, DirOff(j)) != 0 {
      SlotTaken(m, files, j);
    }
  }

  lemma SlotTaken(m: seq<Byte>, files: seq<File>, j: nat)
    requires Holds(m, files) && j < |files| + 2
    ensures Load32(m, DirOff(j)) != 0
  {
    hide InodeAt, DataAt, Marked, NameAt, SuperAt, FreeSlots, DistinctNames, GoodFile, Used, Load32;
    if j >= 2 {
      assert FileAt(m, files, j - 2);
      assert DirentAt(m, j, j, files[j - 2].name);
    } else {
      assert DirentAt(m, j, 1, if j == 0 then DOT else DOTDOT);
    }
  }

  lemma FirstFreeFrame(m: seq<Byte>, n: seq<Byte>, s: nat)
    requires |m| == DISK_SIZE && FirstFree(m, s) && SameOn(m, n, ROOT_DIR, ROOT_DIR + BLOCK)
    ensures FirstFree(n, s)
  {
    assert forall j :: 0 <= j < SLOTS ==> Load32(n, DirOff(j)) == Load32(m, DirOff(j));
  }

  /** Where an injection stands: m is the image before it, n the present one. */
  ghost predicate Stage(m: seq<Byte>, n: seq<Byte>, k: nat, u: nat, f: File) {
    && |n| == DISK_SIZE && OnlyInjected(m, n, k, f)
    && Marked(n, INODE_BITMAP, k + 3) && Marked(n, DATA_BITMAP, u + f.Count())
  }

  lemma StageKept(m: seq<Byte>, n: seq<Byte>, n': seq<Byte>, k: nat, u: nat, f: File, lo: nat, hi: nat)
    requires Stage(m, n, k, u, f) && SameOutside(n, n', lo, hi) && lo >= DATA_BITMAP + BLOCK
    requires forall x :: lo <= x < hi ==> Injects(x, k, f)
    ensures Stage(m, n', k, u, f)
  {
    assert SameOn(n, n', INODE_BITMAP, DATA_BITMAP + BLOCK);
    MarkedFrame(n, n', INODE_BITMAP, k + 3);
    MarkedFrame(n, n', DATA_BITMAP, u + f.Count());
  }

  /** What a reservation with k files and u data blocks in use looks like. */
  ghost predicate ReservedAt(r: Reserved, k: nat, u: nat, f: File) {
    r.inode == k + 2 && |r.blocks| == f.Count() && forall i :: 0 <= i < |r.blocks| ==> r.blocks[i] == DATA_START + u + i
  }

  /** The data and the inode. */
  method WriteDataAndInode(image: array<Byte>, f: File, r: Reserved, ghost m: seq<Byte>, ghost k: nat, ghost u: nat)
    requires Ready(m, k, u) && GoodFile(f) && f.first == DATA_START + u && Stage(m, image[..], k, u, f)
    requires SameOn(m, image[..], ROOT_DIR, ROOT_DIR + BLOCK)
    requires ReservedAt(r, k, u, f)
    modifies image
    ensures Stage(m, image[..], k, u, f)
    ensures SameOn(m, image[..], ROOT_DIR, ROOT_DIR + BLOCK)
    ensures DataAt(image[..], f) && InodeAt(image[..], InodeOff(k + 2), FS_FILE, |f.data|, f.first, f.Count())
  {
    CountCovers(f);
    hide Marked, GoodFile, InodeAt, SuperAt, RootAt;
    ghost var m1 := image[..];
    WriteBlocks(image, r.blocks, f.data, f.first);
    ghost var m2 := image[..];
    StageKept(m, m1, m2, k, u, f, f.first * BLOCK, f.first * BLOCK + |f.data|);
    InjectMid(m, m2, k, f);
    WriteInode(image, r.inode, FS_FILE, |f.data|, r.blocks, f.first);
    ghost var m3 := image[..];
    StageKept(m, m2, m3, k, u, f, InodeOff(k + 2), InodeOff(k + 3));
    assert SameOn(m2, m3, f.first * BLOCK, f.first * BLOCK + |f.data|);
    DataFrame(m2, m3, f);
  }

  /** The part of inject_file behind the reservation. */
  method WriteFile(image: array<Byte>, f: File, r: Reserved, ghost m: seq<Byte>, ghost k: nat, ghost u: nat)
    requires Ready(m, k, u) && GoodFile(f) && f.first == DATA_START + u && Stage(m, image[..], k, u, f)
    requires SameOn(m, image[..], ROOT_DIR, ROOT_DIR + BLOCK)
    requires ReservedAt(r, k, u, f)
    modifies image
    ensures Stage(m, image[..], k, u, f) && Written(image[..], k, u, f)
  {
    GoodNameOf(f);
    hide Marked, GoodFile, InodeAt, DirentAt, DataAt, SuperAt, RootAt;
    WriteDataAndInode(image, f, r, m, k, u);
    ghost var n := image[..];
    BeforeDirent(m, n, k, u, f);
    hide Stage, DirOff, Load32, Written;
    var slot := AddDirent(image, f.name, r.inode);
    SlotIs(n, k + 2, slot);
    AfterDirent(m, n, image[..], k, u, f);
  }

  lemma BeforeDirent(m: seq<Byte>, n: seq<Byte>, k: nat, u: nat, f: File)
    requires Ready(m, k, u) && f.first == DATA_START + u && Stage(m, n, k, u, f) && InodeAt(n, InodeOff(k + 2), FS_FILE, |f.data|, f.first, f.Count())
    requires SameOn(m, n, ROOT_DIR, ROOT_DIR + BLOCK)
    ensures SuperAt(n) && InodeAt(n, InodeOff(1), FS_DIR, BLOCK, DATA_START, 1) && FirstFree(n, k + 2)
  {
    hide Marked, InodeAt, DirentAt, SuperAt, RootAt;
    InjectMid(m, n, k, f);
    FirstFreeFrame(m, n, k + 2);
  }

  lemma SlotIs(n: seq<Byte>, s: nat, slot: nat)
    requires |n| == DISK_SIZE && FirstFree(n, s)
    requires slot <= SLOTS && (forall j :: 0 <= j < slot ==> Load32(n, DirOff(j)) != 0) && (slot < SLOTS ==> Load32(n, DirOff(slot)) == 0)
    ensures slot == s
  {
  }

  lemma AfterDirent(m: seq<Byte>, n: seq<Byte>, n': seq<Byte>, k: nat, u: nat, f: File)
    requires k < MAX_FILES && Stage(m, n, k, u, f) && GoodFile(f) && f.first == DATA_START + u && u > 0
    requires DataAt(n, f) && InodeAt(n, InodeOff(k + 2), FS_FILE, |f.data|, f.first, f.Count())
    requires SameOutside(n, n', DirOff(k + 2), DirOff(k + 3)) && DirentAt(n', k + 2, k + 2, f.name)
    ensures Stage(m, n', k, u, f) && Written(n', k, u, f)
  {
    hide Marked, GoodFile, InodeAt, DirentAt, DataAt;
    StageKept(m, n, n', k, u, f, DirOff(k + 2), DirOff(k + 3));
    DataFrame(n, n', f);
    InodeFrame(n, n', InodeOff(k + 2), FS_FILE, |f.data|, f.first, f.Count());
  }

  lemma GoodNameOf(f: File)
    requires GoodFile(f)
    ensures |f.name| <= MAX_NAME && forall i :: 0 <= i < |f.name| ==> f.name[i] != 0
  {
  }

  /** The reservation for a file of at most 12 blocks succeeds. */
  method ReserveFor(image: array<Byte>, ghost f: File, needed: nat, ghost files: seq<File>) returns (r: Option<Reserved>)
    requires Holds(image[..], files) && |files| < MAX_FILES && GoodFile(f) && needed == f.Count()
    modifies image
    ensures r.Some? && ReservedAt(r.value, |files|, Used(files), f)
    ensures Stage(old(image[..]), image[..], |files|, Used(files), f)
    ensures SameOn(old(image[..]), image[..], ROOT_DIR, ROOT_DIR + BLOCK)
  {
    UsedAll(image[..], files);
    CountCovers(f);
    hide Marked, FilesAt, SuperAt, RootAt, Used, GoodFile;
    r := Reserve(image, needed, |files| + 2, Used(files));
  }

  /** inject_file: a file of more than 12 blocks is refused; any other becomes the last file of the image. */
  method InjectFile(image: array<Byte>, content: seq<Byte>, name: seq<Byte>, ghost files: seq<File>) returns (ok: bool)
    requires Holds(image[..], files) && (|content| <= DIRECT * BLOCK ==> |files| < MAX_FILES)
    requires GoodName(name) && (forall i :: 0 <= i < |files| ==> files[i].name != name)
    requires 0 < |content| && |content| + BLOCK <= WORD_MOD
    modifies image
    ensures ok <==> |content| <= DIRECT * BLOCK
    ensures !ok ==> image[..] == old(image[..])
    ensures ok ==> Holds(image[..], files + [File(name, content, DATA_START + Used(files))])
  {
    ok := false;
    var needed := (|content| + BLOCK - 1) / BLOCK;
    if needed > DIRECT {
      return;
    }
    ghost var m := image[..];
    ghost var g := File(name, content, DATA_START + Used(files));
    assert GoodFile(g) && g.Count() == needed;
    hide Marked, InodeAt, DirentAt, SuperAt, RootAt, Used, FilesAt, Holds, GoodName, GoodFile, SameOutside, SameOn, Stage;
    var r := ReserveFor(image, g, needed, files);
    if r.None? {
      return;
    }
    var f := File(name, content, r.value.blocks[0]);
    assert f == g;
    HoldsReady(m, files);
    WriteFile(image, f, r.value, m, |files|, Used(files));
    InjectDone(m, image[..], files, f);
    ok := true;
  }

  lemma InjectDone(m: seq<Byte>, n: seq<Byte>, files: seq<File>, f: File)
    requires Holds(m, files) && |files| < MAX_FILES && forall i :: 0 <= i < |files| ==> files[i].name != f.name
    requires Stage(m, n, |files|, Used(files), f) && Written(n, |files|, Used(files), f)
    ensures Holds(n, files + [f])
  {
    InjectHolds(m, n, files, f);
  }
}
