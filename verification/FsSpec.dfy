/**
  The on-disk layout shared by user/fs/mkfs.c, user/fs/fs_inject.c and src/fs/ext2_fs.c, and
  what an image holding a list of files looks like.
 */
module FsSpec {
  import opened Bytes
  import opened Bits

  const BLOCK: nat := 4096
  const TOTAL_BLOCKS: nat := 25600
  const DISK_SIZE: nat := 104857600       // TOTAL_BLOCKS * BLOCK
  const INODE_BITMAP: nat := 4096         // block 1
  const DATA_BITMAP: nat := 8192          // block 2
  const INODE_TABLE: nat := 12288         // block 3
  const DATA_START: nat := 103
  const ROOT_DIR: nat := 421888           // block DATA_START
  const BITS: nat := 32768                // bits of one bitmap block
  const INODE_SIZE: nat := 62             // packed type, size, 14 block numbers
  const DIRENT: nat := 32                 // packed inode number, 28 name bytes
  const SLOTS: nat := 128
  const FS_MAGIC: nat := 0x8899AABB
  const FS_FILE: nat := 1
  const FS_DIR: nat := 2
  const DIRECT: nat := 12
  const MAX_FILES: nat := 126             // SLOTS without "." and ".."
  const MAX_NAME: nat := 27

  // ---------------------------------------------------------------- fields

  function Load16(m: seq<Byte>, a: nat): nat
    requires a + 2 <= |m|
  {
    m[a] as nat + 256 * (m[a + 1] as nat)
  }

  /** Bit i of the bitmap that starts at byte `base`. */
  predicate BitAt(m: seq<Byte>, base: nat, i: nat)
    requires base + i / 8 < |m|
  {
    Bit(m[base + i / 8] as nat, i % 8)
  }

  /** Exactly the first n bits of a bitmap block are set. */
  ghost predicate Marked(m: seq<Byte>, base: nat, n: nat)
    requires base + BLOCK <= |m|
  {
    forall i :: 0 <= i < BITS ==> (BitAt(m, base, i) <==> i < n)
  }

  function InodeOff(k: nat): nat { INODE_TABLE + k * INODE_SIZE }

  function DirOff(j: nat): nat { ROOT_DIR + j * DIRENT }

  ghost predicate SuperAt(m: seq<Byte>)
    requires 24 <= |m|
  {
    && Load32(m, 0) == FS_MAGIC && Load32(m, 4) == TOTAL_BLOCKS && Load32(m, 8) == 1
    && Load32(m, 12) == 2 && Load32(m, 16) == 3 && Load32(m, 20) == DATA_START
  }

  /** The i-th block number of an inode whose n blocks start at `first`. */
  function BlockNo(first: nat, n: nat, i: nat): nat { if i < n then first + i else 0 }

  /** An inode with n consecutive blocks from `first` and zeroes behind them. */
  ghost predicate InodeAt(m: seq<Byte>, off: nat, kind: nat, size: nat, first: nat, n: nat)
    requires off + INODE_SIZE <= |m|
  {
    && Load16(m, off) == kind
    && Load32(m, off + 2) == size
    && forall i :: 0 <= i < 14 ==> Load32(m, off + 6 + 4 * i) == BlockNo(first, n, i)
  }

  /** The C string at `off` is `name`. */
  ghost predicate NameAt(m: seq<Byte>, off: nat, name: seq<Byte>)
    requires off + MAX_NAME < |m|
  {
    && |name| <= MAX_NAME
    && (forall i :: 0 <= i < |name| ==> name[i] != 0 && m[off + i] == name[i])
    && m[off + |name|] == 0
  }

  ghost predicate DirentAt(m: seq<Byte>, j: nat, inode: nat, name: seq<Byte>)
    requires DirOff(j) + DIRENT <= |m|
  {
    Load32(m, DirOff(j)) == inode && NameAt(m, DirOff(j) + 4, name)
  }

  // ---------------------------------------------------------------- files

  /** A stored file: its bytes lie in consecutive blocks from `first`. */
  datatype File = File(name: seq<Byte>, data: seq<Byte>, first: nat) {
    function Count(): nat { (|data| + BLOCK - 1) / BLOCK }
  }

  const DOT: seq<Byte> := [46]
  const DOTDOT: seq<Byte> := [46, 46]

  ghost predicate GoodName(name: seq<Byte>) {
    |name| <= MAX_NAME && name != DOT && name != DOTDOT && forall i :: 0 <= i < |name| ==> name[i] != 0
  }

  ghost predicate GoodFile(f: File) {
    GoodName(f.name) && 0 < |f.data| <= DIRECT * BLOCK
  }

  /** Data blocks in use: the root directory's and the files'. */
  function Used(files: seq<File>): (n: nat)
    ensures n >= 1
  {
    if files == [] then 1 else Used(files[..|files| - 1]) + files[|files| - 1].Count()
  }

  ghost predicate DataAt(m: seq<Byte>, f: File) {
    f.first * BLOCK + |f.data| <= |m| && m[f.first * BLOCK..f.first * BLOCK + |f.data|] == f.data
  }

  /** File k: where it lies and what its inode says. */
  ghost predicate FileAt(m: seq<Byte>, files: seq<File>, k: nat)
    requires k < |files| <= MAX_FILES && |m| == DISK_SIZE
  {
    var f := files[k];
    && GoodFile(f) && f.first == DATA_START + Used(files[..k])
    && InodeAt(m, InodeOff(k + 2), FS_FILE, |f.data|, f.first, f.Count())
    && DirentAt(m, k + 2, k + 2, f.name)
    && DataAt(m, f)
  }

  ghost predicate FilesAt(m: seq<Byte>, files: seq<File>)
    requires |files| <= MAX_FILES && |m| == DISK_SIZE
  {
    forall k :: 0 <= k < |files| ==> FileAt(m, files, k)
  }

  ghost predicate RootAt(m: seq<Byte>)
    requires |m| == DISK_SIZE
  {
    && InodeAt(m, InodeOff(1), FS_DIR, BLOCK, DATA_START, 1)
    && DirentAt(m, 0, 1, DOT) && DirentAt(m, 1, 1, DOTDOT)
  }

  /** The directory slots from n on are free. */
  ghost predicate FreeSlots(m: seq<Byte>, n: nat)
    requires |m| == DISK_SIZE
  {
    forall j :: n <= j < SLOTS ==> Load32(m, DirOff(j)) == 0
  }

  ghost predicate DistinctNames(files: seq<File>) {
    forall i, j :: 0 <= i < j < |files| ==> files[i].name != files[j].name
  }

  /** The image m holds exactly these files. */
  ghost predicate Holds(m: seq<Byte>, files: seq<File>) {
    && |m| == DISK_SIZE && |files| <= MAX_FILES
    && SuperAt(m) && RootAt(m)
    && Marked(m, INODE_BITMAP, |files| + 2)
    && Marked(m, DATA_BITMAP, Used(files))
    && FreeSlots(m, |files| + 2)
    && DistinctNames(files)
    && FilesAt(m, files)
  }

  // ---------------------------------------------------------------- frames

  /** m and n agree on lo..hi. */
  ghost predicate SameOn(m: seq<Byte>, n: seq<Byte>, lo: nat, hi: nat) {
    |m| == |n| && forall x :: lo <= x < hi && x < |m| ==> m[x] == n[x]
  }

  lemma SuperFrame(m: seq<Byte>, n: seq<Byte>)
    requires 24 <= |m| && SuperAt(m) && SameOn(m, n, 0, 24)
    ensures SuperAt(n)
  {
  }

  lemma InodeFrame(m: seq<Byte>, n: seq<Byte>, off: nat, kind: nat, size: nat, first: nat, c: nat)
    requires off + INODE_SIZE <= |m| && InodeAt(m, off, kind, size, first, c) && SameOn(m, n, off, off + INODE_SIZE)
    ensures InodeAt(n, off, kind, size, first, c)
  {
    forall i | 0 <= i < 14 ensures Load32(n, off + 6 + 4 * i) == BlockNo(first, c, i) {
      assert Load32(m, off + 6 + 4 * i) == BlockNo(first, c, i);
    }
  }

  lemma DirentFrame(m: seq<Byte>, n: seq<Byte>, j: nat, inode: nat, name: seq<Byte>)
    requires DirOff(j) + DIRENT <= |m| && DirentAt(m, j, inode, name) && SameOn(m, n, DirOff(j), DirOff(j) + DIRENT)
    ensures DirentAt(n, j, inode, name)
  {
  }

  lemma DataFrame(m: seq<Byte>, n: seq<Byte>, f: File)
    requires DataAt(m, f) && SameOn(m, n, f.first * BLOCK, f.first * BLOCK + |f.data|)
    ensures DataAt(n, f)
  {
    var a := f.first * BLOCK;
    var s, t := m[a..a + |f.data|], n[a..a + |f.data|];
    forall x | 0 <= x < |f.data| ensures s[x] == t[x] {
    }
  }

  lemma MarkedFrame(m: seq<Byte>, n: seq<Byte>, base: nat, c: nat)
    requires base + BLOCK <= |m| && Marked(m, base, c) && SameOn(m, n, base, base + BLOCK)
    ensures Marked(n, base, c)
  {
    forall i | 0 <= i < BITS ensures BitAt(n, base, i) <==> i < c {
      assert BitAt(m, base, i) <==> i < c;
    }
  }

  /** Where file k lies: behind all earlier files and inside the disk. */
  lemma {:induction false} UsedBound(files: seq<File>, k: nat)
    requires k <= |files| && forall i :: 0 <= i < |files| ==> GoodFile(files[i])
    ensures Used(files[..k]) <= 1 + DIRECT * k
  {
    if k > 0 {
      UsedBound(files, k - 1);
      assert files[..k][..k - 1] == files[..k - 1];
    }
  }

  lemma {:induction false} UsedGrows(files: seq<File>, i: nat, k: nat)
    requires i < k <= |files|
    ensures Used(files[..i]) + files[i].Count() <= Used(files[..k])
    decreases k
  {
    assert files[..k][..k - 1] == files[..k - 1];
    if i < k - 1 {
      UsedGrows(files, i, k - 1);
    }
  }

  lemma CountCovers(f: File)
    ensures |f.data| <= f.Count() * BLOCK < |f.data| + BLOCK
    ensures GoodFile(f) ==> 1 <= f.Count() <= DIRECT
  {
  }
}
