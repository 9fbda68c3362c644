/** The kernel's reader, src/fs/ext2_fs.c, on images that hold files. */
module FsRead {
  import opened Wrappers
  import opened Bytes
  import opened Disk
  import FsSpec
  import opened FsWrite

  type File = FsSpec.File
  const BLK: nat := 4096
  const SIZE: nat := FsSpec.DISK_SIZE

  // ---------------------------------------------------------------- structures

  /** init_ext2_fs: the superblock as read from the disk. */
  method InitFs(image: array<Byte>) returns (sb: Superblock)
    requires image.Length == SIZE
    ensures FsSpec.SuperAt(image[..]) ==> sb == Superblock(FsSpec.FS_MAGIC, FsSpec.TOTAL_BLOCKS, 1, 2, 3, FsSpec.DATA_START)
  {
    var buf := new Byte[24](_ => 0);
    ReadHardDisk(image, buf, 0, 24);
    sb := ReadSuper(buf);
    SuperSlice(image[..], buf[..]);
  }

  lemma SuperSlice(m: seq<Byte>, b: seq<Byte>)
    requires |m| == SIZE && b == m[0..24]
    ensures FsSpec.SuperAt(m) ==> FsSpec.SuperAt(b)
  {
    hide Load32;
    SliceLoad(m, 0, b, 0);
    SliceLoad(m, 0, b, 4);
    SliceLoad(m, 0, b, 8);
    SliceLoad(m, 0, b, 12);
    SliceLoad(m, 0, b, 16);
    SliceLoad(m, 0, b, 20);
  }

  datatype Inode = Inode(kind: nat, size: nat, blocks: seq<nat>)

  /** The fields of an inode with n consecutive blocks from `first`. */
  ghost predicate IsInode(ino: Inode, kind: nat, size: nat, first: nat, n: nat) {
    ino.kind == kind && ino.size == size && |ino.blocks| == 14 && forall i :: 0 <= i < 14 ==> ino.blocks[i] == FsSpec.BlockNo(first, n, i)
  }

  lemma InodeSlice(m: seq<Byte>, off: nat, b: seq<Byte>, kind: nat, size: nat, first: nat, n: nat)
    requires off + 62 <= |m| && b == m[off..off + 62] && FsSpec.InodeAt(m, off, kind, size, first, n)
    ensures FsSpec.InodeAt(b, 0, kind, size, first, n)
  {
    assert b[0] == m[off] && b[1] == m[off + 1];
    SliceLoad(m, off, b, 2);
    forall i | 0 <= i < 14 ensures Load32(b, 0 + 6 + 4 * i) == FsSpec.BlockNo(first, n, i) {
      SliceLoad(m, off, b, 6 + 4 * i);
      assert Load32(m, off + 6 + 4 * i) == FsSpec.BlockNo(first, n, i);
    }
  }

  lemma SliceLoad(m: seq<Byte>, off: nat, b: seq<Byte>, o: nat)
    requires off + |b| <= |m| && b == m[off..off + |b|] && o + 4 <= |b|
    ensures Load32(b, o) == Load32(m, off + o)
  {
    assert forall i :: 0 <= i < |b| ==> b[i] == m[off + i];
  }

  /** ext2_read_inode. */
  method ReadInode(image: array<Byte>, sb: Superblock, num: nat, ghost kind: nat, ghost size: nat, ghost first: nat, ghost n: nat) returns (ino: Inode)
    requires image.Length == SIZE && sb.inodeTable == 3 && FsSpec.InodeOff(num) + 62 <= SIZE
    requires FsSpec.InodeAt(image[..], FsSpec.InodeOff(num), kind, size, first, n)
    ensures IsInode(ino, kind, size, first, n)
  {
    var buf := new Byte[62](_ => 0);
    var off := sb.inodeTable * BLK + num * 62;
    ReadHardDisk(image, buf, off, 62);
    InodeSlice(image[..], off, buf[..], kind, size, first, n);
    ino := DecodeInode(buf, kind, size, first, n);
  }

  /** The fields of the structure in memory. */
  method DecodeInode(buf: array<Byte>, ghost kind: nat, ghost size: nat, ghost first: nat, ghost n: nat) returns (ino: Inode)
    requires buf.Length == 62 && FsSpec.InodeAt(buf[..], 0, kind, size, first, n)
    ensures IsInode(ino, kind, size, first, n)
  {
    hide Load32;
    var sz := Fetch32(buf, 2);
    var blocks: seq<nat> := [];
    for i := 0 to 14
      invariant |blocks| == i && forall j :: 0 <= j < i ==> blocks[j] == FsSpec.BlockNo(first, n, j)
    {
      var b := Fetch32(buf, 0 + 6 + 4 * i);
      blocks := blocks + [b];
    }
    ino := Inode(buf[0] as nat + 256 * (buf[1] as nat), sz, blocks);
  }

  // ---------------------------------------------------------------- lookup

  /** strcmp(field, name) == 0 for a zero-terminated field. */
  method SameName(buf: array<Byte>, off: nat, name: seq<Byte>, ghost stored: seq<Byte>) returns (same: bool)
    requires off + 28 <= buf.Length && FsSpec.NameAt(buf[..], off, stored)
    requires forall i :: 0 <= i < |name| ==> name[i] != 0
    ensures same <==> name == stored
  {
    var i := 0;
    while i < |name| && buf[off + i] == name[i]
      invariant i <= |name| && i <= |stored| && name[..i] == stored[..i]
    {
      i := i + 1;
    }
    same := i == |name| && buf[off + i] == 0;
    if i == |name| {
      assert name[..i] == name;
      assert i < |stored| ==> stored[i] != 0;
      if i == |stored| { assert stored[..i] == stored; }
    } else {
      assert i < |stored| ==> stored[i] != name[i];
    }
  }

  /** The name and inode number in slot j of the root directory. */
  ghost function SlotName(files: seq<File>, j: nat): seq<Byte>
    requires j < |files| + 2
  {
    if j == 0 then FsSpec.DOT else if j == 1 then FsSpec.DOTDOT else files[j - 2].name
  }

  ghost function SlotInode(j: nat): nat { if j < 2 then 1 else j }

  lemma SlotEntry(m: seq<Byte>, files: seq<File>, j: nat)
    requires FsSpec.Holds(m, files) && j < |files| + 2
    ensures FsSpec.DirentAt(m, j, SlotInode(j), SlotName(files, j))
  {
    if j >= 2 {
      assert FsSpec.FileAt(m, files, j - 2);
    }
  }

  /** What the lookup of a name must answer. */
  ghost predicate Answers(files: seq<File>, name: seq<Byte>, found: bool, inode: nat) {
    && (found ==> exists j :: 0 <= j < |files| + 2 && SlotName(files, j) == name && inode == SlotInode(j))
    && (!found ==> forall j :: 0 <= j < |files| + 2 ==> SlotName(files, j) != name)
  }

  /** Slot j of a directory block in memory: a name and an inode number, or a zero. */
  ghost predicate EntryIs(b: seq<Byte>, files: seq<File>, j: nat)
    requires |b| == BLK && j < 128
  {
    && Load32(b, j * 32) == (if j < |files| + 2 then SlotInode(j) else 0)
    && (j < |files| + 2 ==> FsSpec.NameAt(b, j * 32 + 4, SlotName(files, j)))
  }

  ghost predicate DirBlock(b: seq<Byte>, files: seq<File>) {
    |b| == BLK && |files| + 2 <= 128 && forall j :: 0 <= j < 128 ==> EntryIs(b, files, j)
  }

  lemma DirBlockRead(m: seq<Byte>, b: seq<Byte>, files: seq<File>)
    requires FsSpec.Holds(m, files) && |b| == BLK && b == m[FsSpec.ROOT_DIR..FsSpec.ROOT_DIR + BLK]
    ensures DirBlock(b, files)
  {
    hide FsSpec.Holds, FsSpec.NameAt, Load32;
    assert |files| <= FsSpec.MAX_FILES by { FewFiles(m, files); }
    forall j | 0 <= j < 128 ensures EntryIs(b, files, j) {
      EntrySlice(m, b, files, j);
    }
  }

  lemma FewFiles(m: seq<Byte>, files: seq<File>)
    requires FsSpec.Holds(m, files)
    ensures |files| <= FsSpec.MAX_FILES
  {
  }

  /** One directory block: entries with inode 0 are skipped. */
  method ScanBlock(buf: array<Byte>, name: seq<Byte>, ghost files: seq<File>) returns (found: bool, inode: nat)
    requires buf.Length == BLK && DirBlock(buf[..], files)
    requires forall i :: 0 <= i < |name| ==> name[i] != 0
    ensures Answers(files, name, found, inode)
  {
    found, inode := false, 0;
    hide FsSpec.NameAt, Load32, SlotName;
    for j := 0 to 128
      invariant forall i :: 0 <= i < j && i < |files| + 2 ==> SlotName(files, i) != name
    {
      var num := Fetch32(buf, j * 32);
      assert EntryIs(buf[..], files, j);
      if num != 0 {
        var same := SameName(buf, j * 32 + 4, name, SlotName(files, j));
        if same {
          return true, num;
        }
      }
    }
  }

  /** Slot j of the directory block in memory. */
  lemma EntrySlice(m: seq<Byte>, b: seq<Byte>, files: seq<File>, j: nat)
    requires FsSpec.Holds(m, files) && j < 128 && |b| == BLK && b == m[FsSpec.ROOT_DIR..FsSpec.ROOT_DIR + BLK]
    ensures Load32(b, j * 32) == if j < |files| + 2 then SlotInode(j) else 0
    ensures j < |files| + 2 ==> FsSpec.NameAt(b, j * 32 + 4, SlotName(files, j))
  {
    SliceLoad(m, FsSpec.ROOT_DIR, b, j * 32);
    if j < |files| + 2 {
      SlotEntry(m, files, j);
      NameSlice(m, b, j, SlotName(files, j));
    } else {
      assert Load32(m, FsSpec.DirOff(j)) == 0;
    }
  }

  lemma NameSlice(m: seq<Byte>, b: seq<Byte>, j: nat, name: seq<Byte>)
    requires j < 128 && |m| == SIZE && |b| == BLK && b == m[FsSpec.ROOT_DIR..FsSpec.ROOT_DIR + BLK]
    requires FsSpec.NameAt(m, FsSpec.DirOff(j) + 4, name)
    ensures FsSpec.NameAt(b, j * 32 + 4, name)
  {
    assert forall i :: 0 <= i < BLK ==> b[i] == m[FsSpec.ROOT_DIR + i];
  }

  /** ext2_find_file_in_dir on the root directory. */
  method FindFileInDir(image: array<Byte>, sb: Superblock, name: seq<Byte>, ghost files: seq<File>) returns (found: bool, inode: nat)
    requires FsSpec.Holds(image[..], files) && sb.inodeTable == 3
    requires forall i :: 0 <= i < |name| ==> name[i] != 0
    ensures Answers(files, name, found, inode)
  {
    found, inode := false, 0;
    ghost var m := image[..];
    var dir := ReadInode(image, sb, 1, FsSpec.FS_DIR, BLK, FsSpec.DATA_START, 1);
    if dir.kind != FsSpec.FS_DIR {
      return;
    }
    var buf := new Byte[BLK](_ => 0);
    for i := 0 to 12
      invariant image[..] == m
      invariant i >= 1 ==> Answers(files, name, false, 0)
    {
      if dir.blocks[i] != 0 {
        assert dir.blocks[i] == FsSpec.DATA_START;
        ReadBlock(image, dir.blocks[i], buf);
        assert buf[..] == m[FsSpec.ROOT_DIR..FsSpec.ROOT_DIR + BLK];
        DirBlockRead(m, buf[..], files);
        found, inode := ScanBlock(buf, name, files);
        if found {
          return;
        }
      }
    }
    return false, 0;
  }

  // ---------------------------------------------------------------- reading data

  /** How much a read at `start` of `length` bytes asks for, with the sum in 32 bits. */
  function Clipped(size: nat, start: nat, length: nat): nat
    requires start < size
  {
    if (start + length) % WORD_MOD > size then size - start else length
  }

  /** How much of a file of n blocks it gets. */
  function Delivered(size: nat, n: nat, start: nat, length: nat): nat
    requires size <= n * BLK
  {
    if start >= size then 0 else Min(Clipped(size, start, length), n * BLK - start)
  }

  lemma BlockSlice<T>(block: seq<T>, disk: seq<T>, at: nat, off: nat, count: nat)
    requires at + BLK <= |disk| && block == disk[at..at + BLK] && off + count <= BLK
    ensures block[off..off + count] == disk[at + off..at + off + count]
  {
    var a, b := block[off..off + count], disk[at + off..at + off + count];
    forall x | 0 <= x < count ensures a[x] == b[x] {
      assert a[x] == block[off + x] == disk[at + (off + x)];
    }
  }

  /** One turn of the copy loop. */
  method CopyPiece(image: array<Byte>, blk: nat, block: array<Byte>, off: nat, count: nat, buf: array<Byte>, at: nat, ghost from: nat)
    requires image != block && image != buf && block != buf && block.Length == BLK && (blk + 1) * BLK <= image.Length
    requires off + count <= BLK && at + count <= buf.Length && from + at == blk * BLK + off
    requires buf[..at] == image[from..from + at]
    modifies block, buf
    ensures buf[..at + count] == image[from..from + at + count]
    ensures buf[at + count..] == old(buf[at + count..])
  {
    ghost var d, was := image[..], buf[..];
    ReadBlock(image, blk, block);
    BlockSlice(block[..], d, blk * BLK, off, count);
    Copy(block, off, buf, at, count);
    Extend(buf[..], was, d, at, from, count);
  }

  /** Where the loop stands after `done` bytes. */
  ghost predicate At(start: nat, length: nat, n: nat, done: nat, idx: nat, off: nat) {
    && done <= length && start + done <= n * BLK && off < BLK
    && (done < length ==> idx * BLK + off == start + done)
  }

  lemma AtStep(start: nat, length: nat, n: nat, done: nat, idx: nat, off: nat)
    requires At(start, length, n, done, idx, off) && done < length && idx < n
    ensures var count := Min(BLK - off, length - done); At(start, length, n, done + count, idx + 1, 0)
  {
    assert (idx + 1) * BLK <= n * BLK;
  }

  lemma AtEnd(start: nat, length: nat, n: nat, done: nat, idx: nat, off: nat)
    requires At(start, length, n, done, idx, off) && (done == length || idx >= n)
    ensures done == Min(length, n * BLK - start)
  {
    if done < length {
      assert idx * BLK >= n * BLK;
    }
  }

  lemma SameRest(b: seq<Byte>, now: seq<Byte>, was: seq<Byte>, done: nat, count: nat)
    requires |b| == |now| == |was| && done + count <= |b| && now[done..] == was[done..] && b[done + count..] == now[done + count..]
    ensures b[done + count..] == was[done + count..]
  {
    assert now[done + count..] == now[done..][count..];
    assert was[done + count..] == was[done..][count..];
  }

  /** The copy loop of ext2_fs_read_data on an inode with n blocks from `first`. */
  method ReadBlocks(image: array<Byte>, ino: Inode, buf: array<Byte>, start: nat, length: nat, ghost first: nat, ghost n: nat) returns (done: nat)
    requires image.Length == SIZE && image != buf && length <= buf.Length
    requires |ino.blocks| == 14 && 0 < first && n <= 12 && (first + n) * BLK <= SIZE && start <= n * BLK
    requires forall i :: 0 <= i < 14 ==> ino.blocks[i] == FsSpec.BlockNo(first, n, i)
    modifies buf
    ensures done == Min(length, n * BLK - start)
    ensures buf[..done] == image[first * BLK + start..first * BLK + start + done]
    ensures buf[done..] == old(buf[done..])
  {
    var idx: nat, off: nat := start / BLK, start % BLK;
    var block := new Byte[BLK](_ => 0);
    done := 0;
    ghost var from, was := first * BLK + start, buf[..];
    while done < length && idx < 12
      invariant At(start, length, n, done, idx, off)
      invariant buf[..done] == image[from..from + done] && buf[..][done..] == was[done..]
      invariant fresh(block) && block.Length == BLK
      decreases 12 - idx
    {
      var blk := ino.blocks[idx];
      if blk == 0 {
        break;
      }
      assert idx < n && blk == first + idx;
      var count := Min(BLK - off, length - done);
      AtStep(start, length, n, done, idx, off);
      ghost var now := buf[..];
      CopyPiece(image, blk, block, off, count, buf, done, from);
      SameRest(buf[..], now, was, done, count);
      done := done + count;
      off := 0;
      idx := idx + 1;
    }
    AtEnd(start, length, n, done, idx, off);
  }

  // What slot j of the directory stands for: the root directory itself or a file.
  ghost function SlotKind(j: nat): nat { if j < 2 then FsSpec.FS_DIR else FsSpec.FS_FILE }

  ghost function SlotSize(files: seq<File>, j: nat): nat
    requires j < |files| + 2
  {
    if j < 2 then BLK else |files[j - 2].data|
  }

  ghost function SlotFirst(files: seq<File>, j: nat): nat
    requires j < |files| + 2
  {
    if j < 2 then FsSpec.DATA_START else files[j - 2].first
  }

  ghost function SlotCount(files: seq<File>, j: nat): nat
    requires j < |files| + 2
  {
    if j < 2 then 1 else files[j - 2].Count()
  }

  /** Names are unique in the directory. */
  lemma SlotUnique(m: seq<Byte>, files: seq<File>, i: nat, j: nat)
    requires FsSpec.Holds(m, files) && i <= j < |files| + 2 && SlotName(files, i) == SlotName(files, j)
    ensures i == j
  {
    FsWrite.AllGood(m, files);
    assert j >= 2 ==> FsSpec.GoodFile(files[j - 2]);
  }

  lemma SlotInodeAt(m: seq<Byte>, files: seq<File>, j: nat)
    requires FsSpec.Holds(m, files) && j < |files| + 2
    ensures FsSpec.InodeAt(m, FsSpec.InodeOff(SlotInode(j)), SlotKind(j), SlotSize(files, j), SlotFirst(files, j), SlotCount(files, j))
  {
    if j >= 2 {
      assert FsSpec.FileAt(m, files, j - 2);
    }
  }

  /** Where its bytes lie. */
  lemma SlotPlace(m: seq<Byte>, files: seq<File>, j: nat)
    requires FsSpec.Holds(m, files) && j < |files| + 2
    ensures 0 < SlotFirst(files, j) && 1 <= SlotCount(files, j) <= 12
    ensures (SlotFirst(files, j) + SlotCount(files, j)) * BLK <= SIZE
    ensures SlotSize(files, j) <= SlotCount(files, j) * BLK < SlotSize(files, j) + BLK
  {
    if j >= 2 {
      assert FsSpec.FileAt(m, files, j - 2);
      FsWrite.AllGood(m, files);
      FsSpec.CountCovers(files[j - 2]);
      FsSpec.UsedBound(files, j - 2);
    }
  }

  /** The inode of a name, or nothing. */
  method Lookup(image: array<Byte>, sb: Superblock, name: seq<Byte>, ghost files: seq<File>) returns (ino: Option<Inode>, ghost j: nat)
    requires FsSpec.Holds(image[..], files) && sb.inodeTable == 3
    requires forall i :: 0 <= i < |name| ==> name[i] != 0
    ensures ino.None? ==> forall i :: 0 <= i < |files| + 2 ==> SlotName(files, i) != name
    ensures ino.Some? ==> j < |files| + 2 && SlotName(files, j) == name
    ensures ino.Some? ==> IsInode(ino.value, SlotKind(j), SlotSize(files, j), SlotFirst(files, j), SlotCount(files, j))
  {
    ghost var m := image[..];
    var found, inode := FindFileInDir(image, sb, name, files);
    j := 0;
    if !found {
      return None, 0;
    }
    j :| 0 <= j < |files| + 2 && SlotName(files, j) == name && inode == SlotInode(j);
    SlotInodeAt(m, files, j);
    var i := ReadInode(image, sb, inode, SlotKind(j), SlotSize(files, j), SlotFirst(files, j), SlotCount(files, j));
    ino := Some(i);
  }

  /** ext2_fs_stat_file: the size of whatever bears the name; -1 exactly when nothing does. */
  method StatFile(image: array<Byte>, sb: Superblock, name: seq<Byte>, ghost files: seq<File>) returns (r: int, size: nat)
    requires FsSpec.Holds(image[..], files) && sb.inodeTable == 3
    requires forall i :: 0 <= i < |name| ==> name[i] != 0
    ensures r == 0 || r == -1
    ensures r == -1 <==> forall j :: 0 <= j < |files| + 2 ==> SlotName(files, j) != name
    ensures forall j :: 0 <= j < |files| + 2 && SlotName(files, j) == name ==> size == SlotSize(files, j)
  {
    var ino, j := Lookup(image, sb, name, files);
    if ino.None? {
      return -1, 0;
    }
    OnlySlot(image[..], files, name, j);
    return 0, ino.value.size;
  }

  /** The outcome r and the buffer b after reading from n blocks at `first` that hold `size` bytes. */
  ghost predicate Reads(m: seq<Byte>, b: seq<Byte>, first: nat, size: nat, n: nat, start: nat, length: nat, r: int) {
    && size <= n * BLK
    && r == Delivered(size, n, start, length) && r <= |b| && (r == 0 || first * BLK + start + r <= |m|)
    && (r > 0 ==> b[..r] == m[first * BLK + start..first * BLK + start + r])
  }

  /** ext2_fs_read_data behind the lookup: the length is clipped in 32 bits. */
  method ReadInodeData(image: array<Byte>, ino: Inode, buf: array<Byte>, start: nat, length: nat, ghost kind: nat, ghost first: nat, ghost n: nat) returns (r: nat)
    requires image.Length == SIZE && image != buf && start < WORD_MOD && length < WORD_MOD && length <= buf.Length
    requires IsInode(ino, kind, ino.size, first, n) && 0 < first && n <= 12 && (first + n) * BLK <= SIZE && ino.size <= n * BLK
    modifies buf
    ensures Reads(image[..], buf[..], first, ino.size, n, start, length, r)
    ensures r <= buf.Length && buf[r..] == old(buf[r..])
  {
    if start >= ino.size {
      return 0;
    }
    var len := if (start + length) % WORD_MOD > ino.size then ino.size - start else length;
    r := ReadBlocks(image, ino, buf, start, len, first, n);
  }

  /** ext2_fs_read_data. */
  method ReadData(image: array<Byte>, sb: Superblock, name: seq<Byte>, buf: array<Byte>, start: nat, length: nat, ghost files: seq<File>) returns (r: int)
    requires FsSpec.Holds(image[..], files) && sb.inodeTable == 3 && image != buf
    requires forall i :: 0 <= i < |name| ==> name[i] != 0
    requires start < WORD_MOD && length < WORD_MOD && length <= buf.Length
    modifies buf
    ensures r >= -1 && (r == -1 <==> forall j :: 0 <= j < |files| + 2 ==> SlotName(files, j) != name)
    ensures r == -1 ==> buf[..] == old(buf[..])
    ensures forall j :: 0 <= j < |files| + 2 && SlotName(files, j) == name ==>
      Reads(image[..], buf[..], SlotFirst(files, j), SlotSize(files, j), SlotCount(files, j), start, length, r)
    ensures r >= 0 ==> r <= buf.Length && buf[r..] == old(buf[r..])
  {
    ghost var m := image[..];
    hide FsSpec.Holds, Reads, SlotName;
    var ino, j := Lookup(image, sb, name, files);
    if ino.None? {
      return -1;
    }
    OnlySlot(m, files, name, j);
    SlotPlace(m, files, j);
    hide SlotSize, SlotCount, SlotFirst;
    r := ReadInodeData(image, ino.value, buf, start, length, SlotKind(j), SlotFirst(files, j), SlotCount(files, j));
  }

  lemma OnlySlot(m: seq<Byte>, files: seq<File>, name: seq<Byte>, j: nat)
    requires FsSpec.Holds(m, files) && j < |files| + 2 && SlotName(files, j) == name
    ensures forall i :: 0 <= i < |files| + 2 && SlotName(files, i) == name ==> i == j
  {
    hide FsSpec.Holds, SlotName;
    forall i | 0 <= i < |files| + 2 && SlotName(files, i) == name ensures i == j {
      SlotUnique(m, files, if i < j then i else j, if i < j then j else i);
    }
  }
}
