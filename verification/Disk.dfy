/** The disk reader of src/driver/hard_disk.c: whole sectors copied piecewise into any byte range. */
module Disk {
  import opened Wrappers
  import opened Bytes

  const SECTOR: nat := 512
  const BLOCK: nat := 4096

  /** read_disk of one sector into buf at `off`. */
  method ReadSector(disk: array<Byte>, sector: nat, buf: array<Byte>, off: nat)
    requires disk != buf && (sector + 1) * SECTOR <= disk.Length && off + SECTOR <= buf.Length
    modifies buf
    ensures buf[..] == old(buf[..off]) + disk[sector * SECTOR..(sector + 1) * SECTOR] + old(buf[off + SECTOR..])
  {
    Copy(disk, sector * SECTOR, buf, off, SECTOR);
  }

  lemma Extend<T>(buf: seq<T>, was: seq<T>, disk: seq<T>, n: nat, at: nat, m: nat)
    requires n + m <= |was| && at + n + m <= |disk|
    requires was[..n] == disk[at..at + n] && buf == was[..n] + disk[at + n..at + n + m] + was[n + m..]
    ensures buf[..n + m] == disk[at..at + n + m]
  {
  }

  /** read_block: eight consecutive sectors. */
  method ReadBlock(disk: array<Byte>, block: nat, buf: array<Byte>)
    requires disk != buf && (block + 1) * BLOCK <= disk.Length && buf.Length == BLOCK
    modifies buf
    ensures buf[..] == disk[block * BLOCK..(block + 1) * BLOCK]
  {
    for i := 0 to 8
      invariant buf[..i * SECTOR] == disk[block * BLOCK..block * BLOCK + i * SECTOR]
    {
      ghost var was := buf[..];
      ReadSector(disk, block * 8 + i, buf, i * SECTOR);
      Extend(buf[..], was, disk[..], i * SECTOR, block * BLOCK, SECTOR);
    }
    assert buf[..] == buf[..BLOCK];
  }

  /** Where the copy stands before sector i: everything below it in start..end is done. */
  ghost function Done(i: nat, start: nat, end: nat): nat
    requires start <= end
  {
    Min(Max(i * SECTOR, start), end)
  }

  lemma DoneEnds(start: nat, end: nat)
    requires start <= end
    ensures Done(start / SECTOR, start, end) == start
    ensures Done((end + SECTOR - 1) / SECTOR, start, end) == end
    ensures start / SECTOR <= (end + SECTOR - 1) / SECTOR
  {
  }

  /** The piece of sector i lies inside it and continues the copy. */
  lemma DoneStep(i: nat, start: nat, end: nat, size: nat)
    requires start <= end <= size && size % SECTOR == 0
    requires start / SECTOR <= i < (end + SECTOR - 1) / SECTOR
    ensures var from, to_ := Max(i * SECTOR, start), Min((i + 1) * SECTOR, end);
            && from == Done(i, start, end) && to_ == Done(i + 1, start, end)
            && i * SECTOR <= from <= to_ <= (i + 1) * SECTOR <= size
  {
  }

  lemma SectorSlice<T>(sector: seq<T>, disk: seq<T>, base: nat, from: nat, to_: nat)
    requires |sector| == SECTOR && base + SECTOR <= |disk| && sector == disk[base..base + SECTOR]
    requires base <= from <= to_ <= base + SECTOR
    ensures sector[from - base..to_ - base] == disk[from..to_]
  {
    var a, b := sector[from - base..to_ - base], disk[from..to_];
    forall x | 0 <= x < to_ - from ensures a[x] == b[x] {
      assert a[x] == sector[from - base + x] == disk[base..base + SECTOR][from - base + x];
    }
  }

  /** What one turn achieves: `now` is `was` with bytes from..to_ taken from the sector buffer. */
  lemma PieceDone(d: seq<Byte>, sector: seq<Byte>, was: seq<Byte>, now: seq<Byte>, base: nat, start: nat, from: nat, to_: nat)
    requires |sector| == SECTOR && base + SECTOR <= |d| && sector == d[base..base + SECTOR] && base <= from <= to_ <= base + SECTOR
    requires start <= from && to_ - start <= |was| && was[..from - start] == d[start..from]
    requires now == was[..from - start] + sector[from - base..to_ - base] + was[to_ - start..]
    ensures now[..to_ - start] == d[start..to_]
  {
    SectorSlice(sector, d, base, from, to_);
    Extend(now, was, d, from - start, start, to_ - from);
  }

  /** One turn of read_hard_disk: bytes from..to_ come out of sector i. */
  method CopySector(disk: array<Byte>, sector: array<Byte>, buf: array<Byte>, i: nat, start: nat, from: nat, to_: nat)
    requires disk != buf && disk != sector && sector != buf && sector.Length == SECTOR
    requires i * SECTOR <= from <= to_ <= (i + 1) * SECTOR <= disk.Length && start <= from && to_ - start <= buf.Length
    requires buf[..from - start] == disk[start..from]
    modifies sector, buf
    ensures buf[..to_ - start] == disk[start..to_]
  {
    ghost var d, was, base := disk[..], buf[..], i * SECTOR;
    ReadSector(disk, i, sector, 0);
    assert sector[..] == d[base..base + SECTOR] && buf[..] == was && was[..from - start] == d[start..from];
    Copy(sector, from - i * SECTOR, buf, from - start, to_ - from);
    assert disk[..] == d;
    PieceDone(d, sector[..], was, buf[..], base, start, from, to_);
  }

  /** read_hard_disk: any byte range, sector by sector through a sector buffer. */
  method ReadHardDisk(disk: array<Byte>, buf: array<Byte>, start: nat, length: nat)
    requires disk != buf && disk.Length % SECTOR == 0 && start + length <= disk.Length && buf.Length == length
    requires disk.Length + SECTOR < WORD_MOD
    modifies buf
    ensures buf[..] == disk[start..start + length]
  {
    var end := start + length;
    var sector := new Byte[SECTOR](_ => 0);
    DoneEnds(start, end);
    for i := start / SECTOR to (end + SECTOR - 1) / SECTOR
      invariant start <= Done(i, start, end) <= end
      invariant buf[..Done(i, start, end) - start] == disk[start..Done(i, start, end)]
    {
      DoneStep(i, start, end, disk.Length);
      CopySector(disk, sector, buf, i, start, Max(i * SECTOR, start), Min((i + 1) * SECTOR, end));
    }
    assert buf[..] == buf[..length];
  }
}
