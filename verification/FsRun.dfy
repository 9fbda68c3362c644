/** Whole runs of the image tools, and what the kernel then reads back. */
module FsRun {
  import opened Bytes
  import opened FsSpec
  import FsWrite
  import FsRead

  /** One file handed to the image writer. */
  datatype Job = Job(name: seq<Byte>, data: seq<Byte>)

  predicate Fits(j: Job) { |j.data| <= DIRECT * BLOCK }

  /** The files an empty image ends up with: those that fit, packed in order. */
  function Layout(jobs: seq<Job>): seq<File> {
    if jobs == [] then [] else
      var files, j := Layout(jobs[..|jobs| - 1]), jobs[|jobs| - 1];
      if Fits(j) then files + [File(j.name, j.data, DATA_START + Used(files))] else files
  }

  ghost predicate GoodJobs(jobs: seq<Job>) {
    && (forall i :: 0 <= i < |jobs| ==> GoodName(jobs[i].name) && 0 < |jobs[i].data| && |jobs[i].data| + BLOCK <= WORD_MOD)
    && forall i, j :: 0 <= i < j < |jobs| ==> jobs[i].name != jobs[j].name
  }

  /** Every file of the layout is one of the jobs, and its name and bytes are that job's, at most twelve blocks of them. */
  lemma {:induction false} LayoutFrom(jobs: seq<Job>, k: nat)
    requires k < |Layout(jobs)|
    ensures Job(Layout(jobs)[k].name, Layout(jobs)[k].data) in jobs && |Layout(jobs)[k].data| <= 12 * 4096
  {
    var l := |jobs| - 1;
    var files := Layout(jobs[..l]);
    if k < |files| {
      LayoutFrom(jobs[..l], k);
    }
  }

  /** Every job of at most twelve blocks is in the layout. */
  lemma {:induction false} LayoutHas(jobs: seq<Job>, i: nat) returns (k: nat)
    requires i < |jobs| && |jobs[i].data| <= 12 * 4096
    ensures k < |Layout(jobs)| && Layout(jobs)[k].name == jobs[i].name && Layout(jobs)[k].data == jobs[i].data
  {
    var l := |jobs| - 1;
    if i < l {
      k := LayoutHas(jobs[..l], i);
    } else {
      k := |Layout(jobs[..l])|;
    }
  }

  lemma {:induction false} LayoutPrefix(jobs: seq<Job>, n: nat)
    requires n <= |jobs|
    ensures |Layout(jobs[..n])| <= |Layout(jobs)|
    decreases |jobs|
  {
    if n < |jobs| {
      LayoutPrefix(jobs[..|jobs| - 1], n);
      assert jobs[..|jobs| - 1][..n] == jobs[..n];
    } else {
      assert jobs[..n] == jobs;
    }
  }

  /** No file bears the name of a job still to come. */
  lemma FreshName(jobs: seq<Job>, n: nat, k: nat)
    requires n < |jobs| && GoodJobs(jobs) && k < |Layout(jobs[..n])|
    ensures Layout(jobs[..n])[k].name != jobs[n].name
  {
    LayoutFrom(jobs[..n], k);
    var f := Layout(jobs[..n])[k];
    var i :| 0 <= i < n && jobs[..n][i] == Job(f.name, f.data);
    assert jobs[i].name != jobs[n].name;
  }

  lemma LayoutNext(jobs: seq<Job>, n: nat)
    requires n < |jobs|
    ensures var files, j := Layout(jobs[..n]), jobs[n];
      Layout(jobs[..n + 1]) == if Fits(j) then files + [File(j.name, j.data, DATA_START + Used(files))] else files
  {
    var l := jobs[..n + 1];
    assert l[..|l| - 1] == jobs[..n] && l[|l| - 1] == jobs[n];
    hide Used;
  }

  /** What the n-th injection needs and what the layout becomes. */
  lemma NextJob(jobs: seq<Job>, n: nat)
    requires n < |jobs| && GoodJobs(jobs) && |Layout(jobs)| <= MAX_FILES
    ensures var files, j := Layout(jobs[..n]), jobs[n];
      && (forall k :: 0 <= k < |files| ==> files[k].name != j.name)
      && (Fits(j) ==> |files| < MAX_FILES)
      && Layout(jobs[..n + 1]) == if Fits(j) then files + [File(j.name, j.data, DATA_START + Used(files))] else files
  {
    hide Layout, Used, GoodJobs;
    LayoutNext(jobs, n);
    LayoutPrefix(jobs, n + 1);
    forall k | 0 <= k < |Layout(jobs[..n])| ensures Layout(jobs[..n])[k].name != jobs[n].name {
      FreshName(jobs, n, k);
    }
  }

  /** mkfs and then one injection per file: the image holds exactly the files that fit. */
  method BuildImage(image: array<Byte>, jobs: seq<Job>)
    requires image.Length == DISK_SIZE && GoodJobs(jobs) && |Layout(jobs)| <= MAX_FILES
    modifies image
    ensures Holds(image[..], Layout(jobs))
  {
    hide Holds, Used;
    FsWrite.Mkfs(image);
    for n := 0 to |jobs|
      invariant Holds(image[..], Layout(jobs[..n]))
    {
      NextJob(jobs, n);
      var ok := FsWrite.InjectFile(image, jobs[n].data, jobs[n].name, Layout(jobs[..n]));
    }
    assert jobs[..|jobs|] == jobs;
  }

  /** Distinct files own disjoint blocks, and the data bitmap marks them. */
  lemma DisjointBlocks(m: seq<Byte>, files: seq<File>, i: nat, k: nat, b: nat)
    requires Holds(m, files) && i < k < |files|
    requires files[i].first <= b < files[i].first + files[i].Count()
    ensures !(files[k].first <= b < files[k].first + files[k].Count())
    ensures DATA_START < b < TOTAL_BLOCKS && BitAt(m, DATA_BITMAP, b - DATA_START)
  {
    assert FileAt(m, files, i) && FileAt(m, files, k);
    FsWrite.AllGood(m, files);
    UsedGrows(files, i, k);
    UsedGrows(files, i, |files|);
    UsedBound(files, |files|);
    assert files[..|files|] == files;
  }

  /** The bytes a read of (start, length) should deliver. */
  function Slice(data: seq<Byte>, start: nat, length: nat): seq<Byte> {
    if start >= |data| then [] else if start + length < |data| then data[start..start + length] else data[start..]
  }

  /** The read of file k delivers its slice exactly unless the 32-bit sum start + length wraps inside a file whose last block is partial. */
  lemma ReadBack(m: seq<Byte>, files: seq<File>, k: nat, b: seq<Byte>, start: nat, length: nat, r: int)
    requires Holds(m, files) && k < |files| && start < WORD_MOD && length < WORD_MOD
    requires var f := files[k]; FsRead.Reads(m, b, f.first, |f.data|, f.Count(), start, length, r)
    ensures b[..r] == Slice(files[k].data, start, length)
      <==> start + length < WORD_MOD || start >= |files[k].data| || |files[k].data| % BLOCK == 0
  {
    var f := files[k];
    assert FileAt(m, files, k);
    ReadBackFile(m, f, b, start, length, r);
  }

  lemma ReadBackFile(m: seq<Byte>, f: File, b: seq<Byte>, start: nat, length: nat, r: int)
    requires DataAt(m, f) && 0 < |f.data| <= DIRECT * BLOCK && start < WORD_MOD && length < WORD_MOD
    requires FsRead.Reads(m, b, f.first, |f.data|, f.Count(), start, length, r)
    ensures b[..r] == Slice(f.data, start, length)
      <==> start + length < WORD_MOD || start >= |f.data| || |f.data| % BLOCK == 0
  {
    var a, size, n := f.first * BLOCK, |f.data|, f.Count();
    CountCovers(f);
    if start < size {
      DeliveredIs(size, n, start, length);
      hide FsRead.Delivered;
      var s := Slice(f.data, start, length);
      assert |s| == if length < size - start then length else size - start;
      if start + length < WORD_MOD || size % BLOCK == 0 {
        assert r == |s|;
        SubSlice(m, a, size, start, r);
        assert s == f.data[start..start + r];
      } else {
        assert |b[..r]| > |s|;
      }
    }
  }

  /** How much is delivered, without and with a wrap of the sum. */
  lemma DeliveredIs(size: nat, n: nat, start: nat, length: nat)
    requires start < size <= n * BLOCK < size + BLOCK && size <= DIRECT * BLOCK && start < WORD_MOD && length < WORD_MOD
    ensures start + length < WORD_MOD ==> FsRead.Delivered(size, n, start, length) == if length < size - start then length else size - start
    ensures start + length >= WORD_MOD ==> FsRead.Delivered(size, n, start, length) == n * BLOCK - start && length >= size - start
    ensures size % BLOCK == 0 <==> n * BLOCK == size
  {
    if start + length >= WORD_MOD {
      assert (start + length) % WORD_MOD == start + length - WORD_MOD;
    }
  }

  lemma SubSlice(m: seq<Byte>, a: nat, size: nat, start: nat, r: nat)
    requires a + size <= |m| && start + r <= size
    ensures m[a..a + size][start..start + r] == m[a + start..a + start + r]
  {
    var s, t := m[a..a + size][start..start + r], m[a + start..a + start + r];
    forall i | 0 <= i < r ensures s[i] == t[i] {
      assert s[i] == m[a..a + size][start + i] == m[a + (start + i)];
    }
  }

  /** The wrap at work: one byte is left of a two-byte file, 4095 are delivered. */
  lemma WrapExample(data: seq<Byte>)
    requires |data| == 2
    ensures FsRead.Delivered(2, 1, 1, WORD_MOD - 1) == 4095 && |Slice(data, 1, WORD_MOD - 1)| == 1
  {
  }
}
