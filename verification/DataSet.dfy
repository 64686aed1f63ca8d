/** The files a data set is split into, and the reads that load a range of it. */
module DataSet {
  import opened Options
  import opened Quotients

  const INT_MAX: int := 0x7fff_ffff
  const TWO32: nat := 0x1_0000_0000

  /** A long long stored in an int. */
  function Int32(x: int): (r: int)
    ensures -INT_MAX - 1 <= r <= INT_MAX
    ensures r == x <==> -INT_MAX - 1 <= x <= INT_MAX
    ensures 0 <= x ==> r <= x
  {
    var m := x % TWO32;
    if m <= INT_MAX then m else m - TWO32
  }

  // ---------------------------------------------------------------- the split

  /** data_set_file: its bytes, its instances, its place in the list. */
  datatype FileEntry = FileEntry(setLen: int, setNum: int, index: int)

  function Total(list: seq<FileEntry>): int {
    if list == [] then 0 else Total(list[..|list| - 1]) + list[|list| - 1].setLen
  }

  function Instances(list: seq<FileEntry>): int {
    if list == [] then 0 else Instances(list[..|list| - 1]) + list[|list| - 1].setNum
  }

  /** The sizes of a split: instances and bytes of a full file. */
  datatype Split = Split(insLen: nat, insNum: nat, per: nat)

  function FullLen(s: Split): nat {
    s.per * s.insLen
  }

  function Size(s: Split): nat {
    s.insLen * s.insNum
  }

  /** What entry `i` of `n` is meant to hold, before it is stored in ints. */
  function Meant(s: Split, n: nat, i: nat): FileEntry
    requires i < n
  {
    if i == n - 1 then FileEntry(Size(s) - FullLen(s) * i, s.insNum - s.per * i, i)
    else FileEntry(FullLen(s), s.per, i)
  }

  function Stored(f: FileEntry): FileEntry {
    FileEntry(Int32(f.setLen), Int32(f.setNum), f.index)
  }

  function Entries(s: Split, n: nat): (list: seq<FileEntry>)
    ensures |list| == n
    ensures forall i :: 0 <= i < n ==> list[i] == Stored(Meant(s, n, i))
  {
    seq(n, i requires 0 <= i < n => Stored(Meant(s, n, i)))
  }

  /** How many files there are to be, and what is left of that in an int. */
  function FilesNeeded(s: Split): nat
    requires s.per > 0
  {
    s.insNum / s.per + if s.insNum % s.per != 0 then 1 else 0
  }

  function FileNum(s: Split): int
    requires s.per > 0
  {
    if s.insNum % s.per != 0 then Int32(Int32(s.insNum / s.per) + 1) else Int32(s.insNum / s.per)
  }

  /** get_data_set_file_list; `alloc` says which allocations succeed. */
  method GetFileList(insLen: nat, insNum: nat, fileLen: nat, alloc: nat -> bool) returns (r: Option<seq<FileEntry>>)
    requires insLen * insNum == 0 || fileLen == 0 || insLen <= fileLen
    ensures insLen * insNum == 0 || fileLen == 0 ==> r.None?
    ensures insLen * insNum != 0 && fileLen != 0 ==>
      var s := Split(insLen, insNum, PerFile(insLen, fileLen));
      && (r.Some? <==> FileNum(s) > 0 && forall i: nat :: i < FileNum(s) ==> alloc(i))
      && (r.Some? ==> r.value == Entries(s, FileNum(s)))
  {
    if insLen * insNum == 0 || fileLen == 0 { return None; }
    ghost var s := Split(insLen, insNum, PerFile(insLen, fileLen));
    var perFile := PerFile(insLen, fileLen);
    var dataFileLen := perFile * insLen;
    var fileNum := Int32(insNum / perFile);
    if insNum % perFile != 0 { fileNum := Int32(fileNum + 1); }
    var list: seq<FileEntry> := [];
    var i := 0;
    while i < fileNum
      invariant 0 <= i && |list| == i && (i > 0 ==> i <= fileNum)
      invariant fileNum > 0 ==> forall j :: 0 <= j < i ==> list[j] == Stored(Meant(s, fileNum, j))
      invariant forall j: nat :: j < i ==> alloc(j)
    {
      if !alloc(i) { return None; }
      if i == fileNum - 1 {
        list := list + [FileEntry(Int32(insLen * insNum - dataFileLen * i), Int32(insNum - perFile * i), i)];
      } else {
        list := list + [FileEntry(Int32(dataFileLen), Int32(perFile), i)];
      }
      i := i + 1;
    }
    if list == [] { return None; }
    return Some(list);
  }

  /** How many whole instances the configured file length holds. */
  function PerFile(insLen: nat, fileLen: nat): (per: nat)
    requires 0 < insLen <= fileLen
    ensures 0 < per && per * insLen <= fileLen < per * insLen + insLen
  {
    assert fileLen == fileLen / insLen * insLen + fileLen % insLen;
    fileLen / insLen
  }

  predicate Fits(x: int) {
    x <= INT_MAX
  }

  /** Bytes the first `k` of `n` files are meant to hold. */
  function MeantUpTo(s: Split, n: nat, k: nat): int
    requires k <= n
  {
    if 0 < k == n then Size(s) else FullLen(s) * k
  }

  /** Storing lengths in ints only ever loses bytes, and loses none exactly if they fit. */
  lemma {:induction false} TotalUpTo(s: Split, n: nat, k: nat)
    requires 0 < n && k <= n && FullLen(s) * (n - 1) <= Size(s)
    ensures Total(Entries(s, n)[..k]) <= MeantUpTo(s, n, k)
    ensures Total(Entries(s, n)[..k]) == MeantUpTo(s, n, k) <==>
              forall i: nat :: i < k ==> Fits(Meant(s, n, i).setLen)
  {
    if k > 0 {
      var list := Entries(s, n)[..k];
      TotalUpTo(s, n, k - 1);
      assert list[..k - 1] == Entries(s, n)[..k - 1];
      assert list[k - 1] == Stored(Meant(s, n, k - 1));
      MeantStep(s, n, k);
    }
  }

  lemma MeantStep(s: Split, n: nat, k: nat)
    requires 0 < k <= n && FullLen(s) * (n - 1) <= Size(s)
    ensures Meant(s, n, k - 1).setLen >= 0
    ensures MeantUpTo(s, n, k) == MeantUpTo(s, n, k - 1) + Meant(s, n, k - 1).setLen
  {
    assert FullLen(s) * k == FullLen(s) * (k - 1) + FullLen(s);
  }

  /** A split that needs `f` files: the last file is not empty and no longer than a full
      one. */
  lemma LastFile(s: Split)
    requires 0 < s.per && 0 < s.insLen && 0 < s.insNum
    ensures var f := FilesNeeded(s);
      0 < f && FullLen(s) * (f - 1) < Size(s) <= FullLen(s) * f
  {
    var f, q, m := FilesNeeded(s), s.insNum / s.per, s.insNum % s.per;
    assert s.insNum == q * s.per + m;
    assert f * s.per == q * s.per + (f - q) * s.per;
    assert (f - 1) * s.per == f * s.per - s.per;
    assert (f - 1) * s.per < s.insNum <= f * s.per;
    Times(s.insLen, s.per, f);
    Times(s.insLen, s.per, f - 1);
    Grows(s.insLen, s.insNum, f * s.per);
    Grows(s.insLen, (f - 1) * s.per, s.insNum);
  }

  lemma Times(x: nat, y: nat, z: nat)
    ensures y * x * z == x * (z * y)
  {
  }

  lemma Grows(x: nat, y: nat, z: nat)
    requires 0 < x
    ensures y <= z ==> x * y <= x * z
    ensures y < z ==> x * y < x * z
  {
    if y < z { ScaledGap(y, z, x); }
  }

  /** The count of files fits in an int, or what is left of it is short by 2^32 files. */
  lemma CountLeft(s: Split)
    requires 0 < s.per
    ensures FilesNeeded(s) <= INT_MAX ==> FileNum(s) == FilesNeeded(s)
    ensures FilesNeeded(s) > INT_MAX ==> FileNum(s) + TWO32 <= FilesNeeded(s)
  {
  }

  /** The largest file of a split. */
  function Largest(s: Split): nat
    requires s.per > 0
  {
    if FilesNeeded(s) == 1 then Size(s) else FullLen(s)
  }

  lemma AllFit(s: Split)
    requires 0 < s.per && 0 < s.insLen && 0 < s.insNum && FilesNeeded(s) <= INT_MAX
    ensures FileNum(s) == FilesNeeded(s) > 0
    ensures (forall i: nat :: i < FileNum(s) ==> Fits(Meant(s, FileNum(s), i).setLen)) <==> Fits(Largest(s))
  {
    CountLeft(s);
    LastFile(s);
    var n := FileNum(s);
    assert FullLen(s) * n == FullLen(s) * (n - 1) + FullLen(s);
    if n > 1 {
      assert Meant(s, n, 0).setLen == FullLen(s);
      forall i: nat | i < n ensures Meant(s, n, i).setLen <= FullLen(s) {}
    } else {
      assert Meant(s, n, 0).setLen == Size(s);
    }
  }

  /** Whenever a list is returned, its files add up to the whole data set exactly if their
      number and the largest of them fit in an int. */
  lemma SplitExactly(s: Split)
    requires 0 < s.per && 0 < s.insLen && 0 < s.insNum && FileNum(s) > 0
    ensures Total(Entries(s, FileNum(s))) == Size(s) <==> FilesNeeded(s) <= INT_MAX && Fits(Largest(s))
  {
    var n := FileNum(s);
    LastFile(s);
    CountLeft(s);
    assert n <= FilesNeeded(s);
    Grows2(FullLen(s), n - 1, FilesNeeded(s) - 1);
    TotalUpTo(s, n, n);
    assert Entries(s, n)[..n] == Entries(s, n);
    if FilesNeeded(s) <= INT_MAX {
      AllFit(s);
    } else {
      LastTooLong(s, n);
    }
  }

  /** Instances the first `k` of `n` files are meant to hold. */
  function MeantNum(s: Split, n: nat, k: nat): int
    requires k <= n
  {
    if 0 < k == n then s.insNum else s.per * k
  }

  /** As with the bytes, storing the numbers of instances only ever loses some. */
  lemma {:induction false} InstancesUpTo(s: Split, n: nat, k: nat)
    requires 0 < n && k <= n && s.per * (n - 1) <= s.insNum
    ensures Instances(Entries(s, n)[..k]) <= MeantNum(s, n, k)
    ensures Instances(Entries(s, n)[..k]) == MeantNum(s, n, k) <==>
              forall i: nat :: i < k ==> Fits(Meant(s, n, i).setNum)
  {
    if k > 0 {
      var list := Entries(s, n)[..k];
      InstancesUpTo(s, n, k - 1);
      assert list[..k - 1] == Entries(s, n)[..k - 1];
      assert list[k - 1] == Stored(Meant(s, n, k - 1));
      MeantNumStep(s, n, k);
    }
  }

  lemma MeantNumStep(s: Split, n: nat, k: nat)
    requires 0 < k <= n && s.per * (n - 1) <= s.insNum
    ensures Meant(s, n, k - 1).setNum >= 0
    ensures MeantNum(s, n, k) == MeantNum(s, n, k - 1) + Meant(s, n, k - 1).setNum
  {
    assert s.per * k == s.per * (k - 1) + s.per;
  }

  /** The files of a list hold all the instances between them, exactly if their number and
      a full file's instances fit in an int. */
  lemma InstancesExactly(s: Split)
    requires 0 < s.per && 0 < s.insNum && FileNum(s) > 0
    ensures Instances(Entries(s, FileNum(s))) == s.insNum <==>
              FilesNeeded(s) <= INT_MAX && Fits(if FilesNeeded(s) == 1 then s.insNum else s.per)
  {
    var n, f := FileNum(s), FilesNeeded(s);
    var one := Split(1, s.insNum, s.per);
    LastFile(one);
    CountLeft(s);
    assert s.per * (f - 1) < s.insNum <= s.per * f;
    Grows2(s.per, n - 1, f - 1);
    InstancesUpTo(s, n, n);
    assert Entries(s, n)[..n] == Entries(s, n);
    assert s.per * f == s.per * (f - 1) + s.per;
    if f <= INT_MAX {
      if n > 1 { assert Meant(s, n, 0).setNum == s.per; } else { assert Meant(s, n, 0).setNum == s.insNum; }
    } else {
      assert s.per * (f - 1) == s.per * (n - 1) + s.per * (f - n);
      Grows2(f - n, 1, s.per);
      assert s.per * (f - n) == (f - n) * s.per;
      assert !Fits(Meant(s, n, n - 1).setNum);
    }
  }

  /** No file of a split is longer than the configured length, one more instance in a full
      file would be, and each file is as long as its instances. */
  lemma FilesAsConfigured(insLen: nat, insNum: nat, fileLen: nat, i: nat)
    requires 0 < insLen <= fileLen && 0 < insNum
    ensures var s := Split(insLen, insNum, PerFile(insLen, fileLen)); var n := FilesNeeded(s);
      i < n ==>
        && 0 < Meant(s, n, i).setLen <= fileLen && Meant(s, n, i).setLen == Meant(s, n, i).setNum * insLen
        && (i + 1 < n ==> Meant(s, n, i).setLen + insLen > fileLen)
        && Meant(s, n, i).index == i
  {
    var s := Split(insLen, insNum, PerFile(insLen, fileLen));
    var n := FilesNeeded(s);
    LastFile(s);
    assert FullLen(s) * n == FullLen(s) * (n - 1) + FullLen(s);
    if i == n - 1 {
      Times(insLen, s.per, i);
      assert insLen * insNum - insLen * (i * s.per) == (insNum - i * s.per) * insLen;
      assert s.per * i == i * s.per;
    }
  }

  lemma Grows2(x: nat, y: nat, z: nat)
    requires y <= z
    ensures x * y <= x * z
  {
    assert x * z == x * y + x * (z - y);
  }

  lemma LastTooLong(s: Split, n: nat)
    requires 0 < s.per && 0 < s.insLen && 0 < s.insNum && 0 < n && n + TWO32 <= FilesNeeded(s)
    ensures !Fits(Meant(s, n, n - 1).setLen)
  {
    var f := FilesNeeded(s);
    LastFile(s);
    assert FullLen(s) * (f - 1) == FullLen(s) * (n - 1) + FullLen(s) * (f - n);
    assert FullLen(s) >= 1 by { Grows(s.insLen, 0, s.per); Times(s.insLen, s.per, 1); }
    Grows2(f - n, 1, FullLen(s));
    assert FullLen(s) * (f - n) == (f - n) * FullLen(s);
  }

  /** A data set of 8 GiB in two files of 4 GiB each: a list of two empty files. */
  lemma SplitExample()
    ensures var s := Split(1024, 0x80_0000, PerFile(1024, 0x1_0000_0000));
      && FullLen(s) > INT_MAX && FileNum(s) == 2 && Size(s) == 0x2_0000_0000
      && Total(Entries(s, 2)) == 0
  {
    var s := Split(1024, 0x80_0000, PerFile(1024, 0x1_0000_0000));
    var list := Entries(s, 2);
    assert Meant(s, 2, 0).setLen == 0x1_0000_0000 && Meant(s, 2, 1).setLen == 0x1_0000_0000;
    assert list[..2 - 1][..1 - 1] == [] && list[..1][0] == list[0];
    assert Total(list[..1]) == 0;
  }

  // ---------------------------------------------------------------- loading a range

  /** One call of get_data_file: `n` bytes of file `file` from offset `off` on go to
      address `dest`. */
  datatype Read = Read(file: nat, off: int, dest: int, n: int)

  /** Where file `k` begins in the data set. */
  function Base(lens: seq<nat>, k: nat): nat
    requires k <= |lens|
  {
    if k == 0 then 0 else Base(lens, k - 1) + lens[k - 1]
  }

  /** The read stays in its file and puts every byte where it belongs in the map. */
  predicate Placed(lens: seq<nat>, mapStart: int, r: Read) {
    && r.file < |lens| && 0 <= r.off && 0 < r.n && r.off + r.n <= lens[r.file]
    && r.dest == mapStart + Base(lens, r.file) + r.off
  }

  /** The reads follow one another from address `at` to `end` without gap or overlap. */
  predicate Contiguous(plan: seq<Read>, at: int, end: int) {
    if plan == [] then at == end
    else
      var last := plan[|plan| - 1];
      last.dest + last.n == end && Contiguous(plan[..|plan| - 1], at, last.dest)
  }

  /** Where the part of the range that exists ends; `len` is -1 for all there is. */
  function RangeEnd(lens: seq<nat>, start: nat, len: int): int {
    var total := Base(lens, |lens|);
    if total <= start then start else if len == -1 || total <= start + len then total else start + len
  }

  /** The part that exists: an offset of the data set lies in it exactly if it is in the
      range asked for. */
  lemma RangeEndMeans(lens: seq<nat>, start: nat, len: int, x: int)
    requires -1 <= len
    ensures start <= x < RangeEnd(lens, start, len) <==>
              start <= x < Base(lens, |lens|) && (len == -1 || x < start + len)
    ensures start <= RangeEnd(lens, start, len)
  {
  }

  lemma {:induction false} BaseGrows(lens: seq<nat>, j: nat, k: nat)
    requires j <= k <= |lens|
    ensures Base(lens, j) <= Base(lens, k)
  {
    if j < k { BaseGrows(lens, j, k - 1); }
  }

  /** A plan so far: its reads are placed and follow one another from `at` to `end`. */
  ghost predicate PlanTo(lens: seq<nat>, mapStart: int, plan: seq<Read>, at: int, end: int) {
    && (forall i :: 0 <= i < |plan| ==> Placed(lens, mapStart, plan[i]))
    && Contiguous(plan, at, end)
  }

  lemma PlanGrows(lens: seq<nat>, mapStart: int, plan: seq<Read>, at: int, r: Read)
    requires PlanTo(lens, mapStart, plan, at, r.dest) && Placed(lens, mapStart, r)
    ensures PlanTo(lens, mapStart, plan + [r], at, r.dest + r.n)
  {
    assert (plan + [r])[..|plan|] == plan;
  }

  /** get_data_from_file: the files before the range are skipped, then each is read from
      `start` on, until the range or the list ends. */
  method GetDataFromFile(lens: seq<nat>, mapStart: int, startOff: nat, len: int) returns (plan: seq<Read>)
    requires -1 <= len
    ensures forall i :: 0 <= i < |plan| ==> Placed(lens, mapStart, plan[i])
    ensures Contiguous(plan, mapStart + startOff, mapStart + RangeEnd(lens, startOff, len))
  {
    var start, off, left := startOff, startOff, len;
    plan := [];
    var cur := 0;
    while cur < |lens|
      invariant 0 <= cur <= |lens| && 0 <= start && startOff <= off && -1 <= left
      invariant PlanTo(lens, mapStart, plan, mapStart + startOff, mapStart + off)
      invariant off == Base(lens, cur) + start
      invariant start > 0 ==> off == startOff && left == len && plan == []
      invariant left == -1 <==> len == -1
      invariant len != -1 ==> off + left == startOff + len
    {
      BaseGrows(lens, cur + 1, |lens|);
      if lens[cur] <= start {
        start := start - lens[cur];
      } else {
        var readLen := lens[cur] - start;
        if left == -1 {
          PlanGrows(lens, mapStart, plan, mapStart + startOff, Read(cur, start, mapStart + off, readLen));
          plan := plan + [Read(cur, start, mapStart + off, readLen)];
          off := off + readLen;
        } else if readLen <= left {
          left := left - readLen;
          PlanGrows(lens, mapStart, plan, mapStart + startOff, Read(cur, start, mapStart + off, readLen));
          plan := plan + [Read(cur, start, mapStart + off, readLen)];
          off := off + readLen;
        } else {
          if left != 0 {
            PlanGrows(lens, mapStart, plan, mapStart + startOff, Read(cur, start, mapStart + off, left));
            plan := plan + [Read(cur, start, mapStart + off, left)];
            off := off + left;
          }
          break;
        }
        start := 0;
      }
      cur := cur + 1;
    }
  }

  /** Of the reads that follow one another exactly one holds a given address of the range:
      each byte is read once. */
  lemma {:induction false} EachByteOnce(plan: seq<Read>, at: int, end: int, x: int)
    requires Contiguous(plan, at, end) && forall i :: 0 <= i < |plan| ==> plan[i].n > 0
    ensures at <= end
    ensures at <= x < end <==> exists i :: Holds(plan, i, x)
    ensures forall i, j :: Holds(plan, i, x) && Holds(plan, j, x) ==> i == j
    ensures forall i :: 0 <= i < |plan| ==> at <= plan[i].dest && plan[i].dest + plan[i].n <= end
    decreases |plan|
  {
    if plan != [] {
      var k := |plan| - 1;
      var front := plan[..k];
      EachByteOnce(front, at, plan[k].dest, x);
      forall i | Holds(plan, i, x) ensures i == k || Holds(front, i, x) {}
      if at <= x < plan[k].dest {
        var i :| Holds(front, i, x);
        assert Holds(plan, i, x);
      } else if plan[k].dest <= x < end {
        assert Holds(plan, k, x);
      }
    }
  }

  predicate Holds(plan: seq<Read>, i: int, x: int) {
    0 <= i < |plan| && plan[i].dest <= x < plan[i].dest + plan[i].n
  }
}
