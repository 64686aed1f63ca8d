/** From the files to the instances that are inserted: the range is loaded by
    `get_data_from_file` and walked through the caches, and every byte handed on is the one
    its instance has in its file. */
module DataLoad {
  import opened DataSet
  import C = DataCache
  import Q = Quotients

  /** The lengths of the files of a split that loses nothing. */
  function Lens(s: Split): (lens: seq<nat>)
    requires Whole(s)
    ensures |lens| == FilesNeeded(s)
    ensures forall i :: 0 <= i < |lens| ==> lens[i] == Meant(s, FilesNeeded(s), i).setLen
  {
    LastFile(s);
    var n := FilesNeeded(s);
    assert FullLen(s) >= 0;
    seq(n, i requires 0 <= i < n => LenOf(s, i))
  }

  function LenOf(s: Split, i: nat): (l: nat)
    requires Whole(s) && i < FilesNeeded(s)
    ensures l == Meant(s, FilesNeeded(s), i).setLen
  {
    LastFile(s);
    if i == FilesNeeded(s) - 1 then Size(s) - FullLen(s) * i else FullLen(s)
  }

  predicate Whole(s: Split) {
    0 < s.per && 0 < s.insLen && 0 < s.insNum && FilesNeeded(s) <= INT_MAX && Fits(Largest(s))
  }

  /** These are the lengths in the list that `get_data_set_file_list` returns. */
  lemma LensListed(s: Split, i: nat)
    requires Whole(s) && i < FilesNeeded(s)
    ensures FileNum(s) == FilesNeeded(s) && Entries(s, FileNum(s))[i].setLen == Lens(s)[i]
  {
    AllFit(s);
    assert Fits(Meant(s, FileNum(s), i).setLen);
  }

  lemma {:induction false} BaseOf(s: Split, k: nat)
    requires Whole(s) && k <= FilesNeeded(s)
    ensures Base(Lens(s), k) == if k == FilesNeeded(s) then Size(s) else FullLen(s) * k
  {
    if k > 0 {
      BaseOf(s, k - 1);
      assert FullLen(s) * k == FullLen(s) * (k - 1) + FullLen(s);
    }
  }

  /** Byte `j` of instance `g` comes before multiple `b` of the instance length exactly if
      the instance does. */
  lemma BytesOf(ins: nat, g: nat, j: nat, b: nat)
    requires j < ins
    ensures g * ins + j < b * ins <==> g < b
  {
    if g < b {
      Q.ScaledGap(g, b, ins);
    } else if b < g {
      Q.ScaledGap(b, g, ins);
    }
  }

  /** No file is longer than a full one. */
  lemma NoLonger(s: Split, f: nat)
    requires Whole(s) && f < FilesNeeded(s)
    ensures Lens(s)[f] <= FullLen(s)
  {
    LastFile(s);
    assert FullLen(s) * FilesNeeded(s) == FullLen(s) * (FilesNeeded(s) - 1) + FullLen(s);
  }

  /** File `f` holds the bytes of instances f * per up to (f + 1) * per. */
  lemma FileSpan(s: Split, f: nat)
    requires Whole(s) && f < FilesNeeded(s)
    ensures Base(Lens(s), f) == f * s.per * s.insLen
    ensures Base(Lens(s), f) + Lens(s)[f] <= (f + 1) * s.per * s.insLen
  {
    BaseOf(s, f);
    NoLonger(s, f);
    Spans(s.per, s.insLen, f);
  }

  lemma Spans(per: nat, ins: nat, f: nat)
    ensures per * ins * f == f * per * ins
    ensures f * per * ins + per * ins == (f + 1) * per * ins
  {
    Products(per, ins, f);
    Products(per, ins, f + 1);
    Distribute(f, 1, per * ins);
    Products(per, ins, 1);
  }

  lemma Products(per: nat, ins: nat, f: nat)
    ensures per * ins * f == f * per * ins
  {
  }

  lemma HomeOf(per: nat, ins: nat, f: nat, g: nat, j: nat)
    requires j < ins && f * per * ins <= g * ins + j < (f + 1) * per * ins
    ensures per > 0 && f == g / per && g * ins == f * per * ins + g % per * ins
  {
    BytesOf(ins, g, j, f * per);
    BytesOf(ins, g, j, (f + 1) * per);
    InFile(per, f, g);
    Distribute(f * per, g % per, ins);
  }

  lemma Distribute(a: nat, b: nat, c: nat)
    ensures (a + b) * c == a * c + b * c
  {
  }

  /** The file a byte of instance `g` is in, and where in it. */
  lemma HomeFile(s: Split, g: nat, j: nat, f: nat)
    requires Whole(s) && j < s.insLen && f < FilesNeeded(s)
    requires Base(Lens(s), f) <= g * s.insLen + j < Base(Lens(s), f) + Lens(s)[f]
    ensures f == g / s.per && g * s.insLen + j - Base(Lens(s), f) == g % s.per * s.insLen + j
  {
    FileSpan(s, f);
    HomeOf(s.per, s.insLen, f, g, j);
  }

  lemma InFile(per: nat, f: nat, g: nat)
    requires f * per <= g < (f + 1) * per
    ensures per > 0 && f == g / per && g == f * per + g % per
  {
    assert (f + 1) * per == f * per + per;
    Q.DivModOf(f, per, g - f * per);
  }

  /** Byte `x` of memory is loaded once, from offset `off` of file `f`. */
  ghost predicate LoadedOnce(plan: seq<Read>, x: int, f: nat, off: int) {
    && (exists k :: Holds(plan, k, x))
    && (forall k, l :: Holds(plan, k, x) && Holds(plan, l, x) ==> k == l)
    && (forall k :: Holds(plan, k, x) ==> plan[k].file == f && plan[k].off + (x - plan[k].dest) == off)
  }

  /** Byte `x` of memory is byte `j` of instance `g` in its file. */
  ghost predicate FromItsFile(s: Split, plan: seq<Read>, x: int, g: nat, j: nat)
    requires Whole(s)
  {
    LoadedOnce(plan, x, g / s.per, g % s.per * s.insLen + j)
  }

  /** A plan that `get_data_from_file` makes for the whole data set's files. */
  ghost predicate PlanFor(s: Split, mapStart: int, start: nat, len: int, plan: seq<Read>)
    requires Whole(s)
  {
    && (forall i :: 0 <= i < |plan| ==> Placed(Lens(s), mapStart, plan[i]))
    && Contiguous(plan, mapStart + start, mapStart + RangeEnd(Lens(s), start, len))
  }

  lemma ByteLoaded(s: Split, mapStart: int, start: nat, len: int, plan: seq<Read>, g: nat, j: nat)
    requires Whole(s) && PlanFor(s, mapStart, start, len, plan) && j < s.insLen
    requires start <= g * s.insLen + j < RangeEnd(Lens(s), start, len)
    ensures FromItsFile(s, plan, mapStart + g * s.insLen + j, g, j)
  {
    var x := mapStart + g * s.insLen + j;
    EachByteOnce(plan, mapStart + start, mapStart + RangeEnd(Lens(s), start, len), x);
    forall k | Holds(plan, k, x)
      ensures plan[k].file == g / s.per && plan[k].off + (x - plan[k].dest) == g % s.per * s.insLen + j
    {
      HomeFile(s, g, j, plan[k].file);
    }
  }

  /** The load and the walk as the test program sets them up: the range starts at instance
      `first` and has `count` instances, given or all there are. */
  ghost predicate SetUp(s: Split, r: C.Range, mapStart: int, first: nat, len: int) {
    && 0 < r.insLen == s.insLen && r.insLen <= r.unit && r.per == r.unit / r.insLen && r.per > 0
    && r.base == mapStart + first * s.insLen && 0 <= r.count && first + r.count <= s.insNum
    && (len == r.count * s.insLen || (len == -1 && first + r.count == s.insNum))
  }

  lemma RangeCovers(s: Split, r: C.Range, mapStart: int, first: nat, len: int, g: nat, j: nat)
    requires Whole(s) && SetUp(s, r, mapStart, first, len) && first <= g < first + r.count && j < s.insLen
    ensures first * s.insLen <= g * s.insLen + j < RangeEnd(Lens(s), first * s.insLen, len)
  {
    BaseOf(s, FilesNeeded(s));
    BytesOf(s.insLen, g, j, first);
    BytesOf(s.insLen, g, j, first + r.count);
    BytesOf(s.insLen, g, j, s.insNum);
    assert (first + r.count) * s.insLen == first * s.insLen + r.count * s.insLen;
    assert s.insNum * s.insLen == s.insLen * s.insNum;
    BytesOf(s.insLen, first, 0, s.insNum);
  }

  lemma YieldedAddress(r: C.Range, i: nat)
    requires 0 < r.insLen <= r.unit && r.per == r.unit / r.insLen && r.per > 0 && i < C.Count(r)
    requires r.unit % r.insLen == 0 || C.Count(r) <= r.per
    ensures C.Addrs(r, C.Count(r))[i] == r.base + i * r.insLen
  {
    C.WindowsExact(r);
    assert C.Addrs(r, C.Count(r))[i] == C.Instances(r, C.Count(r))[i];
  }

  /** If nothing is lost in the split and the windows are exact, the addresses the walk
      yields are those of the range's instances in order, and every byte of each of them
      was loaded exactly once, from its instance's place in its file. */
  lemma YieldedIsLoaded(s: Split, r: C.Range, mapStart: int, first: nat, len: int, plan: seq<Read>, i: nat, j: nat)
    requires Whole(s) && SetUp(s, r, mapStart, first, len) && PlanFor(s, mapStart, first * s.insLen, len, plan)
    requires r.unit % r.insLen == 0 || r.count <= r.per
    requires i < C.Count(r) && j < s.insLen
    ensures C.Addrs(r, C.Count(r))[i] == mapStart + (first + i) * s.insLen
    ensures FromItsFile(s, plan, C.Addrs(r, C.Count(r))[i] + j, first + i, j)
  {
    var g := first + i;
    YieldedAddress(r, i);
    Distribute(first, i, s.insLen);
    RangeCovers(s, r, mapStart, first, len, g, j);
    ByteLoaded(s, mapStart, first * s.insLen, len, plan, g, j);
  }

  // ---------------------------------------------------------------- the settings

  /** What the settings ask for exists. */
  ghost predicate WithinData(c: C.Settings)
    reads c
  {
    && c.Valid() && c.First() <= c.instanceNum
    && (c.mapReadLen == -1 || (0 <= c.mapReadLen && c.First() + c.mapReadLen <= c.instanceNum))
  }

  /** The length that is loaded: that of `LoadArgs`. */
  function LoadLen(c: C.Settings): int {
    if c.mapReadLen == -1 then -1 else c.mapReadLen * c.instanceLen
  }

  /** Settings that ask for what exists are set up as the load and the walk need it. */
  lemma SettingsSetUp(c: C.Settings, s: Split)
    requires WithinData(c) && s.insLen == c.instanceLen && s.insNum == c.instanceNum
    ensures SetUp(s, c.TheRange(), c.mapAddress, c.First(), LoadLen(c))
  {
    C.RangeAsAsked(c);
  }

  /** What `WalkAll` yields under such settings, after the load that `LoadArgs` asks for:
      with a split that loses nothing and exact windows, instance after instance from the
      one asked for on, up to the length asked for or the end of the data set, each byte
      of each loaded once from its place in its file. */
  lemma WalkIsLoaded(c: C.Settings, s: Split, plan: seq<Read>, i: nat, j: nat)
    requires WithinData(c) && Whole(s) && s.insLen == c.instanceLen && s.insNum == c.instanceNum
    requires PlanFor(s, c.mapAddress, c.First() * c.instanceLen, LoadLen(c), plan)
    requires c.cacheUnitLen % c.instanceLen == 0 || c.TheRange().count <= c.TheRange().per
    requires i < C.Count(c.TheRange()) && j < c.instanceLen
    ensures var data := C.Addrs(c.TheRange(), C.Count(c.TheRange())); var g := c.First() + i;
      && |data| == (if c.mapReadLen == -1 then c.instanceNum - c.First() else c.mapReadLen)
      && g < c.instanceNum && data[i] == c.mapAddress + g * c.instanceLen
      && FromItsFile(s, plan, data[i] + j, g, j)
  {
    SettingsSetUp(c, s);
    YieldedIsLoaded(s, c.TheRange(), c.mapAddress, c.First(), LoadLen(c), plan, i, j);
  }
}
