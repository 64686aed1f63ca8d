/** The windows a mapped data set is walked through, one cache at a time. */
module DataCache {
  import opened Options
  import opened Quotients

  /** C's division of a possibly negative number: towards zero. */
  function TruncDiv(x: int, y: int): int
    requires y > 0
  {
    if x >= 0 then x / y else -((-x) / y)
  }

  function TruncMod(x: int, y: int): int
    requires y > 0
  {
    x - y * TruncDiv(x, y)
  }

  /** What the settings ask for: where the range starts and how many instances it has. */
  datatype Range = Range(base: int, count: int, per: nat, unit: nat, insLen: nat)

  /** The address of instance `i` of the range as the windows give it. */
  function WindowAddr(r: Range, i: nat): int
    requires r.per > 0
  {
    r.base + i / r.per * r.unit + i % r.per * r.insLen
  }

  function Addrs(r: Range, n: nat): (a: seq<int>)
    requires r.per > 0
    ensures |a| == n
    ensures forall i :: 0 <= i < n ==> a[i] == WindowAddr(r, i)
  {
    seq(n, i requires 0 <= i < n => WindowAddr(r, i))
  }

  /** The instances of the range, in order, each once. */
  function Instances(r: Range, n: nat): (a: seq<int>)
    ensures |a| == n
    ensures forall i :: 0 <= i < n ==> a[i] == r.base + i * r.insLen
  {
    seq(n, i requires 0 <= i < n => r.base + i * r.insLen)
  }

  function CacheNum(r: Range): int
    requires r.per > 0
  {
    TruncDiv(r.count, r.per) + if TruncMod(r.count, r.per) != 0 then 1 else 0
  }

  /** How many instances window `idx` holds; none if there is no such window. */
  function WindowLen(r: Range, idx: int): int
    requires r.per > 0
  {
    if idx < CacheNum(r) - 1 then r.per else r.count - r.per * idx
  }

  /** data_set_cache. */
  class Cache {
    const cacheIdx: int
    const insNum: int
    const insSize: int
    const cacheMem: int
    var curInsId: int

    constructor (cacheIdx: int, insNum: int, insSize: int, cacheMem: int)
      ensures this.cacheIdx == cacheIdx && this.insNum == insNum && this.insSize == insSize
      ensures this.cacheMem == cacheMem && curInsId == 0
    {
      this.cacheIdx, this.insNum, this.insSize, this.cacheMem := cacheIdx, insNum, insSize, cacheMem;
      curInsId := 0;
    }

    method GetNextData() returns (data: Option<int>)
      modifies this
      ensures old(curInsId) < insNum ==> data == Some(cacheMem + old(curInsId) * insSize) && curInsId == old(curInsId) + 1
      ensures old(curInsId) >= insNum ==> data == None && curInsId == old(curInsId)
    {
      if curInsId < insNum {
        data := Some(cacheMem + curInsId * insSize);
        curInsId := curInsId + 1;
      } else {
        data := None;
      }
    }
  }

  function NextIdx(cur: Cache?): int {
    if cur == null then 0 else cur.cacheIdx + 1
  }

  /** The settings of data_set.h that the windows depend on. */
  class Settings {
    const instanceLen: nat
    const instanceNum: nat
    const cacheUnitLen: nat
    const mapAddress: int
    var mapReadStart: int
    const mapReadLen: int

    constructor (instanceLen: nat, instanceNum: nat, cacheUnitLen: nat, mapAddress: int, mapReadStart: int, mapReadLen: int)
      requires 0 < instanceLen <= cacheUnitLen && -1 <= mapReadStart
      ensures Valid() && this.instanceLen == instanceLen && this.instanceNum == instanceNum
      ensures this.cacheUnitLen == cacheUnitLen && this.mapAddress == mapAddress
      ensures this.mapReadStart == mapReadStart && this.mapReadLen == mapReadLen
    {
      this.instanceLen, this.instanceNum, this.cacheUnitLen := instanceLen, instanceNum, cacheUnitLen;
      this.mapAddress, this.mapReadStart, this.mapReadLen := mapAddress, mapReadStart, mapReadLen;
    }

    /** The divisions of the source are defined. */
    ghost predicate Valid()
      reads this
    {
      0 < instanceLen <= cacheUnitLen && -1 <= mapReadStart
    }

    /** -1 stands for the start of the data set, and for all there is from the start on. */
    function First(): int
      reads this
    {
      if mapReadStart == -1 then 0 else mapReadStart
    }

    function TheRange(): (r: Range)
      requires Valid()
      reads this
      ensures r.per > 0
    {
      PerUnit(instanceLen, cacheUnitLen);
      Range(mapAddress + First() * instanceLen, if mapReadLen == -1 then instanceNum - First() else mapReadLen,
            cacheUnitLen / instanceLen, cacheUnitLen, instanceLen)
    }

    /** The part of the data set that `main` has loaded before the walk, in bytes from its
        start; a length of -1 stands for all there is. */
    method LoadArgs() returns (start: int, len: int)
      requires Valid()
      modifies this
      ensures Valid() && TheRange() == old(TheRange()) && First() == old(First())
      ensures start == First() * instanceLen
      ensures len == if mapReadLen == -1 then -1 else mapReadLen * instanceLen
    {
      if mapReadStart == -1 { mapReadStart := 0; }
      if mapReadLen == -1 { len := -1; } else { len := mapReadLen * instanceLen; }
      start := mapReadStart * instanceLen;
    }

    /** get_data_set_cache; the first call with both settings at -1 fixes the start. */
    method GetDataSetCache(cacheIdx: int) returns (c: Cache?)
      requires Valid()
      modifies this
      ensures Valid() && TheRange() == old(TheRange())
      ensures c == null <==> CacheNum(TheRange()) <= cacheIdx
      ensures c != null ==> fresh(c) && c.curInsId == 0 && c.cacheIdx == cacheIdx && c.insSize == instanceLen
      ensures c != null ==> c.insNum == WindowLen(TheRange(), cacheIdx)
      ensures c != null ==> c.cacheMem == TheRange().base + cacheIdx * cacheUnitLen
    {
      var startOff := 0;
      if mapReadStart != -1 { startOff := mapReadStart * instanceLen; }
      PerUnit(instanceLen, cacheUnitLen);
      var insNumPerCache := cacheUnitLen / instanceLen;
      var readMaxInsNum := mapReadLen;
      if mapReadLen == -1 {
        if mapReadStart == -1 { mapReadStart := 0; }
        readMaxInsNum := instanceNum - mapReadStart;
      }
      var cacheNum := TruncDiv(readMaxInsNum, insNumPerCache);
      if TruncMod(readMaxInsNum, insNumPerCache) != 0 { cacheNum := cacheNum + 1; }
      var insNum;
      if cacheIdx < cacheNum - 1 {
        insNum := insNumPerCache;
      } else if cacheIdx == cacheNum - 1 {
        insNum := readMaxInsNum - insNumPerCache * cacheIdx;
      } else {
        return null;
      }
      c := new Cache(cacheIdx, insNum, instanceLen, mapAddress + startOff + cacheIdx * cacheUnitLen);
    }

    method GetNextDataSetCache(cur: Cache?) returns (c: Cache?)
      requires Valid()
      modifies this
      ensures Valid() && TheRange() == old(TheRange())
      ensures c == null <==> CacheNum(TheRange()) <= NextIdx(cur)
      ensures c != null ==> fresh(c) && c.curInsId == 0 && c.cacheIdx == NextIdx(cur) && c.insSize == instanceLen
      ensures c != null ==> c.insNum == WindowLen(TheRange(), NextIdx(cur))
      ensures c != null ==> c.cacheMem == TheRange().base + NextIdx(cur) * cacheUnitLen
    {
      if cur == null {
        c := GetDataSetCache(0);
      } else {
        c := GetDataSetCache(cur.cacheIdx + 1);
      }
    }

    /** The cache-walking loop of test_insert_proc: every window to its end, then the next. */
    method WalkAll() returns (data: seq<int>)
      requires Valid()
      modifies this
      ensures Valid() && TheRange() == old(TheRange())
      ensures data == Addrs(TheRange(), Count(TheRange()))
    {
      ghost var r := TheRange();
      data := [];
      var cur: Cache? := null;
      WindowsEnd(r);
      while true
        invariant Valid() && TheRange() == r
        invariant cur != null ==> fresh(cur) && 0 <= cur.cacheIdx < CacheNum(r)
        invariant data == Addrs(r, Seen(r, NextIdx(cur)))
        decreases CacheNum(r) - NextIdx(cur)
      {
        var next := GetNextDataSetCache(cur);
        if next == null { break; }
        ghost var idx := next.cacheIdx;
        WindowLens(r, idx);
        var more := true;
        while more
          invariant Valid() && TheRange() == r && fresh(next)
          invariant 0 <= next.curInsId && (next.curInsId <= next.insNum || next.curInsId == 0)
          invariant data == Addrs(r, Seen(r, idx) + next.curInsId)
          invariant !more ==> next.insNum <= next.curInsId
          decreases next.insNum - next.curInsId, more
        {
          ghost var k := next.curInsId;
          var d := next.GetNextData();
          if d.Some? {
            InWindow(r, idx, k);
            data := data + [d.value];
          } else {
            more := false;
          }
        }
        cur := next;
      }
    }
  }

  lemma PerUnit(insLen: nat, unit: nat)
    requires 0 < insLen <= unit
    ensures unit / insLen > 0
  {
  }

  /** How many instances there are to see. */
  function Count(r: Range): nat {
    if r.count < 0 then 0 else r.count
  }

  /** How many of them lie in the windows before `idx`. */
  function Seen(r: Range, idx: nat): nat {
    if r.per * idx <= Count(r) then r.per * idx else Count(r)
  }

  lemma Product(x: nat, y: nat, z: nat)
    ensures y <= z ==> x * y <= x * z
    ensures x * (y + 1) == x * y + x
  {
    if y <= z { assert x * z == x * y + x * (z - y); }
  }

  lemma CacheNumBounds(r: Range)
    requires r.per > 0
    ensures r.count >= 0 ==> CacheNum(r) >= 0 && r.per * CacheNum(r) >= r.count
    ensures r.count > 0 ==> CacheNum(r) > 0 && r.per * (CacheNum(r) - 1) < r.count
    ensures r.count < 0 ==> CacheNum(r) <= 1
  {
    if r.count >= 0 {
      var q, m := r.count / r.per, r.count % r.per;
      assert r.count == q * r.per + m;
      assert r.per * q == q * r.per && r.per * (q + 1) == r.per * q + r.per;
      if q > 0 { assert r.per * (q - 1) == r.per * q - r.per; }
    } else {
      NegativeDiv(r.count, r.per);
    }
  }

  lemma NegativeDiv(x: int, y: nat)
    requires x < 0 < y
    ensures TruncDiv(x, y) <= 0
  {
  }

  /** Past the last window everything has been seen. */
  lemma WindowsEnd(r: Range)
    requires r.per > 0
    ensures forall idx: nat :: idx >= CacheNum(r) ==> Seen(r, idx) == Count(r)
  {
    CacheNumBounds(r);
    forall idx: nat | idx >= CacheNum(r) ensures Seen(r, idx) == Count(r) {
      if r.count > 0 { Product(r.per, CacheNum(r), idx); }
    }
  }

  /** A window goes on where the one before it ended. */
  lemma WindowLens(r: Range, idx: nat)
    requires r.per > 0 && idx < CacheNum(r)
    ensures WindowLen(r, idx) <= r.per
    ensures WindowLen(r, idx) > 0 ==> Seen(r, idx) == r.per * idx
    ensures Seen(r, idx + 1) == Seen(r, idx) + if WindowLen(r, idx) > 0 then WindowLen(r, idx) else 0
  {
    CacheNumBounds(r);
    Product(r.per, idx, CacheNum(r) - 1);
    Product(r.per, idx + 1, CacheNum(r) - 1);
    Product(r.per, CacheNum(r) - 1, 0);
  }

  /** The next instance of a window is the next of the range. */
  lemma InWindow(r: Range, idx: nat, k: nat)
    requires r.per > 0 && idx < CacheNum(r) && k < WindowLen(r, idx)
    ensures var n := Seen(r, idx) + k;
      Addrs(r, n + 1) == Addrs(r, n) + [r.base + idx * r.unit + k * r.insLen]
  {
    WindowLens(r, idx);
    DivModOf(idx, r.per, k);
    assert r.per * idx == idx * r.per;
  }

  /** The windows give the instances of the range, in order and each once, exactly if the
      instance length divides the window's, or one window holds them all. */
  lemma WindowsExact(r: Range)
    requires 0 < r.insLen <= r.unit && r.per == r.unit / r.insLen && r.per > 0
    ensures Addrs(r, Count(r)) == Instances(r, Count(r)) <==> r.unit % r.insLen == 0 || Count(r) <= r.per
  {
    var n := Count(r);
    assert r.unit == r.per * r.insLen + r.unit % r.insLen;
    if r.unit % r.insLen == 0 || n <= r.per {
      forall i | 0 <= i < n ensures WindowAddr(r, i) == r.base + i * r.insLen { SameAddr(r, i); }
    } else {
      assert Addrs(r, n)[r.per] == WindowAddr(r, r.per);
      DivModOf(1, r.per, 0);
      assert Instances(r, n)[r.per] == r.base + r.per * r.insLen;
    }
  }

  lemma SameAddr(r: Range, i: nat)
    requires 0 < r.insLen && r.per > 0 && (r.unit == r.per * r.insLen || i < r.per)
    ensures WindowAddr(r, i) == r.base + i * r.insLen
  {
    var q, m := i / r.per, i % r.per;
    if i < r.per {
      assert q == 0 && m == i;
    } else {
      assert i == q * r.per + m;
      assert q * (r.per * r.insLen) + m * r.insLen == (q * r.per + m) * r.insLen;
    }
  }

  /** The default unit of 40 MiB and instances of 3000 bytes: as soon as there is a second
      window, its first address is 40 bytes past that of the instance due. */
  lemma WindowExample(base: int, count: nat)
    requires count > 13981
    ensures var r := Range(base, count, 40 * 1024 * 1024 / 3000, 40 * 1024 * 1024, 3000);
      && r.per == 13981 && Addrs(r, count) != Instances(r, count)
      && Addrs(r, count)[13981] == Instances(r, count)[13981] + 40
  {
  }

  // ---------------------------------------------------------------- the range and the data set

  /** The range walked is that of the settings: it starts at the instance asked for, or the
      first, and holds as many as asked for, or all there are from there on; a window holds
      as many instances as fit. */
  lemma RangeAsAsked(s: Settings)
    requires s.Valid()
    ensures var r, first := s.TheRange(), if s.mapReadStart == -1 then 0 else s.mapReadStart;
      && r.base == s.mapAddress + first * s.instanceLen && s.First() == first
      && (s.mapReadLen == -1 ==> first + r.count == s.instanceNum)
      && (s.mapReadLen != -1 ==> r.count == s.mapReadLen)
      && r.insLen == s.instanceLen && r.unit == s.cacheUnitLen
      && r.per * s.instanceLen <= s.cacheUnitLen < r.per * s.instanceLen + s.instanceLen
  {
    var r := s.TheRange();
    assert s.cacheUnitLen == r.per * s.instanceLen + s.cacheUnitLen % s.instanceLen;
  }

  /** How far the address of instance `i` is from where the instance is. */
  lemma Drift(r: Range, i: nat)
    requires 0 < r.insLen <= r.unit && r.per == r.unit / r.insLen && r.per > 0
    ensures WindowAddr(r, i) == r.base + i * r.insLen + i / r.per * (r.unit % r.insLen)
  {
    var q, m, e := i / r.per, i % r.per, r.unit % r.insLen;
    assert i == q * r.per + m && r.unit == r.per * r.insLen + e;
    assert q * (r.per * r.insLen + e) == q * (r.per * r.insLen) + q * e;
    assert (q * r.per + m) * r.insLen == q * (r.per * r.insLen) + m * r.insLen;
  }

  /** It never gets smaller along the range. */
  lemma DriftGrows(r: Range, i: nat, j: nat)
    requires r.per > 0 && r.insLen > 0 && i <= j
    ensures i / r.per * (r.unit % r.insLen) <= j / r.per * (r.unit % r.insLen)
  {
    var a, b, e := i / r.per, j / r.per, r.unit % r.insLen;
    assert i == a * r.per + i % r.per && j == b * r.per + j % r.per;
    if b < a { Product(r.per, b + 1, a); }
    Product(e, a, b);
    assert a * e == e * a && b * e == e * b;
  }

  /** Every instance the walk yields lies within the range exactly if the windows are
      exact; every address it yields does exactly if the drift at the last instance is
      less than an instance. */
  lemma WithinRange(r: Range)
    requires 0 < r.insLen <= r.unit && r.per == r.unit / r.insLen && r.per > 0 && r.count > 0
    ensures (forall i :: 0 <= i < r.count ==> Addrs(r, r.count)[i] + r.insLen <= r.base + r.count * r.insLen) <==>
              r.unit % r.insLen == 0 || r.count <= r.per
    ensures (forall i :: 0 <= i < r.count ==> Addrs(r, r.count)[i] < r.base + r.count * r.insLen) <==>
              (r.count - 1) / r.per * (r.unit % r.insLen) < r.insLen
  {
    var last := r.count - 1;
    var drift := last / r.per * (r.unit % r.insLen);
    assert r.count * r.insLen == last * r.insLen + r.insLen;
    forall i | 0 <= i < r.count ensures Addrs(r, r.count)[i] <= r.base + last * r.insLen + drift {
      Drift(r, i);
      DriftGrows(r, i, last);
      Product(r.insLen, i, last);
      assert i * r.insLen == r.insLen * i && last * r.insLen == r.insLen * last;
    }
    Drift(r, last);
    assert Addrs(r, r.count)[last] == r.base + last * r.insLen + drift;
    NoDrift(r, last);
  }

  lemma NoDrift(r: Range, i: nat)
    requires r.per > 0 && r.insLen > 0
    ensures i / r.per * (r.unit % r.insLen) >= 0
    ensures i / r.per * (r.unit % r.insLen) == 0 <==> r.unit % r.insLen == 0 || i < r.per
  {
    NoProduct(i / r.per, r.unit % r.insLen);
    NoQuotient(i, r.per);
  }

  lemma NoProduct(x: nat, y: nat)
    ensures x * y >= 0 && (x * y == 0 <==> x == 0 || y == 0)
  {
    if x > 0 && y > 0 { Product(x, 1, y); }
  }

  lemma NoQuotient(x: nat, y: nat)
    requires y > 0
    ensures x / y >= 0 && (x / y == 0 <==> x < y)
  {
    assert x == x / y * y + x % y;
  }

  /** With no length given, the walk stays within the data set, whole instances or starts,
      exactly under these conditions; the settings say it all. */
  lemma WalkWithinData(s: Settings)
    requires s.Valid() && s.mapReadLen == -1 && s.First() < s.instanceNum
    ensures var r := s.TheRange(); var n := s.instanceNum - s.First(); var per := s.cacheUnitLen / s.instanceLen;
      var end := s.mapAddress + s.instanceNum * s.instanceLen;
      && Count(r) == n && |Addrs(r, Count(r))| == n
      && ((forall i :: 0 <= i < n ==> Addrs(r, n)[i] + s.instanceLen <= end) <==>
            s.cacheUnitLen % s.instanceLen == 0 || n <= per)
      && ((forall i :: 0 <= i < n ==> Addrs(r, n)[i] < end) <==>
            (n - 1) / per * (s.cacheUnitLen % s.instanceLen) < s.instanceLen)
  {
    var r, first := s.TheRange(), s.First();
    WithinRange(r);
    assert (first + r.count) * r.insLen == first * r.insLen + r.count * r.insLen;
  }

  /** With instances of 3000 bytes in the default unit the first address of the 76th window
      is the end of the data set when that window holds one instance. */
  lemma PastTheEnd(base: int)
    ensures var count := 13981 * 75 + 1; var r := Range(base, count, 13981, 40 * 1024 * 1024, 3000);
      Addrs(r, count)[count - 1] == base + count * 3000
  {
  }
}
