/**
 * The chunk arithmetic of ScsiDump::DumpRestore: how many bytes are moved,
 * and the READ(10)/WRITE(10) sector ranges used to move them, in
 * buffer-sized pieces.
 */
module DumpPlan {

  /** One pass of the transfer loop: the first sector, the sector count, and the bytes it moves to or from the file. */
  datatype Chunk = Chunk(sector: nat, sectors: nat, bytes: nat)

  function Min(a: nat, b: nat): (r: nat)
  {
    if a <= b then a else b
  }

  /** The bytes to move: the disk size for a dump, the smaller of file and disk for a restore. */
  function EffectiveSize(restore: bool, fileSize: nat, diskSize: nat): (n: nat)
    ensures n <= diskSize
    ensures restore ==> n <= fileSize && (n == fileSize || n == diskSize)
    ensures !restore ==> n == diskSize
  {
    if restore then Min(fileSize, diskSize) else diskSize
  }

  /**
   * Products and quotients of two counts are written as recursive
   * functions, each proved equal to Dafny's `*`, `/` and `%` (which agree
   * with C++ on non-negative operands); a proof about the transfer loop then
   * meets only their one-step unfoldings, which are linear.
   */
  function Mul(a: nat, b: nat): (r: nat)
    decreases a
  {
    if a == 0 then 0 else Mul(a - 1, b) + b
  }

  lemma {:induction false} MulIsProduct(a: nat, b: nat)
    ensures Mul(a, b) == a * b
    decreases a
  {
    if a != 0 {
      MulIsProduct(a - 1, b);
    }
  }

  /** A product is at least its second factor unless the first is zero, and zero when the second is. */
  lemma {:induction false} MulBounds(a: nat, b: nat)
    ensures a != 0 ==> Mul(a, b) >= b
    ensures b == 0 ==> Mul(a, b) == 0
    decreases a
  {
    if a != 0 {
      MulBounds(a - 1, b);
    }
  }

  function Quot(n: nat, d: nat): (r: nat)
    requires 0 < d
    decreases n
  {
    if n < d then 0 else Quot(n - d, d) + 1
  }

  function Rem(n: nat, d: nat): (r: nat)
    requires 0 < d
    decreases n
  {
    if n < d then n else Rem(n - d, d)
  }

  /** Quot and Rem are the quotient and remainder of division. */
  lemma {:induction false} QuotRem(n: nat, d: nat)
    requires 0 < d
    ensures Quot(n, d) == n / d && Rem(n, d) == n % d
    ensures n == Quot(n, d) * d + Rem(n, d) && Rem(n, d) < d
    decreases n
  {
    if n >= d {
      QuotRem(n - d, d);
      DivUnique(n, d, Quot(n - d, d) + 1, Rem(n - d, d));
    } else {
      DivUnique(n, d, 0, n);
    }
  }

  lemma DivUnique(n: nat, d: nat, q: nat, r: nat)
    requires 0 < d && n == q * d + r && r < d
    ensures q == n / d && r == n % d
  {
    MulGap(q, n / d, d);
    MulGap(n / d, q, d);
  }

  lemma MulGap(a: nat, b: nat, d: nat)
    ensures a > b ==> a * d >= b * d + d
  {
    MulIsProduct(a, d);
    MulIsProduct(b, d);
    MulStep(a, b, d);
  }

  lemma {:induction false} MulStep(a: nat, b: nat, d: nat)
    ensures a > b ==> Mul(a, d) >= Mul(b, d) + d
    decreases a
  {
    if a > b + 1 {
      MulStep(a - 1, b, d);
    }
  }

  /** `byte_count / sector_size`, plus one when there is a remainder: the sectors that hold `bytes` bytes. */
  function SectorsFor(bytes: nat, sectorSize: nat): (r: nat)
    requires 0 < sectorSize
  {
    Quot(bytes, sectorSize) + if Rem(bytes, sectorSize) != 0 then 1 else 0
  }

  /** SectorsFor is the source's integer division and remainder. */
  lemma SectorsForIsDivision(bytes: nat, sectorSize: nat)
    requires 0 < sectorSize
    ensures SectorsFor(bytes, sectorSize) == bytes / sectorSize + if bytes % sectorSize != 0 then 1 else 0
  {
    QuotRem(bytes, sectorSize);
  }

  /** The sector count is the ceiling: enough sectors for the bytes, and one fewer would not be. */
  lemma SectorsForCeiling(bytes: nat, sectorSize: nat)
    requires 0 < sectorSize
    ensures bytes <= SectorsFor(bytes, sectorSize) * sectorSize
    ensures SectorsFor(bytes, sectorSize) * sectorSize < bytes + sectorSize
  {
    QuotRem(bytes, sectorSize);
    var q, r := bytes / sectorSize, bytes % sectorSize;
    assert bytes == q * sectorSize + r;
    if r != 0 {
      assert SectorsFor(bytes, sectorSize) * sectorSize == q * sectorSize + sectorSize;
    }
  }

  /** Bytes that fit in k whole sectors need at most k sectors. */
  lemma SectorsForAtMost(bytes: nat, sectorSize: nat, k: nat)
    requires 0 < sectorSize && bytes <= k * sectorSize
    ensures SectorsFor(bytes, sectorSize) <= k
  {
    QuotRem(bytes, sectorSize);
    var q, r := bytes / sectorSize, bytes % sectorSize;
    assert bytes == q * sectorSize + r;
    if q == k {
      assert r == bytes - k * sectorSize;
    }
  }

  /** The sectors of at most k whole sectors' worth of bytes span at most those k sectors. */
  lemma SectorsForFits(bytes: nat, sectorSize: nat, k: nat)
    requires 0 < sectorSize && bytes <= k * sectorSize
    ensures SectorsFor(bytes, sectorSize) * sectorSize <= k * sectorSize
  {
    var s := SectorsFor(bytes, sectorSize);
    SectorsForAtMost(bytes, sectorSize, k);
    assert k * sectorSize == s * sectorSize + (k - s) * sectorSize;
  }

  /**
   * The passes that move `remaining` bytes, starting at `sector`, at most
   * `step` bytes per pass: each pass moves min(remaining, step) bytes in
   * the sectors that hold them, and the next starts after those sectors.
   */
  function Plan(remaining: nat, step: nat, sectorSize: nat, sector: nat): (r: seq<Chunk>)
    requires 0 < step && 0 < sectorSize
    decreases remaining
  {
    if remaining == 0 then []
    else
      var bytes := Min(remaining, step);
      var sectors := SectorsFor(bytes, sectorSize);
      [Chunk(sector, sectors, bytes)] + Plan(remaining - bytes, step, sectorSize, sector + sectors)
  }

  function TotalBytes(chunks: seq<Chunk>): (r: nat)
  {
    if chunks == [] then 0 else chunks[0].bytes + TotalBytes(chunks[1..])
  }

  /** The byte counts of the passes add up to the size. */
  lemma {:induction false} PlanTotal(remaining: nat, step: nat, sectorSize: nat, sector: nat)
    requires 0 < step && 0 < sectorSize
    ensures TotalBytes(Plan(remaining, step, sectorSize, sector)) == remaining
    decreases remaining
  {
    if remaining != 0 {
      var bytes := Min(remaining, step);
      var sectors := SectorsFor(bytes, sectorSize);
      PlanTotal(remaining - bytes, step, sectorSize, sector + sectors);
      var p := Plan(remaining, step, sectorSize, sector);
      assert p[1..] == Plan(remaining - bytes, step, sectorSize, sector + sectors);
    }
  }

  /** One pass of the plan moves between 1 and `step` bytes in the sectors that hold them, and a full `step` unless it is the last. */
  lemma {:induction false} PlanAt(remaining: nat, step: nat, sectorSize: nat, sector: nat, i: nat)
    requires 0 < step && 0 < sectorSize
    requires i < |Plan(remaining, step, sectorSize, sector)|
    ensures 0 < Plan(remaining, step, sectorSize, sector)[i].bytes <= step
    ensures Plan(remaining, step, sectorSize, sector)[i].sectors == SectorsFor(Plan(remaining, step, sectorSize, sector)[i].bytes, sectorSize)
    ensures i + 1 < |Plan(remaining, step, sectorSize, sector)| ==> Plan(remaining, step, sectorSize, sector)[i].bytes == step
    decreases remaining
  {
    var bytes := Min(remaining, step);
    var sectors := SectorsFor(bytes, sectorSize);
    var rest := Plan(remaining - bytes, step, sectorSize, sector + sectors);
    assert Plan(remaining, step, sectorSize, sector) == [Chunk(sector, sectors, bytes)] + rest;
    if i > 0 {
      PlanAt(remaining - bytes, step, sectorSize, sector + sectors, i - 1);
    } else if 1 < |Plan(remaining, step, sectorSize, sector)| {
      assert rest != [];
    }
  }

  /** Each pass moves between 1 and `step` bytes in the sectors that hold them, and all but the last a full `step`. */
  lemma PlanChunks(remaining: nat, step: nat, sectorSize: nat, sector: nat)
    requires 0 < step && 0 < sectorSize
    ensures var p := Plan(remaining, step, sectorSize, sector);
      && (forall i :: 0 <= i < |p| ==> 0 < p[i].bytes <= step && p[i].sectors == SectorsFor(p[i].bytes, sectorSize))
      && (forall i :: 0 <= i < |p| - 1 ==> p[i].bytes == step)
  {
    var p := Plan(remaining, step, sectorSize, sector);
    forall i | 0 <= i < |p|
      ensures 0 < p[i].bytes <= step && p[i].sectors == SectorsFor(p[i].bytes, sectorSize)
      ensures i < |p| - 1 ==> p[i].bytes == step
    {
      PlanAt(remaining, step, sectorSize, sector, i);
    }
  }

  /** The sector ranges of the passes follow each other from the first sector on. */
  lemma {:induction false} PlanContiguous(remaining: nat, step: nat, sectorSize: nat, sector: nat)
    requires 0 < step && 0 < sectorSize
    ensures var p := Plan(remaining, step, sectorSize, sector);
      && (p != [] ==> p[0].sector == sector)
      && (forall i :: 0 <= i < |p| - 1 ==> p[i + 1].sector == p[i].sector + p[i].sectors)
    decreases remaining
  {
    if remaining != 0 {
      var bytes := Min(remaining, step);
      var sectors := SectorsFor(bytes, sectorSize);
      var rest := Plan(remaining - bytes, step, sectorSize, sector + sectors);
      PlanContiguous(remaining - bytes, step, sectorSize, sector + sectors);
      var p := Plan(remaining, step, sectorSize, sector);
      assert p == [Chunk(sector, sectors, bytes)] + rest;
      forall i | 1 <= i < |p|
        ensures p[i] == rest[i - 1]
      {
      }
    }
  }

  /**
   * The passes move every byte exactly once: their byte counts add up to
   * the size, each is between 1 and `step`, every pass but the last is a
   * full `step`, the sector ranges follow each other from the first sector
   * on, and each range holds its bytes.
   */
  lemma PlanCovers(remaining: nat, step: nat, sectorSize: nat, sector: nat)
    requires 0 < step && 0 < sectorSize
    ensures var p := Plan(remaining, step, sectorSize, sector);
      && TotalBytes(p) == remaining
      && (p != [] ==> p[0].sector == sector)
      && (forall i :: 0 <= i < |p| ==> 0 < p[i].bytes <= step)
      && (forall i :: 0 <= i < |p| ==> p[i].sectors == SectorsFor(p[i].bytes, sectorSize))
      && (forall i :: 0 <= i < |p| - 1 ==> p[i].bytes == step)
      && (forall i :: 0 <= i < |p| - 1 ==> p[i + 1].sector == p[i].sector + p[i].sectors)
  {
    PlanTotal(remaining, step, sectorSize, sector);
    PlanChunks(remaining, step, sectorSize, sector);
    PlanContiguous(remaining, step, sectorSize, sector);
  }

  /** DumpRestore as written steps by the whole buffer. */
  function AsWrittenPlan(effective: nat, bufferSize: nat, sectorSize: nat): (r: seq<Chunk>)
    requires 0 < bufferSize && 0 < sectorSize
  {
    Plan(effective, bufferSize, sectorSize, 0)
  }

  /**
   * With a buffer that is not a whole number of sectors, the first READ(10)
   * of a dump asks for more bytes than the buffer holds: a 100000-byte
   * buffer (above the 64 KiB minimum) and 512-byte sectors give 196
   * sectors, 100352 bytes, for the data phase into that buffer.
   */
  lemma AsWrittenPlanOverrunsBuffer(effective: nat, bufferSize: nat, sectorSize: nat)
    requires effective == 1000000 && bufferSize == 100000 && sectorSize == 512
    ensures var p := AsWrittenPlan(effective, bufferSize, sectorSize);
      && p[0] == Chunk(0, 196, 100000)
      && p[0].sectors * sectorSize == 100352 > bufferSize
  {
    SectorsForIsDivision(bufferSize, sectorSize);
  }

  /**
   * The same for every size: whenever the buffer is not a whole number of
   * sectors and the image is at least one buffer long, the first pass moves
   * a whole buffer in the sectors that hold it, and those sectors span more
   * bytes than the buffer has.
   */
  lemma AsWrittenPlanOverruns(effective: nat, bufferSize: nat, sectorSize: nat)
    requires 0 < sectorSize && 0 < bufferSize <= effective && bufferSize % sectorSize != 0
    ensures var p := AsWrittenPlan(effective, bufferSize, sectorSize);
      && p != []
      && p[0] == Chunk(0, SectorsFor(bufferSize, sectorSize), bufferSize)
      && Mul(p[0].sectors, sectorSize) == p[0].sectors * sectorSize > bufferSize
  {
    var s := SectorsFor(bufferSize, sectorSize);
    SectorsForIsDivision(bufferSize, sectorSize);
    QuotRem(bufferSize, sectorSize);
    MulIsProduct(s, sectorSize);
    var q := bufferSize / sectorSize;
    assert s * sectorSize == q * sectorSize + sectorSize;
    assert AsWrittenPlan(effective, bufferSize, sectorSize)[0] == Chunk(0, s, bufferSize);
  }

  /** The largest number of bytes in whole sectors that fits the buffer. */
  function WholeSectors(bufferSize: nat, sectorSize: nat): (n: nat)
    requires 0 < sectorSize
    ensures n <= bufferSize < n + sectorSize
    ensures bufferSize % sectorSize == 0 ==> n == bufferSize
  {
    QuotRem(bufferSize, sectorSize);
    MulIsProduct(Quot(bufferSize, sectorSize), sectorSize);
    Mul(Quot(bufferSize, sectorSize), sectorSize)
  }

  /** DumpRestore stepping by the whole sectors that fit the buffer (defined when at least one does). */
  function BufferPlan(effective: nat, bufferSize: nat, sectorSize: nat): (r: seq<Chunk>)
    requires 0 < sectorSize <= bufferSize
  {
    Plan(effective, WholeSectors(bufferSize, sectorSize), sectorSize, 0)
  }

  /**
   * Stepping by whole sectors, every pass's data phase fits the buffer, and
   * the plan is the one of the code whenever the buffer is a whole number of
   * sectors.
   */
  lemma BufferPlanFits(effective: nat, bufferSize: nat, sectorSize: nat)
    requires 0 < sectorSize <= bufferSize
    ensures var p := BufferPlan(effective, bufferSize, sectorSize);
      forall i :: 0 <= i < |p| ==> p[i].sectors * sectorSize <= bufferSize
    ensures bufferSize % sectorSize == 0 ==>
      BufferPlan(effective, bufferSize, sectorSize) == AsWrittenPlan(effective, bufferSize, sectorSize)
  {
    var step := WholeSectors(bufferSize, sectorSize);
    var p := BufferPlan(effective, bufferSize, sectorSize);
    var k := bufferSize / sectorSize;
    QuotRem(bufferSize, sectorSize);
    MulIsProduct(k, sectorSize);
    assert step == k * sectorSize;
    forall i | 0 <= i < |p|
      ensures p[i].sectors * sectorSize <= bufferSize
    {
      PlanAt(effective, step, sectorSize, 0, i);
      SectorsForFits(p[i].bytes, sectorSize, k);
    }
  }

  /**
   * One pass of the transfer loop: while bytes remain, the next chunk of the
   * plan is the one the loop computes, its sectors fit the buffer, and the
   * chunks moved so far are a proper prefix of the plan.
   */
  lemma BufferPlanStep(effective: nat, bufferSize: nat, sectorSize: nat, moved: seq<Chunk>, remaining: nat, sector: nat)
    requires 0 < sectorSize <= bufferSize && 0 < remaining
    requires moved + Plan(remaining, WholeSectors(bufferSize, sectorSize), sectorSize, sector) == BufferPlan(effective, bufferSize, sectorSize)
    ensures var step := WholeSectors(bufferSize, sectorSize);
      var bytes := Min(remaining, step);
      var sectors := SectorsFor(bytes, sectorSize);
      && sectors * sectorSize <= bufferSize
      && (moved + [Chunk(sector, sectors, bytes)]) + Plan(remaining - bytes, step, sectorSize, sector + sectors) == BufferPlan(effective, bufferSize, sectorSize)
      && |moved| < |BufferPlan(effective, bufferSize, sectorSize)|
  {
    var step := WholeSectors(bufferSize, sectorSize);
    var bytes := Min(remaining, step);
    var sectors := SectorsFor(bytes, sectorSize);
    var rest := Plan(remaining - bytes, step, sectorSize, sector + sectors);
    var plan := BufferPlan(effective, bufferSize, sectorSize);
    assert Plan(remaining, step, sectorSize, sector) == [Chunk(sector, sectors, bytes)] + rest;
    assert plan[|moved|] == Chunk(sector, sectors, bytes);
    BufferPlanFits(effective, bufferSize, sectorSize);
  }

  /** Stepping by whole sectors still moves every byte. */
  lemma BufferPlanTotal(effective: nat, bufferSize: nat, sectorSize: nat)
    requires 0 < sectorSize <= bufferSize
    ensures TotalBytes(BufferPlan(effective, bufferSize, sectorSize)) == effective
  {
    PlanTotal(effective, WholeSectors(bufferSize, sectorSize), sectorSize, 0);
  }
}
