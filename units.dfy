/**
 * Unit arithmetic of the sample: the capacity of a new disk in sectors, the
 * Win32 `gettimeofday` replacement built on a millisecond tick count, and the
 * statistics line of the read/write benchmark. Every C conversion to a fixed
 * width is written out.
 */
module Units {
  import opened CTypes
  import opened Wrappers

  /** VIXDISKLIB_SECTOR_SIZE. */
  const SectorSize: nat := 512
  /** Sectors per MiB (2048 * 512 = 1024 * 1024). */
  const SectorsPerMB: nat := 2048
  /** Benchmark statistics are printed about every BUFS_PER_STAT sectors (64 MiB). */
  const BufsPerStat: nat := 128 * 1024
  /** The benchmark's buffer size, in sectors, when none is given. */
  const DefaultBufSize: nat := 128

  /**
   * `createParams.capacity = appGlobals.mbSize * 2048`: the product of an
   * `unsigned` and an `int` is formed in 32 bits before it is stored in the
   * 64-bit capacity, so sizes of 2^21 MiB (2 TiB) and more wrap.
   */
  function CreateCapacity(mbSize: u32): (capacity: u64)
    ensures capacity == (mbSize % 0x20_0000) * SectorsPerMB
    ensures mbSize < 0x20_0000 ==> capacity * SectorSize == mbSize * 1024 * 1024
  {
    var c := (mbSize * 2048) % U32;
    assert c == (mbSize % 0x20_0000) * 2048 by {
      var q := mbSize / 0x20_0000;
      var m := mbSize % 0x20_0000;
      assert mbSize * 2048 == q * U32 + m * 2048;
      assert 0 <= m * 2048 < U32;
    }
    c
  }

  /** A 2 TiB request yields an empty disk. */
  lemma CreateCapacityWraps()
    ensures CreateCapacity(0x20_0000) == 0
    ensures CreateCapacity(0x20_0001) == SectorsPerMB
  {
  }

  /** `struct timeval`: seconds and microseconds (both `long`). */
  datatype Timeval = Timeval(sec: int, usec: int)

  /**
   * The Win32 `gettimeofday`: the tick count of `GetTickCount` (milliseconds,
   * a 32-bit DWORD) split into seconds and microseconds.
   */
  function TicksToTimeval(ticks: u32): (tv: Timeval)
    ensures 0 <= tv.usec < 1000000 && tv.usec % 1000 == 0
    ensures 0 <= tv.sec && tv.sec * 1000000 + tv.usec == ticks * 1000
  {
    Timeval(ticks / 1000, 1000 * (ticks % 1000))
  }

  /** `(uint64)tv.tv_sec * 1000000 + tv.tv_usec`. */
  function Micros(tv: Timeval): (m: u64)
    ensures 0 <= tv.sec < U64 && 0 <= tv.usec && tv.sec * 1000000 + tv.usec < U64 ==> m == tv.sec * 1000000 + tv.usec
  {
    ToU64(ToU64(tv.sec) * 1000000 + ToU64(tv.usec))
  }

  /** Micros is the exact microsecond count, reduced modulo 2^64. */
  lemma MicrosExact(tv: Timeval)
    ensures (Micros(tv) - (tv.sec * 1000000 + tv.usec)) % U64 == 0
  {
    var a: int := ToU64(tv.sec);
    var b: int := ToU64(tv.usec);
    assert a == tv.sec - (tv.sec / U64) * U64;
    assert b == tv.usec - (tv.usec / U64) * U64;
    var total: int := a * 1000000 + b;
    assert ToU64(total) == total - (total / U64) * U64;
    var ka, kb, kt := tv.sec / U64, tv.usec / U64, total / U64;
    var k := -kt - ka * 1000000 - kb;
    assert Micros(tv) == total - kt * U64;
    assert Micros(tv) - (tv.sec * 1000000 + tv.usec) == k * U64;
    MultipleOfU64(k);
  }

  lemma MultipleOfU64(k: int)
    ensures (k * U64) % U64 == 0
  {
  }

  /**
   * PrintStat's elapsed time in milliseconds: the 64-bit unsigned difference of
   * the two timestamps in microseconds, divided by 1000, raised to 1 if zero.
   */
  function ElapsedMs(start: Timeval, end: Timeval): (ms: u64)
    ensures ms >= 1
  {
    var e := ToU64(Micros(end) - Micros(start)) / 1000;
    if e == 0 then 1 else e
  }

  /** The microseconds a timeval stands for, without any wrap. */
  function TotalMicros(tv: Timeval): int
  {
    tv.sec * 1000000 + tv.usec
  }

  /**
   * For ordinary timestamps whose microsecond counts fit 64 bits and run
   * forward, the elapsed time is the true difference in whole milliseconds,
   * raised to 1 when it is below a millisecond.
   */
  lemma ElapsedOfTimevals(start: Timeval, end: Timeval)
    requires 0 <= TotalMicros(start) <= TotalMicros(end) < U64
    ensures var d := (TotalMicros(end) - TotalMicros(start)) / 1000;
      ElapsedMs(start, end) == if d == 0 then 1 else d
  {
    MicrosFits(start);
    MicrosFits(end);
    assert ToU64(Micros(end) - Micros(start)) == TotalMicros(end) - TotalMicros(start);
  }

  /** A timestamp whose microsecond count fits 64 bits converts without loss. */
  lemma MicrosFits(tv: Timeval)
    requires 0 <= TotalMicros(tv) < U64
    ensures Micros(tv) == TotalMicros(tv)
  {
    MicrosExact(tv);
    var k := (Micros(tv) - TotalMicros(tv)) / U64;
    assert Micros(tv) - TotalMicros(tv) == k * U64;
  }

  /**
   * Between two timestamps of the tick-count clock the elapsed time is the
   * tick difference (at least 1); when the 32-bit tick count wrapped in
   * between, the unsigned subtraction yields close to 2^64 / 1000 ms instead.
   */
  lemma MicrosOfTicks(t: u32)
    ensures Micros(TicksToTimeval(t)) == t * 1000
  {
    var tv := TicksToTimeval(t);
    assert ToU64(tv.sec) == tv.sec && ToU64(tv.usec) == tv.usec;
  }

  lemma ElapsedOfTicks(a: u32, b: u32)
    ensures a <= b ==> ElapsedMs(TicksToTimeval(a), TicksToTimeval(b)) == (if b == a then 1 else b - a)
    ensures b < a ==> ElapsedMs(TicksToTimeval(a), TicksToTimeval(b)) == (U64 - 1000 * (a - b)) / 1000
  {
    MicrosOfTicks(a);
    MicrosOfTicks(b);
    if a <= b {
      ElapsedForward(a, b);
    } else {
      ElapsedWrapped(a, b);
    }
  }

  lemma ElapsedForward(a: u32, b: u32)
    requires a <= b
    ensures ElapsedMs(TicksToTimeval(a), TicksToTimeval(b)) == (if b == a then 1 else b - a)
  {
    MicrosOfTicks(a);
    MicrosOfTicks(b);
    var n: nat := b - a;
    assert Micros(TicksToTimeval(b)) - Micros(TicksToTimeval(a)) == n * 1000;
    ThousandsDiv(n);
  }

  lemma ElapsedWrapped(a: u32, b: u32)
    requires b < a
    ensures ElapsedMs(TicksToTimeval(a), TicksToTimeval(b)) == (U64 - 1000 * (a - b)) / 1000
  {
    MicrosOfTicks(a);
    MicrosOfTicks(b);
    var d := Micros(TicksToTimeval(b)) - Micros(TicksToTimeval(a));
    assert d == -1000 * (a - b);
    WrapNegative(d);
    DivLower(U64 - 1000 * (a - b), 1000, 1);
  }

  /** Scaling by 1000 and dividing by 1000 gives back the count. */
  lemma ThousandsDiv(n: nat)
    ensures (n * 1000) / 1000 == n
  {
  }

  /** A negative value above -2^64 converts to `uint64` by adding 2^64. */
  lemma WrapNegative(x: int)
    requires -U64 <= x < 0
    ensures ToU64(x) == x + U64
  {
    ToU64Periodic(x, 1);
  }

  /**
   * The benchmark statistics line: direction, MiB moved, elapsed time as
   * printed (truncated to 32 bits), and throughput in MiB/s. `speed` is None
   * when the 64-bit divisor `1024 * 1024 * elapsed` wraps to zero, a division
   * by zero in C.
   */
  datatype Stat = Stat(read: bool, megabytes: u32, elapsedMs: u64, shownMs: u32, speed: Option<u32>)

  /** The throughput PrintStat means: MiB per second, rounded down. */
  function Throughput(numSectors: nat, elapsedMs: nat): int
    requires elapsedMs >= 1
  {
    (512000 * numSectors) / (1048576 * elapsedMs)
  }

  /** PrintStat: the statistics for `numSectors` sectors moved between two timestamps. */
  function PrintStat(read: bool, start: Timeval, end: Timeval, numSectors: u32): (s: Stat)
    ensures s.read == read
    ensures s.elapsedMs >= 1
    ensures s.megabytes * SectorsPerMB <= numSectors < (s.megabytes + 1) * SectorsPerMB
  {
    StatFor(read, ElapsedMs(start, end), numSectors)
  }

  /** The arithmetic of PrintStat once the elapsed time is known. */
  function StatFor(read: bool, elapsed: u64, numSectors: u32): (s: Stat)
    requires elapsed >= 1
    ensures s.read == read && s.elapsedMs == elapsed
    ensures s.megabytes * SectorsPerMB <= numSectors < (s.megabytes + 1) * SectorsPerMB
  {
    var divisor := ToU64(1048576 * elapsed);
    var speed := if divisor == 0 then None else Some(ToU32((512000 * numSectors) / divisor));
    Stat(read, numSectors / 2048, elapsed, ToU32(elapsed), speed)
  }

  lemma DivBound(a: nat, d: nat, m: nat)
    requires 1 <= m <= d
    ensures a / d <= a / m
  {
    var q := a / d;
    MulMono(m, d, q);
    DivLower(a, m, q);
  }

  /** Multiplying by the same factor keeps the order: `a <= b` gives `a * c <= b * c`. */
  lemma MulMono(a: nat, b: nat, c: nat)
    requires a <= b
    ensures a * c <= b * c
  {
  }

  lemma DivLower(a: nat, m: nat, q: nat)
    requires m >= 1 && q * m <= a
    ensures q <= a / m
  {
    var r := a / m;
    if q > r {
      MulMono(r + 1, q, m);
    }
  }

  /**
   * For any elapsed time below 2^44 ms (about 557 years) no arithmetic in
   * PrintStat wraps: the speed is the exact throughput, the megabytes are the
   * sector count times 512 bytes in MiB, and the printed speed fits 32 bits.
   */
  lemma {:induction false} PrintStatExact(read: bool, elapsed: u64, numSectors: u32)
    requires 1 <= elapsed < 0x1000_0000_0000
    ensures StatFor(read, elapsed, numSectors).speed == Some(Throughput(numSectors, elapsed))
  {
    SpeedExact(numSectors, elapsed);
    var d := 1048576 * elapsed;
    assert ToU64(d) == d;
    var q := (512000 * numSectors) / d;
    assert ToU32(q) == q;
  }

  /** The megabytes printed are the bytes moved (512 per sector) in whole MiB. */
  lemma StatMegabytes(read: bool, elapsed: u64, numSectors: u32)
    requires elapsed >= 1
    ensures StatFor(read, elapsed, numSectors).megabytes == numSectors * 512 / 1048576
  {
    MegabytesExact(numSectors);
  }

  lemma SpeedExact(n: u32, e: nat)
    requires 1 <= e < 0x1000_0000_0000
    ensures 1048576 * e < U64
    ensures 0 <= (512000 * n) / (1048576 * e) < U32
  {
    var a: nat := 512000 * n;
    var d: nat := 1048576 * e;
    DivBound(a, d, 1048576);
    DivUpper(a, 1048576, U32);
    DivLower(a, d, 0);
  }

  lemma DivUpper(a: nat, m: nat, k: nat)
    requires m >= 1 && a < k * m
    ensures a / m < k
  {
    var q := a / m;
    if q >= k {
      MulMono(k, q, m);
    }
  }

  lemma MegabytesExact(n: nat)
    ensures n * 512 / 1048576 == n / 2048
  {
    var q := n / 2048;
    assert n * 512 == q * 1048576 + (n % 2048) * 512;
  }

  /** The elapsed time at which the divisor first wraps to zero. */
  lemma SpeedUndefined()
    ensures ToU64(1024 * 1024 * 0x1000_0000_0000) == 0
  {
  }
}
