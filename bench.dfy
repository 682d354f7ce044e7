/**
 * The read and write benchmarks (DoRWBench): the disk is walked from sector 0
 * in buffers of `bufSize` sectors, `capacity / bufSize` of them, and a
 * statistics line is taken every time at least BUFS_PER_STAT sectors have
 * been moved since the last one, then a final line for the whole run.
 * The clock is an input: `clock(k)` is what the k-th `gettimeofday` returns.
 */
module Bench {
  import opened CTypes
  import opened Wrappers
  import opened VixErrors
  import opened DiskLib
  import opened Units
  import opened Sectors
  import opened Args

  /** The buffer size in sectors: the `-bufsize` option, or DEFAULT_BUFSIZE when it is 0. */
  function BufSectors(bufSize: u64): (bs: u64)
    ensures bs > 0
    ensures bufSize != 0 ==> bs == bufSize
    ensures bufSize == 0 ==> bs == DefaultBufSize
  {
    if bufSize == 0 then DefaultBufSize else bufSize
  }

  /** `maxOps = info->capacity / bufSize`, stored in a `uint32`. */
  function MaxOps(capacity: u64, bs: u64): (n: u32)
    requires bs > 0
    ensures n <= capacity / bs
    ensures capacity / bs < U32 ==> n == capacity / bs
  {
    ModAtMost(capacity / bs, U32);
    ToU32(capacity / bs)
  }

  /**
   * Every buffer of the run lies on the disk, and unless the buffer count was
   * truncated to 32 bits, fewer than `bs` sectors at the end are left out.
   */
  lemma {:induction false} MaxOpsCover(capacity: u64, bs: u64)
    requires bs > 0
    ensures MaxOps(capacity, bs) * bs <= capacity
    ensures capacity / bs < U32 ==> capacity - bs < MaxOps(capacity, bs) * bs
  {
    var q := capacity / bs;
    DivParts(capacity, bs);
    ModAtMost(q, U32);
    MulMono(MaxOps(capacity, bs), q, bs);
  }

  /** `a` is `a / b` whole multiples of `b` and a remainder below `b`. */
  lemma DivParts(a: nat, b: nat)
    requires b > 0
    ensures (a / b) * b <= a < (a / b) * b + b
  {
    assert a == (a / b) * b + a % b;
  }

  /** Reducing modulo `b` never increases a value, and leaves one below `b` unchanged. */
  lemma ModAtMost(a: nat, b: nat)
    requires b > 0
    ensures a % b <= a
    ensures a < b ==> a % b == a
  {
  }

  /** The first sector of buffer `i`, `i * bs`, as the sum of the buffers before it. */
  function Offset(i: nat, bs: nat): nat
  {
    if i == 0 then 0 else Offset(i - 1, bs) + bs
  }

  lemma {:induction false} OffsetProduct(i: nat, bs: nat)
    ensures Offset(i, bs) == i * bs
  {
    if i > 0 {
      OffsetProduct(i - 1, bs);
      assert (i - 1) * bs + bs == i * bs;
    }
  }

  lemma OffsetMono(i: nat, j: nat, bs: nat)
    requires i <= j
    ensures Offset(i, bs) <= Offset(j, bs)
  {
    OffsetProduct(i, bs);
    OffsetProduct(j, bs);
    MulMono(i, j, bs);
  }

  /** The `maxOps` buffers of a run lie on the disk. */
  lemma RunOnDisk(capacity: u64, bs: u64)
    requires bs > 0
    ensures Offset(MaxOps(capacity, bs), bs) <= capacity
  {
    MaxOpsCover(capacity, bs);
    OffsetProduct(MaxOps(capacity, bs), bs);
  }

  /** The transfers of the first `m` buffers: buffer `j` covers sectors [j * bs, j * bs + bs). */
  function Ops(read: bool, bs: nat, m: nat): (ops: seq<IoRequest>)
    ensures |ops| == m
  {
    seq(m, j requires 0 <= j < m => IoRequest(!read, Offset(j, bs), bs))
  }

  /**
   * The buffers tile the start of the disk: sector `s` below `m * bs` is in
   * buffer `s / bs` and in no other.
   */
  lemma OpsPartition(read: bool, bs: nat, m: nat, s: nat, j: nat)
    requires bs > 0 && s < m * bs && j < m
    ensures s / bs < m
    ensures Ops(read, bs, m)[j].start <= s < Ops(read, bs, m)[j].start + bs <==> j == s / bs
  {
    OffsetProduct(j, bs);
    DivParts(s, bs);
    if s / bs >= m {
      MulMono(m, s / bs, bs);
    }
    if j * bs <= s < j * bs + bs {
      InBuffer(s, j, bs);
    }
  }

  /** Whether buffer `i` is transferred: the whole buffer on the disk, writable for a write, no failing sector. */
  predicate OpOk(acc: Access, bs: nat, i: nat)
  {
    IoStatus(acc.capacity, acc.faults, acc.readOnly, acc.write, Offset(i, bs), bs) == VixOk
  }

  /** `OpOk` for each buffer in turn. */
  function OpPasses(acc: Access, bs: nat): nat -> bool
  {
    (i: nat) => OpOk(acc, bs, i)
  }

  /** The number of buffers moved before the first refused transfer. */
  function Moved(acc: Access, bs: nat, maxOps: nat): (done: nat)
    ensures done <= maxOps
  {
    FirstRefused(OpPasses(acc, bs), 0, maxOps)
  }

  /**
   * A run on a disk of `capacity` sectors moves every buffer when no sector
   * it covers fails and, for a write, the handle is writable.
   */
  lemma MovedAll(acc: Access, bs: u64)
    requires bs > 0 && acc.capacity < U64 && !(acc.write && acc.readOnly)
    requires forall s :: s in acc.faults ==> s >= MaxOps(acc.capacity, bs) * bs
    ensures Moved(acc, bs, MaxOps(acc.capacity, bs)) == MaxOps(acc.capacity, bs)
  {
    var m := MaxOps(acc.capacity, bs);
    RunOnDisk(acc.capacity, bs);
    OffsetProduct(m, bs);
    forall i | 0 <= i < m
      ensures OpOk(acc, bs, i)
    {
      OffsetMono(i + 1, m, bs);
      assert !Hits(acc.faults, Offset(i, bs), bs);
    }
    MovedStops(acc, bs, m, m);
  }

  /** The first `n` buffers were all moved. */
  ghost predicate AllMoved(acc: Access, bs: nat, n: nat)
  {
    forall j :: 0 <= j < n ==> OpOk(acc, bs, j)
  }

  lemma AllMovedNext(acc: Access, bs: nat, n: nat)
    requires AllMoved(acc, bs, n) && OpOk(acc, bs, n)
    ensures AllMoved(acc, bs, n + 1)
  {
  }

  /** A run stops at the first buffer that is refused, or after the last one. */
  lemma MovedStops(acc: Access, bs: nat, maxOps: nat, i: nat)
    requires i <= maxOps && AllMoved(acc, bs, i) && (i == maxOps || !OpOk(acc, bs, i))
    ensures Moved(acc, bs, maxOps) == i
  {
    FirstRefusedLeast(OpPasses(acc, bs), 0, maxOps, i);
  }

  /**
   * A PrintStat call: the interval it reports on and the sectors moved in
   * it. The line printed is `PrintStat(read, start, end, numSectors)`.
   */
  datatype Report = Report(start: Timeval, end: Timeval, numSectors: u32)

  /** The lines printed for `rs`. */
  function Printed(read: bool, rs: seq<Report>): (stats: seq<Stat>)
    ensures |stats| == |rs|
    ensures forall j :: 0 <= j < |rs| ==> stats[j] == PrintStat(read, rs[j].start, rs[j].end, rs[j].numSectors)
  {
    seq(|rs|, j requires 0 <= j < |rs| => PrintStat(read, rs[j].start, rs[j].end, rs[j].numSectors))
  }

  /** `m` copies of the buffer contents `noise`, one after another. */
  function Repeat(noise: seq<Block>, m: nat): (r: seq<Block>)
    ensures |r| == Offset(m, |noise|)
  {
    if m == 0 then [] else Repeat(noise, m - 1) + noise
  }

  /**
   * A write run's disk: the first `m` buffers hold the (random) buffer
   * contents `noise`, and the rest is as before.
   */
  ghost predicate Striped(cur: seq<Block>, orig: seq<Block>, noise: seq<Block>, m: nat)
  {
    |cur| == |orig| && |noise| > 0 && Offset(m, |noise|) <= |cur| &&
    cur[..Offset(m, |noise|)] == Repeat(noise, m) && cur[Offset(m, |noise|)..] == orig[Offset(m, |noise|)..]
  }

  /** The disk after `m` buffers of a run: unchanged by a read run, striped by a write run. */
  ghost predicate Written(cur: seq<Block>, orig: seq<Block>, read: bool, noise: seq<Block>, m: nat)
  {
    if read then cur == orig else Striped(cur, orig, noise, m)
  }

  /** A sector in [i * bs, i * bs + bs) is in buffer `i`, at offset `s - i * bs`. */
  lemma InBuffer(s: nat, i: nat, bs: nat)
    requires bs > 0 && i * bs <= s < i * bs + bs
    ensures s / bs == i && s % bs == s - i * bs
  {
    var q := s / bs;
    DivParts(s, bs);
    assert (i + 1) * bs == i * bs + bs && (q + 1) * bs == q * bs + bs;
    if q > i {
      MulMono(i + 1, q, bs);
    } else if q < i {
      MulMono(q + 1, i, bs);
    }
    assert s == q * bs + s % bs;
  }

  /** Sector `s` of `m` copies of the buffer is block `s % bs` of the buffer. */
  lemma {:induction false} RepeatAt(noise: seq<Block>, m: nat, s: nat)
    requires |noise| > 0 && s < Offset(m, |noise|)
    ensures Repeat(noise, m)[s] == noise[s % |noise|]
  {
    var bs := |noise|;
    if s < Offset(m - 1, bs) {
      RepeatAt(noise, m - 1, s);
    } else {
      OffsetProduct(m - 1, bs);
      InBuffer(s, m - 1, bs);
    }
  }

  /**
   * On a write run's disk, sector `s` of the first `m` buffers holds block
   * `s % bs` of the buffer, and every other sector is as before.
   */
  lemma StripedAt(cur: seq<Block>, orig: seq<Block>, noise: seq<Block>, m: nat, s: nat)
    requires Striped(cur, orig, noise, m) && s < |cur|
    ensures cur[s] == if s < Offset(m, |noise|) then noise[s % |noise|] else orig[s]
  {
    var off := Offset(m, |noise|);
    if s < off {
      assert cur[s] == cur[..off][s];
      RepeatAt(noise, m, s);
    } else {
      assert cur[s] == cur[off..][s - off];
    }
  }

  /** Writing the buffer over sectors [i * bs, i * bs + bs) extends the striping by one buffer. */
  lemma StripeNext(cur: seq<Block>, orig: seq<Block>, noise: seq<Block>, i: nat)
    requires Striped(cur, orig, noise, i) && Offset(i + 1, |noise|) <= |cur|
    ensures Striped(cur[..Offset(i, |noise|)] + noise + cur[Offset(i, |noise|) + |noise|..], orig, noise, i + 1)
  {
    var off, bs := Offset(i, |noise|), |noise|;
    var next := cur[..off] + noise + cur[off + bs..];
    assert next[..off + bs] == cur[..off] + noise;
    assert next[off + bs..] == cur[off + bs..];
    assert cur[off + bs..] == cur[off..][bs..];
    assert orig[off + bs..] == orig[off..][bs..];
  }

  /** The log of one more buffer ends with that buffer's transfer. */
  lemma OpsNext(read: bool, bs: nat, i: nat)
    ensures Ops(read, bs, i + 1) == Ops(read, bs, i) + [IoRequest(!read, Offset(i, bs), bs)]
  {
  }

  /** The write of buffer `i`: on success the striping grows by one buffer. */
  method WriteBuffer(disk: Disk, start: u64, i: nat, noise: seq<Block>, ghost orig: seq<Block>)
    returns (err: VixError)
    requires disk.Valid() && |noise| > 0 && start == Offset(i, |noise|) && start + |noise| <= disk.capacity
    requires Striped(disk.contents, orig, noise, i)
    modifies disk`contents, disk`log
    ensures disk.Valid()
    ensures err == IoStatus(disk.capacity, disk.faults, disk.readOnly, true, start, |noise|)
    ensures Striped(disk.contents, orig, noise, if err == VixOk then i + 1 else i)
    ensures disk.log == old(disk.log) + [IoRequest(true, start, |noise|)]
  {
    ghost var before := disk.contents;
    err := disk.Write(start, |noise|, noise);
    if err == VixOk {
      StripeNext(before, orig, noise, i);
    }
  }

  /**
   * One buffer of the loop: the read or the write of buffer `i`, at sector
   * `i * bufSize` computed in 64 bits.
   */
  method BenchStep(disk: Disk, read: bool, bs: u64, i: nat, ghost maxOps: nat, noise: seq<Block>, ghost orig: seq<Block>, ghost log0: seq<IoRequest>)
    returns (err: VixError)
    requires disk.Valid() && bs > 0 && i < maxOps && Offset(maxOps, bs) <= disk.capacity
    requires !read ==> |noise| == bs
    requires Written(disk.contents, orig, read, noise, i)
    requires disk.log == log0 + Ops(read, bs, i)
    modifies disk`contents, disk`log
    ensures disk.Valid()
    ensures err == IoStatus(disk.capacity, disk.faults, disk.readOnly, !read, Offset(i, bs), bs)
    ensures err == VixOk <==> OpOk(Access(disk.capacity, disk.faults, disk.readOnly, !read), bs, i)
    ensures Written(disk.contents, orig, read, noise, if err == VixOk then i + 1 else i)
    ensures disk.log == log0 + Ops(read, bs, i + 1)
  {
    OffsetMono(i + 1, maxOps, bs);
    OffsetProduct(i, bs);
    OpsNext(read, bs, i);
    var start := ToU64(i * bs);
    assert start == Offset(i, bs);
    if read {
      var data;
      err, data := disk.Read(start, bs);
    } else {
      err := WriteBuffer(disk, start, i, noise, orig);
    }
  }

  /** The statistics state of the loop: `bufUpdate`, the reports so far, and the time the next one starts from. */
  datatype Meter = Meter(bufUpdate: u32, reports: seq<Report>, start: Timeval)

  /**
   * What one buffer does to the statistics: `bufUpdate += bufSize` in 32
   * bits, and at BUFS_PER_STAT a report from `start` to a fresh clock
   * reading, which becomes the next `start`.
   */
  function Tick(clock: nat -> Timeval, bs: u64, m: Meter): (r: Meter)
    ensures r.bufUpdate < BufsPerStat
    ensures |m.reports| <= |r.reports| <= |m.reports| + 1
  {
    var next := ToU32(m.bufUpdate + bs);
    if next >= BufsPerStat then
      var end := clock(|m.reports| + 1);
      Meter(0, m.reports + [Report(m.start, end, next)], end)
    else Meter(next, m.reports, m.start)
  }

  /** The statistics state after `c` buffers, starting from the first clock reading. */
  function MeterAt(clock: nat -> Timeval, bs: u64, c: nat): Meter
  {
    if c == 0 then Meter(0, [], clock(0)) else Tick(clock, bs, MeterAt(clock, bs, c - 1))
  }

  /**
   * The statistics after `c` buffers: fewer than BUFS_PER_STAT sectors are
   * pending, every report covers at least BUFS_PER_STAT sectors, and the
   * reports follow one another: report `j` runs from clock reading `j` to
   * reading `j + 1`, and the next one starts from the last reading taken.
   */
  lemma {:induction false} MeterBounds(clock: nat -> Timeval, bs: u64, c: nat)
    ensures var m := MeterAt(clock, bs, c);
      && m.bufUpdate < BufsPerStat
      && m.start == clock(|m.reports|)
      && forall j :: 0 <= j < |m.reports| ==>
           m.reports[j].numSectors >= BufsPerStat && m.reports[j].start == clock(j) && m.reports[j].end == clock(j + 1)
  {
    if c > 0 {
      MeterBounds(clock, bs, c - 1);
    }
  }

  /** Each buffer adds at most one report. */
  lemma {:induction false} MeterCount(clock: nat -> Timeval, bs: u64, c: nat)
    ensures |MeterAt(clock, bs, c).reports| <= c
  {
    if c > 0 {
      MeterCount(clock, bs, c - 1);
    }
  }

  function SumSectors(rs: seq<Report>): nat
  {
    if |rs| == 0 then 0 else SumSectors(rs[..|rs| - 1]) + rs[|rs| - 1].numSectors
  }

  /**
   * When the count cannot wrap, no sector goes unreported: the reports so
   * far and the count pending add up to the sectors moved.
   */
  lemma {:induction false} MeterConserves(clock: nat -> Timeval, bs: u64, c: nat)
    requires bs + BufsPerStat <= U32
    ensures SumSectors(MeterAt(clock, bs, c).reports) + MeterAt(clock, bs, c).bufUpdate == c * bs
  {
    if c > 0 {
      MeterConserves(clock, bs, c - 1);
      MeterBounds(clock, bs, c - 1);
      assert (c - 1) * bs + bs == c * bs;
      var prev := MeterAt(clock, bs, c - 1);
      assert ToU32(prev.bufUpdate + bs) == prev.bufUpdate + bs;
      var rs := MeterAt(clock, bs, c).reports;
      if |rs| > |prev.reports| {
        assert rs[..|rs| - 1] == prev.reports;
      }
    }
  }

  /** A buffer of at least BUFS_PER_STAT sectors (and no wrap) is reported after every buffer, on its own. */
  lemma {:induction false} MeterLarge(clock: nat -> Timeval, bs: u64, c: nat)
    requires BufsPerStat <= bs < U32
    ensures var m := MeterAt(clock, bs, c);
      |m.reports| == c && m.bufUpdate == 0 && forall j :: 0 <= j < c ==> m.reports[j].numSectors == bs
  {
    if c > 0 {
      MeterLarge(clock, bs, c - 1);
    }
  }

  /** The tally of one buffer, as the loop body writes it. */
  method TallyStep(clock: nat -> Timeval, bs: u64, ghost c: nat, bufUpdate: u32, reports: seq<Report>, start: Timeval)
    returns (bufUpdate': u32, reports': seq<Report>, start': Timeval)
    requires Meter(bufUpdate, reports, start) == MeterAt(clock, bs, c)
    ensures Meter(bufUpdate', reports', start') == MeterAt(clock, bs, c + 1)
  {
    bufUpdate', reports', start' := ToU32(bufUpdate + bs), reports, start;
    if bufUpdate' >= BufsPerStat {
      var end := clock(|reports| + 1);
      reports' := reports + [Report(start, end, bufUpdate')];
      start' := end;
      bufUpdate' := 0;
    }
  }

  /** The reports of a run that moved `done` of its `m` buffers: the periodic ones, then the total when all were moved. */
  function RunReports(clock: nat -> Timeval, bs: u64, m: u32, done: nat): (rs: seq<Report>)
    ensures |rs| <= done + 1
    ensures done != m ==> |rs| <= done
  {
    MeterCount(clock, bs, done);
    var periodic := MeterAt(clock, bs, done).reports;
    periodic + (if done == m then [Report(clock(0), clock(|periodic| + 1), ToU32(bs * m))] else [])
  }

  /** The loop body: buffer `i`, then, if it was moved, its tally. */
  method Advance(disk: Disk, read: bool, bs: u64, i: nat, maxOps: u32, noise: seq<Block>, clock: nat -> Timeval,
                 bufUpdate: u32, reports: seq<Report>, start: Timeval,
                 ghost acc: Access, ghost orig: seq<Block>, ghost log0: seq<IoRequest>)
    returns (err: VixError, bufUpdate': u32, reports': seq<Report>, start': Timeval)
    requires disk.Valid() && bs > 0 && i < maxOps && Offset(maxOps, bs) <= disk.capacity
    requires !read ==> |noise| == bs
    requires acc == Access(disk.capacity, disk.faults, disk.readOnly, !read) && AllMoved(acc, bs, i)
    requires Written(disk.contents, orig, read, noise, i)
    requires disk.log == log0 + Ops(read, bs, i)
    requires Meter(bufUpdate, reports, start) == MeterAt(clock, bs, i)
    modifies disk`contents, disk`log
    ensures disk.Valid() && acc == Access(disk.capacity, disk.faults, disk.readOnly, !read)
    ensures disk.log == log0 + Ops(read, bs, i + 1)
    ensures err == IoStatus(disk.capacity, disk.faults, disk.readOnly, !read, Offset(i, bs), bs)
    ensures err != VixOk ==> Moved(acc, bs, maxOps) == i && reports' == reports
    ensures err == VixOk ==> AllMoved(acc, bs, i + 1)
    ensures Written(disk.contents, orig, read, noise, if err == VixOk then i + 1 else i)
    ensures err == VixOk ==> Meter(bufUpdate', reports', start') == MeterAt(clock, bs, i + 1)
  {
    bufUpdate', reports', start' := bufUpdate, reports, start;
    err := BenchStep(disk, read, bs, i, maxOps, noise, orig, log0);
    if err != VixOk {
      MovedStops(acc, bs, maxOps, i);
      return;
    }
    AllMovedNext(acc, bs, i);
    bufUpdate', reports', start' := TallyStep(clock, bs, i, bufUpdate, reports, start);
  }

  /**
   * The loop of DoRWBench, up to the first refused buffer: `done` buffers
   * were moved, and when that is not all of them `err` is the refused
   * transfer's code.
   */
  method Transfer(disk: Disk, read: bool, bs: u64, maxOps: u32, noise: seq<Block>, clock: nat -> Timeval)
    returns (done: nat, err: VixError, reports: seq<Report>)
    requires disk.Valid() && bs > 0 && Offset(maxOps, bs) <= disk.capacity
    requires !read ==> |noise| == bs
    modifies disk`contents, disk`log
    ensures disk.Valid()
    ensures done == Moved(Access(disk.capacity, disk.faults, disk.readOnly, !read), bs, maxOps)
    ensures done < maxOps ==> err == IoStatus(disk.capacity, disk.faults, disk.readOnly, !read, Offset(done, bs), bs)
    ensures Written(disk.contents, old(disk.contents), read, noise, done)
    ensures disk.log == old(disk.log) + Ops(read, bs, if done == maxOps then done else done + 1)
    ensures reports == MeterAt(clock, bs, done).reports
  {
    ghost var acc := Access(disk.capacity, disk.faults, disk.readOnly, !read);
    var total := clock(0);
    var start := total;
    var bufUpdate: u32 := 0;
    reports, done, err := [], 0, VixOk;
    assert Written(disk.contents, old(disk.contents), read, noise, 0);
    while done < maxOps
      invariant done <= maxOps && disk.Valid()
      invariant acc == Access(disk.capacity, disk.faults, disk.readOnly, !read)
      invariant AllMoved(acc, bs, done)
      invariant Written(disk.contents, old(disk.contents), read, noise, done)
      invariant disk.log == old(disk.log) + Ops(read, bs, done)
      invariant Meter(bufUpdate, reports, start) == MeterAt(clock, bs, done)
    {
      err, bufUpdate, reports, start := Advance(disk, read, bs, done, maxOps, noise, clock, bufUpdate, reports, start,
                                                acc, old(disk.contents), old(disk.log));
      if err != VixOk {
        return;
      }
      done := done + 1;
    }
    MovedStops(acc, bs, maxOps, done);
  }

  /**
   * The loop of DoRWBench and the report after it: a refused buffer raises
   * (line 1784); a complete run ends with the report over the whole run.
   */
  method RunBuffers(disk: Disk, read: bool, bs: u64, maxOps: u32, noise: seq<Block>, clock: nat -> Timeval)
    returns (o: Outcome<ErrWrapper>, reports: seq<Report>)
    requires disk.Valid() && bs > 0 && Offset(maxOps, bs) <= disk.capacity
    requires !read ==> |noise| == bs
    modifies disk`contents, disk`log
    ensures disk.Valid()
    ensures Written(disk.contents, old(disk.contents), read, noise, Moved(Access(disk.capacity, disk.faults, disk.readOnly, !read), bs, maxOps))
    ensures var done := Moved(Access(disk.capacity, disk.faults, disk.readOnly, !read), bs, maxOps);
      disk.log == old(disk.log) + Ops(read, bs, if done == maxOps then done else done + 1)
    ensures var done := Moved(Access(disk.capacity, disk.faults, disk.readOnly, !read), bs, maxOps);
      o == if done == maxOps then Pass
           else Fail(FromCode(IoStatus(disk.capacity, disk.faults, disk.readOnly, !read, Offset(done, bs), bs), 1784))
    ensures reports == RunReports(clock, bs, maxOps, Moved(Access(disk.capacity, disk.faults, disk.readOnly, !read), bs, maxOps))
  {
    var done, err;
    done, err, reports := Transfer(disk, read, bs, maxOps, noise, clock);
    if done < maxOps {
      assert reports + [] == reports;
      return Fail(FromCode(err, 1784)), reports;
    }
    var end := clock(|reports| + 1);
    reports := reports + [Report(clock(0), end, ToU32(bs * maxOps))];
    o := Pass;
  }

  /**
   * What a complete benchmark leaves on a disk of `capacity` sectors with
   * failing sectors `faults`, opened read-only or not, with buffers of `bs`
   * sectors: the buffers before the first refused one are moved (a write run
   * leaves `noise` in each), the log holds the transfers asked for, a refused
   * buffer raises at line 1784, and `stats` are the lines printed.
   */
  ghost predicate Benched(read: bool, noise: seq<Block>, clock: nat -> Timeval, bs: u64,
                          capacity: nat, faults: set<nat>, readOnly: bool,
                          contents0: seq<Block>, log0: seq<IoRequest>,
                          contents: seq<Block>, log: seq<IoRequest>, o: Outcome<ErrWrapper>, stats: seq<Stat>)
  {
    && bs > 0 && capacity < U64
    && var m := MaxOps(capacity, bs);
       var done := Moved(Access(capacity, faults, readOnly, !read), bs, m);
       && Written(contents, contents0, read, noise, done)
       && log == log0 + Ops(read, bs, if done == m then done else done + 1)
       && o == (if done == m then Pass
                else Fail(FromCode(IoStatus(capacity, faults, readOnly, !read, Offset(done, bs), bs), 1784)))
       && stats == Printed(read, RunReports(clock, bs, m, done))
  }

  /**
   * RWBench: DoRWBench on an open handle. It sets the global buffer size to
   * DEFAULT_BUFSIZE when it is 0, raises (line 1758) when GetInfo fails, and
   * otherwise runs the `capacity / bufSize` buffers (RunBuffers). `stats`
   * are the lines taken: one per BUFS_PER_STAT sectors moved, and after a
   * complete run the final line over the whole run for `bufSize * maxOps`
   * sectors (in 32 bits). A write run leaves the buffer contents `noise`
   * (InitBuffer's random words) in every buffer it wrote; a read run changes
   * nothing.
   */
  method RWBench(disk: Disk, read: bool, g: AppGlobals, noise: seq<Block>, clock: nat -> Timeval)
    returns (o: Outcome<ErrWrapper>, stats: seq<Stat>)
    requires disk.Valid()
    requires !read ==> |noise| == BufSectors(g.io.bufSize)
    modifies disk`contents, disk`log, g`io
    ensures disk.Valid()
    ensures g.io == old(g.io).(bufSize := BufSectors(old(g.io.bufSize)))
    ensures disk.infoFault ==> o == Fail(FromCode(EIo, 1758)) && stats == [] && unchanged(disk)
    ensures !disk.infoFault ==>
      Benched(read, noise, clock, g.io.bufSize, disk.capacity, disk.faults, disk.readOnly,
              old(disk.contents), old(disk.log), disk.contents, disk.log, o, stats)
  {
    if g.io.bufSize == 0 {
      g.io := g.io.(bufSize := DefaultBufSize);
    }
    var bs := g.io.bufSize;
    var err, capacity := disk.GetInfo();
    if err != VixOk {
      return Fail(FromCode(err, 1758)), [];
    }
    RunOnDisk(capacity, bs);
    var reports;
    o, reports := RunBuffers(disk, read, bs, MaxOps(capacity, bs), noise, clock);
    stats := Printed(read, reports);
  }

  /** RWBench on the handle `v` holds, then the destructor of `v`, which closes it. */
  method RWBenchHeld(v: VixDisk, read: bool, g: AppGlobals, noise: seq<Block>, clock: nat -> Timeval)
    returns (o: Outcome<ErrWrapper>, stats: seq<Stat>)
    requires v.handle != null && v.handle.Valid()
    requires !read ==> |noise| == BufSectors(g.io.bufSize)
    modifies v`handle, v.handle`isOpen, v.handle`contents, v.handle`log, g`io
    ensures var d := old(v.handle);
      && !d.isOpen && d.Valid()
      && g.io == old(g.io).(bufSize := BufSectors(old(g.io.bufSize)))
    ensures var d := old(v.handle);
      d.infoFault ==> o == Fail(FromCode(EIo, 1758)) && stats == [] && d.contents == old(d.contents) && d.log == old(d.log)
    ensures var d := old(v.handle);
      !d.infoFault ==>
      Benched(read, noise, clock, g.io.bufSize, d.capacity, d.faults, d.readOnly,
              old(d.contents), old(d.log), d.contents, d.log, o, stats)
  {
    o, stats := RWBench(v.handle, read, g, noise, clock);
    v.Release();
  }

  /**
   * DoRWBench: opens the disk at the configured path (raising at line 606
   * when it cannot, before anything else happens), runs the benchmark on it
   * (RWBench) and closes the disk again on every path.
   */
  method DoRWBench(conn: Connection, read: bool, g: AppGlobals, noise: seq<Block>, clock: nat -> Timeval)
    returns (o: Outcome<ErrWrapper>, stats: seq<Stat>)
    requires conn.Valid()
    requires !read ==> |noise| == BufSectors(g.io.bufSize)
    modifies conn.Targets(g.disk.diskPath)`isOpen, conn.Targets(g.disk.diskPath)`readOnly
    modifies conn.Targets(g.disk.diskPath)`contents, conn.Targets(g.disk.diskPath)`log, g`io
    ensures conn.Resolve(g.disk.diskPath) == null ==>
      o == Fail(FromCode(EFileNotFound, 606)) && stats == [] && g.io == old(g.io)
    ensures var d := conn.Resolve(g.disk.diskPath);
      d != null ==>
      && !d.isOpen && d.readOnly == g.openFlags.readOnly && d.Valid()
      && g.io == old(g.io).(bufSize := BufSectors(old(g.io.bufSize)))
    ensures var d := conn.Resolve(g.disk.diskPath);
      d != null && d.infoFault ==>
      o == Fail(FromCode(EIo, 1758)) && stats == [] && d.contents == old(d.contents) && d.log == old(d.log)
    ensures var d := conn.Resolve(g.disk.diskPath);
      d != null && !d.infoFault ==>
      Benched(read, noise, clock, g.io.bufSize, d.capacity, d.faults, d.readOnly,
              old(d.contents), old(d.log), d.contents, d.log, o, stats)
  {
    var held := VixDisk.Open(conn, g.disk.diskPath, g.openFlags);
    if held.Failure? {
      return Fail(held.error), [];
    }
    var disk := held.value;
    o, stats := RWBenchHeld(disk, read, g, noise, clock);
  }
}
