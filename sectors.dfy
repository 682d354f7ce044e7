/**
 * The sample's sector loops: DoFill writes one sector at a time, DoDump reads
 * one sector at a time, and the copy job of the multi-threaded test reads a
 * source sector and writes it to the destination. Each loop stops at the
 * first transfer the library refuses.
 */
module Sectors {
  import opened CTypes
  import opened Wrappers
  import opened VixErrors
  import opened DiskLib
  import opened HexDump
  import Args

  /** The sector the `k`-th step addresses: `startSector + k` in 64-bit arithmetic. */
  function Address(start: u64, k: nat): (s: u64)
    ensures start + k < U64 ==> s == start + k
  {
    ToU64(start + k)
  }

  /** A one-sector transfer on a disk: its capacity, failing sectors, handle mode and direction. */
  datatype Access = Access(capacity: nat, faults: set<nat>, readOnly: bool, write: bool)

  /** The library's answer to a one-sector transfer at `s`. */
  function Status(a: Access, s: nat): VixError
  {
    IoStatus(a.capacity, a.faults, a.readOnly, a.write, s, 1)
  }

  /** Whether the one-sector transfer of each step `j` of a loop from `start` passes. */
  function Passes(acc: Access, start: u64): nat -> bool
  {
    (j: nat) => Status(acc, Address(start, j)) == VixOk
  }

  /**
   * The number of steps of a loop over `[k, n)` that pass before the first
   * refused one (or `n` when none is refused).
   */
  function FirstRefused(ok: nat -> bool, k: nat, n: nat): (r: nat)
    requires k <= n
    ensures k <= r <= n
    decreases n - k
  {
    if k == n then n
    else if !ok(k) then k
    else FirstRefused(ok, k + 1, n)
  }

  /** Every step before the failure index passes, and the step at it (if any) is refused. */
  lemma {:induction false} FirstRefusedSpec(ok: nat -> bool, k: nat, n: nat)
    requires k <= n
    ensures var r := FirstRefused(ok, k, n);
      (forall j :: k <= j < r ==> ok(j)) && (r < n ==> !ok(r))
    decreases n - k
  {
    if k < n && ok(k) {
      FirstRefusedSpec(ok, k + 1, n);
    }
  }

  /** The failure index is the first refused step: a step `d` preceded only by passing steps. */
  lemma {:induction false} FirstRefusedLeast(ok: nat -> bool, k: nat, n: nat, d: nat)
    requires k <= d <= n
    requires forall j :: k <= j < d ==> ok(j)
    requires d == n || !ok(d)
    ensures FirstRefused(ok, k, n) == d
    decreases d - k
  {
    if k < d {
      FirstRefusedLeast(ok, k + 1, n, d);
    }
  }

  /** The one-sector requests of steps `[0, m)`. */
  function Requests(write: bool, start: u64, m: nat): (rs: seq<IoRequest>)
    ensures |rs| == m
    ensures forall j :: 0 <= j < m ==> rs[j] == IoRequest(write, Address(start, j), 1)
  {
    seq(m, j requires 0 <= j < m => IoRequest(write, Address(start, j), 1))
  }

  /** Whether some step before `m` addressed sector `s`. */
  ghost predicate Touched(start: u64, m: nat, s: nat)
  {
    exists j :: 0 <= j < m && Address(start, j) == s
  }

  /** Without wrap-around, the loop touches exactly the sectors `[start, start + m)`. */
  lemma TouchedRange(start: u64, m: nat, s: nat)
    requires start + m <= U64
    ensures Touched(start, m, s) <==> start <= s < start + m
  {
    if start <= s < start + m {
      assert Address(start, s - start) == s;
    }
  }

  /**
   * Steps that all pass never wrap around: each addresses a sector below the
   * capacity, so after `m` passing steps `start + m` is still within the disk.
   */
  lemma {:induction false} PassingNoWrap(acc: Access, start: u64, m: nat)
    requires acc.capacity < U64
    requires forall j :: 0 <= j < m ==> Passes(acc, start)(j)
    ensures m == 0 || start + m <= acc.capacity
  {
    if m > 0 {
      PassingNoWrap(acc, start, m - 1);
      assert Passes(acc, start)(m - 1);
      assert Address(start, m - 1) == start + m - 1;
    }
  }

  /**
   * The steps of a loop that ran until its first refused transfer touched
   * exactly the sectors `[start, start + done)`: the 64-bit sector arithmetic
   * never wraps round to the start of the disk.
   */
  lemma TouchedUntilRefused(acc: Access, start: u64, n: nat, s: nat)
    requires acc.capacity < U64
    ensures var done := FirstRefused(Passes(acc, start), 0, n);
      Touched(start, done, s) <==> start <= s < start + done
  {
    var done := FirstRefused(Passes(acc, start), 0, n);
    FirstRefusedSpec(Passes(acc, start), 0, n);
    PassingNoWrap(acc, start, done);
    TouchedRange(start, done, s);
  }

  /** A one-sector write leaves the other sectors and puts the block at `a`. */
  lemma SpliceOne(s: seq<Block>, a: nat, b: Block)
    requires a < |s|
    ensures s[..a] + [b] + s[a + 1..] == s[a := b]
  {
  }

  /**
   * The disk `cur` holds block `b` on every sector the first `m` steps
   * addressed and the block of `orig` everywhere else.
   */
  ghost predicate Painted(cur: seq<Block>, orig: seq<Block>, start: u64, m: nat, b: Block)
  {
    |cur| == |orig| &&
    forall s :: 0 <= s < |cur| ==> cur[s] == if Touched(start, m, s) then b else orig[s]
  }

  /** Writing `b` at the next step's sector paints one more step. */
  lemma PaintNext(cur: seq<Block>, orig: seq<Block>, start: u64, k: nat, b: Block)
    requires Painted(cur, orig, start, k, b) && Address(start, k) < |cur|
    ensures Painted(cur[Address(start, k) := b], orig, start, k + 1, b)
  {
    var a := Address(start, k);
    var next := cur[a := b];
    forall s | 0 <= s < |next|
      ensures next[s] == if Touched(start, k + 1, s) then b else orig[s]
    {
      if s == a {
        assert Touched(start, k + 1, s);
      } else if Touched(start, k + 1, s) {
        var j :| 0 <= j < k + 1 && Address(start, j) == s;
        assert Touched(start, k, s);
      }
    }
  }

  /** A disk no step has addressed yet is painted over zero steps. */
  lemma PaintNone(cur: seq<Block>, start: u64, b: Block)
    ensures Painted(cur, cur, start, 0, b)
  {
  }

  /** The number of passing steps of a loop of `n` one-sector transfers from `start` on a disk. */
  function Refused(capacity: nat, faults: set<nat>, readOnly: bool, write: bool, start: u64, n: nat): (done: nat)
    ensures done <= n
  {
    FirstRefused(Passes(Access(capacity, faults, readOnly, write), start), 0, n)
  }

  /** One pass of DoFill's loop: the write of block `buf` at the `k`-th sector. */
  method FillStep(disk: Disk, start: u64, k: nat, buf: Block, ghost orig: seq<Block>, ghost log0: seq<IoRequest>)
    returns (err: VixError)
    requires disk.Valid() && Painted(disk.contents, orig, start, k, buf)
    requires disk.log == log0 + Requests(true, start, k)
    modifies disk`contents, disk`log
    ensures disk.Valid()
    ensures err == Status(Access(disk.capacity, disk.faults, disk.readOnly, true), Address(start, k))
    ensures Painted(disk.contents, orig, start, if err == VixOk then k + 1 else k, buf)
    ensures disk.log == log0 + Requests(true, start, k + 1)
  {
    var a := Address(start, k);
    ghost var before := disk.contents;
    err := disk.Write(a, 1, [buf]);
    assert Requests(true, start, k + 1) == Requests(true, start, k) + [IoRequest(true, a, 1)];
    if err == VixOk {
      SpliceOne(before, a, buf);
      PaintNext(before, orig, start, k, buf);
    }
  }

  /**
   * DoFill's loop: writes a block of `filler` to sectors `startSector + k`,
   * k < numSectors, and raises (line 1171) on the first write the library refuses.
   */
  method Fill(disk: Disk, startSector: u64, numSectors: u64, filler: int) returns (o: Outcome<ErrWrapper>)
    requires disk.Valid()
    modifies disk`contents, disk`log
    ensures disk.Valid()
    ensures var done := Refused(disk.capacity, disk.faults, disk.readOnly, true, startSector, numSectors);
      Painted(disk.contents, old(disk.contents), startSector, done, FilledBlock(filler))
    ensures var done := Refused(disk.capacity, disk.faults, disk.readOnly, true, startSector, numSectors);
      o == if done == numSectors then Pass
           else Fail(FromCode(IoStatus(disk.capacity, disk.faults, disk.readOnly, true, Address(startSector, done), 1), 1171))
    ensures var done := Refused(disk.capacity, disk.faults, disk.readOnly, true, startSector, numSectors);
      disk.log == old(disk.log) + Requests(true, startSector, if done == numSectors then done else done + 1)
  {
    ghost var acc := Access(disk.capacity, disk.faults, disk.readOnly, true);
    var buf := FilledBlock(filler);
    PaintNone(disk.contents, startSector, buf);
    var k: nat := 0;
    while k < numSectors
      invariant k <= numSectors && disk.Valid()
      invariant acc == Access(disk.capacity, disk.faults, disk.readOnly, true)
      invariant forall j :: 0 <= j < k ==> Passes(acc, startSector)(j)
      invariant Painted(disk.contents, old(disk.contents), startSector, k, buf)
      invariant disk.log == old(disk.log) + Requests(true, startSector, k)
      decreases numSectors - k
    {
      var err := FillStep(disk, startSector, k, buf, old(disk.contents), old(disk.log));
      if err != VixOk {
        FirstRefusedLeast(Passes(acc, startSector), 0, numSectors, k);
        return Fail(FromCode(err, 1171));
      }
      k := k + 1;
    }
    FirstRefusedLeast(Passes(acc, startSector), 0, numSectors, k);
    o := Pass;
  }

  /**
   * DoFill: opens the disk at the configured path (raising at line 606 when
   * it cannot), runs the fill loop on it with the configured start, count
   * and filler, and closes the disk again however the loop ended.
   */
  method DoFill(conn: Connection, c: Args.Config) returns (o: Outcome<ErrWrapper>)
    requires conn.Valid()
    modifies conn.Targets(c.disk.diskPath)`isOpen, conn.Targets(c.disk.diskPath)`readOnly
    modifies conn.Targets(c.disk.diskPath)`contents, conn.Targets(c.disk.diskPath)`log
    ensures conn.Resolve(c.disk.diskPath) == null ==> o == Fail(FromCode(EFileNotFound, 606))
    ensures var d := conn.Resolve(c.disk.diskPath);
      d != null ==> !d.isOpen && d.readOnly == c.openFlags.readOnly && d.Valid()
    ensures var d := conn.Resolve(c.disk.diskPath);
      d != null ==>
        var done := Refused(d.capacity, d.faults, d.readOnly, true, c.io.startSector, c.io.numSectors);
        && Painted(d.contents, old(d.contents), c.io.startSector, done, FilledBlock(c.io.filler))
        && o == (if done == c.io.numSectors then Pass
                 else Fail(FromCode(IoStatus(d.capacity, d.faults, d.readOnly, true, Address(c.io.startSector, done), 1), 1171)))
        && d.log == old(d.log) + Requests(true, c.io.startSector, if done == c.io.numSectors then done else done + 1)
  {
    var held := VixDisk.Open(conn, c.disk.diskPath, c.openFlags);
    if held.Failure? {
      return Fail(held.error);
    }
    var disk := held.value;
    o := Fill(disk.handle, c.io.startSector, c.io.numSectors, c.io.filler);
    disk.Release();
  }

  /** What DoDump shows for sector `s`: its 512 bytes, 16 a line. */
  function SectorDump(contents: seq<Block>, s: nat): seq<DumpLine>
  {
    if s < |contents| then Dump(contents[s], 16) else []
  }

  /** The dumps DoDump shows for the first `m` steps of a loop from `start`. */
  ghost predicate Dumped(out: seq<seq<DumpLine>>, contents: seq<Block>, start: u64, m: nat)
  {
    |out| == m && forall j :: 0 <= j < m ==> out[j] == SectorDump(contents, Address(start, j))
  }

  /** One pass of DoDump's loop: the read of the `k`-th sector and its hex dump, 16 bytes a line. */
  method DumpStep(disk: Disk, start: u64, k: nat, out: seq<seq<DumpLine>>, ghost log0: seq<IoRequest>)
    returns (err: VixError, out': seq<seq<DumpLine>>)
    requires disk.Valid() && disk.log == log0 + Requests(false, start, k)
    requires Dumped(out, disk.contents, start, k)
    modifies disk`log
    ensures err == Status(Access(disk.capacity, disk.faults, disk.readOnly, false), Address(start, k))
    ensures err == VixOk ==> Dumped(out', disk.contents, start, k + 1)
    ensures disk.log == log0 + Requests(false, start, k + 1)
  {
    var a := Address(start, k);
    var data;
    err, data := disk.Read(a, 1);
    assert Requests(false, start, k + 1) == Requests(false, start, k) + [IoRequest(false, a, 1)];
    out' := out;
    if err == VixOk {
      assert data[0] == disk.contents[a];
      assert data[0][..512] == data[0];
      var lines := DumpBytes(data[0], 512, 16);
      out' := out + [lines];
    }
  }

  /**
   * DoDump's loop: reads sectors `startSector + k`, k < numSectors, one at a
   * time and dumps each; raises (line 1317) on the first read the library
   * refuses. Nothing on the disk changes.
   */
  method DumpSectors(disk: Disk, startSector: u64, numSectors: u64) returns (o: Outcome<ErrWrapper>, out: seq<seq<DumpLine>>)
    requires disk.Valid()
    modifies disk`log
    ensures Dumped(out, disk.contents, startSector, Refused(disk.capacity, disk.faults, disk.readOnly, false, startSector, numSectors))
    ensures var done := Refused(disk.capacity, disk.faults, disk.readOnly, false, startSector, numSectors);
      o == if done == numSectors then Pass
           else Fail(FromCode(IoStatus(disk.capacity, disk.faults, disk.readOnly, false, Address(startSector, done), 1), 1317))
    ensures var done := Refused(disk.capacity, disk.faults, disk.readOnly, false, startSector, numSectors);
      disk.log == old(disk.log) + Requests(false, startSector, if done == numSectors then done else done + 1)
  {
    ghost var acc := Access(disk.capacity, disk.faults, disk.readOnly, false);
    out := [];
    var k: nat := 0;
    while k < numSectors
      invariant k <= numSectors && disk.Valid()
      invariant acc == Access(disk.capacity, disk.faults, disk.readOnly, false)
      invariant forall j :: 0 <= j < k ==> Passes(acc, startSector)(j)
      invariant Dumped(out, disk.contents, startSector, k)
      invariant disk.log == old(disk.log) + Requests(false, startSector, k)
      decreases numSectors - k
    {
      var err, out' := DumpStep(disk, startSector, k, out, old(disk.log));
      if err != VixOk {
        FirstRefusedLeast(Passes(acc, startSector), 0, numSectors, k);
        return Fail(FromCode(err, 1317)), out;
      }
      out := out';
      k := k + 1;
    }
    FirstRefusedLeast(Passes(acc, startSector), 0, numSectors, k);
    o := Pass;
  }

  /**
   * DoDump: opens the disk at the configured path (raising at line 606 when
   * it cannot), dumps the configured sectors and closes the disk again
   * however the loop ended. The sectors themselves do not change.
   */
  method DoDump(conn: Connection, c: Args.Config) returns (o: Outcome<ErrWrapper>, out: seq<seq<DumpLine>>)
    requires conn.Valid()
    modifies conn.Targets(c.disk.diskPath)`isOpen, conn.Targets(c.disk.diskPath)`readOnly
    modifies conn.Targets(c.disk.diskPath)`log
    ensures conn.Resolve(c.disk.diskPath) == null ==> o == Fail(FromCode(EFileNotFound, 606)) && out == []
    ensures var d := conn.Resolve(c.disk.diskPath);
      d != null ==> !d.isOpen && d.readOnly == c.openFlags.readOnly && d.contents == old(d.contents)
    ensures var d := conn.Resolve(c.disk.diskPath);
      d != null ==>
        var done := Refused(d.capacity, d.faults, d.readOnly, false, c.io.startSector, c.io.numSectors);
        && Dumped(out, d.contents, c.io.startSector, done)
        && o == (if done == c.io.numSectors then Pass
                 else Fail(FromCode(IoStatus(d.capacity, d.faults, d.readOnly, false, Address(c.io.startSector, done), 1), 1317)))
        && d.log == old(d.log) + Requests(false, c.io.startSector, if done == c.io.numSectors then done else done + 1)
  {
    var held := VixDisk.Open(conn, c.disk.diskPath, c.openFlags);
    if held.Failure? {
      return Fail(held.error), [];
    }
    var disk := held.value;
    o, out := DumpSectors(disk.handle, c.io.startSector, c.io.numSectors);
    disk.Release();
  }
}
