/**
 * The multi-threaded copy test: the body of one copy job (CopyThread), which
 * copies a source disk to a fresh destination sector by sector, and the
 * sequential cleanup after the jobs, which closes both handles of every job,
 * removes the destination disks and raises when any job failed.
 */
module MultiThread {
  import opened CTypes
  import opened Wrappers
  import opened VixErrors
  import opened DiskLib
  import opened Sectors
  import opened Args

  /** TASK_OK / TASK_FAIL, the value a copy job returns. */
  datatype TaskResult = TaskOk | TaskFail

  /** Whether step `i` of a copy job passes: the read of source sector `i` and then the write of it. */
  function CopyPasses(src: Access, dst: Access): nat -> bool
  {
    (i: nat) => Status(src, i) == VixOk && Status(dst, i) == VixOk
  }

  /** The number of sectors a job copies before its first refused read or write. */
  function CopiedCount(src: Disk, dst: Disk, n: nat): (done: nat)
    reads src, dst
    ensures done <= n
  {
    FirstRefused(CopyPasses(Access(src.capacity, src.faults, src.readOnly, false),
                            Access(dst.capacity, dst.faults, dst.readOnly, true)), 0, n)
  }

  /** The disk `cur` holds the first `m` sectors of `from` and the sectors of `orig` after them. */
  ghost predicate Copied(cur: seq<Block>, orig: seq<Block>, from: seq<Block>, m: nat)
  {
    m <= |from| && m <= |cur| && |cur| == |orig| &&
    forall s :: 0 <= s < |cur| ==> cur[s] == if s < m then from[s] else orig[s]
  }

  /** A job that copied all of a source as large as its destination leaves an identical destination. */
  lemma CopiedAll(cur: seq<Block>, orig: seq<Block>, from: seq<Block>)
    requires Copied(cur, orig, from, |from|) && |from| == |cur|
    ensures cur == from
  {
  }

  /**
   * A job's transfers all pass when both disks hold `n` sectors without a
   * failing one and the destination is writable: it then copies all `n`.
   */
  lemma CopyAllPass(src: Access, dst: Access, n: nat)
    requires src.capacity == n && !src.write && dst.capacity == n && !dst.readOnly
    requires forall s :: s in src.faults ==> s >= n
    requires forall s :: s in dst.faults ==> s >= n
    ensures FirstRefused(CopyPasses(src, dst), 0, n) == n
  {
    forall i | 0 <= i < n
      ensures CopyPasses(src, dst)(i)
    {
      assert !Hits(src.faults, i, 1);
      assert !Hits(dst.faults, i, 1);
    }
    FirstRefusedLeast(CopyPasses(src, dst), 0, n, n);
  }

  /** One pass of CopyThread's loop: read source sector `i` and, if that passed, write it to the destination. */
  method CopyStep(src: Disk, dst: Disk, i: u64, ghost orig: seq<Block>, ghost srcLog: seq<IoRequest>, ghost dstLog: seq<IoRequest>)
    returns (ok: bool)
    requires src != dst && src.Valid() && dst.Valid()
    requires Copied(dst.contents, orig, src.contents, i)
    requires src.log == srcLog + Requests(false, 0, i)
    requires dst.log == dstLog + Requests(true, 0, i)
    modifies src`log, dst`contents, dst`log
    ensures src.Valid() && dst.Valid()
    ensures ok == CopyPasses(Access(src.capacity, src.faults, src.readOnly, false),
                             Access(dst.capacity, dst.faults, dst.readOnly, true))(i)
    ensures Copied(dst.contents, orig, src.contents, if ok then i + 1 else i)
    ensures src.log == srcLog + Requests(false, 0, i + 1)
    ensures dst.log == dstLog + Requests(true, 0, if Status(Access(src.capacity, src.faults, src.readOnly, false), i) == VixOk then i + 1 else i)
  {
    assert Address(0, i) == i;
    assert Requests(false, 0, i + 1) == Requests(false, 0, i) + [IoRequest(false, i, 1)];
    assert Requests(true, 0, i + 1) == Requests(true, 0, i) + [IoRequest(true, i, 1)];
    var err, buf := src.Read(i, 1);
    if err != VixOk {
      return false;
    }
    ghost var before := dst.contents;
    err := dst.Write(i, 1, buf);
    ok := err == VixOk;
    if ok {
      SpliceOne(before, i, buf[0]);
      assert [buf[0]] == buf;
    }
  }

  /**
   * CopyThread: copies sectors 0 .. numSectors - 1 from `src` to `dst`, one
   * sector at a time, read then write. The first refused transfer ends the
   * job with TASK_FAIL and clears the shared `success` flag; nothing ever
   * sets it back.
   */
  method CopyThread(src: Disk, dst: Disk, numSectors: u64, g: AppGlobals) returns (r: TaskResult)
    requires src != dst && src.Valid() && dst.Valid()
    modifies src`log, dst`contents, dst`log, g`success
    ensures src.Valid() && dst.Valid()
    ensures var done := CopiedCount(src, dst, numSectors);
      Copied(dst.contents, old(dst.contents), src.contents, done) &&
      (r == TaskOk <==> done == numSectors)
    ensures g.success == (old(g.success) && r == TaskOk)
  {
    ghost var ok := CopyPasses(Access(src.capacity, src.faults, src.readOnly, false),
                               Access(dst.capacity, dst.faults, dst.readOnly, true));
    var i: u64 := 0;
    while i < numSectors
      invariant i <= numSectors && src.Valid() && dst.Valid()
      invariant ok == CopyPasses(Access(src.capacity, src.faults, src.readOnly, false),
                                 Access(dst.capacity, dst.faults, dst.readOnly, true))
      invariant forall j :: 0 <= j < i ==> ok(j)
      invariant Copied(dst.contents, old(dst.contents), src.contents, i)
      invariant src.log == old(src.log) + Requests(false, 0, i)
      invariant dst.log == old(dst.log) + Requests(true, 0, i)
      invariant g.success == old(g.success)
      decreases numSectors - i
    {
      var passed := CopyStep(src, dst, i, old(dst.contents), old(src.log), old(dst.log));
      if !passed {
        FirstRefusedLeast(ok, 0, numSectors, i);
        g.success := false;
        return TaskFail;
      }
      i := i + 1;
    }
    FirstRefusedLeast(ok, 0, numSectors, i);
    r := TaskOk;
  }

  /** One copy job: its source and destination handles and the path of its destination disk. */
  datatype Job = Job(src: Disk, dst: Disk, dstPath: string)

  /** The destination paths of `jobs`. */
  function DstPaths(jobs: seq<Job>): (paths: set<string>)
    ensures forall k :: 0 <= k < |jobs| ==> jobs[k].dstPath in paths
    ensures forall p :: p in paths ==> exists k :: 0 <= k < |jobs| && jobs[k].dstPath == p
  {
    if |jobs| == 0 then {} else DstPaths(jobs[..|jobs| - 1]) + {jobs[|jobs| - 1].dstPath}
  }

  /** The disks of `cur` are those of `orig` but for the ones at `paths`, which are removed. */
  ghost predicate Removed(cur: map<string, Disk>, orig: map<string, Disk>, paths: set<string>)
  {
    cur == orig - paths
  }

  /** The cleanup of one job: close its source, then its destination, and remove the destination disk. */
  method CloseJob(job: Job, dstConnection: Connection, ghost orig: map<string, Disk>, ghost paths: set<string>)
    requires Removed(dstConnection.images, orig, paths)
    modifies job.src`isOpen, job.dst`isOpen, dstConnection`images
    ensures !job.src.isOpen && !job.dst.isOpen
    ensures Removed(dstConnection.images, orig, paths + {job.dstPath})
  {
    job.src.Close();
    job.dst.Close();
    var _ := dstConnection.Unlink(job.dstPath);
  }

  /** The loop of the cleanup (lines 1563-1567): closes both handles of every job and removes its destination disk. */
  method CloseJobs(jobs: seq<Job>, dstConnection: Connection)
    modifies (set j | j in jobs :: j.src)`isOpen, (set j | j in jobs :: j.dst)`isOpen, dstConnection`images
    ensures forall j :: j in jobs ==> !j.src.isOpen && !j.dst.isOpen
    ensures Removed(dstConnection.images, old(dstConnection.images), DstPaths(jobs))
  {
    ghost var orig := dstConnection.images;
    var i := 0;
    while i < |jobs|
      invariant i <= |jobs|
      invariant forall k :: 0 <= k < i ==> !jobs[k].src.isOpen && !jobs[k].dst.isOpen
      invariant Removed(dstConnection.images, orig, DstPaths(jobs[..i]))
    {
      CloseJob(jobs[i], dstConnection, orig, DstPaths(jobs[..i]));
      assert jobs[..i + 1][..i] == jobs[..i];
      i := i + 1;
    }
    assert jobs[..i] == jobs;
  }

  /**
   * The cleanup after the jobs (lines 1563-1571): closes the source and then
   * the destination handle of every job and removes its destination disk,
   * disconnects the destination connection (line 1568), and raises
   * VIX_E_FAIL when any job failed. The results of the closes and removals
   * are not checked.
   */
  method Cleanup(jobs: seq<Job>, dstConnection: Connection, g: AppGlobals) returns (o: Outcome<ErrWrapper>)
    modifies (set j | j in jobs :: j.src)`isOpen, (set j | j in jobs :: j.dst)`isOpen, dstConnection`images,
      dstConnection`connected
    ensures forall j :: j in jobs ==> !j.src.isOpen && !j.dst.isOpen
    ensures !dstConnection.connected
    ensures Removed(dstConnection.images, old(dstConnection.images), DstPaths(jobs))
    ensures o == if g.success then Pass else ThrowError(EFail, 1570)
  {
    CloseJobs(jobs, dstConnection);
    dstConnection.Disconnect();
    if !g.success {
      return ThrowError(EFail, 1570);
    }
    o := Pass;
  }
}
