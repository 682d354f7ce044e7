/**
 * The metadata commands: DoReadMetadata and DoDumpMetadata, which ask the
 * library for the size of the answer first (a probe with an empty buffer that
 * may answer VIX_E_BUFFER_TOOSMALL) and then fetch it, and DoWriteMetadata.
 * DoDumpMetadata walks the key list, a buffer of NUL-terminated keys ended
 * by an empty string.
 */
module Metadata {
  import opened Wrappers
  import opened VixErrors
  import opened CLib
  import opened DiskLib
  import Args

  /** The C string a buffer holds: its characters before the first NUL. */
  function CString(buf: seq<char>): (s: string)
    requires NUL in buf
    ensures NUL !in s && |s| < |buf| && buf[..|s|] == s && buf[|s|] == NUL
  {
    buf[..Strlen(buf, 0)]
  }

  /** A value followed by its terminating NUL reads back as the value. */
  lemma CStringOfValue(val: string)
    requires NUL !in val
    ensures CString(val + [NUL]) == val
  {
  }

  /**
   * The two-phase read of one key on an open handle: the size probe (raising
   * at `probeLine` on any code but VIX_OK and VIX_E_BUFFER_TOOSMALL), then
   * the read into a buffer of the size asked for (raising at `readLine`). It
   * yields the value stored under `key`, exactly when the table has the key
   * and neither call fails. A missing key or a failing probe raises at
   * `probeLine`; a failing fetch raises at `readLine`.
   */
  method ReadValue(disk: Disk, key: string, probeLine: int, readLine: int) returns (r: Result<string, ErrWrapper>)
    requires disk.Valid()
    ensures r.Success? <==> ValueReadable(disk, key)
    ensures r.Success? ==> r.value == disk.meta.table[key]
    ensures r.Failure? ==> r.error == ValueError(disk, key, probeLine, readLine)
  {
    var err, requiredLen, empty := disk.ReadMetadata(key, 0);
    var probe := CheckProbe(err, probeLine);
    if probe.Fail? {
      return Failure(probe.error);
    }
    var val, sizeAgain;
    err, sizeAgain, val := disk.ReadMetadata(key, requiredLen);
    match CheckAndThrow(err, readLine)
    case Fail(e) => return Failure(e);
    case Pass =>
    CStringOfValue(disk.meta.table[key]);
    r := Success(CString(val));
  }

  /** Whether both calls of the two-phase read of `key` succeed. */
  predicate ValueReadable(disk: Disk, key: string)
    reads disk
  {
    !disk.metaFault && key in disk.meta.table && key !in disk.probeFaults && key !in disk.fetchFaults
  }

  /**
   * The error a failing two-phase read of `key` raises: the library's code at
   * `probeLine` when the size probe fails, or EIo at `readLine` when only
   * the fetch fails.
   */
  function ValueError(disk: Disk, key: string, probeLine: int, readLine: int): (e: ErrWrapper)
    reads disk
    ensures e.errCode == if disk.metaFault || key in disk.meta.table then EIo else EKeyNotFound
    ensures e.file == SampleFile && (e.line == probeLine || e.line == readLine)
  {
    if disk.metaFault then FromCode(EIo, probeLine)
    else if key !in disk.meta.table then FromCode(EKeyNotFound, probeLine)
    else if key in disk.probeFaults then FromCode(EIo, probeLine)
    else FromCode(EIo, readLine)
  }

  /** DoReadMetadata on an open handle: the read of `key`, with its throws at lines 1201 and 1209. */
  method ReadMetadata(disk: Disk, key: string) returns (r: Result<string, ErrWrapper>)
    requires disk.Valid()
    ensures r.Success? <==> ValueReadable(disk, key)
    ensures r.Success? ==> r.value == disk.meta.table[key]
    ensures r.Failure? ==> r.error == ValueError(disk, key, 1201, 1209)
  {
    r := ReadValue(disk, key, 1201, 1209);
  }

  /**
   * DoReadMetadata: opens the disk at the configured path (raising at line
   * 606 when it cannot), reads the configured key and closes the disk again
   * on every path. The key is there whenever `-rmeta` chose the command.
   */
  method DoReadMetadata(conn: Connection, c: Args.Config) returns (r: Result<string, ErrWrapper>)
    requires conn.Valid() && c.disk.metaKey.Some?
    modifies conn.Targets(c.disk.diskPath)`isOpen, conn.Targets(c.disk.diskPath)`readOnly
    ensures conn.Resolve(c.disk.diskPath) == null ==> r == Failure(FromCode(EFileNotFound, 606))
    ensures var d := conn.Resolve(c.disk.diskPath);
      d != null ==> !d.isOpen && d.readOnly == c.openFlags.readOnly
    ensures var d := conn.Resolve(c.disk.diskPath);
      r.Success? <==> d != null && ValueReadable(d, c.disk.metaKey.value)
    ensures r.Success? ==> r.value == conn.Resolve(c.disk.diskPath).meta.table[c.disk.metaKey.value]
    ensures var d := conn.Resolve(c.disk.diskPath);
      d != null && r.Failure? ==> r.error == ValueError(d, c.disk.metaKey.value, 1201, 1209)
  {
    var held := VixDisk.Open(conn, c.disk.diskPath, c.openFlags);
    if held.Failure? {
      return Failure(held.error);
    }
    var disk := held.value;
    r := ReadMetadata(disk.handle, c.disk.metaKey.value);
    disk.Release();
  }

  /** DoWriteMetadata on an open handle: sets `key` to `val`, raising (line 1237) when the library refuses. */
  method WriteMetadata(disk: Disk, key: string, val: string) returns (o: Outcome<ErrWrapper>)
    requires disk.Valid() && NUL !in key && NUL !in val
    modifies disk`meta
    ensures disk.Valid()
    ensures o.Pass? <==> !disk.metaFault && !disk.readOnly && key != []
    ensures o.Pass? ==> disk.meta == old(disk.meta).Upsert(key, val)
    ensures o.Fail? ==> disk.meta == old(disk.meta)
    ensures o.Fail? ==> o.error == FromCode(if disk.metaFault then EIo else if disk.readOnly then EReadOnly else EInvalidArg, 1237)
  {
    var err := disk.WriteMetadata(key, val);
    o := CheckAndThrow(err, 1237);
  }

  /**
   * DoWriteMetadata: opens the disk at the configured path (raising at line
   * 606 when it cannot), sets the configured key to the configured value and
   * closes the disk again on every path. Key and value are there whenever
   * `-wmeta` chose the command; being command-line strings, they hold no NUL.
   */
  method DoWriteMetadata(conn: Connection, c: Args.Config) returns (o: Outcome<ErrWrapper>)
    requires conn.Valid() && c.disk.metaKey.Some? && c.disk.metaVal.Some?
    requires NUL !in c.disk.metaKey.value && NUL !in c.disk.metaVal.value
    modifies conn.Targets(c.disk.diskPath)`isOpen, conn.Targets(c.disk.diskPath)`readOnly
    modifies conn.Targets(c.disk.diskPath)`meta
    ensures conn.Resolve(c.disk.diskPath) == null ==> o == Fail(FromCode(EFileNotFound, 606))
    ensures var d := conn.Resolve(c.disk.diskPath);
      d != null ==> !d.isOpen && d.readOnly == c.openFlags.readOnly && d.Valid()
    ensures var d := conn.Resolve(c.disk.diskPath);
      o.Pass? <==> d != null && !d.metaFault && !c.openFlags.readOnly && c.disk.metaKey.value != []
    ensures var d := conn.Resolve(c.disk.diskPath);
      d != null ==> d.meta == if o.Pass? then old(d.meta).Upsert(c.disk.metaKey.value, c.disk.metaVal.value) else old(d.meta)
    ensures var d := conn.Resolve(c.disk.diskPath);
      d != null && o.Fail? ==>
        o.error == FromCode(if d.metaFault then EIo else if c.openFlags.readOnly then EReadOnly else EInvalidArg, 1237)
  {
    var held := VixDisk.Open(conn, c.disk.diskPath, c.openFlags);
    if held.Failure? {
      return Fail(held.error);
    }
    var disk := held.value;
    o := WriteMetadata(disk.handle, c.disk.metaKey.value, c.disk.metaVal.value);
    disk.Release();
  }

  /** `Join` of two key lists is the concatenation of their joins. */
  lemma {:induction false} JoinAppend(a: seq<string>, b: seq<string>)
    ensures Join(a + b) == Join(a) + Join(b)
    decreases |b|
  {
    if |b| == 0 {
      assert a + b == a;
    } else {
      var c := b[..|b| - 1];
      assert (a + b)[..|a + b| - 1] == a + c;
      assert (a + b)[|a + b| - 1] == b[|b| - 1];
      JoinAppend(a, c);
      assert Join(b) == Join(c) + b[|b| - 1] + [NUL];
    }
  }

  /** Every key in the list is a key of the store: non-empty and free of NUL. */
  ghost predicate ValidKeys(keys: seq<string>)
  {
    forall i :: 0 <= i < |keys| ==> ValidKey(keys[i])
  }

  /**
   * In the key buffer, key `j` starts right after the first `j` keys and
   * their NULs, and is followed by a NUL.
   */
  lemma KeyAt(keys: seq<string>, j: nat)
    requires ValidKeys(keys) && j < |keys|
    ensures var buf, pos := KeyBuffer(keys), |Join(keys[..j])|;
      && pos + |keys[j]| < |buf|
      && buf[pos..pos + |keys[j]|] == keys[j]
      && buf[pos + |keys[j]|] == NUL
      && buf[pos] != NUL
      && |Join(keys[..j + 1])| == pos + |keys[j]| + 1
  {
    var buf := KeyBuffer(keys);
    var head, rest := keys[..j + 1], keys[j + 1..];
    assert keys == head + rest;
    JoinAppend(head, rest);
    assert head[..j] == keys[..j];
    assert Join(head) == Join(keys[..j]) + keys[j] + [NUL];
    assert buf == Join(keys[..j]) + keys[j] + [NUL] + Join(rest) + [NUL];
    assert ValidKey(keys[j]);
  }

  /** After the last key comes the empty string that ends the list. */
  lemma KeyEnd(keys: seq<string>)
    ensures |Join(keys)| < |KeyBuffer(keys)| && KeyBuffer(keys)[|Join(keys)|] == NUL
  {
  }

  /** The C string at `pos` of the key buffer is key `j`. */
  lemma KeyString(keys: seq<string>, j: nat)
    requires ValidKeys(keys) && j < |keys|
    ensures var buf, pos := KeyBuffer(keys), |Join(keys[..j])|;
      pos < |buf| && NUL in buf[pos..] && buf[pos..pos + Strlen(buf, pos)] == keys[j]
  {
    var buf, pos := KeyBuffer(keys), |Join(keys[..j])|;
    KeyAt(keys, j);
    var n := |keys[j]|;
    assert buf[pos..][n] == NUL;
  }

  /** The table of a store, listed in key order. */
  function Listing(m: MetaStore, n: nat): (entries: seq<(string, string)>)
    requires n <= |m.order| && forall i :: 0 <= i < n ==> m.order[i] in m.table
    ensures |entries| == n
    ensures forall i :: 0 <= i < n ==> entries[i] == (m.order[i], m.table[m.order[i]])
  {
    seq(n, i requires 0 <= i < n => (m.order[i], m.table[m.order[i]]))
  }

  /** `out` lists the first `j` keys with their values. */
  ghost predicate Listed(out: seq<(string, string)>, keys: seq<string>, table: map<string, string>, j: nat)
  {
    j <= |keys| && |out| == j &&
    forall i :: 0 <= i < j ==> keys[i] in table && out[i] == (keys[i], table[keys[i]])
  }

  /** Listing key `j` with its value extends the listing by one key. */
  lemma ListedNext(out: seq<(string, string)>, keys: seq<string>, table: map<string, string>, j: nat)
    requires Listed(out, keys, table, j) && j < |keys| && keys[j] in table
    ensures Listed(out + [(keys[j], table[keys[j]])], keys, table, j + 1)
  {
  }

  /** A listing of the first `n` keys of a store is the store's listing of them. */
  lemma ListedFirst(out: seq<(string, string)>, m: MetaStore, n: nat)
    requires Listed(out, m.order, m.table, n)
    ensures out == Listing(m, n)
  {
  }

  /** The position of the first key in `bad`, or the number of keys when there is none. */
  function FirstBad(keys: seq<string>, bad: set<string>): (n: nat)
    ensures n <= |keys| && (n < |keys| ==> keys[n] in bad)
    ensures forall i :: 0 <= i < n ==> keys[i] !in bad
  {
    if |keys| == 0 then 0
    else if keys[0] in bad then 0
    else 1 + FirstBad(keys[1..], bad)
  }

  /**
   * One step of the key walk: the C string at `pos` of the key list is key
   * `j`, and `pos + strlen + 1` is where key `j + 1` starts, or the empty
   * string that ends the list.
   */
  method NextKey(buf: seq<char>, pos: nat, ghost keys: seq<string>, ghost j: nat) returns (key: string, next: nat)
    requires ValidKeys(keys) && buf == KeyBuffer(keys) && j < |keys| && pos == |Join(keys[..j])|
    ensures key == keys[j] && next == |Join(keys[..j + 1])| && next < |buf|
    ensures buf[next] == NUL <==> j + 1 == |keys|
  {
    KeyString(keys, j);
    KeyAt(keys, j);
    key := buf[pos..pos + Strlen(buf, pos)];
    next := pos + 1 + Strlen(buf, pos);
    if j + 1 == |keys| {
      assert keys[..j + 1] == keys;
      KeyEnd(keys);
    } else {
      KeyAt(keys, j + 1);
    }
  }

  /**
   * DoDumpMetadata on an open handle: probes the size of the key list
   * (raising at 1267 on any code but VIX_OK and VIX_E_BUFFER_TOOSMALL),
   * fetches it (raising at 1271), then walks it key by key, `strlen + 1` at a
   * time, until the empty string; each key is read with a probe (1278) and a
   * read (1283). It prints every key once, in key-list order, with its
   * value, up to the first key that cannot be read, where it raises.
   */
  method DumpMetadata(disk: Disk) returns (o: Outcome<ErrWrapper>, out: seq<(string, string)>)
    requires disk.Valid()
    ensures disk.metaFault ==> o == Fail(FromCode(EIo, 1267)) && out == []
    ensures !disk.metaFault && disk.keysFault ==> o == Fail(FromCode(EIo, 1271)) && out == []
    ensures !disk.metaFault && !disk.keysFault ==>
      var keys, n := disk.meta.order, FirstBad(disk.meta.order, disk.probeFaults + disk.fetchFaults);
      && out == Listing(disk.meta, n)
      && o == if n == |keys| then Pass else Fail(FromCode(EIo, if keys[n] in disk.probeFaults then 1278 else 1283))
  {
    var err, requiredLen, empty := disk.GetMetadataKeys(0);
    var probe := CheckProbe(err, 1267);
    if probe.Fail? {
      return probe, [];
    }
    var buf, sizeAgain;
    err, sizeAgain, buf := disk.GetMetadataKeys(requiredLen);
    o := CheckAndThrow(err, 1271);
    if o.Fail? {
      return o, [];
    }
    o, out := WalkKeys(disk, buf);
  }

  /** Before the first bad key, a key is bad exactly when it is the first bad one. */
  lemma FirstBadAt(keys: seq<string>, bad: set<string>, j: nat)
    requires j <= FirstBad(keys, bad) && j < |keys|
    ensures keys[j] in bad <==> j == FirstBad(keys, bad)
  {
  }

  /**
   * The two-phase read of key `j` of the key list, inside the walk: it
   * succeeds before the first unreadable key, and that key raises at 1278
   * when its probe fails or at 1283 when only its fetch fails.
   */
  method ReadKey(disk: Disk, key: string, ghost j: nat, ghost n: nat) returns (r: Result<string, ErrWrapper>)
    requires disk.Valid() && !disk.metaFault
    requires j < |disk.meta.order| && key == disk.meta.order[j]
    requires n == FirstBad(disk.meta.order, disk.probeFaults + disk.fetchFaults) && j <= n
    ensures r.Success? <==> j < n
    ensures r.Success? ==> key in disk.meta.table && r.value == disk.meta.table[key]
    ensures r.Failure? ==> r.error == FromCode(EIo, if key in disk.probeFaults then 1278 else 1283)
  {
    FirstBadAt(disk.meta.order, disk.probeFaults + disk.fetchFaults, j);
    r := ReadValue(disk, key, 1278, 1283);
  }

  /**
   * The `while (*key)` loop of DoDumpMetadata over the fetched key list: each
   * key is read with a probe (1278) and a fetch (1283) and printed with its
   * value; the first key that cannot be read raises.
   */
  method WalkKeys(disk: Disk, buf: seq<char>) returns (o: Outcome<ErrWrapper>, out: seq<(string, string)>)
    requires disk.Valid() && !disk.metaFault && buf == KeyBuffer(disk.meta.order)
    ensures var keys, n := disk.meta.order, FirstBad(disk.meta.order, disk.probeFaults + disk.fetchFaults);
      && out == Listing(disk.meta, n)
      && o == if n == |keys| then Pass else Fail(FromCode(EIo, if keys[n] in disk.probeFaults then 1278 else 1283))
  {
    ghost var keys, table := disk.meta.order, disk.meta.table;
    ghost var n := FirstBad(keys, disk.probeFaults + disk.fetchFaults);
    out := [];
    var pos := 0;
    ghost var j := 0;
    if |keys| == 0 {
      KeyEnd(keys);
    } else {
      KeyAt(keys, 0);
    }
    while buf[pos] != NUL
      invariant j <= |keys| && pos == |Join(keys[..j])| && pos < |buf|
      invariant buf[pos] == NUL <==> j == |keys|
      invariant Listed(out, keys, table, j) && j <= n
      decreases |keys| - j
    {
      var key, next := NextKey(buf, pos, keys, j);
      var val := ReadKey(disk, key, j, n);
      match val
      case Failure(e) =>
        ListedFirst(out, disk.meta, j);
        assert j == n && out == Listing(disk.meta, n);
        return Fail(e), out;
      case Success(v) =>
      ListedNext(out, keys, table, j);
      out := out + [(key, v)];
      pos, j := next, j + 1;
    }
    ListedFirst(out, disk.meta, j);
    assert j == n == |keys|;
    o := Pass;
  }

  /**
   * DoDumpMetadata: opens the disk at the configured path (raising at line
   * 606 when it cannot), lists its metadata and closes the disk again on
   * every path.
   */
  method DoDumpMetadata(conn: Connection, c: Args.Config) returns (o: Outcome<ErrWrapper>, out: seq<(string, string)>)
    requires conn.Valid()
    modifies conn.Targets(c.disk.diskPath)`isOpen, conn.Targets(c.disk.diskPath)`readOnly
    ensures conn.Resolve(c.disk.diskPath) == null ==> o == Fail(FromCode(EFileNotFound, 606)) && out == []
    ensures var d := conn.Resolve(c.disk.diskPath);
      d != null ==> !d.isOpen && d.readOnly == c.openFlags.readOnly
    ensures var d := conn.Resolve(c.disk.diskPath);
      d != null && d.metaFault ==> o == Fail(FromCode(EIo, 1267)) && out == []
    ensures var d := conn.Resolve(c.disk.diskPath);
      d != null && !d.metaFault && d.keysFault ==> o == Fail(FromCode(EIo, 1271)) && out == []
    ensures var d := conn.Resolve(c.disk.diskPath);
      d != null && !d.metaFault && !d.keysFault ==>
        var keys, n := d.meta.order, FirstBad(d.meta.order, d.probeFaults + d.fetchFaults);
        && out == Listing(d.meta, n)
        && o == if n == |keys| then Pass else Fail(FromCode(EIo, if keys[n] in d.probeFaults then 1278 else 1283))
  {
    var held := VixDisk.Open(conn, c.disk.diskPath, c.openFlags);
    if held.Failure? {
      return Fail(held.error), [];
    }
    var disk := held.value;
    o, out := DumpMetadata(disk.handle);
    disk.Release();
  }
}
