/**
 * An abstract stand-in for the closed disk library the sample drives: a disk
 * is a capacity, one 512-byte block per sector, a metadata table and a log of
 * the transfers requested of it. Failures are part of the disk's state (a set
 * of sectors whose access fails, a failing GetInfo, failing metadata calls,
 * keys whose metadata cannot be read),
 * so which request fails first is determined by the inputs.
 */
module DiskLib {
  import opened CTypes
  import opened Wrappers
  import opened VixErrors
  import opened CLib

  type Block = b: seq<byte> | |b| == 512 witness seq(512, _ => 0)

  /** A block of 512 zero bytes. */
  function ZeroBlock(): (b: Block)
    ensures forall j :: 0 <= j < 512 ==> b[j] == 0
  {
    seq(512, _ => 0)
  }

  /** `memset(buf, filler, 512)`: every byte is `filler` converted to `unsigned char`. */
  function FilledBlock(filler: int): (b: Block)
    ensures forall j :: 0 <= j < 512 ==> b[j] == filler % 256
  {
    seq(512, _ => filler % 256)
  }

  /** A transfer requested of a disk: `count` sectors from `start`. */
  datatype IoRequest = IoRequest(write: bool, start: nat, count: nat)

  /** Whether any sector of [start, start + count) is in `faults`. */
  predicate Hits(faults: set<nat>, start: nat, count: nat)
  {
    exists s :: s in faults && start <= s < start + count
  }

  /**
   * The result of a transfer: out of range, a write to a read-only handle, an
   * I/O error on a failing sector, or success.
   */
  function IoStatus(capacity: nat, faults: set<nat>, readOnly: bool, write: bool, start: nat, count: nat): (e: VixError)
    ensures e == VixOk <==> start + count <= capacity && !(write && readOnly) && !Hits(faults, start, count)
  {
    if start + count > capacity then ESectorRange
    else if write && readOnly then EReadOnly
    else if Hits(faults, start, count) then EIo
    else VixOk
  }

  predicate ValidKey(k: string)
  {
    |k| > 0 && NUL !in k
  }

  /** The key list the library hands out: every key followed by a NUL. */
  function Join(keys: seq<string>): seq<char>
  {
    if |keys| == 0 then [] else Join(keys[..|keys| - 1]) + keys[|keys| - 1] + [NUL]
  }

  /** The full key buffer: the keys, then the empty string that ends the list. */
  function KeyBuffer(keys: seq<string>): seq<char>
  {
    Join(keys) + [NUL]
  }

  /**
   * A disk's metadata: a table from keys to values, and the order in which the
   * keys were first written (the order of the key list).
   */
  datatype MetaStore = MetaStore(order: seq<string>, table: map<string, string>)
  {
    ghost predicate Valid()
    {
      && (forall i, j :: 0 <= i < j < |order| ==> order[i] != order[j])
      && (forall k :: k in table <==> k in order)
      && (forall i :: 0 <= i < |order| ==> ValidKey(order[i]))
      && (forall k :: k in table ==> NUL !in table[k])
    }

    /** Sets `key` to `val`; a new key goes to the end of the order. */
    function Upsert(key: string, val: string): (m: MetaStore)
      ensures m.table == table[key := val]
      ensures m.order == if key in table then order else order + [key]
    {
      if key in table then MetaStore(order, table[key := val])
      else MetaStore(order + [key], table[key := val])
    }
  }

  /** Writing a valid key and a C-string value keeps the store valid. */
  lemma UpsertValid(m: MetaStore, key: string, val: string)
    requires m.Valid() && ValidKey(key) && NUL !in val
    ensures m.Upsert(key, val).Valid()
    ensures m.Upsert(key, val).table[key] == val
    ensures forall k :: k in m.table && k != key ==> m.Upsert(key, val).table[k] == m.table[k]
  {
    var n := m.Upsert(key, val);
    if key !in m.table {
      forall i, j | 0 <= i < j < |n.order|
        ensures n.order[i] != n.order[j]
      {
        if j == |m.order| {
          assert n.order[j] == key;
          assert n.order[i] == m.order[i];
        }
      }
    }
  }

  /** The controller a new disk is created for (VixDiskLibAdapterType): BusLogic SCSI or IDE. */
  datatype Adapter = ScsiBuslogic | Ide

  class Disk {
    var capacity: nat
    /** The adapter type the disk was created with. */
    var adapter: Adapter
    var contents: seq<Block>
    /** Sectors whose read or write fails with an I/O error. */
    var faults: set<nat>
    var infoFault: bool
    var meta: MetaStore
    var metaFault: bool
    /** Whether fetching the key list fails with an I/O error once its size is known. */
    var keysFault: bool
    /** Keys whose every ReadMetadata call, the size probe included, fails with an I/O error. */
    var probeFaults: set<string>
    /** Keys whose size probe works but whose value fetch fails with an I/O error. */
    var fetchFaults: set<string>
    /** Whether the open handle is read-only (VIXDISKLIB_FLAG_OPEN_READ_ONLY). */
    var readOnly: bool
    var isOpen: bool
    var log: seq<IoRequest>

    ghost predicate Valid()
      reads this
    {
      |contents| == capacity && capacity < U64 && meta.Valid()
    }

    constructor Create(capacity: u64, adapter: Adapter)
      ensures Valid() && this.capacity == capacity && this.adapter == adapter && !isOpen
      ensures contents == seq(capacity, _ => ZeroBlock())
      ensures faults == {} && !infoFault && !metaFault && log == []
      ensures !keysFault && probeFaults == {} && fetchFaults == {}
      ensures meta == MetaStore([], map[])
    {
      this.capacity := capacity;
      this.adapter := adapter;
      contents := seq(capacity, _ => ZeroBlock());
      faults := {};
      infoFault := false;
      meta := MetaStore([], map[]);
      metaFault := false;
      keysFault := false;
      probeFaults := {};
      fetchFaults := {};
      readOnly := false;
      isOpen := false;
      log := [];
    }

    /** VixDiskLib_Read: `count` sectors from `start`, all or nothing. */
    method Read(start: nat, count: nat) returns (err: VixError, data: seq<Block>)
      requires Valid()
      modifies this`log
      ensures err == IoStatus(capacity, faults, readOnly, false, start, count)
      ensures err == VixOk ==> start + count <= capacity && data == contents[start..start + count]
      ensures log == old(log) + [IoRequest(false, start, count)]
    {
      log := log + [IoRequest(false, start, count)];
      err := IoStatus(capacity, faults, readOnly, false, start, count);
      data := if err == VixOk then contents[start..start + count] else [];
    }

    /** VixDiskLib_Write: `count` sectors from `start`, all or nothing. */
    method Write(start: nat, count: nat, data: seq<Block>) returns (err: VixError)
      requires Valid() && |data| == count
      modifies this`contents, this`log
      ensures Valid()
      ensures err == IoStatus(capacity, faults, readOnly, true, start, count)
      ensures err == VixOk ==> start + count <= capacity
      ensures contents == if err == VixOk then old(contents)[..start] + data + old(contents)[start + count..]
                          else old(contents)
      ensures log == old(log) + [IoRequest(true, start, count)]
    {
      log := log + [IoRequest(true, start, count)];
      err := IoStatus(capacity, faults, readOnly, true, start, count);
      if err == VixOk {
        contents := contents[..start] + data + contents[start + count..];
      }
    }

    /** VixDiskLib_GetInfo: the capacity in sectors. */
    method GetInfo() returns (err: VixError, cap: u64)
      requires Valid()
      ensures err == (if infoFault then EIo else VixOk)
      ensures err == VixOk ==> cap == capacity
    {
      if infoFault {
        err, cap := EIo, 0;
      } else {
        err, cap := VixOk, capacity;
      }
    }

    /**
     * VixDiskLib_GetMetadataKeys into a buffer of `bufLen` chars: reports the
     * length needed, and fills the buffer only when it is large enough.
     */
    method GetMetadataKeys(bufLen: nat) returns (err: VixError, requiredLen: nat, buf: seq<char>)
      requires Valid()
      ensures metaFault ==> err == EIo
      ensures !metaFault ==> requiredLen == |KeyBuffer(meta.order)|
      ensures !metaFault ==> err == (if bufLen < requiredLen then EBufferTooSmall else if keysFault then EIo else VixOk)
      ensures err == VixOk ==> buf == KeyBuffer(meta.order)
    {
      if metaFault {
        return EIo, 0, [];
      }
      var keys := KeyBuffer(meta.order);
      requiredLen := |keys|;
      if bufLen < requiredLen {
        err, buf := EBufferTooSmall, [];
      } else if keysFault {
        err, buf := EIo, [];
      } else {
        err, buf := VixOk, keys;
      }
    }

    /** VixDiskLib_ReadMetadata of `key` into a buffer of `bufLen` chars. */
    method ReadMetadata(key: string, bufLen: nat) returns (err: VixError, requiredLen: nat, val: seq<char>)
      requires Valid()
      ensures metaFault ==> err == EIo
      ensures !metaFault && key !in meta.table ==> err == EKeyNotFound
      ensures !metaFault && key in meta.table && key in probeFaults ==> err == EIo
      ensures !metaFault && key in meta.table && key !in probeFaults ==>
        requiredLen == |meta.table[key]| + 1 &&
        err == (if bufLen < requiredLen then EBufferTooSmall else if key in fetchFaults then EIo else VixOk)
      ensures err == VixOk ==> key in meta.table && val == meta.table[key] + [NUL]
    {
      if metaFault {
        return EIo, 0, [];
      }
      if key !in meta.table {
        return EKeyNotFound, 0, [];
      }
      if key in probeFaults {
        return EIo, 0, [];
      }
      requiredLen := |meta.table[key]| + 1;
      if bufLen < requiredLen {
        err, val := EBufferTooSmall, [];
      } else if key in fetchFaults {
        err, val := EIo, [];
      } else {
        err, val := VixOk, meta.table[key] + [NUL];
      }
    }

    /** VixDiskLib_WriteMetadata: sets `key` to `val`. */
    method WriteMetadata(key: string, val: string) returns (err: VixError)
      requires Valid() && NUL !in key && NUL !in val
      modifies this`meta
      ensures Valid()
      ensures err == (if metaFault then EIo else if readOnly then EReadOnly else if key == [] then EInvalidArg else VixOk)
      ensures meta == if err == VixOk then old(meta).Upsert(key, val) else old(meta)
    {
      if metaFault {
        err := EIo;
      } else if readOnly {
        err := EReadOnly;
      } else if key == [] {
        err := EInvalidArg;
      } else {
        UpsertValid(meta, key, val);
        meta := meta.Upsert(key, val);
        err := VixOk;
      }
    }

    /** VixDiskLib_Close. */
    method Close()
      modifies this`isOpen
      ensures !isOpen
    {
      isOpen := false;
    }
  }

  /** The open flags the sample passes: read-only and single-link. */
  datatype OpenFlags = OpenFlags(readOnly: bool, singleLink: bool)

  /** A connection to a host: the disks it can open, by path. */
  class Connection {
    var images: map<string, Disk>
    /**
     * The code the host answers a create at each listed path with (the file
     * exists, no permission, no space); a create at a path not listed succeeds.
     */
    var refusals: map<string, VixError>
    /** Cleared by VixDiskLib_Disconnect. */
    var connected: bool

    function Resolve(path: Option<string>): (d: Disk?)
      reads this
      ensures d != null <==> path.Some? && path.value in images
    {
      if path.Some? && path.value in images then images[path.value] else null
    }

    /** The disk `path` names, as a set (empty when there is none). */
    function Targets(path: Option<string>): set<Disk>
      reads this
    {
      if path.Some? && path.value in images then {images[path.value]} else {}
    }

    ghost predicate Valid()
      reads this, set p | p in images :: images[p]
    {
      forall p :: p in images ==> images[p].Valid()
    }

    /** VixDiskLib_Open: fails when there is no disk at `path`. */
    method Open(path: Option<string>, flags: OpenFlags) returns (err: VixError, h: Disk?)
      modifies Targets(path)`isOpen, Targets(path)`readOnly
      ensures h == Resolve(path)
      ensures err == (if h == null then EFileNotFound else VixOk)
      ensures h != null ==> h.isOpen && h.readOnly == flags.readOnly
    {
      h := Resolve(path);
      if h == null {
        err := EFileNotFound;
      } else {
        h.isOpen := true;
        h.readOnly := flags.readOnly;
        err := VixOk;
      }
    }

    /** What VixDiskLib_Create answers for `path`: no path is an invalid argument, a refused one its code. */
    function CreateStatus(path: Option<string>): (err: VixError)
      reads this
      ensures path.None? ==> err == EInvalidArg
      ensures path.Some? && path.value !in refusals ==> err == VixOk
      ensures path.Some? && path.value in refusals ==> err == refusals[path.value]
    {
      if path.None? then EInvalidArg
      else if path.value in refusals then refusals[path.value]
      else VixOk
    }

    /**
     * VixDiskLib_Create of a new, zero-filled disk of `capacity` sectors for
     * `adapter`, unless the host refuses the path; the other disks stay.
     */
    method Create(path: Option<string>, capacity: u64, adapter: Adapter) returns (err: VixError)
      modifies this`images
      ensures err == CreateStatus(path)
      ensures err != VixOk ==> images == old(images)
      ensures err == VixOk ==> path.Some? && path.value in images && fresh(images[path.value])
      ensures err == VixOk ==> images[path.value].Valid() && !images[path.value].isOpen
      ensures err == VixOk ==> images[path.value].capacity == capacity && images[path.value].adapter == adapter
      ensures err == VixOk ==> images[path.value].contents == seq(capacity, _ => ZeroBlock())
      ensures forall p :: p in old(images) && Some(p) != path ==> p in images && images[p] == old(images)[p]
    {
      err := CreateStatus(path);
      if err != VixOk {
        return;
      }
      var d := new Disk.Create(capacity, adapter);
      images := images[path.value := d];
    }

    /** VixDiskLib_Disconnect: the connection is closed; its disks stay as they are. */
    method Disconnect()
      modifies this`connected
      ensures !connected
    {
      connected := false;
    }

    /** VixDiskLib_Unlink: removes the disk at `path`; the other disks stay. */
    method Unlink(path: string) returns (err: VixError)
      modifies this`images
      ensures err == (if path in old(images) then VixOk else EFileNotFound)
      ensures images == old(images) - {path}
    {
      err := if path in images then VixOk else EFileNotFound;
      images := images - {path};
    }
  }

  /**
   * The sample's `VixDisk`: a handle opened in the constructor and closed in
   * the destructor.
   */
  class VixDisk {
    var handle: Disk?

    constructor Adopt(h: Disk)
      ensures handle == h
    {
      handle := h;
    }

    /**
     * The constructor: opens `path` and raises (line 606) when the library
     * refuses; no object exists then, so nothing is closed.
     */
    static method Open(conn: Connection, path: Option<string>, flags: OpenFlags) returns (r: Result<VixDisk, ErrWrapper>)
      modifies conn.Targets(path)`isOpen, conn.Targets(path)`readOnly
      ensures r.Failure? <==> conn.Resolve(path) == null
      ensures r.Failure? ==> r.error == FromCode(EFileNotFound, 606)
      ensures r.Success? ==> fresh(r.value) && r.value.handle == conn.Resolve(path)
      ensures r.Success? ==> r.value.handle.isOpen && r.value.handle.readOnly == flags.readOnly
    {
      var err, h := conn.Open(path, flags);
      var check := CheckAndThrow(err, 606);
      if check.Fail? {
        return Failure(check.error);
      }
      var d := new VixDisk.Adopt(h);
      r := Success(d);
    }

    /** The disk the handle holds, as a set (empty once released). */
    function Held(): set<Disk>
      reads this
    {
      if handle == null then {} else {handle}
    }

    /** The destructor: closes a non-null handle and clears it. */
    method Release()
      modifies this`handle, Held()`isOpen
      ensures handle == null
      ensures old(handle) != null ==> !old(handle).isOpen
    {
      if handle != null {
        handle.Close();
      }
      handle := null;
    }
  }
}
