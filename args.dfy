/**
 * The sample's command line: the option words it knows, the global settings
 * record they fill in (with the defaults `main` installs), and
 * `ParseArguments`, which walks argv, requires exactly one command and checks
 * the remote-connection settings.
 *
 * argv is a sequence of C strings; `argv[argc]` is the terminating NULL
 * pointer, written `None` here. Comparing words with `strcmp` is `==`.
 */
module Args {
  import opened CTypes
  import opened Wrappers
  import opened Bits
  import opened CLib
  import opened DiskLib

  /** The twelve commands, numbered by the bit each sets in `command`. */
  datatype Command =
    | Create | Dump | Fill | Info | Redo | DumpMeta
    | ReadMeta | WriteMeta | MultiThread | Clone | ReadBench | WriteBench

  function Index(cmd: Command): nat
  {
    match cmd
    case Create => 0
    case Dump => 1
    case Fill => 2
    case Info => 3
    case Redo => 4
    case DumpMeta => 5
    case ReadMeta => 6
    case WriteMeta => 7
    case MultiThread => 8
    case Clone => 9
    case ReadBench => 10
    case WriteBench => 11
  }

  /** COMMAND_CREATE .. COMMAND_WRITEBENCH: `1 << Index(cmd)`. */
  function Bit(cmd: Command): (b: nat)
    ensures 0 < b < 0x1000
  {
    match cmd
    case Create => 0x1
    case Dump => 0x2
    case Fill => 0x4
    case Info => 0x8
    case Redo => 0x10
    case DumpMeta => 0x20
    case ReadMeta => 0x40
    case WriteMeta => 0x80
    case MultiThread => 0x100
    case Clone => 0x200
    case ReadBench => 0x400
    case WriteBench => 0x800
  }

  /** The option words the parser recognises, and every other word. */
  datatype Opt =
    | InfoOpt | CreateOpt | DumpOpt | FillOpt | MetaOpt | SingleOpt | AdapterOpt
    | RMetaOpt | WMetaOpt | RedoOpt | ValOpt | StartOpt | CountOpt | CapOpt
    | CloneOpt | ReadBenchOpt | WriteBenchOpt | MultiThreadOpt | HostOpt
    | UserOpt | PasswordOpt | ThumbOpt | PortOpt | VmOpt | LibDirOpt
    | InitExOpt | SsMoRefOpt | ModeOpt | Unknown

  /** How many option words the parser loop compares with `strcmp`. */
  const OptionCount: nat := 28

  /** The `k`-th option in the order the parser loop compares them. */
  function OptionAt(k: nat): Opt
  {
    if k == 0 then InfoOpt
    else if k == 1 then CreateOpt
    else if k == 2 then DumpOpt
    else if k == 3 then FillOpt
    else if k == 4 then MetaOpt
    else if k == 5 then SingleOpt
    else if k == 6 then AdapterOpt
    else if k == 7 then RMetaOpt
    else if k == 8 then WMetaOpt
    else if k == 9 then RedoOpt
    else if k == 10 then ValOpt
    else if k == 11 then StartOpt
    else if k == 12 then CountOpt
    else if k == 13 then CapOpt
    else if k == 14 then CloneOpt
    else if k == 15 then ReadBenchOpt
    else if k == 16 then WriteBenchOpt
    else if k == 17 then MultiThreadOpt
    else if k == 18 then HostOpt
    else if k == 19 then UserOpt
    else if k == 20 then PasswordOpt
    else if k == 21 then ThumbOpt
    else if k == 22 then PortOpt
    else if k == 23 then VmOpt
    else if k == 24 then LibDirOpt
    else if k == 25 then InitExOpt
    else if k == 26 then SsMoRefOpt
    else if k == 27 then ModeOpt
    else Unknown
  }

  /** The word that names an option on the command line. */
  function Word(o: Opt): string
  {
    match o
    case InfoOpt => "-info"
    case CreateOpt => "-create"
    case DumpOpt => "-dump"
    case FillOpt => "-fill"
    case MetaOpt => "-meta"
    case SingleOpt => "-single"
    case AdapterOpt => "-adapter"
    case RMetaOpt => "-rmeta"
    case WMetaOpt => "-wmeta"
    case RedoOpt => "-redo"
    case ValOpt => "-val"
    case StartOpt => "-start"
    case CountOpt => "-count"
    case CapOpt => "-cap"
    case CloneOpt => "-clone"
    case ReadBenchOpt => "-readbench"
    case WriteBenchOpt => "-writebench"
    case MultiThreadOpt => "-multithread"
    case HostOpt => "-host"
    case UserOpt => "-user"
    case PasswordOpt => "-password"
    case ThumbOpt => "-thumb"
    case PortOpt => "-port"
    case VmOpt => "-vm"
    case LibDirOpt => "-libdir"
    case InitExOpt => "-initex"
    case SsMoRefOpt => "-ssmoref"
    case ModeOpt => "-mode"
    case Unknown => ""
  }

  /** The `strcmp` chain from the `k`-th option word on. */
  function Lookup(w: string, k: nat): Opt
    decreases OptionCount - k, |w|
  {
    if k >= OptionCount then Unknown
    else if Word(OptionAt(k)) == w then OptionAt(k)
    else Lookup(w, k + 1)
  }

  /** The option a word of argv names: the first option word equal to it. */
  function Classify(w: string): Opt
  {
    Lookup(w, 0)
  }

  /** The option the chain finds from `k` on is one whose word is `w`. */
  lemma {:induction false} LookupWord(w: string, k: nat)
    ensures Lookup(w, k) != Unknown ==> Word(Lookup(w, k)) == w
    decreases OptionCount - k
  {
    if k < OptionCount && Word(OptionAt(k)) != w {
      LookupWord(w, k + 1);
    }
  }

  /** The command an option word selects, if any. */
  function CommandOf(o: Opt): Option<Command>
  {
    match o
    case InfoOpt => Some(Info)
    case CreateOpt => Some(Create)
    case DumpOpt => Some(Dump)
    case FillOpt => Some(Fill)
    case MetaOpt => Some(DumpMeta)
    case RMetaOpt => Some(ReadMeta)
    case WMetaOpt => Some(WriteMeta)
    case RedoOpt => Some(Redo)
    case CloneOpt => Some(Clone)
    case ReadBenchOpt => Some(ReadBench)
    case WriteBenchOpt => Some(WriteBench)
    case MultiThreadOpt => Some(MultiThread)
    case _ => None
  }

  /** How many of the following words an option consumes as its values. */
  function Arity(o: Opt): nat
  {
    match o
    case InfoOpt | CreateOpt | DumpOpt | FillOpt | MetaOpt | SingleOpt | Unknown => 0
    case WMetaOpt => 2
    case _ => 1
  }

  /** Options that make the connection remote. */
  const RemoteOptions: set<Opt> := {HostOpt, UserOpt, PasswordOpt, ThumbOpt, PortOpt, VmOpt}

  /** Options that add VIXDISKLIB_FLAG_OPEN_READ_ONLY. */
  const ReadOnlyOptions: set<Opt> := {InfoOpt, DumpOpt, MetaOpt, RMetaOpt, ReadBenchOpt, MultiThreadOpt}

  /**
   * Whether the option at position `p` makes the parser print usage: an
   * unknown word, or a value-taking option (other than `-readbench`, whose
   * check is disabled) whose last value would be the disk path or beyond.
   */
  predicate Rejects(argv: seq<string>, p: nat)
    requires p < |argv|
  {
    RejectsOpt(Classify(argv[p]), p, |argv|)
  }

  /** Whether option `o` at position `p` of an argv of length `argc` makes the parser print usage. */
  predicate RejectsOpt(o: Opt, p: nat, argc: nat): (b: bool)
    ensures Arity(o) == 0 ==> (b <==> o == Unknown)
    ensures o == ReadBenchOpt ==> !b
  {
    o == Unknown || (Arity(o) > 0 && o != ReadBenchOpt && p + Arity(o) >= argc - 1)
  }

  /** The disk named on the command line and the values of its disk options. */
  datatype DiskArgs = DiskArgs(
    adapterType: Adapter,
    diskPath: Option<string>,
    parentPath: Option<string>,
    srcPath: Option<string>,
    metaKey: Option<string>,
    metaVal: Option<string>)

  /** The numbers that drive the sector commands and the benchmarks. */
  datatype IoArgs = IoArgs(
    filler: i32,
    mbSize: u32,
    numSectors: u64,
    startSector: u64,
    bufSize: u64,
    numThreads: u32)

  /** The connection settings; any of them makes the connection remote. */
  datatype RemoteArgs = RemoteArgs(
    isRemote: bool,
    host: Option<string>,
    userName: Option<string>,
    password: Option<string>,
    thumbPrint: Option<string>,
    port: i32,
    vmxSpec: Option<string>)

  /** How the library is initialised and which transport it may use. */
  datatype LibraryArgs = LibraryArgs(
    transportModes: Option<string>,
    useInitEx: bool,
    cfgFile: Option<string>,
    libdir: Option<string>,
    ssMoRef: Option<string>)

  /**
   * The `appGlobals` record (without the connection handle): its 27 settings
   * gathered into four groups beside `command`, `openFlags` and `success`.
   */
  datatype Config = Config(
    command: nat,
    openFlags: OpenFlags,
    success: bool,
    disk: DiskArgs,
    io: IoArgs,
    remote: RemoteArgs,
    library: LibraryArgs)

  /** The record after `memset` to zero and the assignments that follow it in `main`. */
  function Defaults(): (c: Config)
    ensures c.command == 0 && c.disk.adapterType == ScsiBuslogic && c.io.startSector == 0
    ensures c.io.numSectors == 1 && c.io.mbSize == 100 && c.io.filler == 0xff && c.io.numThreads == 1
    ensures c.openFlags == OpenFlags(false, false) && c.success && !c.remote.isRemote
    ensures c.disk.diskPath.None? && c.remote.host.None? && c.remote.port == 0 && c.io.bufSize == 0
  {
    Config(0, OpenFlags(false, false), true,
           DiskArgs(ScsiBuslogic, None, None, None, None, None),
           IoArgs(0xff, 100, 1, 0, 0, 1),
           RemoteArgs(false, None, None, None, None, 0, None),
           LibraryArgs(None, false, None, None, None))
  }

  /** One pass of the loop body on the option at `i`. */
  datatype Step = Next(cfg: Config, last: nat) | Usage(cfg: Config)

  function ReadOnly(c: Config): Config
  {
    c.(openFlags := c.openFlags.(readOnly := true))
  }

  function AddCommand(c: Config, cmd: Command): Config
  {
    c.(command := Or(c.command, Bit(cmd)))
  }

  /**
   * The body of the parser loop for the option at position `i`: the new
   * settings and the position of the last word consumed, or usage.
   */
  function StepAt(argv: seq<string>, i: nat, c: Config): (s: Step)
    requires 1 <= i < |argv| - 1
    ensures s.Usage? <==> Rejects(argv, i)
    ensures s.Next? ==> s.last == i + Arity(Classify(argv[i])) && s.last <= |argv| - 1
  {
    StepFor(Classify(argv[i]), argv, i, c)
  }

  /**
   * The loop body once the word at `i` is known to be the option `o`: usage
   * when the option is rejected, otherwise its update, which consumes the
   * option's value words.
   */
  function StepFor(o: Opt, argv: seq<string>, i: nat, c: Config): (s: Step)
    requires 1 <= i < |argv| - 1
    ensures s.Usage? <==> RejectsOpt(o, i, |argv|)
    ensures s.Next? ==> s.last == i + Arity(o) && s.last <= |argv| - 1
  {
    if RejectsOpt(o, i, |argv|) then Usage(Early(o, c))
    else Next(Update(o, argv, i, c), i + Arity(o))
  }

  /** `-rmeta` and `-wmeta` record their command before checking for their values. */
  function Early(o: Opt, c: Config): (r: Config)
    ensures r.(command := c.command) == c
    ensures o != RMetaOpt && o != WMetaOpt ==> r == c
  {
    match o
    case RMetaOpt => AddCommand(c, ReadMeta)
    case WMetaOpt => AddCommand(c, WriteMeta)
    case _ => c
  }

  /** The settings after the option `o` at `argv[i]` and its value words. */
  function Update(o: Opt, argv: seq<string>, i: nat, c: Config): (r: Config)
    requires i + Arity(o) < |argv|
    ensures r.success == c.success && r.disk.diskPath == c.disk.diskPath
  {
    match o
    case InfoOpt => ReadOnly(AddCommand(c, Info))
    case CreateOpt => AddCommand(c, Create)
    case DumpOpt => ReadOnly(AddCommand(c, Dump))
    case FillOpt => AddCommand(c, Fill)
    case MetaOpt => ReadOnly(AddCommand(c, DumpMeta))
    case SingleOpt => c.(openFlags := c.openFlags.(singleLink := true))
    case AdapterOpt => c.(disk := c.disk.(adapterType := if argv[i] == "scsi" then ScsiBuslogic else Ide))
    case RMetaOpt => ReadOnly(AddCommand(c, ReadMeta).(disk := c.disk.(metaKey := Some(argv[i + 1]))))
    case WMetaOpt =>
      AddCommand(c, WriteMeta).(disk := c.disk.(metaKey := Some(argv[i + 1]), metaVal := Some(argv[i + 2])))
    case RedoOpt => AddCommand(c, Redo).(disk := c.disk.(parentPath := Some(argv[i + 1])))
    case ValOpt => c.(io := c.io.(filler := ToI32(StrToL(argv[i + 1]))))
    case StartOpt => c.(io := c.io.(startSector := ToU64(StrToL(argv[i + 1]))))
    case CountOpt => c.(io := c.io.(numSectors := ToU64(StrToL(argv[i + 1]))))
    case CapOpt => c.(io := c.io.(mbSize := ToU32(StrToL(argv[i + 1]))))
    case CloneOpt => AddCommand(c, Clone).(disk := c.disk.(srcPath := Some(argv[i + 1])))
    case ReadBenchOpt => ReadOnly(AddCommand(c, ReadBench).(io := c.io.(bufSize := ToU64(StrToL(argv[i + 1])))))
    case WriteBenchOpt => AddCommand(c, WriteBench).(io := c.io.(bufSize := ToU64(StrToL(argv[i + 1]))))
    case MultiThreadOpt => ReadOnly(AddCommand(c, MultiThread).(io := c.io.(numThreads := ToU32(StrToL(argv[i + 1])))))
    case HostOpt => c.(remote := c.remote.(host := Some(argv[i + 1]), isRemote := true))
    case UserOpt => c.(remote := c.remote.(userName := Some(argv[i + 1]), isRemote := true))
    case PasswordOpt => c.(remote := c.remote.(password := Some(argv[i + 1]), isRemote := true))
    case ThumbOpt => c.(remote := c.remote.(thumbPrint := Some(argv[i + 1]), isRemote := true))
    case PortOpt => c.(remote := c.remote.(port := ToI32(StrToL(argv[i + 1])), isRemote := true))
    case VmOpt => c.(remote := c.remote.(vmxSpec := Some(argv[i + 1]), isRemote := true))
    case LibDirOpt => c.(library := c.library.(libdir := Some(argv[i + 1])))
    case InitExOpt =>
      var f := argv[i + 1];
      c.(library := c.library.(useInitEx := true, cfgFile := if f == "" then None else Some(f)))
    case SsMoRefOpt => c.(library := c.library.(ssMoRef := Some(argv[i + 1])))
    case ModeOpt => c.(library := c.library.(transportModes := Some(argv[i + 1])))
    case Unknown => c
  }

  /** Where the loop ends: settings, final index and the option positions visited. */
  datatype Walk = Done(cfg: Config, next: nat, visited: seq<nat>) | Stopped(cfg: Config, visited: seq<nat>)

  /** The parser loop `for (; i < argc - 1; i++)` from position `i`. */
  function Loop(argv: seq<string>, i: nat, c: Config, visited: seq<nat>): Walk
    requires 1 <= i <= |argv|
    decreases |argv| - i, 1
  {
    if i >= |argv| - 1 then Done(c, i, visited) else LoopBody(argv, i, c, visited)
  }

  /** The loop started at `i` with settings `c` ends in `w`. */
  ghost predicate EndsIn(argv: seq<string>, i: nat, c: Config, visited: seq<nat>, w: Walk)
  {
    1 <= i <= |argv| && Loop(argv, i, c, visited) == w
  }

  /** One pass of the loop body at `i`, then the rest of the loop. */
  function LoopBody(argv: seq<string>, i: nat, c: Config, visited: seq<nat>): Walk
    requires 1 <= i < |argv| - 1
    decreases |argv| - i, 0
  {
    match StepAt(argv, i, c)
    case Usage(c1) => Stopped(c1, visited + [i])
    case Next(c1, j) => Loop(argv, j + 1, c1, visited + [i])
  }

  /** One iteration of the loop. */
  lemma LoopStep(argv: seq<string>, i: nat, c: Config, visited: seq<nat>)
    requires 1 <= i < |argv| - 1
    ensures StepAt(argv, i, c).Usage? ==> Loop(argv, i, c, visited) == Stopped(StepAt(argv, i, c).cfg, visited + [i])
    ensures StepAt(argv, i, c).Next? ==>
      Loop(argv, i, c, visited) == Loop(argv, StepAt(argv, i, c).last + 1, StepAt(argv, i, c).cfg, visited + [i])
  {
  }

  /** A loop started on the last two words ends there, normally. */
  lemma LoopDone(argv: seq<string>, i: nat, c: Config, visited: seq<nat>, w: Walk)
    requires |argv| - 1 <= i && EndsIn(argv, i, c, visited, w)
    ensures w == Done(c, i, visited)
  {
  }

  /**
   * The loop at `i`, ending in `w`, either stops there, or goes on after the
   * last word the option consumed, with the option's update.
   */
  lemma LoopPass(argv: seq<string>, i: nat, c: Config, visited: seq<nat>, w: Walk) returns (accepted: bool, c1: Config, last: nat)
    requires i < |argv| - 1 && EndsIn(argv, i, c, visited, w)
    ensures accepted <==> StepAt(argv, i, c).Next?
    ensures accepted ==> StepAt(argv, i, c) == Next(c1, last)
    ensures accepted ==> i <= last && EndsIn(argv, last + 1, c1, visited + [i], w)
    ensures !accepted ==> w.Stopped?
  {
    LoopStep(argv, i, c, visited);
    match StepAt(argv, i, c)
    case Next(next, j) => accepted, c1, last := true, next, j;
    case Usage(_) => accepted, c1, last := false, c, 0;
  }

  /** The result of ParseArguments: 0 or the usage result 1, and the settings. */
  datatype Parsed = Parsed(retval: int, cfg: Config)

  /** The remote-connection checks after the loop: default port, required fields. */
  function CheckRemote(c: Config): (p: Parsed)
    ensures p.retval == 0 <==>
      !c.remote.isRemote || (c.remote.host.Some? && c.remote.userName.Some? && c.remote.password.Some?)
    ensures p.retval == 1 <==> p.retval != 0
    ensures p.cfg.(remote := c.remote) == c
    ensures p.cfg.remote.isRemote ==> p.cfg.remote.port != 0
  {
    var r := c.remote;
    if !r.isRemote then Parsed(0, c)
    else
      var r2 := if r.port == 0 then r.(port := 902) else r;
      var c2 := c.(remote := r2);
      if r2.host.None? || r2.userName.None? || r2.password.None? then Parsed(1, c2) else Parsed(0, c2)
  }

  /** ParseArguments on `argv`, starting from the settings `init`. */
  function Parse(argv: seq<string>, init: Config): (p: Parsed)
    ensures p.retval == 0 || p.retval == 1
    ensures p.retval == 0 ==> |argv| >= 3 && PopCount(p.cfg.command) == 1
  {
    if |argv| < 3 then Parsed(1, init)
    else match Loop(argv, 1, init, [])
      case Stopped(c, _) => Parsed(1, c)
      case Done(c, i, _) => Finish(argv, i, c)
  }

  /** After the loop: the disk path is `argv[i]`, then exactly one command is required. */
  function Finish(argv: seq<string>, i: nat, c: Config): (p: Parsed)
    ensures p.retval == 0 || p.retval == 1
    ensures p.retval == 0 ==> PopCount(p.cfg.command) == 1
    ensures p.cfg.disk.diskPath.Some? <==> i < |argv|
  {
    var c1 := c.(disk := c.disk.(diskPath := if i < |argv| then Some(argv[i]) else None));
    if PopCount(c1.command) != 1 then Parsed(1, c1) else CheckRemote(c1)
  }

  /** The option positions the loop visits. */
  function Visited(argv: seq<string>, init: Config): seq<nat>
    requires |argv| >= 3
  {
    Loop(argv, 1, init, []).visited
  }

  /** The sample's `appGlobals`, updated in place by ParseArguments. */
  class AppGlobals {
    var command: nat
    var openFlags: OpenFlags
    var success: bool
    var disk: DiskArgs
    var io: IoArgs
    var remote: RemoteArgs
    var library: LibraryArgs

    function Snapshot(): Config
      reads this
    {
      Config(command, openFlags, success, disk, io, remote, library)
    }

    /** The initialisation at the start of `main`. */
    constructor ()
      ensures Snapshot() == Defaults()
    {
      command := 0;
      openFlags := OpenFlags(false, false);
      success := true;
      disk := DiskArgs(ScsiBuslogic, None, None, None, None, None);
      io := IoArgs(0xff, 100, 1, 0, 0, 1);
      remote := RemoteArgs(false, None, None, None, None, 0, None);
      library := LibraryArgs(None, false, None, None, None);
    }

    /** `appGlobals.command |= bit`. */
    method SetCommand(cmd: Command)
      requires command < 0x1000
      modifies this`command
      ensures command == Or(old(command), Bit(cmd)) && command < 0x1000
    {
      assert Pow2(12) == 0x1000;
      OrBound(command, Bit(cmd), 12);
      command := Or(command, Bit(cmd));
    }

    /**
     * The loop body for the option at `i`: updates the settings and returns
     * the position of the last word consumed, or reports usage.
     */
    method ApplyOption(argv: seq<string>, i: nat) returns (usage: bool, last: nat)
      requires 1 <= i < |argv| - 1 && command < 0x1000
      modifies this
      ensures command < 0x1000
      ensures StepAt(argv, i, old(Snapshot())) == if usage then Usage(Snapshot()) else Next(Snapshot(), last)
    {
      var o := Classify(argv[i]);
      match o
      case InfoOpt | CreateOpt | DumpOpt | FillOpt | MetaOpt | SingleOpt =>
        usage, last := ApplyFlag(o, argv, i);
      case AdapterOpt | RMetaOpt | WMetaOpt | RedoOpt | CloneOpt =>
        usage, last := ApplyDiskOption(o, argv, i);
      case ValOpt | StartOpt | CountOpt | CapOpt =>
        usage, last := ApplyNumber(o, argv, i);
      case ReadBenchOpt | WriteBenchOpt | MultiThreadOpt =>
        usage, last := ApplyBench(o, argv, i);
      case HostOpt | UserOpt | PasswordOpt | ThumbOpt | PortOpt | VmOpt =>
        usage, last := ApplyRemoteOption(o, argv, i);
      case LibDirOpt | InitExOpt | SsMoRefOpt | ModeOpt =>
        usage, last := ApplyLibraryOption(o, argv, i);
      case Unknown =>
        usage, last := true, 0;
    }

    /** The loop body for an option without a value. */
    method ApplyFlag(o: Opt, argv: seq<string>, i: nat) returns (usage: bool, last: nat)
      requires 1 <= i < |argv| - 1 && command < 0x1000
      requires o == InfoOpt || o == CreateOpt || o == DumpOpt || o == FillOpt || o == MetaOpt || o == SingleOpt
      modifies this
      ensures command < 0x1000
      ensures StepFor(o, argv, i, old(Snapshot())) == if usage then Usage(Snapshot()) else Next(Snapshot(), last)
    {
      match o {
        case InfoOpt =>
          SetCommand(Info);
          openFlags := openFlags.(readOnly := true);
        case CreateOpt =>
          SetCommand(Create);
        case DumpOpt =>
          SetCommand(Dump);
          openFlags := openFlags.(readOnly := true);
        case FillOpt =>
          SetCommand(Fill);
        case MetaOpt =>
          SetCommand(DumpMeta);
          openFlags := openFlags.(readOnly := true);
        case SingleOpt =>
          openFlags := openFlags.(singleLink := true);
        case _ =>
          assert false;
      }
      return false, i;
    }

    /** The loop body for the options naming the adapter, a key, a parent or a source. */
    method ApplyDiskOption(o: Opt, argv: seq<string>, i: nat) returns (usage: bool, last: nat)
      requires 1 <= i < |argv| - 1 && command < 0x1000
      requires o == AdapterOpt || o == RMetaOpt || o == WMetaOpt || o == RedoOpt || o == CloneOpt
      modifies this
      ensures command < 0x1000
      ensures StepFor(o, argv, i, old(Snapshot())) == if usage then Usage(Snapshot()) else Next(Snapshot(), last)
    {
      var atEnd := i >= |argv| - 2;
      match o
      case AdapterOpt =>
        if atEnd { return true, 0; }
        disk := disk.(adapterType := if argv[i] == "scsi" then ScsiBuslogic else Ide);
        return false, i + 1;
      case RMetaOpt =>
        SetCommand(ReadMeta);
        if atEnd { return true, 0; }
        disk := disk.(metaKey := Some(argv[i + 1]));
        openFlags := openFlags.(readOnly := true);
        return false, i + 1;
      case WMetaOpt =>
        SetCommand(WriteMeta);
        if i >= |argv| - 3 { return true, 0; }
        disk := disk.(metaKey := Some(argv[i + 1]), metaVal := Some(argv[i + 2]));
        return false, i + 2;
      case RedoOpt =>
        if atEnd { return true, 0; }
        SetCommand(Redo);
        disk := disk.(parentPath := Some(argv[i + 1]));
        return false, i + 1;
      case CloneOpt =>
        if atEnd { return true, 0; }
        disk := disk.(srcPath := Some(argv[i + 1]));
        SetCommand(Clone);
        return false, i + 1;
      case _ =>
        assert false;
    }

    /** The loop body for the numeric settings. */
    method ApplyNumber(o: Opt, argv: seq<string>, i: nat) returns (usage: bool, last: nat)
      requires 1 <= i < |argv| - 1 && command < 0x1000
      requires o == ValOpt || o == StartOpt || o == CountOpt || o == CapOpt
      modifies this
      ensures command < 0x1000
      ensures StepFor(o, argv, i, old(Snapshot())) == if usage then Usage(Snapshot()) else Next(Snapshot(), last)
    {
      if i >= |argv| - 2 {
        return true, 0;
      }
      var n := StrToL(argv[i + 1]);
      match o {
        case ValOpt =>
          io := io.(filler := ToI32(n));
        case StartOpt =>
          io := io.(startSector := ToU64(n));
        case CountOpt =>
          io := io.(numSectors := ToU64(n));
        case CapOpt =>
          io := io.(mbSize := ToU32(n));
        case _ =>
          assert false;
      }
      return false, i + 1;
    }

    /** The loop body for the benchmark and multi-thread commands, which take a number. */
    method ApplyBench(o: Opt, argv: seq<string>, i: nat) returns (usage: bool, last: nat)
      requires 1 <= i < |argv| - 1 && command < 0x1000
      requires o == ReadBenchOpt || o == WriteBenchOpt || o == MultiThreadOpt
      modifies this
      ensures command < 0x1000
      ensures StepFor(o, argv, i, old(Snapshot())) == if usage then Usage(Snapshot()) else Next(Snapshot(), last)
    {
      if o == ReadBenchOpt {
        // The bounds check of `-readbench` is disabled: its value is read unconditionally.
        SetCommand(ReadBench);
        io := io.(bufSize := ToU64(StrToL(argv[i + 1])));
        openFlags := openFlags.(readOnly := true);
        return false, i + 1;
      }
      if i >= |argv| - 2 {
        return true, 0;
      }
      var n := StrToL(argv[i + 1]);
      if o == WriteBenchOpt {
        io := io.(bufSize := ToU64(n));
        SetCommand(WriteBench);
      } else {
        SetCommand(MultiThread);
        io := io.(numThreads := ToU32(n));
        openFlags := openFlags.(readOnly := true);
      }
      return false, i + 1;
    }

    /** The loop body for the connection options, each of which makes the connection remote. */
    method ApplyRemoteOption(o: Opt, argv: seq<string>, i: nat) returns (usage: bool, last: nat)
      requires 1 <= i < |argv| - 1 && command < 0x1000
      requires o in RemoteOptions
      modifies this
      ensures command < 0x1000
      ensures StepFor(o, argv, i, old(Snapshot())) == if usage then Usage(Snapshot()) else Next(Snapshot(), last)
    {
      if i >= |argv| - 2 {
        return true, 0;
      }
      var value := argv[i + 1];
      match o {
        case HostOpt =>
          remote := remote.(host := Some(value));
        case UserOpt =>
          remote := remote.(userName := Some(value));
        case PasswordOpt =>
          remote := remote.(password := Some(value));
        case ThumbOpt =>
          remote := remote.(thumbPrint := Some(value));
        case PortOpt =>
          remote := remote.(port := ToI32(StrToL(value)));
        case VmOpt =>
          remote := remote.(vmxSpec := Some(value));
        case _ =>
          assert false;
      }
      remote := remote.(isRemote := true);
      return false, i + 1;
    }

    /** The loop body for the library and transport options. */
    method ApplyLibraryOption(o: Opt, argv: seq<string>, i: nat) returns (usage: bool, last: nat)
      requires 1 <= i < |argv| - 1 && command < 0x1000
      requires o == LibDirOpt || o == InitExOpt || o == SsMoRefOpt || o == ModeOpt
      modifies this
      ensures command < 0x1000
      ensures StepFor(o, argv, i, old(Snapshot())) == if usage then Usage(Snapshot()) else Next(Snapshot(), last)
    {
      if i >= |argv| - 2 {
        return true, 0;
      }
      var value := argv[i + 1];
      match o {
        case LibDirOpt =>
          library := library.(libdir := Some(value));
        case InitExOpt =>
          library := library.(useInitEx := true, cfgFile := Some(value));
          if value == "" {
            library := library.(cfgFile := None);
          }
        case SsMoRefOpt =>
          library := library.(ssMoRef := Some(value));
        case ModeOpt =>
          library := library.(transportModes := Some(value));
        case _ =>
          assert false;
      }
      return false, i + 1;
    }

    /**
     * ParseArguments: returns 0 and leaves the parsed settings in place, or
     * returns the usage result 1. `command` starts below 2^12 (main sets it
     * to 0), so BitCount sees a non-negative `int`.
     */
    method ParseArguments(argv: seq<string>) returns (retval: int)
      requires command < 0x1000
      modifies this
      ensures retval == Parse(argv, old(Snapshot())).retval
      ensures Snapshot() == Parse(argv, old(Snapshot())).cfg
    {
      if |argv| < 3 {
        return 1;
      }
      var stopped, i := WalkOptions(argv);
      if stopped {
        return 1;
      }
      retval := FinishParse(argv, i);
    }

    /**
     * The loop over the options, from position 1 up to the word before the
     * last: stops at the first option that makes the parser print usage, or
     * returns the index after the last option.
     */
    method WalkOptions(argv: seq<string>) returns (stopped: bool, i: nat)
      requires |argv| >= 3 && command < 0x1000
      modifies this
      ensures command < 0x1000
      ensures stopped <==> Loop(argv, 1, old(Snapshot()), []).Stopped?
      ensures Snapshot() == Loop(argv, 1, old(Snapshot()), []).cfg
      ensures !stopped ==> i == Loop(argv, 1, old(Snapshot()), []).next
    {
      i := 1;
      ghost var visited: seq<nat> := [];
      while i < |argv| - 1
        invariant 1 <= i <= |argv| && command < 0x1000
        invariant Loop(argv, i, Snapshot(), visited) == Loop(argv, 1, old(Snapshot()), [])
        decreases |argv| - i
      {
        ghost var before := Snapshot();
        var usage, last := ApplyOption(argv, i);
        LoopStep(argv, i, before, visited);
        if usage {
          return true, i;
        }
        visited := visited + [i];
        i := last + 1;
      }
      return false, i;
    }

    /** The checks after the loop, with the loop's final index `i`. */
    method FinishParse(argv: seq<string>, i: nat) returns (retval: int)
      requires command < 0x1000
      modifies this
      ensures Parsed(retval, Snapshot()) == Finish(argv, i, old(Snapshot()))
    {
      disk := disk.(diskPath := if i < |argv| then Some(argv[i]) else None);
      var bits := BitCount(command);
      if bits != 1 {
        return 1;
      }
      if remote.isRemote {
        if remote.port == 0 {
          remote := remote.(port := 902);
        }
        if remote.host.None? || remote.userName.None? || remote.password.None? {
          return 1;
        }
      }
      return 0;
    }
  }
}
