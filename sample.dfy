/**
 * The sample's `main` once the arguments are parsed: library initialisation,
 * the choice between Connect and ConnectEx, the `else if` chain that runs the
 * selected command, and the cleanup that runs however the command ended.
 * Also the two commands without a sector loop, `-create` and `-info`.
 *
 * The vendor calls of `main` are oracle results (`Oracle`), and the outcome
 * of the command is an input: each command is modelled on its own.
 */
module Sample {
  import opened CTypes
  import opened Wrappers
  import opened VixErrors
  import opened Bits
  import opened DiskLib
  import opened Units
  import opened Args
  import opened ArgsFacts
  import opened ArgsWalk
  import opened ParseFacts

  /** The commands in the order the `else if` chain of `main` tests their bits. */
  const Order: seq<Command> :=
    [Info, Create, Redo, Fill, Dump, ReadMeta, WriteMeta, DumpMeta, MultiThread, Clone, ReadBench, WriteBench]

  /** The position of `cmd` in `Order`. */
  function Rank(cmd: Command): (k: nat)
    ensures k < |Order| && Order[k] == cmd
  {
    match cmd
    case Info => 0
    case Create => 1
    case Redo => 2
    case Fill => 3
    case Dump => 4
    case ReadMeta => 5
    case WriteMeta => 6
    case DumpMeta => 7
    case MultiThread => 8
    case Clone => 9
    case ReadBench => 10
    case WriteBench => 11
  }

  /** The chain from its `k`-th test on: `command & COMMAND_x` for each x in turn. */
  function DispatchFrom(command: nat, k: nat): Option<Command>
    decreases |Order| - k, command
  {
    if k >= |Order| then None
    else if And(command, Bit(Order[k])) != 0 then Some(Order[k])
    else DispatchFrom(command, k + 1)
  }

  /** The command `main` runs for `command`; none when no tested bit is set. */
  function Dispatch(command: nat): (r: Option<Command>)
    ensures r.Some? ==> BitSet(command, Index(r.value))
  {
    var r := DispatchFrom(command, 0);
    if r.Some? then DispatchFromSome(command, 0, r.value); r else r
  }

  /** `command & COMMAND_x` is non-zero exactly when the bit of x is set. */
  lemma TestsBit(command: nat, cmd: Command)
    ensures And(command, Bit(cmd)) != 0 <==> BitSet(command, Index(cmd))
  {
    BitIsPow2(cmd);
    AndPow2(command, Index(cmd));
  }

  /** No command at a position in [k, j) of the chain has its bit set. */
  ghost predicate NoneSet(command: nat, k: nat, j: nat)
    requires j <= |Order|
  {
    forall i :: k <= i < j ==> !BitSet(command, Index(Order[i]))
  }

  /** `Rank` inverts `Order`: the twelve commands are tested once each. */
  lemma RankOf(k: nat)
    requires k < |Order|
    ensures Rank(Order[k]) == k
  {
  }

  lemma {:induction false} DispatchFromSome(command: nat, k: nat, cmd: Command)
    requires k <= |Order|
    ensures DispatchFrom(command, k) == Some(cmd) <==>
      k <= Rank(cmd) && BitSet(command, Index(cmd)) && NoneSet(command, k, Rank(cmd))
    decreases |Order| - k
  {
    if k < |Order| {
      TestsBit(command, Order[k]);
      RankOf(k);
      DispatchFromSome(command, k + 1, cmd);
      if BitSet(command, Index(Order[k])) {
        if k < Rank(cmd) {
          assert !NoneSet(command, k, Rank(cmd));
        }
      } else if k < Rank(cmd) {
        assert NoneSet(command, k, Rank(cmd)) <==> NoneSet(command, k + 1, Rank(cmd));
      } else if k == Rank(cmd) {
        assert Order[k] == cmd;
      }
    }
  }

  lemma {:induction false} DispatchFromNone(command: nat, k: nat)
    requires k <= |Order|
    ensures DispatchFrom(command, k).None? <==> NoneSet(command, k, |Order|)
    decreases |Order| - k
  {
    if k < |Order| {
      TestsBit(command, Order[k]);
      DispatchFromNone(command, k + 1);
      assert NoneSet(command, k, |Order|) <==>
        !BitSet(command, Index(Order[k])) && NoneSet(command, k + 1, |Order|);
    }
  }

  /**
   * The chain runs the first command, in `Order`, whose bit is set in
   * `command`.
   */
  lemma DispatchSpec(command: nat, cmd: Command)
    ensures Dispatch(command) == Some(cmd) <==>
      BitSet(command, Index(cmd)) && forall d :: Rank(d) < Rank(cmd) ==> !BitSet(command, Index(d))
  {
    DispatchFromSome(command, 0, cmd);
    if NoneSet(command, 0, Rank(cmd)) {
      forall d | Rank(d) < Rank(cmd)
        ensures !BitSet(command, Index(d))
      {
        assert Order[Rank(d)] == d;
      }
    }
    if forall d :: Rank(d) < Rank(cmd) ==> !BitSet(command, Index(d)) {
      forall i | 0 <= i < Rank(cmd)
        ensures !BitSet(command, Index(Order[i]))
      {
        RankOf(i);
      }
    }
  }

  /** The chain runs nothing exactly when none of the twelve command bits is set. */
  lemma DispatchNone(command: nat)
    ensures Dispatch(command).None? <==> forall d :: !BitSet(command, Index(d))
  {
    DispatchFromNone(command, 0);
    if NoneSet(command, 0, |Order|) {
      forall d ensures !BitSet(command, Index(d)) {
        assert Order[Rank(d)] == d;
      }
    }
  }

  /** With a single bit set, the chain runs the command that owns it. */
  lemma DispatchOnly(command: nat, cmd: Command)
    requires OnlyBit(command, Index(cmd))
    ensures Dispatch(command) == Some(cmd)
  {
    DispatchSpec(command, cmd);
    forall d | Rank(d) < Rank(cmd)
      ensures !BitSet(command, Index(d))
    {
      if BitSet(command, Index(d)) {
        IndexInjective(d, cmd);
      }
    }
  }

  /**
   * After a successful ParseArguments, `main` runs exactly the command the
   * command line selects (ParseArguments admits one command, possibly
   * repeated).
   */
  lemma ParsedDispatch(argv: seq<string>, cmd: Command)
    requires Parse(argv, Defaults()).retval == 0
    ensures |argv| >= 3
    ensures Dispatch(Parse(argv, Defaults()).cfg.command) == Some(cmd) <==>
      SelectsOnly(argv, Visited(argv, Defaults()), cmd)
  {
    ParseAccepted(argv, Defaults());
    var w := Loop(argv, 1, Defaults(), []);
    var n := w.cfg.command;
    var v := Visited(argv, Defaults());
    assert Parse(argv, Defaults()).cfg.command == n;
    assert PopCount(n) == 1;
    OneCommand(argv, Defaults());
    var sel :| SelectsOnly(argv, v, sel);
    forall j ensures BitSet(n, j) <==> NamedBit(argv, v, j) {
      FinalCommandBits(argv, Defaults(), j);
    }
    forall j ensures NamedBit(argv, v, j) <==> j == Index(sel) {
      NamedBitSome(argv, v, j);
      if NamedBit(argv, v, j) {
        var p :| p in v && NamesBit(argv, p, j);
        assert Names(argv, p, CommandOf(Classify(argv[p])).value);
      }
      if j == Index(sel) {
        var p :| p in v && Names(argv, p, sel);
        assert NamesBit(argv, p, j);
      }
    }
    assert OnlyBit(n, Index(sel));
    DispatchOnly(n, sel);
    if SelectsOnly(argv, v, cmd) {
      var p :| p in v && Names(argv, p, cmd);
      assert cmd == sel;
    }
  }

  /** `cnxParams`: all zero for a local connection, the remote settings otherwise. */
  datatype ConnectParams =
    | Local
    | Remote(vmxSpec: Option<string>, serverName: Option<string>, userName: Option<string>,
             password: Option<string>, thumbPrint: Option<string>, port: i32)

  function Params(c: Config): (p: ConnectParams)
    ensures p.Remote? <==> c.remote.isRemote
    ensures p.Remote? ==> p.vmxSpec == c.remote.vmxSpec && p.serverName == c.remote.host
  {
    var r := c.remote;
    if r.isRemote then Remote(r.vmxSpec, r.host, r.userName, r.password, r.thumbPrint, r.port) else Local
  }

  /** The library calls `main` makes, and the command it runs. */
  datatype Call =
    | LibInit(libdir: Option<string>)
    | LibInitEx(libdir: Option<string>, cfgFile: Option<string>)
    | PrepareForAccess(params: ConnectParams)
    | LibConnect(params: ConnectParams)
    | LibConnectEx(params: ConnectParams, readOnly: bool, ssMoRef: Option<string>, transportModes: Option<string>)
    | RunCommand(cmd: Command)
    | EndAccess(params: ConnectParams)
    | Disconnect
    | LibExit

  /**
   * What the library answers: the codes of the initialisation and of the
   * connection, and how the selected command ends (it raises or it does not).
   * A connection handle is set exactly when the connection succeeds.
   */
  datatype Oracle = Oracle(initErr: VixError, connectErr: VixError, commandOutcome: Outcome<ErrWrapper>)

  /** The exit status of `main`, the calls it made in order, and the error it caught. */
  datatype MainResult = MainResult(retval: int, calls: seq<Call>, caught: Option<ErrWrapper>)

  /** The connect call of `main`: ConnectEx when a snapshot or a transport mode is given. */
  function ConnectCall(c: Config): (r: Call)
    ensures r.LibConnect? || r.LibConnectEx?
    ensures r.LibConnect? <==> c.library.ssMoRef.None? && c.library.transportModes.None?
    ensures r.params == Params(c)
  {
    if c.library.ssMoRef.None? && c.library.transportModes.None? then LibConnect(Params(c))
    else LibConnectEx(Params(c), c.openFlags.readOnly, c.library.ssMoRef, c.library.transportModes)
  }

  /** The cleanup after the `try` block: end access, disconnect, exit the library. */
  function Cleanup(c: Config, connected: bool, initialised: bool): (calls: seq<Call>)
    ensures Disconnect in calls <==> connected
    ensures LibExit in calls <==> initialised
    ensures EndAccess(Params(c)) in calls <==> c.remote.vmxSpec.Some?
    ensures |calls| <= 3
  {
    (if c.remote.vmxSpec.Some? then [EndAccess(Params(c))] else [])
    + (if connected then [Disconnect] else [])
    + (if initialised then [LibExit] else [])
  }

  /** `main` after a successful ParseArguments. */
  function Session(c: Config, o: Oracle): (r: MainResult)
    ensures r.retval == (if r.caught.None? then 0 else 1)
    ensures Failed(o.initErr) ==> r.caught == Some(FromCode(o.initErr, 754))
  {
    var init := if c.library.useInitEx then LibInitEx(c.library.libdir, c.library.cfgFile) else LibInit(c.library.libdir);
    var prepare := if c.remote.vmxSpec.Some? then [PrepareForAccess(Params(c))] else [];
    match CheckAndThrow(o.initErr, 754)
    case Fail(e) => MainResult(1, [init] + Cleanup(c, false, false), Some(e))
    case Pass =>
      var started := [init] + prepare + [ConnectCall(c)];
      match CheckAndThrow(o.connectErr, 769)
      case Fail(e) => MainResult(1, started + Cleanup(c, false, true), Some(e))
      case Pass =>
        match Dispatch(c.command)
        case None => MainResult(0, started + Cleanup(c, true, true), None)
        case Some(cmd) =>
          var ran := started + [RunCommand(cmd)] + Cleanup(c, true, true);
          match o.commandOutcome
          case Fail(e) => MainResult(1, ran, Some(e))
          case Pass => MainResult(0, ran, None)
  }

  /** `main`: the usage result of ParseArguments, or the session it starts. */
  function Main(argv: seq<string>, o: Oracle): (r: MainResult)
    ensures r.retval == 0 || r.retval == 1
    ensures r.calls != [] <==> Parse(argv, Defaults()).retval == 0
  {
    var parsed := Parse(argv, Defaults());
    if parsed.retval != 0 then MainResult(parsed.retval, [], None) else Session(parsed.cfg, o)
  }

  /**
   * `main` returns 0 exactly when the command line parses, the library
   * initialises and connects, and the command does not raise; otherwise it
   * returns 1, and a rejected command line makes no library call. After a
   * successful parse, 1 means an error was caught.
   */
  lemma MainRetval(argv: seq<string>, o: Oracle)
    ensures Main(argv, o).retval == 0 <==>
      Parse(argv, Defaults()).retval == 0 && !Failed(o.initErr) && !Failed(o.connectErr) &&
      (Dispatch(Parse(argv, Defaults()).cfg.command).None? || o.commandOutcome.Pass?)
    ensures Main(argv, o).retval == 0 || Main(argv, o).retval == 1
    ensures Parse(argv, Defaults()).retval != 0 ==> Main(argv, o).calls == []
    ensures Parse(argv, Defaults()).retval == 0 ==> (Main(argv, o).retval == 0 <==> Main(argv, o).caught.None?)
  {
  }

  /** The place of each call in `main`; cleanup comes after everything else. */
  function Stage(call: Call): nat
  {
    match call
    case LibInit(_) => 0
    case LibInitEx(_, _) => 0
    case PrepareForAccess(_) => 1
    case LibConnect(_) => 2
    case LibConnectEx(_, _, _, _) => 2
    case RunCommand(_) => 3
    case EndAccess(_) => 4
    case Disconnect => 5
    case LibExit => 6
  }

  /** Every call is made at most once, and in the order of `Stage`. */
  ghost predicate InOrder(calls: seq<Call>)
  {
    forall i, j :: 0 <= i < j < |calls| ==> Stage(calls[i]) < Stage(calls[j])
  }

  /** The calls of the `try` block, up to the one that fails or to the command. */
  function Attempted(c: Config, o: Oracle): seq<Call>
  {
    var init := if c.library.useInitEx then LibInitEx(c.library.libdir, c.library.cfgFile) else LibInit(c.library.libdir);
    var prepare := if c.remote.vmxSpec.Some? then [PrepareForAccess(Params(c))] else [];
    var run := if !Failed(o.connectErr) && Dispatch(c.command).Some? then [RunCommand(Dispatch(c.command).value)] else [];
    if Failed(o.initErr) then [init] else [init] + prepare + [ConnectCall(c)] + run
  }

  /** The session is the calls of the `try` block followed by the cleanup. */
  lemma SessionShape(c: Config, o: Oracle)
    ensures Session(c, o).calls ==
      Attempted(c, o) + Cleanup(c, !Failed(o.initErr) && !Failed(o.connectErr), !Failed(o.initErr))
  {
  }

  lemma AttemptedInOrder(c: Config, o: Oracle)
    ensures InOrder(Attempted(c, o))
    ensures forall x :: x in Attempted(c, o) ==> Stage(x) <= 3
  {
  }

  lemma CleanupInOrder(c: Config, connected: bool, initialised: bool)
    ensures InOrder(Cleanup(c, connected, initialised))
    ensures forall x :: x in Cleanup(c, connected, initialised) ==> Stage(x) >= 4
  {
  }

  lemma InOrderConcat(a: seq<Call>, b: seq<Call>)
    requires InOrder(a) && InOrder(b)
    requires forall x :: x in a ==> Stage(x) <= 3
    requires forall y :: y in b ==> Stage(y) >= 4
    ensures InOrder(a + b)
  {
    forall i, j | 0 <= i < j < |a + b|
      ensures Stage((a + b)[i]) < Stage((a + b)[j])
    {
      if j < |a| {
        assert (a + b)[i] == a[i] && (a + b)[j] == a[j];
      } else if i >= |a| {
        assert (a + b)[i] == b[i - |a|] && (a + b)[j] == b[j - |a|];
      } else {
        assert (a + b)[i] in a && (a + b)[j] in b;
      }
    }
  }

  /** However the session ends, `main` makes each call at most once and in the order of `Stage`. */
  lemma SessionInOrder(c: Config, o: Oracle)
    ensures InOrder(Session(c, o).calls)
  {
    var connected := !Failed(o.initErr) && !Failed(o.connectErr);
    SessionShape(c, o);
    AttemptedInOrder(c, o);
    CleanupInOrder(c, connected, !Failed(o.initErr));
    InOrderConcat(Attempted(c, o), Cleanup(c, connected, !Failed(o.initErr)));
  }

  /**
   * `main` releases exactly what it acquired: Disconnect when the connection
   * succeeded, Exit when the library initialised. EndAccess runs whenever a
   * VM was named, even when the initialisation failed and PrepareForAccess
   * never ran. The command runs only on a live connection.
   */
  lemma SessionReleases(c: Config, o: Oracle)
    ensures LibExit in Session(c, o).calls <==> !Failed(o.initErr)
    ensures Disconnect in Session(c, o).calls <==> !Failed(o.initErr) && !Failed(o.connectErr)
    ensures EndAccess(Params(c)) in Session(c, o).calls <==> c.remote.vmxSpec.Some?
    ensures PrepareForAccess(Params(c)) in Session(c, o).calls <==> c.remote.vmxSpec.Some? && !Failed(o.initErr)
    ensures forall cmd :: RunCommand(cmd) in Session(c, o).calls <==>
      !Failed(o.initErr) && !Failed(o.connectErr) && Dispatch(c.command) == Some(cmd)
  {
    SessionCall(c, o, LibExit);
    SessionCall(c, o, Disconnect);
    SessionCall(c, o, EndAccess(Params(c)));
    SessionCall(c, o, PrepareForAccess(Params(c)));
    forall cmd
      ensures RunCommand(cmd) in Session(c, o).calls <==>
        !Failed(o.initErr) && !Failed(o.connectErr) && Dispatch(c.command) == Some(cmd)
    {
      SessionRuns(c, o, cmd);
    }
  }

  /** The command `cmd` runs exactly when the session connects and `cmd` is the one dispatched. */
  lemma SessionRuns(c: Config, o: Oracle, cmd: Command)
    ensures RunCommand(cmd) in Session(c, o).calls <==>
      !Failed(o.initErr) && !Failed(o.connectErr) && Dispatch(c.command) == Some(cmd)
  {
    SessionCall(c, o, RunCommand(cmd));
  }

  /** A call is in the session exactly when the `try` block or the cleanup makes it. */
  lemma SessionCall(c: Config, o: Oracle, x: Call)
    ensures x in Session(c, o).calls <==>
      x in Attempted(c, o) || x in Cleanup(c, !Failed(o.initErr) && !Failed(o.connectErr), !Failed(o.initErr))
  {
    SessionShape(c, o);
  }

  /**
   * On a command line that parses and a library that initialises, `main`
   * connects once: remotely exactly when a remote option was given, with
   * plain Connect unless a snapshot or transport mode is set, and with
   * ConnectEx read-only exactly when a read-only command was given.
   */
  lemma MainConnect(argv: seq<string>, o: Oracle)
    requires Parse(argv, Defaults()).retval == 0 && !Failed(o.initErr)
    ensures var c := Parse(argv, Defaults()).cfg;
      exists call :: call in Main(argv, o).calls && (call.LibConnect? || call.LibConnectEx?) &&
        (call.LibConnect? <==> c.library.ssMoRef.None? && c.library.transportModes.None?) &&
        (call.params.Remote? <==> exists p :: p in Visited(argv, Defaults()) && MarksAt(argv, p, RemoteOptions)) &&
        (call.LibConnectEx? ==>
          (call.readOnly <==> exists p :: p in Visited(argv, Defaults()) && MarksAt(argv, p, ReadOnlyOptions)))
  {
    var c := Parse(argv, Defaults()).cfg;
    ParseRemote(argv);
    ParseReadOnly(argv);
    var call := ConnectCall(c);
    assert call in Main(argv, o).calls;
  }

  /**
   * On a command line that parses, once the library initialises and
   * connects, `main` runs exactly the command the line selects.
   */
  lemma MainRuns(argv: seq<string>, o: Oracle, cmd: Command)
    requires Parse(argv, Defaults()).retval == 0 && !Failed(o.initErr) && !Failed(o.connectErr)
    ensures |argv| >= 3
    ensures RunCommand(cmd) in Main(argv, o).calls <==> SelectsOnly(argv, Visited(argv, Defaults()), cmd)
  {
    ParsedDispatch(argv, cmd);
    SessionReleases(Parse(argv, Defaults()).cfg, o);
  }

  /**
   * DoCreate: a new, empty disk at the disk path for the chosen adapter type,
   * whose capacity is the 32-bit product `mbSize * 2048`; a refusal of the
   * library (no disk path, or a path the host refuses) raises at line 1108
   * with its code. The other disks of the connection stay as they were.
   */
  method DoCreate(conn: Connection, c: Config) returns (o: Outcome<ErrWrapper>)
    modifies conn`images
    ensures o.Pass? <==> conn.CreateStatus(c.disk.diskPath) == VixOk
    ensures c.disk.diskPath.None? ==> o == Fail(FromCode(EInvalidArg, 1108))
    ensures o.Fail? ==> o.error == FromCode(conn.CreateStatus(c.disk.diskPath), 1108) && conn.images == old(conn.images)
    ensures o.Pass? ==> c.disk.diskPath.Some? && c.disk.diskPath.value in conn.images && fresh(conn.images[c.disk.diskPath.value])
    ensures o.Pass? ==> conn.images[c.disk.diskPath.value].Valid()
    ensures o.Pass? ==> conn.images[c.disk.diskPath.value].adapter == c.disk.adapterType
    ensures o.Pass? ==> conn.images[c.disk.diskPath.value].capacity == CreateCapacity(c.io.mbSize)
    ensures o.Pass? ==> conn.images[c.disk.diskPath.value].contents == seq(CreateCapacity(c.io.mbSize), _ => ZeroBlock())
    ensures forall p :: p in old(conn.images) && Some(p) != c.disk.diskPath ==> p in conn.images && conn.images[p] == old(conn.images)[p]
  {
    var err := conn.Create(c.disk.diskPath, CreateCapacity(c.io.mbSize), c.disk.adapterType);
    o := CheckAndThrow(err, 1108);
  }

  /**
   * DoInfo: opens the disk (raising at line 606 when it cannot), reads its
   * information (raising at line 1042 when the library fails) and closes
   * it again on both paths, as the destructor of `VixDisk` does. The
   * result is the capacity in sectors it reports.
   */
  method DoInfo(conn: Connection, c: Config) returns (r: Result<u64, ErrWrapper>)
    requires conn.Valid()
    modifies conn.Targets(c.disk.diskPath)`isOpen, conn.Targets(c.disk.diskPath)`readOnly
    ensures conn.Resolve(c.disk.diskPath) == null ==> r == Failure(FromCode(EFileNotFound, 606))
    ensures conn.Resolve(c.disk.diskPath) != null ==> !conn.Resolve(c.disk.diskPath).isOpen
    ensures conn.Resolve(c.disk.diskPath) != null && conn.Resolve(c.disk.diskPath).infoFault ==>
      r == Failure(FromCode(EIo, 1042))
    ensures r.Success? <==> conn.Resolve(c.disk.diskPath) != null && !conn.Resolve(c.disk.diskPath).infoFault
    ensures r.Success? ==> r.value == conn.Resolve(c.disk.diskPath).capacity
  {
    var held := VixDisk.Open(conn, c.disk.diskPath, c.openFlags);
    if held.Failure? {
      return Failure(held.error);
    }
    var disk := held.value;
    var err, cap := disk.handle.GetInfo();
    var check := CheckAndThrow(err, 1042);
    disk.Release();
    match check
    case Fail(e) =>
      r := Failure(e);
    case Pass =>
      r := Success(cap);
  }
}
