/**
 * What the parser loop does with the words it visits: where it ends, which
 * words make it print usage, and which settings the visited options switch
 * on (a remote connection, read-only opening, the IDE adapter, the three
 * credentials a remote connection needs).
 */
module ArgsWalk {
  import opened CTypes
  import opened CLib
  import opened Wrappers
  import opened DiskLib
  import opened Args

  /** The last position of `ps`. */
  function Last(ps: seq<nat>): nat
    requires |ps| > 0
  {
    ps[|ps| - 1]
  }

  /** `ps` without its last position, or nothing when it is empty. */
  function AllButLast(ps: seq<nat>): seq<nat>
  {
    if |ps| == 0 then [] else ps[..|ps| - 1]
  }

  /**
   * A step that accepts its option ends on or before the disk path; it
   * consumes the disk path only as the value of a `-readbench` standing right
   * before it.
   */
  lemma StepEnd(argv: seq<string>, i: nat, c: Config)
    requires 1 <= i < |argv| - 1
    ensures StepAt(argv, i, c).Next? ==> StepAt(argv, i, c).last + 1 <= |argv|
    ensures StepAt(argv, i, c).Next? && StepAt(argv, i, c).last + 1 == |argv| ==>
      i == |argv| - 2 && Classify(argv[i]) == ReadBenchOpt
  {
  }

  /** The outcome of the loop body at `i`, taken apart. */
  lemma StepParts(argv: seq<string>, i: nat, c: Config) returns (usage: bool, next: Config, last: nat)
    requires 1 <= i < |argv| - 1
    ensures StepAt(argv, i, c) == if usage then Usage(next) else Next(next, last)
  {
    match StepAt(argv, i, c) {
      case Usage(c1) => usage, next, last := true, c1, 0;
      case Next(c1, j) => usage, next, last := false, c1, j;
    }
  }

  /**
   * A loop that ends normally ends on the disk path `|argv| - 1` or one past
   * it. Only the `-readbench` case of StepEnd reaches one past it.
   */
  lemma LoopEnd(argv: seq<string>, c: Config)
    requires |argv| >= 2
    ensures Loop(argv, 1, c, []).Done? ==>
      Loop(argv, 1, c, []).next == |argv| - 1 || Loop(argv, 1, c, []).next == |argv|
  {
    var i: nat, cfg: Config, visited: seq<nat> := 1, c, [];
    while i < |argv| - 1
      invariant 1 <= i <= |argv|
      invariant Loop(argv, i, cfg, visited) == Loop(argv, 1, c, [])
      decreases |argv| - i
    {
      var usage, next, last := StepParts(argv, i, cfg);
      LoopStep(argv, i, cfg, visited);
      if usage {
        return;
      }
      cfg, visited, i := next, visited + [i], last + 1;
    }
  }

  /** The last visited option is a `-readbench` standing right before the last word. */
  predicate TakesLast(argv: seq<string>, ps: seq<nat>)
  {
    |argv| >= 2 && |ps| > 0 && Last(ps) == |argv| - 2 && Classify(argv[|argv| - 2]) == ReadBenchOpt
  }

  /**
   * A loop from `i` only appends to the visited positions, and when it ends
   * normally it ends past the last word exactly when the last option it
   * visited is a `-readbench` that took the last word as its value.
   */
  lemma {:induction false} LoopTail(argv: seq<string>, i: nat, c: Config, visited: seq<nat>, w: Walk)
    requires EndsIn(argv, i, c, visited, w) && i <= |argv| - 1
    ensures w.Done? ==> |w.visited| >= |visited| && w.visited[..|visited|] == visited
    ensures w.Done? ==> (w.next == |argv| <==> |w.visited| > |visited| && TakesLast(argv, w.visited))
    decreases |argv| - i
  {
    if i < |argv| - 1 {
      var accepted, c1, last := LoopPass(argv, i, c, visited, w);
      if accepted {
        StepEnd(argv, i, c);
        var v := visited + [i];
        if last + 1 == |argv| {
          LoopDone(argv, last + 1, c1, v, w);
          assert w.visited[..|visited|] == visited;
        } else {
          LoopTail(argv, last + 1, c1, v, w);
          if w.Done? {
            assert w.visited[..|visited|] == v[..|visited|];
            if |w.visited| == |v| {
              assert w.visited == v;
              assert TakesLast(argv, w.visited) ==> last == i + 1 == |argv| - 1;
            }
          }
        }
      }
    } else {
      LoopDone(argv, i, c, visited, w);
    }
  }

  /** A step that accepts its option did not stand on an unknown word. */
  lemma StepKnown(argv: seq<string>, i: nat, c: Config)
    requires 1 <= i < |argv| - 1
    ensures StepAt(argv, i, c).Next? ==> !MarksAt(argv, i, {Unknown})
  {
  }

  /**
   * A loop that ends normally visited no unknown word: the first unknown
   * word in an option position makes the parser print usage.
   */
  lemma {:induction false} LoopKnown(argv: seq<string>, i: nat, c: Config, visited: seq<nat>, w: Walk)
    requires EndsIn(argv, i, c, visited, w) && !Marked(argv, visited, {Unknown})
    ensures w.Done? ==> !Marked(argv, w.visited, {Unknown})
    decreases |argv| - i
  {
    if i < |argv| - 1 {
      var accepted, c1, last := KnownPass(argv, i, c, visited, w);
      if accepted {
        LoopKnown(argv, last + 1, c1, visited + [i], w);
      }
    } else {
      LoopDone(argv, i, c, visited, w);
    }
  }

  /** One pass of the loop that accepts its option adds no unknown word to the visited ones. */
  lemma KnownPass(argv: seq<string>, i: nat, c: Config, visited: seq<nat>, w: Walk)
    returns (accepted: bool, c1: Config, last: nat)
    requires i < |argv| - 1 && EndsIn(argv, i, c, visited, w) && !Marked(argv, visited, {Unknown})
    ensures !accepted ==> w.Stopped?
    ensures accepted ==> i <= last && EndsIn(argv, last + 1, c1, visited + [i], w)
    ensures accepted ==> !Marked(argv, visited + [i], {Unknown})
  {
    accepted, c1, last := LoopPass(argv, i, c, visited, w);
    if accepted {
      StepKnown(argv, i, c);
      assert AllButLast(visited + [i]) == visited;
    }
  }

  /** The settings an option can switch on, and which never switch back off. */
  datatype Setting = RemoteSet | ReadOnlySet | IdeSet | HostSet | UserSet | PasswordSet

  /** Whether `c` has the setting `f` switched on. */
  predicate Holds(c: Config, f: Setting)
  {
    match f
    case RemoteSet => c.remote.isRemote
    case ReadOnlySet => c.openFlags.readOnly
    case IdeSet => c.disk.adapterType == Ide
    case HostSet => c.remote.host.Some?
    case UserSet => c.remote.userName.Some?
    case PasswordSet => c.remote.password.Some?
  }

  /**
   * The options that switch `f` on. `-adapter` always selects IDE: the parser
   * compares the word `-adapter` itself, not its value, with "scsi".
   */
  function Switches(f: Setting): set<Opt>
  {
    match f
    case RemoteSet => RemoteOptions
    case ReadOnlySet => ReadOnlyOptions
    case IdeSet => {AdapterOpt}
    case HostSet => {HostOpt}
    case UserSet => {UserOpt}
    case PasswordSet => {PasswordOpt}
  }

  /** The word at `p` is one of the options `os`. */
  predicate MarksAt(argv: seq<string>, p: nat, os: set<Opt>)
  {
    p < |argv| && Classify(argv[p]) in os
  }

  /** Some position in `ps` holds one of the options `os`. */
  predicate Marked(argv: seq<string>, ps: seq<nat>, os: set<Opt>)
  {
    |ps| > 0 && (MarksAt(argv, Last(ps), os) || Marked(argv, AllButLast(ps), os))
  }

  lemma {:induction false} MarkedSome(argv: seq<string>, ps: seq<nat>, os: set<Opt>)
    ensures Marked(argv, ps, os) <==> exists p :: p in ps && MarksAt(argv, p, os)
  {
    if |ps| > 0 {
      var init, last := AllButLast(ps), Last(ps);
      assert ps == init + [last];
      MarkedSome(argv, init, os);
      if Marked(argv, ps, os) && !MarksAt(argv, last, os) {
        var p :| p in init && MarksAt(argv, p, os);
        assert p in ps;
      }
      if exists p :: p in ps && MarksAt(argv, p, os) {
        var p :| p in ps && MarksAt(argv, p, os);
        if p != last {
          assert p in init;
        }
      }
    }
  }

  /** The only word that names `-adapter` is "-adapter". */
  lemma {:induction false} LookupAdapter(w: string, k: nat)
    ensures Lookup(w, k) == AdapterOpt ==> w == "-adapter"
    decreases OptionCount - k
  {
    if k < OptionCount && Word(OptionAt(k)) != w {
      LookupAdapter(w, k + 1);
    }
  }

  /** The options whose update touches none of the settings. */
  predicate Neutral(o: Opt)
  {
    o !in RemoteOptions + ReadOnlyOptions + {AdapterOpt, HostOpt, UserOpt, PasswordOpt}
  }

  /** An option that touches no setting leaves every setting as it was. */
  lemma UpdateKeeps(o: Opt, argv: seq<string>, i: nat, c: Config, f: Setting)
    requires i + Arity(o) < |argv| && Neutral(o)
    ensures Holds(Update(o, argv, i, c), f) == Holds(c, f)
  {
    match o
    case CreateOpt | FillOpt | SingleOpt | WMetaOpt | RedoOpt | ValOpt | StartOpt | CountOpt =>
    case CapOpt | CloneOpt | WriteBenchOpt | LibDirOpt | InitExOpt | SsMoRefOpt | ModeOpt | Unknown =>
  }

  /** An option that touches a setting switches on exactly that setting's options' settings. */
  lemma UpdateSets(o: Opt, argv: seq<string>, i: nat, c: Config, f: Setting)
    requires i + Arity(o) < |argv| && !Neutral(o)
    requires o == AdapterOpt ==> argv[i] != "scsi"
    ensures Holds(Update(o, argv, i, c), f) == (Holds(c, f) || o in Switches(f))
  {
    match o
    case InfoOpt | DumpOpt | MetaOpt | RMetaOpt | ReadBenchOpt | MultiThreadOpt | AdapterOpt =>
    case HostOpt | UserOpt | PasswordOpt | ThumbOpt | PortOpt | VmOpt =>
  }

  /** An accepted option switches a setting on exactly when it is one of the setting's options, and never off. */
  lemma UpdateSwitches(o: Opt, argv: seq<string>, i: nat, c: Config, f: Setting)
    requires i + Arity(o) < |argv|
    requires o == AdapterOpt ==> argv[i] != "scsi"
    ensures Holds(Update(o, argv, i, c), f) == (Holds(c, f) || o in Switches(f))
  {
    if Neutral(o) {
      UpdateKeeps(o, argv, i, c, f);
    } else {
      UpdateSets(o, argv, i, c, f);
    }
  }

  /** One accepted step keeps the relation between `f` and the visited options. */
  lemma StepSwitches(argv: seq<string>, i: nat, c: Config, visited: seq<nat>, on0: bool, f: Setting)
    requires 1 <= i < |argv| - 1 && StepAt(argv, i, c).Next?
    requires Holds(c, f) == (on0 || Marked(argv, visited, Switches(f)))
    ensures Holds(StepAt(argv, i, c).cfg, f) == (on0 || Marked(argv, visited + [i], Switches(f)))
  {
    var v := visited + [i];
    assert AllButLast(v) == visited;
    var o := Classify(argv[i]);
    LookupAdapter(argv[i], 0);
    UpdateSwitches(o, argv, i, c, f);
  }

  /**
   * Along a loop that ends normally, `f` is on exactly when it was on in the
   * initial settings (`on0`) or some visited option switched it on.
   */
  lemma {:induction false} LoopSwitches(argv: seq<string>, i: nat, c: Config, visited: seq<nat>, on0: bool, f: Setting, w: Walk)
    requires EndsIn(argv, i, c, visited, w)
    requires Holds(c, f) == (on0 || Marked(argv, visited, Switches(f)))
    ensures w.Done? ==> Holds(w.cfg, f) == (on0 || Marked(argv, w.visited, Switches(f)))
    decreases |argv| - i
  {
    if i < |argv| - 1 {
      var accepted, c1, last := SwitchesPass(argv, i, c, visited, on0, f, w);
      if accepted {
        LoopSwitches(argv, last + 1, c1, visited + [i], on0, f, w);
      }
    }
  }

  /** One pass of the loop keeps the relation between `f` and the visited options. */
  lemma SwitchesPass(argv: seq<string>, i: nat, c: Config, visited: seq<nat>, on0: bool, f: Setting, w: Walk)
    returns (accepted: bool, c1: Config, last: nat)
    requires i < |argv| - 1 && EndsIn(argv, i, c, visited, w)
    requires Holds(c, f) == (on0 || Marked(argv, visited, Switches(f)))
    ensures !accepted ==> w.Stopped?
    ensures accepted ==> i <= last && EndsIn(argv, last + 1, c1, visited + [i], w)
    ensures accepted ==> Holds(c1, f) == (on0 || Marked(argv, visited + [i], Switches(f)))
  {
    accepted, c1, last := LoopPass(argv, i, c, visited, w);
    if accepted {
      StepSwitches(argv, i, c, visited, on0, f);
    }
  }

  /**
   * The port the visited options leave: the `strtol` value (truncated to
   * `int`) of the last `-port` among `ps`, or `p0` when none of them is `-port`.
   */
  function LastPort(argv: seq<string>, ps: seq<nat>, p0: i32): i32
  {
    if |ps| == 0 then p0
    else if MarksAt(argv, Last(ps), {PortOpt}) && Last(ps) + 1 < |argv| then ToI32(StrToL(argv[Last(ps) + 1]))
    else LastPort(argv, AllButLast(ps), p0)
  }

  /** Only `-port` changes the port: it stores the value word's `strtol`, truncated to `int`. */
  lemma UpdatePort(o: Opt, argv: seq<string>, i: nat, c: Config)
    requires i + Arity(o) < |argv|
    ensures Update(o, argv, i, c).remote.port == if o == PortOpt then ToI32(StrToL(argv[i + 1])) else c.remote.port
  {
  }

  /** One accepted step keeps the port equal to the last visited `-port`'s value. */
  lemma StepPort(argv: seq<string>, i: nat, c: Config, visited: seq<nat>, p0: i32)
    requires 1 <= i < |argv| - 1 && StepAt(argv, i, c).Next?
    requires c.remote.port == LastPort(argv, visited, p0)
    ensures StepAt(argv, i, c).cfg.remote.port == LastPort(argv, visited + [i], p0)
  {
    var v := visited + [i];
    assert AllButLast(v) == visited;
    UpdatePort(Classify(argv[i]), argv, i, c);
  }

  /**
   * Along a loop that ends normally, the port is the value of the last
   * visited `-port`, or the initial port `p0` when no `-port` was visited.
   */
  lemma {:induction false} LoopPort(argv: seq<string>, i: nat, c: Config, visited: seq<nat>, p0: i32, w: Walk)
    requires EndsIn(argv, i, c, visited, w)
    requires c.remote.port == LastPort(argv, visited, p0)
    ensures w.Done? ==> w.cfg.remote.port == LastPort(argv, w.visited, p0)
    decreases |argv| - i
  {
    if i < |argv| - 1 {
      var accepted, c1, last := PortPass(argv, i, c, visited, p0, w);
      if accepted {
        LoopPort(argv, last + 1, c1, visited + [i], p0, w);
      }
    } else {
      LoopDone(argv, i, c, visited, w);
    }
  }

  /** One pass of the loop keeps the port equal to the last visited `-port`'s value. */
  lemma PortPass(argv: seq<string>, i: nat, c: Config, visited: seq<nat>, p0: i32, w: Walk)
    returns (accepted: bool, c1: Config, last: nat)
    requires i < |argv| - 1 && EndsIn(argv, i, c, visited, w)
    requires c.remote.port == LastPort(argv, visited, p0)
    ensures !accepted ==> w.Stopped?
    ensures accepted ==> i <= last && EndsIn(argv, last + 1, c1, visited + [i], w)
    ensures accepted ==> c1.remote.port == LastPort(argv, visited + [i], p0)
  {
    accepted, c1, last := LoopPass(argv, i, c, visited, w);
    if accepted {
      StepPort(argv, i, c, visited, p0);
    }
  }
}
