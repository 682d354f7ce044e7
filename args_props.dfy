/**
 * What ParseArguments guarantees about a command line: where its loop stops,
 * that it accepts exactly one command (possibly repeated), which options make
 * the connection remote or the disk read-only, and what `-adapter` really
 * selects.
 */
module ArgsFacts {
  import opened Wrappers
  import opened Bits
  import opened DiskLib
  import opened Args

  /** COMMAND_x is the bit `1 << Index(x)`. */
  lemma BitIsPow2(cmd: Command)
    ensures Bit(cmd) == Pow2(Index(cmd))
  {
    assert Pow2(0) == 1 && Pow2(1) == 2 && Pow2(2) == 4 && Pow2(3) == 8;
    assert Pow2(4) == 0x10 && Pow2(5) == 0x20 && Pow2(6) == 0x40 && Pow2(7) == 0x80;
    assert Pow2(8) == 0x100 && Pow2(9) == 0x200 && Pow2(10) == 0x400 && Pow2(11) == 0x800;
  }

  /** Distinct commands have distinct bits. */
  lemma IndexInjective(a: Command, b: Command)
    requires Index(a) == Index(b)
    ensures a == b
  {
  }

  /** The word at `p` is an option that selects `cmd`. */
  predicate Names(argv: seq<string>, p: nat, cmd: Command)
  {
    p < |argv| && CommandOf(Classify(argv[p])) == Some(cmd)
  }

  /** The word at `p` is an option that selects the command with bit `j`. */
  predicate NamesBit(argv: seq<string>, p: nat, j: nat)
  {
    p < |argv| && CommandOf(Classify(argv[p])).Some? && Index(CommandOf(Classify(argv[p])).value) == j
  }

  /** Some word at a position in `ps` selects the command with bit `j`. */
  predicate NamedBit(argv: seq<string>, ps: seq<nat>, j: nat)
  {
    |ps| > 0 && (NamesBit(argv, ps[|ps| - 1], j) || NamedBit(argv, ps[..|ps| - 1], j))
  }

  lemma {:induction false} NamedBitSome(argv: seq<string>, ps: seq<nat>, j: nat)
    ensures NamedBit(argv, ps, j) <==> exists p :: p in ps && NamesBit(argv, p, j)
  {
    if |ps| > 0 {
      var init, last := ps[..|ps| - 1], ps[|ps| - 1];
      assert ps == init + [last];
      NamedBitSome(argv, init, j);
      if NamedBit(argv, ps, j) && !NamesBit(argv, last, j) {
        var p :| p in init && NamesBit(argv, p, j);
        assert p in ps;
      }
      if exists p :: p in ps && NamesBit(argv, p, j) {
        var p :| p in ps && NamesBit(argv, p, j);
        if p != last {
          assert p in init;
        }
      }
    }
  }

  /** Bit `k` is the only bit that the options at `ps` name. */
  ghost predicate OnlyNamed(argv: seq<string>, ps: seq<nat>, k: nat)
  {
    forall j :: NamedBit(argv, ps, j) <==> j == k
  }

  /**
   * The command line selects `cmd` and nothing else: some option at a visited
   * position selects it, and every command option visited selects it.
   */
  ghost predicate SelectsOnly(argv: seq<string>, ps: seq<nat>, cmd: Command)
  {
    (exists p :: p in ps && Names(argv, p, cmd)) &&
    forall p, other :: p in ps && Names(argv, p, other) ==> other == cmd
  }

  /** The command bits an accepted option step adds. */
  lemma StepCommand(argv: seq<string>, i: nat, c: Config)
    requires 1 <= i < |argv| - 1
    ensures StepAt(argv, i, c).Next? ==>
      StepAt(argv, i, c).cfg.command ==
        match CommandOf(Classify(argv[i]))
        case Some(cmd) => Or(c.command, Bit(cmd))
        case None => c.command
  {
    var o := Classify(argv[i]);
    if !RejectsOpt(o, i, |argv|) {
      UpdateCommand(o, argv, i, c);
    }
  }

  /** The command bit an option's update adds, if any. */
  lemma UpdateCommand(o: Opt, argv: seq<string>, i: nat, c: Config)
    requires i + Arity(o) < |argv|
    ensures Update(o, argv, i, c).command ==
      match CommandOf(o)
      case Some(cmd) => Or(c.command, Bit(cmd))
      case None => c.command
  {
    match o
    case InfoOpt | CreateOpt | DumpOpt | FillOpt | MetaOpt | RMetaOpt | WMetaOpt | RedoOpt =>
    case CloneOpt | ReadBenchOpt | WriteBenchOpt | MultiThreadOpt =>
    case _ =>
  }

  /** One accepted step keeps the relation between `command` and the visited options. */
  lemma StepCommandBits(argv: seq<string>, i: nat, c: Config, visited: seq<nat>, c0: nat, j: nat)
    requires 1 <= i < |argv| - 1 && StepAt(argv, i, c).Next?
    requires BitSet(c.command, j) <==> BitSet(c0, j) || NamedBit(argv, visited, j)
    ensures BitSet(StepAt(argv, i, c).cfg.command, j) <==> BitSet(c0, j) || NamedBit(argv, visited + [i], j)
  {
    var v := visited + [i];
    StepCommand(argv, i, c);
    assert v[..|v| - 1] == visited;
    match CommandOf(Classify(argv[i]))
    case Some(cmd) =>
      BitSetOr(c.command, Bit(cmd), j);
      BitIsPow2(cmd);
      BitOfPow2(Index(cmd), j);
    case None =>
  }

  /**
   * Along a loop that ends normally, bit `j` of `command` is set exactly when
   * it was set in the initial value `c0` or some visited option selects the
   * command with bit `j`.
   */
  lemma {:induction false} LoopCommandBits(argv: seq<string>, i: nat, c: Config, visited: seq<nat>, c0: nat, j: nat, w: Walk)
    requires EndsIn(argv, i, c, visited, w)
    requires BitSet(c.command, j) <==> BitSet(c0, j) || NamedBit(argv, visited, j)
    ensures w.Done? ==> (BitSet(w.cfg.command, j) <==> BitSet(c0, j) || NamedBit(argv, w.visited, j))
    decreases |argv| - i
  {
    if i < |argv| - 1 {
      var accepted, c1, last := CommandBitsPass(argv, i, c, visited, c0, j, w);
      if accepted {
        LoopCommandBits(argv, last + 1, c1, visited + [i], c0, j, w);
      }
    }
  }

  /** One pass of the loop keeps the relation between `command` and the visited options. */
  lemma CommandBitsPass(argv: seq<string>, i: nat, c: Config, visited: seq<nat>, c0: nat, j: nat, w: Walk)
    returns (accepted: bool, c1: Config, last: nat)
    requires i < |argv| - 1 && EndsIn(argv, i, c, visited, w)
    requires BitSet(c.command, j) <==> BitSet(c0, j) || NamedBit(argv, visited, j)
    ensures !accepted ==> w.Stopped?
    ensures accepted ==> i <= last && EndsIn(argv, last + 1, c1, visited + [i], w)
    ensures accepted ==> (BitSet(c1.command, j) <==> BitSet(c0, j) || NamedBit(argv, visited + [i], j))
  {
    accepted, c1, last := LoopPass(argv, i, c, visited, w);
    if accepted {
      StepCommandBits(argv, i, c, visited, c0, j);
    }
  }

  /** A single named bit means a single named command, and conversely. */
  lemma OnlyNamedIffSelectsOnly(argv: seq<string>, ps: seq<nat>)
    ensures (exists k :: OnlyNamed(argv, ps, k)) <==> (exists cmd :: SelectsOnly(argv, ps, cmd))
  {
    forall j ensures NamedBit(argv, ps, j) <==> exists p :: p in ps && NamesBit(argv, p, j) {
      NamedBitSome(argv, ps, j);
    }
    if exists k :: OnlyNamed(argv, ps, k) {
      var k :| OnlyNamed(argv, ps, k);
      assert NamedBit(argv, ps, k);
      var p :| p in ps && NamesBit(argv, p, k);
      var cmd := CommandOf(Classify(argv[p])).value;
      assert Names(argv, p, cmd);
      forall q, other | q in ps && Names(argv, q, other)
        ensures other == cmd
      {
        assert NamesBit(argv, q, Index(other));
        assert NamedBit(argv, ps, Index(other));
        IndexInjective(other, cmd);
      }
      assert SelectsOnly(argv, ps, cmd);
    }
    if exists cmd :: SelectsOnly(argv, ps, cmd) {
      var cmd :| SelectsOnly(argv, ps, cmd);
      forall j
        ensures NamedBit(argv, ps, j) <==> j == Index(cmd)
      {
        if NamedBit(argv, ps, j) {
          var p :| p in ps && NamesBit(argv, p, j);
          assert Names(argv, p, CommandOf(Classify(argv[p])).value);
        }
        if j == Index(cmd) {
          var p :| p in ps && Names(argv, p, cmd);
          assert NamesBit(argv, p, j);
        }
      }
      assert OnlyNamed(argv, ps, Index(cmd));
    }
  }

  /** From `command == 0`, the bits of the final `command` are the bits the visited options name. */
  lemma FinalCommandBits(argv: seq<string>, init: Config, j: nat)
    requires |argv| >= 3 && init.command == 0
    ensures Loop(argv, 1, init, []).Done? ==>
      (BitSet(Loop(argv, 1, init, []).cfg.command, j) <==> NamedBit(argv, Visited(argv, init), j))
  {
    ZeroHasNoBits(j);
    LoopCommandBits(argv, 1, init, [], 0, j, Loop(argv, 1, init, []));
    ZeroHasNoBits(j);
  }

  /**
   * Starting from `command == 0` (as `main` does), a loop that ends normally
   * leaves exactly one bit set in `command` if and only if every command
   * option on the line selects the same command and at least one is there.
   */
  lemma OneCommand(argv: seq<string>, init: Config)
    requires |argv| >= 3 && init.command == 0
    requires Loop(argv, 1, init, []).Done?
    ensures PopCount(Loop(argv, 1, init, []).cfg.command) == 1 <==>
      exists cmd :: SelectsOnly(argv, Visited(argv, init), cmd)
  {
    var n := Loop(argv, 1, init, []).cfg.command;
    var v := Visited(argv, init);
    forall k ensures OnlyBit(n, k) <==> OnlyNamed(argv, v, k) {
      forall j ensures BitSet(n, j) <==> NamedBit(argv, v, j) {
        FinalCommandBits(argv, init, j);
      }
    }
    PopCountOne(n);
    OnlyNamedIffSelectsOnly(argv, v);
  }
}
