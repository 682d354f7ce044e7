/**
 * What a whole ParseArguments call guarantees, starting from the settings
 * `main` gives `appGlobals`: which visited options decide the remote flag,
 * read-only opening and the adapter, that an accepted command line holds no
 * unknown word, that a remote connection has its credentials and a port, and
 * where the disk path comes from.
 */
module ParseFacts {
  import opened Wrappers
  import opened Bits
  import opened DiskLib
  import opened Args
  import opened ArgsWalk

  /** None of the settings is on in the defaults of `main`. */
  lemma DefaultsHoldNothing(f: Setting)
    ensures !Holds(Defaults(), f)
  {
  }

  /** When the loop ends normally, ParseArguments goes on to the checks after it. */
  lemma ParseDone(argv: seq<string>, init: Config)
    requires |argv| >= 3 && Loop(argv, 1, init, []).Done?
    ensures Parse(argv, init) == Finish(argv, Loop(argv, 1, init, []).next, Loop(argv, 1, init, []).cfg)
  {
  }

  /** A command line that parses has a loop that ended normally. */
  lemma ParseAccepted(argv: seq<string>, init: Config)
    requires Parse(argv, init).retval == 0
    ensures |argv| >= 3 && Loop(argv, 1, init, []).Done?
    ensures Parse(argv, init) == Finish(argv, Loop(argv, 1, init, []).next, Loop(argv, 1, init, []).cfg)
  {
  }

  /** The checks after the loop switch no setting on or off. */
  lemma FinishKeeps(argv: seq<string>, i: nat, c: Config, f: Setting)
    ensures Holds(Finish(argv, i, c).cfg, f) == Holds(c, f)
  {
  }

  /**
   * When the loop ends normally, a setting is on after parsing exactly when
   * some visited option switches it on; the checks after the loop change none
   * of them.
   */
  lemma ParseSwitches(argv: seq<string>, f: Setting)
    requires |argv| >= 3 && Loop(argv, 1, Defaults(), []).Done?
    ensures Holds(Parse(argv, Defaults()).cfg, f) <==>
      exists p :: p in Visited(argv, Defaults()) && MarksAt(argv, p, Switches(f))
  {
    var w := Loop(argv, 1, Defaults(), []);
    DefaultsHoldNothing(f);
    LoopSwitches(argv, 1, Defaults(), [], false, f, w);
    MarkedSome(argv, w.visited, Switches(f));
    ParseDone(argv, Defaults());
    FinishKeeps(argv, w.next, w.cfg, f);
  }

  /**
   * A command line that parses gives a remote connection only with a host, a
   * user name and a password; it is remote exactly when one of the remote
   * options was given; and its port is the value of the last `-port`, or 902
   * when that value is 0 or no `-port` was given.
   */
  lemma ParseRemote(argv: seq<string>)
    requires Parse(argv, Defaults()).retval == 0
    ensures var c := Parse(argv, Defaults()).cfg;
      c.remote.isRemote ==> c.remote.host.Some? && c.remote.userName.Some? && c.remote.password.Some?
    ensures |argv| >= 3 && (Parse(argv, Defaults()).cfg.remote.isRemote <==>
      exists p :: p in Visited(argv, Defaults()) && MarksAt(argv, p, RemoteOptions))
    ensures |argv| >= 3 && var c := Parse(argv, Defaults()).cfg; var p := LastPort(argv, Visited(argv, Defaults()), 0);
      c.remote.isRemote ==> c.remote.port == if p == 0 then 902 else p
  {
    ParseAccepted(argv, Defaults());
    var w := Loop(argv, 1, Defaults(), []);
    FinishRemote(argv, w.next, w.cfg);
    ParseSwitches(argv, RemoteSet);
    LoopPort(argv, 1, Defaults(), [], 0, w);
  }

  /**
   * The checks after the loop keep the connection local or remote; they
   * accept a remote connection only with its credentials, and give it port
   * 902 when its port is 0, keeping any other port.
   */
  lemma FinishRemote(argv: seq<string>, i: nat, c: Config)
    ensures Finish(argv, i, c).cfg.remote.isRemote == c.remote.isRemote
    ensures var r := Finish(argv, i, c);
      r.retval == 0 && r.cfg.remote.isRemote ==>
        r.cfg.remote.host.Some? && r.cfg.remote.userName.Some? && r.cfg.remote.password.Some?
    ensures var r := Finish(argv, i, c);
      r.retval == 0 ==> r.cfg.remote.port == if c.remote.isRemote && c.remote.port == 0 then 902 else c.remote.port
  {
  }

  /**
   * `-adapter` always selects IDE, whatever its value: on a command line
   * that parses the adapter is IDE exactly when `-adapter` was visited.
   */
  lemma ParseAdapter(argv: seq<string>)
    requires Parse(argv, Defaults()).retval == 0
    ensures Parse(argv, Defaults()).cfg.disk.adapterType == Ide <==>
      exists p :: p in Visited(argv, Defaults()) && p < |argv| && argv[p] == "-adapter"
  {
    ParseAccepted(argv, Defaults());
    var v, c := Visited(argv, Defaults()), Parse(argv, Defaults()).cfg;
    ParseSwitches(argv, IdeSet);
    assert Holds(c, IdeSet) == (c.disk.adapterType == Ide) && Switches(IdeSet) == {AdapterOpt};
    if c.disk.adapterType == Ide {
      var p :| p in v && MarksAt(argv, p, {AdapterOpt});
      AdapterMark(argv, p);
    }
    if exists p :: p in v && p < |argv| && argv[p] == "-adapter" {
      var p :| p in v && p < |argv| && argv[p] == "-adapter";
      AdapterMark(argv, p);
    }
  }

  /** The word at `p` is the option `-adapter` exactly when it reads "-adapter". */
  lemma AdapterMark(argv: seq<string>, p: nat)
    ensures MarksAt(argv, p, {AdapterOpt}) <==> p < |argv| && argv[p] == "-adapter"
  {
    if p < |argv| {
      LookupAdapter(argv[p], 0);
      if argv[p] == "-adapter" {
        AdapterWord();
      }
    }
  }

  /** The option words from the `k`-th up to the `j`-th all differ in length from `w`. */
  predicate LengthsDiffer(w: string, k: nat, j: nat)
    decreases j - k
  {
    k >= j || (|Word(OptionAt(k))| != |w| && LengthsDiffer(w, k + 1, j))
  }

  /** The `strcmp` chain passes over option words whose length differs from the word's. */
  lemma {:induction false} LookupPast(w: string, k: nat, j: nat)
    requires k <= j <= OptionCount && LengthsDiffer(w, k, j)
    ensures Lookup(w, k) == Lookup(w, j)
    decreases j - k
  {
    if k < j {
      LookupPast(w, k + 1, j);
    }
  }

  /** The word "-adapter" is the option `-adapter`. */
  lemma AdapterWord()
    ensures Classify("-adapter") == AdapterOpt
  {
    LookupPast("-adapter", 0, 6);
    assert OptionAt(6) == AdapterOpt;
  }

  /** On a command line that parses, read-only opening is chosen exactly by the visited read-only commands. */
  lemma ParseReadOnly(argv: seq<string>)
    requires Parse(argv, Defaults()).retval == 0
    ensures Parse(argv, Defaults()).cfg.openFlags.readOnly <==>
      exists p :: p in Visited(argv, Defaults()) && MarksAt(argv, p, ReadOnlyOptions)
  {
    ParseAccepted(argv, Defaults());
    var c := Parse(argv, Defaults()).cfg;
    ParseSwitches(argv, ReadOnlySet);
    assert Holds(c, ReadOnlySet) == c.openFlags.readOnly && Switches(ReadOnlySet) == ReadOnlyOptions;
  }

  /** A command line that parses holds no unknown word in an option position. */
  lemma ParseKnown(argv: seq<string>, init: Config)
    requires Parse(argv, init).retval == 0
    ensures |argv| >= 3
    ensures forall p :: p in Visited(argv, init) && p < |argv| ==> Classify(argv[p]) != Unknown
  {
    ParseAccepted(argv, init);
    LoopKnown(argv, 1, init, [], Loop(argv, 1, init, []));
    var v := Visited(argv, init);
    MarkedSome(argv, v, {Unknown});
    forall p | p in v && p < |argv|
      ensures Classify(argv[p]) != Unknown
    {
      assert !MarksAt(argv, p, {Unknown});
    }
  }

  /**
   * A command line that parses takes its disk path from the last word, or has
   * none when a `-readbench` just before the last word consumed it.
   */
  lemma ParseDiskPath(argv: seq<string>, init: Config)
    requires Parse(argv, init).retval == 0
    ensures Parse(argv, init).cfg.disk.diskPath == Some(argv[|argv| - 1]) ||
      Parse(argv, init).cfg.disk.diskPath.None?
    ensures |argv| >= 3 &&
      (Parse(argv, init).cfg.disk.diskPath.None? <==> TakesLast(argv, Visited(argv, init)))
  {
    ParseAccepted(argv, init);
    LoopEnd(argv, init);
    LoopTail(argv, 1, init, [], Loop(argv, 1, init, []));
  }

  /** No option word before `-readbench` in the chain has its length. */
  lemma ReadBenchAfter()
    ensures LengthsDiffer("-readbench", 0, 15)
  {
    assert LengthsDiffer("-readbench", 10, 15);
    assert LengthsDiffer("-readbench", 5, 15);
  }

  /** The word "-readbench" is the option `-readbench`. */
  lemma ReadBenchWord()
    ensures Classify("-readbench") == ReadBenchOpt
  {
    ReadBenchAfter();
    LookupPast("-readbench", 0, 15);
    assert OptionAt(15) == ReadBenchOpt;
  }

  /**
   * A command line of `-readbench` and one more word parses, but the disk path
   * is gone: `-readbench` took the last word as its buffer size.
   */
  lemma ReadBenchTakesDiskPath(argv: seq<string>)
    requires |argv| == 3 && argv[1] == "-readbench"
    ensures Parse(argv, Defaults()).retval == 0
    ensures Parse(argv, Defaults()).cfg.disk.diskPath.None?
  {
    ReadBenchWord();
    var c := Update(ReadBenchOpt, argv, 1, Defaults());
    assert c.command == 0x400;
    assert StepAt(argv, 1, Defaults()) == Next(c, 2);
    LoopStep(argv, 1, Defaults(), []);
    assert Loop(argv, 1, Defaults(), []) == Done(c, 3, [1]);
    PopCountPow2(10);
    assert Pow2(10) == 0x400;
    assert Parse(argv, Defaults()) == Finish(argv, 3, c);
  }
}
