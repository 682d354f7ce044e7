# vixDiskLibSample, modelled in Dafny

This project models `vixDiskLibSample.cpp`, the command-line sample that ships with the VMware Virtual Disk Development Kit, and proves properties of that model. The sample parses a command line into its `appGlobals` record. It initialises VixDiskLib and connects to a local or remote host. Then it runs exactly one command on a virtual disk (info, create, fill, dump, metadata read/write/dump, a multi-threaded copy, or a read/write benchmark), and cleans up in a fixed order.

Every `VixDiskLib_*` call goes into the closed vendor library. The model replaces the library with an abstract disk (module `DiskLib`). A `Disk` holds:
- a capacity;
- 512-byte blocks;
- a set of failing sectors;
- a metadata table, with failing keys (the size probe fails, or only the value fetch does) and a failing key-list fetch;
- a read-only flag;
- a log of the transfers requested.

A `Connection` maps paths to disks and holds the code the host answers a create at a refused path with. Each command that names a disk opens it through `VixDisk` (failing at line 606 when there is no disk at the path), works on the open handle, and closes it again on every path out. The library's answers are therefore fixed by the disk's state: a transfer fails exactly when it is out of range, a write to a read-only handle, or touches a failing sector. `main`'s initialisation and connection results, and whether the selected command raises, come from an `Oracle` value.

The modules follow the sample's structure:
- `Args`, `ArgsFacts`, `ArgsWalk` and `ParseFacts` cover `ParseArguments`. `Args.AppGlobals` is the `appGlobals` record updated in place, and each of its methods is proved against the functions `StepAt`, `Loop`, `Finish` and `Parse`.
- `Bits` covers `BitCount` and the bit operations on `command`.
- `CLib` covers `strtol` with base 0 and `strlen`.
- `CTypes` holds the integer widths; `Units` the capacity, time and `PrintStat` arithmetic.
- `VixErrors` covers `VixDiskLibErrWrapper`, `THROW_ERROR` and `CHECK_AND_THROW`.
- `DiskLib` holds the abstract library and the RAII class `VixDisk`.
- `Sectors` covers `DoFill` and `DoDump` and their loops; `HexDump` covers `DumpBytes`.
- `Metadata` covers the metadata commands; `MultiThread` covers `CopyThread` and the cleanup of `DoTestMultiThread`.
- `Bench` covers `DoRWBench`; `Sample` covers `main`, `DoCreate` and `DoInfo`.

Integer widths are written out where the source wraps:
- `mbSize * 2048` is formed in 32 bits;
- `maxOps` and `bufUpdate` are `uint32`;
- sector addresses `startSector + k` are 64-bit;
- `PrintStat` computes in 64-bit unsigned arithmetic.

Quirks of the code are modelled as written:
- `-adapter` compares the option word itself with `"scsi"`, so it always selects IDE.
- The value check of `-readbench` is disabled, so `-readbench` just before the disk path consumes the disk path and leaves none.
- `EndAccess` runs whenever `-vm` was given, even when the initialisation failed.

The sample's `int`/`long` are taken as LP64 (`long` is 64 bits).

## Model

| member | source | states |
|---|---|---|
| `Args.Bit` | vmware-vix-disklib-distrib/doc/samples/diskLib/vixDiskLibSample.cpp:36-47 | each COMMAND_x is a positive value below 2^12 |
| `Args.Defaults` | vmware-vix-disklib-distrib/doc/samples/diskLib/vixDiskLibSample.cpp:708-718 | the record after `memset` and the assignments in `main`: no command, BusLogic adapter, start 0, one sector, 100 MB, filler 0xff, one thread, success set, not remote |
| `Args.AppGlobals.constructor` | vmware-vix-disklib-distrib/doc/samples/diskLib/vixDiskLibSample.cpp:708-718 | a fresh `appGlobals` holds exactly the defaults of `main` |
| `Args.StepAt` | vmware-vix-disklib-distrib/doc/samples/diskLib/vixDiskLibSample.cpp:838-990 | one pass of the loop body prints usage exactly when the option at `i` is rejected; otherwise it consumes exactly the option's value words and never goes past the disk path |
| `Args.StepFor` | vmware-vix-disklib-distrib/doc/samples/diskLib/vixDiskLibSample.cpp:839-990 | the same, once the word is known to be a given option |
| `Args.Lookup` | vmware-vix-disklib-distrib/doc/samples/diskLib/vixDiskLibSample.cpp:839-987 | the `strcmp` chain from the `k`-th option word yields the first option whose word equals `w`, or unknown; that it names `w` is `Args.LookupWord`, that it passes over options of other lengths is `ParseFacts.LookupPast` |
| `Args.LookupWord` | vmware-vix-disklib-distrib/doc/samples/diskLib/vixDiskLibSample.cpp:839-987 | an option the `strcmp` chain finds is one whose word is exactly the argument (`strcmp(argv[i], "-x") == 0`) |
| `Args.Classify` | vmware-vix-disklib-distrib/doc/samples/diskLib/vixDiskLibSample.cpp:839-987 | a word of argv names the option the chain finds from the first test on; its properties are `Args.LookupWord`, `ArgsWalk.LookupAdapter` and `ParseFacts.ReadBenchAfter` |
| `Args.RejectsOpt` | vmware-vix-disklib-distrib/doc/samples/diskLib/vixDiskLibSample.cpp:839-990 | an option without values is refused only when it is unknown (line 988), and `-readbench` is never refused for lack of a value, since its check is disabled (line 909) |
| `Args.Early` | vmware-vix-disklib-distrib/doc/samples/diskLib/vixDiskLibSample.cpp:861-872 | `-rmeta` and `-wmeta` set their command bit before their value check, and nothing else changes; every other option leaves the settings as they were |
| `Args.Update` | vmware-vix-disklib-distrib/doc/samples/diskLib/vixDiskLibSample.cpp:839-987 | an accepted option never clears `success` and never sets the disk path; which settings it changes is `ArgsWalk.UpdateSets`, `ArgsWalk.UpdateKeeps` and `ArgsFacts.UpdateCommand` |
| `Args.LoopStep` | vmware-vix-disklib-distrib/doc/samples/diskLib/vixDiskLibSample.cpp:838-991 | the parser loop either stops at a rejected option or continues after the last word the option consumed |
| `Args.LoopPass` | vmware-vix-disklib-distrib/doc/samples/diskLib/vixDiskLibSample.cpp:838-991 | one pass of a loop that ends in `w`: the option is accepted exactly when the step goes on, and then the loop resumes after the option's last value word and still ends in `w`; otherwise `w` is a stop |
| `Args.LoopDone` | vmware-vix-disklib-distrib/doc/samples/diskLib/vixDiskLibSample.cpp:838 | a loop started on the disk path or past it ends there normally, with the settings and visited options it was given |
| `Args.Loop` | vmware-vix-disklib-distrib/doc/samples/diskLib/vixDiskLibSample.cpp:838-991 | the `for (i = 1; i < argc - 1; i++)` loop: it stops at a refused option or ends with the next index; `ArgsWalk.LoopEnd` shows it ends on the last word or past it, `ArgsWalk.LoopTail` when the last option ate the disk path |
| `Args.LoopBody` | vmware-vix-disklib-distrib/doc/samples/diskLib/vixDiskLibSample.cpp:839-990 | one pass of the body, then the rest of the loop; its step is `Args.LoopStep` and `Args.LoopPass` |
| `Args.Finish` | vmware-vix-disklib-distrib/doc/samples/diskLib/vixDiskLibSample.cpp:992-1013 | after the loop the disk path is set exactly when a word is left at the final index (line 992); the result is 0 or 1, and 0 only with exactly one command bit set (lines 994-996) |
| `Args.CheckRemote` | vmware-vix-disklib-distrib/doc/samples/diskLib/vixDiskLibSample.cpp:998-1008 | a remote connection gets port 902 when none was given, and the checks pass exactly when the connection is local or host, user and password are all set; only the remote settings change |
| `Args.Parse` | vmware-vix-disklib-distrib/doc/samples/diskLib/vixDiskLibSample.cpp:831-1014 | ParseArguments returns 0 or the usage result 1, and 0 only for at least three words and exactly one command; fewer than three words is usage (lines 835-837) |
| `Args.AppGlobals.SetCommand` | vmware-vix-disklib-distrib/doc/samples/diskLib/vixDiskLibSample.cpp:840-925 | `command \|= COMMAND_x` sets the command's bit and keeps `command` below 2^12 |
| `Args.AppGlobals.ApplyOption` | vmware-vix-disklib-distrib/doc/samples/diskLib/vixDiskLibSample.cpp:839-990 | the in-place loop body leaves `appGlobals` as `StepAt` says and reports usage exactly when `StepAt` does |
| `Args.AppGlobals.ApplyFlag` | vmware-vix-disklib-distrib/doc/samples/diskLib/vixDiskLibSample.cpp:839-853 | `-info`, `-create`, `-dump`, `-fill`, `-meta`, `-single` update the record as `StepFor` says |
| `Args.AppGlobals.ApplyDiskOption` | vmware-vix-disklib-distrib/doc/samples/diskLib/vixDiskLibSample.cpp:854-907 | `-adapter`, `-rmeta`, `-wmeta`, `-redo`, `-clone` update the record as `StepFor` says, including the early command bit of `-rmeta`/`-wmeta` |
| `Args.AppGlobals.ApplyNumber` | vmware-vix-disklib-distrib/doc/samples/diskLib/vixDiskLibSample.cpp:882-901 | `-val`, `-start`, `-count`, `-cap` store their `strtol` value as `StepFor` says |
| `Args.AppGlobals.ApplyBench` | vmware-vix-disklib-distrib/doc/samples/diskLib/vixDiskLibSample.cpp:908-927 | `-readbench` (without its value check), `-writebench`, `-multithread` update the record as `StepFor` says |
| `Args.AppGlobals.ApplyRemoteOption` | vmware-vix-disklib-distrib/doc/samples/diskLib/vixDiskLibSample.cpp:928-963 | each connection option stores its value and marks the connection remote |
| `Args.AppGlobals.ApplyLibraryOption` | vmware-vix-disklib-distrib/doc/samples/diskLib/vixDiskLibSample.cpp:964-987 | `-libdir`, `-initex` (an empty value means no config file), `-ssmoref`, `-mode` update the record as `StepFor` says |
| `Args.AppGlobals.WalkOptions` | vmware-vix-disklib-distrib/doc/samples/diskLib/vixDiskLibSample.cpp:838-991 | the in-place loop ends as `Loop` does: stopped exactly when an option was rejected, else at `Loop`'s index, with `Loop`'s settings |
| `Args.AppGlobals.FinishParse` | vmware-vix-disklib-distrib/doc/samples/diskLib/vixDiskLibSample.cpp:992-1013 | the checks after the loop leave the result and settings `Finish` gives |
| `Args.AppGlobals.ParseArguments` | vmware-vix-disklib-distrib/doc/samples/diskLib/vixDiskLibSample.cpp:831-1014 | the return value and the final `appGlobals` are those of `Parse` |
| `ArgsFacts.BitIsPow2` | vmware-vix-disklib-distrib/doc/samples/diskLib/vixDiskLibSample.cpp:36-47 | COMMAND_x is `1 << Index(x)` |
| `ArgsFacts.IndexInjective` | vmware-vix-disklib-distrib/doc/samples/diskLib/vixDiskLibSample.cpp:36-47 | distinct commands have distinct bits |
| `ArgsFacts.StepCommand` | vmware-vix-disklib-distrib/doc/samples/diskLib/vixDiskLibSample.cpp:839-927 | an accepted option adds its command's bit to `command`, or leaves it unchanged |
| `ArgsFacts.UpdateCommand` | vmware-vix-disklib-distrib/doc/samples/diskLib/vixDiskLibSample.cpp:839-927 | the same for an option's update |
| `ArgsFacts.StepCommandBits` | vmware-vix-disklib-distrib/doc/samples/diskLib/vixDiskLibSample.cpp:838-991 | one accepted step keeps: bit j set iff set initially or named by a visited option |
| `ArgsFacts.LoopCommandBits` | vmware-vix-disklib-distrib/doc/samples/diskLib/vixDiskLibSample.cpp:838-991 | along a loop that ends normally, bit j of `command` is set iff it was set initially or a visited option names it |
| `ArgsFacts.CommandBitsPass` | vmware-vix-disklib-distrib/doc/samples/diskLib/vixDiskLibSample.cpp:838-991 | one pass of the loop keeps: bit j of `command` set iff set initially or named by a visited option, and the rest of the loop ends as before |
| `ArgsFacts.FinalCommandBits` | vmware-vix-disklib-distrib/doc/samples/diskLib/vixDiskLibSample.cpp:709-991 | from `command == 0`, the final bits are exactly the bits the visited options name |
| `ArgsFacts.OnlyNamedIffSelectsOnly` | vmware-vix-disklib-distrib/doc/samples/diskLib/vixDiskLibSample.cpp:994-996 | a single named bit is the same as a single named command |
| `ArgsFacts.OneCommand` | vmware-vix-disklib-distrib/doc/samples/diskLib/vixDiskLibSample.cpp:994-996 | `BitCount(command) == 1` iff every command option on the line selects the same command and there is one |
| `ArgsWalk.StepEnd` | vmware-vix-disklib-distrib/doc/samples/diskLib/vixDiskLibSample.cpp:855-912 | an accepted option ends on or before the disk path, and passes it only as the value of `-readbench` just before the disk path |
| `ArgsWalk.LoopTail` | vmware-vix-disklib-distrib/doc/samples/diskLib/vixDiskLibSample.cpp:838-992 | the loop only appends to the positions it visits, and a loop that ends normally ends past the last word iff the last option it visited is a `-readbench` just before the last word |
| `ArgsWalk.LoopEnd` | vmware-vix-disklib-distrib/doc/samples/diskLib/vixDiskLibSample.cpp:838-992 | a loop that ends normally stops on the disk path `argc - 1` or one past it |
| `ArgsWalk.StepKnown` | vmware-vix-disklib-distrib/doc/samples/diskLib/vixDiskLibSample.cpp:988-990 | an accepted step did not stand on an unknown word |
| `ArgsWalk.LoopKnown` | vmware-vix-disklib-distrib/doc/samples/diskLib/vixDiskLibSample.cpp:838-990 | a loop that ends normally visited no unknown word |
| `ArgsWalk.KnownPass` | vmware-vix-disklib-distrib/doc/samples/diskLib/vixDiskLibSample.cpp:988-990 | one pass that goes on adds no unknown word to the visited options, and the rest of the loop ends as before |
| `ArgsWalk.LookupAdapter` | vmware-vix-disklib-distrib/doc/samples/diskLib/vixDiskLibSample.cpp:854 | only the word "-adapter" names `-adapter` |
| `ArgsWalk.UpdateKeeps` | vmware-vix-disklib-distrib/doc/samples/diskLib/vixDiskLibSample.cpp:839-987 | an option that touches no setting leaves every setting as it was |
| `ArgsWalk.UpdateSets` | vmware-vix-disklib-distrib/doc/samples/diskLib/vixDiskLibSample.cpp:839-987 | an option that touches a setting switches it on exactly when it is one of that setting's options |
| `ArgsWalk.UpdateSwitches` | vmware-vix-disklib-distrib/doc/samples/diskLib/vixDiskLibSample.cpp:839-987 | an accepted option switches a setting on exactly when it is one of its options, and never switches one off |
| `ArgsWalk.StepSwitches` | vmware-vix-disklib-distrib/doc/samples/diskLib/vixDiskLibSample.cpp:838-991 | one accepted step keeps: a setting is on iff it was on initially or a visited option switched it on |
| `ArgsWalk.LoopSwitches` | vmware-vix-disklib-distrib/doc/samples/diskLib/vixDiskLibSample.cpp:838-991 | along a loop that ends normally, a setting is on iff it was on initially or a visited option switched it on |
| `ArgsWalk.SwitchesPass` | vmware-vix-disklib-distrib/doc/samples/diskLib/vixDiskLibSample.cpp:838-991 | one pass of the loop keeps: a setting is on iff it was on initially or a visited option switched it on, and the rest of the loop ends as before |
| `ArgsWalk.UpdatePort` | vmware-vix-disklib-distrib/doc/samples/diskLib/vixDiskLibSample.cpp:949-954 | `-port` sets the port to the 32-bit `strtol` value of the next word; every other option leaves the port alone |
| `ArgsWalk.StepPort` | vmware-vix-disklib-distrib/doc/samples/diskLib/vixDiskLibSample.cpp:838-991 | one accepted pass of the loop keeps the port equal to the value of the last `-port` visited so far |
| `ArgsWalk.LoopPort` | vmware-vix-disklib-distrib/doc/samples/diskLib/vixDiskLibSample.cpp:838-991 | a loop that ends normally leaves the port the value of the last `-port` it visited, or the initial port when it visited none |
| `ArgsWalk.PortPass` | vmware-vix-disklib-distrib/doc/samples/diskLib/vixDiskLibSample.cpp:838-991 | one pass of the loop: the port tracks the last visited `-port`, and the rest of the loop ends as before |
| `ParseFacts.DefaultsHoldNothing` | vmware-vix-disklib-distrib/doc/samples/diskLib/vixDiskLibSample.cpp:708-718 | the defaults are local, writable, SCSI, with no host, user or password |
| `ParseFacts.ParseDone` | vmware-vix-disklib-distrib/doc/samples/diskLib/vixDiskLibSample.cpp:838-1013 | a loop that ends normally goes on to the checks after it |
| `ParseFacts.ParseAccepted` | vmware-vix-disklib-distrib/doc/samples/diskLib/vixDiskLibSample.cpp:831-1013 | a command line that parses has at least 3 words and a loop that ended normally |
| `ParseFacts.FinishKeeps` | vmware-vix-disklib-distrib/doc/samples/diskLib/vixDiskLibSample.cpp:992-1013 | the checks after the loop switch no setting on or off |
| `ParseFacts.ParseSwitches` | vmware-vix-disklib-distrib/doc/samples/diskLib/vixDiskLibSample.cpp:831-1013 | after a normal loop, a setting is on iff some visited option switches it on |
| `ParseFacts.ParseRemote` | vmware-vix-disklib-distrib/doc/samples/diskLib/vixDiskLibSample.cpp:928-1008 | a parsed remote connection has host, user and password; it is remote iff one of `-host -user -password -thumb -port -vm` was given; its port is the `strtol` value of the last `-port`, or 902 when that value is 0 or no `-port` was given |
| `ParseFacts.FinishRemote` | vmware-vix-disklib-distrib/doc/samples/diskLib/vixDiskLibSample.cpp:998-1008 | the checks after the loop keep the connection local or remote, reject a remote connection missing host, user or password, turn a remote port 0 into 902 and keep any other port |
| `ParseFacts.ParseAdapter` | vmware-vix-disklib-distrib/doc/samples/diskLib/vixDiskLibSample.cpp:854-861 | on a command line that parses, the adapter is IDE iff `-adapter` was given, whatever its value |
| `ParseFacts.AdapterMark` | vmware-vix-disklib-distrib/doc/samples/diskLib/vixDiskLibSample.cpp:854 | the word at p is the option `-adapter` iff it reads "-adapter" |
| `ParseFacts.LookupPast` | vmware-vix-disklib-distrib/doc/samples/diskLib/vixDiskLibSample.cpp:839-987 | the `strcmp` chain passes over every option word whose length differs from the word's |
| `ParseFacts.AdapterWord` | vmware-vix-disklib-distrib/doc/samples/diskLib/vixDiskLibSample.cpp:854 | "-adapter" is the option `-adapter` |
| `ParseFacts.ReadBenchAfter` | vmware-vix-disklib-distrib/doc/samples/diskLib/vixDiskLibSample.cpp:839-908 | no option word tested before `-readbench` has its length |
| `ParseFacts.ParseReadOnly` | vmware-vix-disklib-distrib/doc/samples/diskLib/vixDiskLibSample.cpp:839-927 | the read-only open flag is set iff `-info`, `-dump`, `-meta`, `-rmeta`, `-readbench` or `-multithread` was given |
| `ParseFacts.ParseKnown` | vmware-vix-disklib-distrib/doc/samples/diskLib/vixDiskLibSample.cpp:988-990 | a command line that parses has at least 3 words and no unknown word in an option position |
| `ParseFacts.ParseDiskPath` | vmware-vix-disklib-distrib/doc/samples/diskLib/vixDiskLibSample.cpp:992 | the disk path is the last word, or missing; it is missing iff the last option the loop visited is a `-readbench` just before the last word, whose value the disabled check at 909 lets it take |
| `ParseFacts.ReadBenchWord` | vmware-vix-disklib-distrib/doc/samples/diskLib/vixDiskLibSample.cpp:908 | "-readbench" is the option `-readbench` |
| `ParseFacts.ReadBenchTakesDiskPath` | vmware-vix-disklib-distrib/doc/samples/diskLib/vixDiskLibSample.cpp:908-913 | `prog -readbench X` parses, and leaves no disk path |
| `Bits.ClearLowestBit` | vmware-vix-disklib-distrib/doc/samples/diskLib/vixDiskLibSample.cpp:1344 | `n & (n - 1)` removes exactly the lowest set bit: one 1 bit fewer |
| `Bits.BitCount` | vmware-vix-disklib-distrib/doc/samples/diskLib/vixDiskLibSample.cpp:1339-1348 | for a non-negative `int`, Kernighan's loop returns the number of 1 bits |
| `Bits.AndPow2` | vmware-vix-disklib-distrib/doc/samples/diskLib/vixDiskLibSample.cpp:770-794 | `n & 2^j` is non-zero iff bit j is set |
| `Bits.BitSetOr` | vmware-vix-disklib-distrib/doc/samples/diskLib/vixDiskLibSample.cpp:840-925 | bit j of `a \| b` is set iff it is set in a or in b |
| `Bits.OrBound` | vmware-vix-disklib-distrib/doc/samples/diskLib/vixDiskLibSample.cpp:840-925 | `\|` of two values below 2^k stays below 2^k |
| `Bits.BitOfPow2` | vmware-vix-disklib-distrib/doc/samples/diskLib/vixDiskLibSample.cpp:36-47 | the only bit of 2^k is bit k |
| `Bits.PopCountPow2` | vmware-vix-disklib-distrib/doc/samples/diskLib/vixDiskLibSample.cpp:994 | a power of two has one 1 bit |
| `Bits.OnlyBitIsPow2` | vmware-vix-disklib-distrib/doc/samples/diskLib/vixDiskLibSample.cpp:994 | a number whose only set bit is k is 2^k, and conversely |
| `Bits.PopCountOne` | vmware-vix-disklib-distrib/doc/samples/diskLib/vixDiskLibSample.cpp:994 | a popcount of one means exactly one set bit, and conversely |
| `CLib.StrToL` | vmware-vix-disklib-distrib/doc/samples/diskLib/vixDiskLibSample.cpp:886-901 | `strtol(s, NULL, 0)` yields a value within `long` |
| `CLib.StrToLDecimal` | vmware-vix-disklib-distrib/doc/samples/diskLib/vixDiskLibSample.cpp:886-901 | a decimal rendering of n (optionally negated) reads back as n (as -n) |
| `CLib.LeadingZeroIsOctal` | vmware-vix-disklib-distrib/doc/samples/diskLib/vixDiskLibSample.cpp:886-901 | with base 0 a leading zero selects octal: "010" is 8 |
| `CLib.Strlen` | vmware-vix-disklib-distrib/doc/samples/diskLib/vixDiskLibSample.cpp:1285 | `strlen(s + pos)` is the distance to the first NUL at or after pos |
| `CTypes.ToI32` | vmware-vix-disklib-distrib/doc/samples/diskLib/vixDiskLibSample.cpp:886 | storing a `long` in an `int` keeps it modulo 2^32 and exactly when it fits |
| `CTypes.ToU64Periodic` | vmware-vix-disklib-distrib/doc/samples/diskLib/vixDiskLibSample.cpp:1673-1674 | conversion to `uint64` sees only the value modulo 2^64: adding any multiple of 2^64 leaves the result unchanged |
| `Units.CreateCapacity` | vmware-vix-disklib-distrib/doc/samples/diskLib/vixDiskLibSample.cpp:1099 | `mbSize * 2048` is formed in 32 bits; below 2^21 MB it is the size in 512-byte sectors |
| `Units.CreateCapacityWraps` | vmware-vix-disklib-distrib/doc/samples/diskLib/vixDiskLibSample.cpp:1630 | a 2 TiB request wraps to capacity 0, one MB more to 2048 sectors |
| `Units.TicksToTimeval` | vmware-vix-disklib-distrib/doc/samples/diskLib/vixDiskLibSample.cpp:472-480 | the Win32 shim splits milliseconds into seconds and microseconds exactly, with usec below 10^6 and a multiple of 1000 |
| `Units.Micros` | vmware-vix-disklib-distrib/doc/samples/diskLib/vixDiskLibSample.cpp:1673-1674 | a timestamp whose exact microsecond count fits in 64 bits converts to that count; `Units.MicrosExact` states the modular relation in general |
| `Units.MicrosExact` | vmware-vix-disklib-distrib/doc/samples/diskLib/vixDiskLibSample.cpp:1673-1674 | a timestamp in microseconds is the exact count reduced modulo 2^64 |
| `Units.MicrosOfTicks` | vmware-vix-disklib-distrib/doc/samples/diskLib/vixDiskLibSample.cpp:476-479 | a shim timestamp is the tick count times 1000 microseconds |
| `Units.ElapsedMs` | vmware-vix-disklib-distrib/doc/samples/diskLib/vixDiskLibSample.cpp:1673-1677 | the elapsed time is at least 1 ms |
| `Units.ElapsedOfTicks` | vmware-vix-disklib-distrib/doc/samples/diskLib/vixDiskLibSample.cpp:1673-1677 | between two shim timestamps the elapsed time is the tick difference (at least 1), or close to 2^64/1000 ms when the 32-bit tick count wrapped |
| `Units.ElapsedOfTimevals` | vmware-vix-disklib-distrib/doc/samples/diskLib/vixDiskLibSample.cpp:1673-1677 | for timestamps that run forward and fit 64 bits in microseconds, the elapsed time is the microsecond difference divided by 1000, or 1 when that is 0 |
| `Units.MicrosFits` | vmware-vix-disklib-distrib/doc/samples/diskLib/vixDiskLibSample.cpp:1673-1674 | a timestamp whose microsecond count fits 64 bits converts without loss |
| `Units.ElapsedForward` | vmware-vix-disklib-distrib/doc/samples/diskLib/vixDiskLibSample.cpp:1673-1677 | without a wrap the elapsed time is the tick difference, at least 1 |
| `Units.ElapsedWrapped` | vmware-vix-disklib-distrib/doc/samples/diskLib/vixDiskLibSample.cpp:1673-1677 | after a wrap the unsigned subtraction yields `(2^64 - 1000 * (a - b)) / 1000` |
| `Units.PrintStat` | vmware-vix-disklib-distrib/doc/samples/diskLib/vixDiskLibSample.cpp:1664-1681 | the line reports the direction, an elapsed time of at least 1 ms and the whole MiB in `numSectors` |
| `Units.StatFor` | vmware-vix-disklib-distrib/doc/samples/diskLib/vixDiskLibSample.cpp:1673-1680 | the same once the elapsed time is known |
| `Units.PrintStatExact` | vmware-vix-disklib-distrib/doc/samples/diskLib/vixDiskLibSample.cpp:1678 | below 2^44 ms nothing wraps: the speed is the exact throughput in MiB/s |
| `Units.StatMegabytes` | vmware-vix-disklib-distrib/doc/samples/diskLib/vixDiskLibSample.cpp:1680 | the MiB printed are the bytes moved (512 per sector) in whole MiB |
| `Units.SpeedExact` | vmware-vix-disklib-distrib/doc/samples/diskLib/vixDiskLibSample.cpp:1678 | below 2^44 ms the divisor does not wrap and the speed fits 32 bits |
| `Units.MegabytesExact` | vmware-vix-disklib-distrib/doc/samples/diskLib/vixDiskLibSample.cpp:1680 | `n / 2048` sectors is `n * 512 / 2^20` bytes |
| `Units.SpeedUndefined` | vmware-vix-disklib-distrib/doc/samples/diskLib/vixDiskLibSample.cpp:1678 | at 2^44 ms the 64-bit divisor wraps to zero |
| `VixErrors.FromCode` | vmware-vix-disklib-distrib/doc/samples/diskLib/vixDiskLibSample.cpp:565-574 | the wrapper keeps the code, the library's text for it, the file and the line |
| `VixErrors.ThrowError` | vmware-vix-disklib-distrib/doc/samples/diskLib/vixDiskLibSample.cpp:115-116 | THROW_ERROR raises a wrapper with the given code and line |
| `VixErrors.CheckAndThrow` | vmware-vix-disklib-distrib/doc/samples/diskLib/vixDiskLibSample.cpp:118-123 | CHECK_AND_THROW passes iff the code is not a failure, else raises a wrapper of that code at that line |
| `VixErrors.CheckProbe` | vmware-vix-disklib-distrib/doc/samples/diskLib/vixDiskLibSample.cpp:1200-1202 | a size probe passes iff the code is VIX_OK or VIX_E_BUFFER_TOOSMALL, else raises it |
| `DiskLib.FilledBlock` | vmware-vix-disklib-distrib/doc/samples/diskLib/vixDiskLibSample.cpp:1164 | `memset(buf, filler, 512)` puts `filler mod 256` in every byte |
| `DiskLib.IoStatus` | vmware-vix-disklib-distrib/doc/samples/diskLib/vixDiskLibSample.cpp:1168-1171 | a transfer passes iff it lies on the disk, is not a write to a read-only handle and touches no failing sector |
| `DiskLib.MetaStore.Upsert` | vmware-vix-disklib-distrib/doc/samples/diskLib/vixDiskLibSample.cpp:1234-1236 | writing metadata sets the key's value and appends a new key to the key order |
| `DiskLib.UpsertValid` | vmware-vix-disklib-distrib/doc/samples/diskLib/vixDiskLibSample.cpp:1234-1236 | a write keeps the store valid, stores the value and changes no other key |
| `DiskLib.Disk.Create` | vmware-vix-disklib-distrib/doc/samples/diskLib/vixDiskLibSample.cpp:1095-1107 | a new disk is zero-filled, of the given capacity and adapter type, closed, without faults or metadata |
| `DiskLib.Disk.Read` | vmware-vix-disklib-distrib/doc/samples/diskLib/vixDiskLibSample.cpp:1314-1316 | a read returns the sectors asked for iff the transfer passes, and logs the request |
| `DiskLib.Disk.Write` | vmware-vix-disklib-distrib/doc/samples/diskLib/vixDiskLibSample.cpp:1168-1170 | a write replaces exactly the sectors written iff the transfer passes, and logs the request |
| `DiskLib.Disk.GetInfo` | vmware-vix-disklib-distrib/doc/samples/diskLib/vixDiskLibSample.cpp:1040 | GetInfo reports the capacity, or fails |
| `DiskLib.Disk.GetMetadataKeys` | vmware-vix-disklib-distrib/doc/samples/diskLib/vixDiskLibSample.cpp:1264-1271 | the probe reports the size of the NUL-separated key list; the buffer is filled only when large enough and the fetch works |
| `DiskLib.Disk.ReadMetadata` | vmware-vix-disklib-distrib/doc/samples/diskLib/vixDiskLibSample.cpp:1197-1208 | an unknown key is not found and a key with a failing probe answers an I/O error; otherwise the probe reports the value's size with its NUL, and the read returns the value only when the buffer is large enough and the fetch works |
| `DiskLib.Disk.WriteMetadata` | vmware-vix-disklib-distrib/doc/samples/diskLib/vixDiskLibSample.cpp:1234-1236 | the write updates the store, or changes nothing and reports why |
| `DiskLib.Disk.Close` | vmware-vix-disklib-distrib/doc/samples/diskLib/vixDiskLibSample.cpp:614 | the handle is closed |
| `DiskLib.Connection.Resolve` | vmware-vix-disklib-distrib/doc/samples/diskLib/vixDiskLibSample.cpp:605 | a path names a disk iff it is given and the connection has it |
| `DiskLib.Connection.Open` | vmware-vix-disklib-distrib/doc/samples/diskLib/vixDiskLibSample.cpp:605 | opening fails iff there is no disk at the path; it opens the disk with the requested read-only mode |
| `DiskLib.Connection.Create` | vmware-vix-disklib-distrib/doc/samples/diskLib/vixDiskLibSample.cpp:1103-1107 | Create answers VIX_E_INVALID_ARG without a path and the host's code for a refused path, and then changes nothing; otherwise it adds a fresh zero disk of the capacity and adapter type at the path and keeps the others |
| `DiskLib.Connection.Disconnect` | vmware-vix-disklib-distrib/doc/samples/diskLib/vixDiskLibSample.cpp:1568 | after VixDiskLib_Disconnect the connection is closed |
| `DiskLib.Connection.Unlink` | vmware-vix-disklib-distrib/doc/samples/diskLib/vixDiskLibSample.cpp:1566 | Unlink removes the disk at the path, and only it |
| `DiskLib.VixDisk.Open` | vmware-vix-disklib-distrib/doc/samples/diskLib/vixDiskLibSample.cpp:602-609 | the constructor opens the disk or raises at line 606, without closing anything |
| `DiskLib.VixDisk.Release` | vmware-vix-disklib-distrib/doc/samples/diskLib/vixDiskLibSample.cpp:611-617 | the destructor closes a non-null handle and clears it |
| `HexDump.Printable` | vmware-vix-disklib-distrib/doc/samples/diskLib/vixDiskLibSample.cpp:1384-1387 | a byte shows as itself iff it is printable ASCII, as '.' otherwise |
| `HexDump.TextOf` | vmware-vix-disklib-distrib/doc/samples/diskLib/vixDiskLibSample.cpp:1383-1389 | the text column shows each byte of the line, in order |
| `HexDump.Dump` | vmware-vix-disklib-distrib/doc/samples/diskLib/vixDiskLibSample.cpp:1372-1391 | the dump has `n / step` lines |
| `HexDump.HexColumnsPrefix` | vmware-vix-disklib-distrib/doc/samples/diskLib/vixDiskLibSample.cpp:1375-1380 | the first m lines show the first `m * step` bytes in order |
| `HexDump.WholeLines` | vmware-vix-disklib-distrib/doc/samples/diskLib/vixDiskLibSample.cpp:1372 | the whole lines leave fewer than `step` bytes unshown |
| `HexDump.HexColumnsDump` | vmware-vix-disklib-distrib/doc/samples/diskLib/vixDiskLibSample.cpp:1372-1391 | the dump shows every byte of its whole lines once and in order; a trailing partial line is not shown |
| `HexDump.DumpLines` | vmware-vix-disklib-distrib/doc/samples/diskLib/vixDiskLibSample.cpp:1377-1389 | line i starts at offset `i * step` and shows bytes `[i*step, i*step+step)` beside their text |
| `HexDump.DumpBytes` | vmware-vix-disklib-distrib/doc/samples/diskLib/vixDiskLibSample.cpp:1367-1393 | the loop with its count-downs of `n` and `k` prints exactly `Dump` of the first n bytes |
| `Metadata.CString` | vmware-vix-disklib-distrib/doc/samples/diskLib/vixDiskLibSample.cpp:1210 | the C string of a buffer is its characters before the first NUL |
| `Metadata.CStringOfValue` | vmware-vix-disklib-distrib/doc/samples/diskLib/vixDiskLibSample.cpp:1204-1210 | a value followed by its NUL reads back as the value |
| `Metadata.ReadValue` | vmware-vix-disklib-distrib/doc/samples/diskLib/vixDiskLibSample.cpp:1197-1209 | the two-phase read yields the stored value iff the key exists and neither call fails; a missing key or failing probe raises at the probe line, a failing fetch at the read line |
| `Metadata.ValueError` | vmware-vix-disklib-distrib/doc/samples/diskLib/vixDiskLibSample.cpp:1197-1209 | the error of a failing read is an I/O error, or key-not-found for a missing key, at the probe or the read line |
| `Metadata.ReadMetadata` | vmware-vix-disklib-distrib/doc/samples/diskLib/vixDiskLibSample.cpp:1197-1209 | on an open handle, DoReadMetadata's two calls yield the key's value, or raise with the library's code at 1201 when the probe fails and at 1209 when the fetch fails |
| `Metadata.DoReadMetadata` | vmware-vix-disklib-distrib/doc/samples/diskLib/vixDiskLibSample.cpp:1192-1211 | DoReadMetadata raises at 606 iff there is no disk at the path; otherwise it yields the key's value, or raises at 1201 (probe) or 1209 (fetch), and leaves the disk closed in the mode it was opened with |
| `Metadata.WriteMetadata` | vmware-vix-disklib-distrib/doc/samples/diskLib/vixDiskLibSample.cpp:1234-1237 | on an open handle, DoWriteMetadata stores the value iff the library accepts; otherwise it changes nothing and raises at 1237 with the library's code (I/O error, read-only handle or empty key, in that order) |
| `Metadata.DoWriteMetadata` | vmware-vix-disklib-distrib/doc/samples/diskLib/vixDiskLibSample.cpp:1230-1238 | DoWriteMetadata raises at 606 iff there is no disk at the path; otherwise it stores the value iff the handle is writable, the key non-empty and the metadata working, else changes nothing and raises at 1237 with the library's code (I/O error, read-only open or empty key, in that order); the disk is left closed |
| `Metadata.JoinAppend` | vmware-vix-disklib-distrib/doc/samples/diskLib/vixDiskLibSample.cpp:1264-1272 | the key list of two lists of keys is the concatenation of their lists |
| `Metadata.KeyAt` | vmware-vix-disklib-distrib/doc/samples/diskLib/vixDiskLibSample.cpp:1272-1285 | key j starts right after the first j keys and their NULs, and is followed by a NUL |
| `Metadata.KeyEnd` | vmware-vix-disklib-distrib/doc/samples/diskLib/vixDiskLibSample.cpp:1274 | the empty string ends the key list |
| `Metadata.KeyString` | vmware-vix-disklib-distrib/doc/samples/diskLib/vixDiskLibSample.cpp:1284-1285 | the C string at key j's position is key j |
| `Metadata.Listing` | vmware-vix-disklib-distrib/doc/samples/diskLib/vixDiskLibSample.cpp:1274-1286 | the listing shows each key of the key order with its value |
| `Metadata.ListedNext` | vmware-vix-disklib-distrib/doc/samples/diskLib/vixDiskLibSample.cpp:1284 | listing key j extends the listing by one key |
| `Metadata.ListedFirst` | vmware-vix-disklib-distrib/doc/samples/diskLib/vixDiskLibSample.cpp:1274-1286 | a listing of the first n keys is the store's listing of them |
| `Metadata.FirstBad` | vmware-vix-disklib-distrib/doc/samples/diskLib/vixDiskLibSample.cpp:1274-1286 | the position of the first unreadable key: every earlier key is readable, and the key there is not |
| `Metadata.FirstBadAt` | vmware-vix-disklib-distrib/doc/samples/diskLib/vixDiskLibSample.cpp:1274-1286 | up to the first unreadable key, a key is unreadable iff it is that one |
| `Metadata.NextKey` | vmware-vix-disklib-distrib/doc/samples/diskLib/vixDiskLibSample.cpp:1284-1285 | advancing by `strlen + 1` moves from key j to key j+1, or to the empty string after the last key |
| `Metadata.DumpMetadata` | vmware-vix-disklib-distrib/doc/samples/diskLib/vixDiskLibSample.cpp:1261-1286 | on an open handle, DoDumpMetadata raises at 1267 when the metadata fails and at 1271 when the key-list fetch fails, printing nothing; otherwise it prints each key once, in key-list order, with its value, up to the first unreadable key, where it raises at 1278 (probe) or 1283 (fetch), and prints all of them when there is none |
| `Metadata.ReadKey` | vmware-vix-disklib-distrib/doc/samples/diskLib/vixDiskLibSample.cpp:1276-1283 | inside the walk, a key reads iff it comes before the first unreadable key; that key raises at 1278 or 1283 |
| `Metadata.WalkKeys` | vmware-vix-disklib-distrib/doc/samples/diskLib/vixDiskLibSample.cpp:1274-1286 | the `while (*key)` loop prints the keys before the first unreadable one, with their values, and raises there, or prints all of them |
| `Metadata.DoDumpMetadata` | vmware-vix-disklib-distrib/doc/samples/diskLib/vixDiskLibSample.cpp:1257-1287 | DoDumpMetadata raises at 606 iff there is no disk at the path; otherwise it behaves as `Metadata.DumpMetadata` on the disk (raises at 1267 or 1271, or prints the keys up to the first unreadable one, raising at 1278 or 1283 there); the disk is left closed |
| `Sectors.Address` | vmware-vix-disklib-distrib/doc/samples/diskLib/vixDiskLibSample.cpp:1169 | `appGlobals.startSector + startSector` is the plain sum when it fits in 64 bits; `Sectors.TouchedRange` and `Sectors.PassingNoWrap` use it |
| `Sectors.FirstRefused` | vmware-vix-disklib-distrib/doc/samples/diskLib/vixDiskLibSample.cpp:1166-1172 | the number of steps done is between the start and the end |
| `Sectors.FirstRefusedSpec` | vmware-vix-disklib-distrib/doc/samples/diskLib/vixDiskLibSample.cpp:1166-1172 | every step before the failure index passes, and the step at it is refused |
| `Sectors.FirstRefusedLeast` | vmware-vix-disklib-distrib/doc/samples/diskLib/vixDiskLibSample.cpp:1166-1172 | the failure index is the first refused step |
| `Sectors.Requests` | vmware-vix-disklib-distrib/doc/samples/diskLib/vixDiskLibSample.cpp:1168-1170 | step j requests one sector at `startSector + j` |
| `Sectors.TouchedRange` | vmware-vix-disklib-distrib/doc/samples/diskLib/vixDiskLibSample.cpp:1169 | without wrap-around the loop touches exactly `[start, start + m)` |
| `Sectors.PassingNoWrap` | vmware-vix-disklib-distrib/doc/samples/diskLib/vixDiskLibSample.cpp:1169 | steps that all pass never wrap: they stay below the capacity |
| `Sectors.TouchedUntilRefused` | vmware-vix-disklib-distrib/doc/samples/diskLib/vixDiskLibSample.cpp:1166-1172 | a loop up to its first refused transfer touched exactly `[start, start + done)` |
| `Sectors.PaintNext` | vmware-vix-disklib-distrib/doc/samples/diskLib/vixDiskLibSample.cpp:1168-1171 | writing the next sector paints one more step |
| `Sectors.PaintNone` | vmware-vix-disklib-distrib/doc/samples/diskLib/vixDiskLibSample.cpp:1164-1166 | before the loop nothing is painted |
| `Sectors.Refused` | vmware-vix-disklib-distrib/doc/samples/diskLib/vixDiskLibSample.cpp:1166-1172 | the count of passing steps is at most `numSectors` |
| `Sectors.FillStep` | vmware-vix-disklib-distrib/doc/samples/diskLib/vixDiskLibSample.cpp:1167-1171 | one pass writes the filler block at `startSector + k` if the library accepts |
| `Sectors.Fill` | vmware-vix-disklib-distrib/doc/samples/diskLib/vixDiskLibSample.cpp:1163-1172 | on an open handle, DoFill's loop writes the filler to `startSector + k` for every k before the first refused write, raises at 1171 on it, and changes nothing else |
| `Sectors.DoFill` | vmware-vix-disklib-distrib/doc/samples/diskLib/vixDiskLibSample.cpp:1157-1173 | DoFill raises at 606 iff there is no disk at the path; otherwise it fills every sector before the first refused write, raises at 1171 on it, and leaves the disk closed in the mode it was opened with |
| `Sectors.DumpStep` | vmware-vix-disklib-distrib/doc/samples/diskLib/vixDiskLibSample.cpp:1314-1318 | one pass reads a sector and dumps it, 16 bytes a line |
| `Sectors.DumpSectors` | vmware-vix-disklib-distrib/doc/samples/diskLib/vixDiskLibSample.cpp:1313-1319 | on an open handle, DoDump's loop dumps every sector before the first refused read and raises at 1317 on it, without changing the disk |
| `Sectors.DoDump` | vmware-vix-disklib-distrib/doc/samples/diskLib/vixDiskLibSample.cpp:1306-1320 | DoDump raises at 606 iff there is no disk at the path; otherwise it dumps every sector before the first refused read, raises at 1317 on it, leaves the sectors as they were and the disk closed |
| `MultiThread.CopiedCount` | vmware-vix-disklib-distrib/doc/samples/diskLib/vixDiskLibSample.cpp:1432-1437 | a job copies at most `numSectors` sectors |
| `MultiThread.CopiedAll` | vmware-vix-disklib-distrib/doc/samples/diskLib/vixDiskLibSample.cpp:1432-1437 | a complete copy of a same-size source leaves an identical destination |
| `MultiThread.CopyAllPass` | vmware-vix-disklib-distrib/doc/samples/diskLib/vixDiskLibSample.cpp:1432-1437 | on disks of `numSectors` sectors without faults and a writable destination, every sector is copied |
| `MultiThread.CopyStep` | vmware-vix-disklib-distrib/doc/samples/diskLib/vixDiskLibSample.cpp:1433-1436 | one pass reads source sector i and, if that passes, writes it to the destination |
| `MultiThread.CopyThread` | vmware-vix-disklib-distrib/doc/samples/diskLib/vixDiskLibSample.cpp:1423-1448 | the job copies sector i from source to destination for every i before the first refused transfer; it returns TASK_OK iff all were copied, and clears `success` otherwise, never setting it back |
| `MultiThread.DstPaths` | vmware-vix-disklib-distrib/doc/samples/diskLib/vixDiskLibSample.cpp:1563-1567 | the set of destination paths is exactly the paths of the jobs |
| `MultiThread.CloseJob` | vmware-vix-disklib-distrib/doc/samples/diskLib/vixDiskLibSample.cpp:1564-1566 | closes a job's source and destination and removes its destination disk |
| `MultiThread.CloseJobs` | vmware-vix-disklib-distrib/doc/samples/diskLib/vixDiskLibSample.cpp:1563-1567 | the loop closes both handles of every job and removes exactly the destination disks of the jobs |
| `MultiThread.Cleanup` | vmware-vix-disklib-distrib/doc/samples/diskLib/vixDiskLibSample.cpp:1563-1571 | every handle is closed, every destination disk removed and the destination connection disconnected; VIX_E_FAIL is raised at 1570 iff the shared `success` flag is cleared |
| `Bench.BufSectors` | vmware-vix-disklib-distrib/doc/samples/diskLib/vixDiskLibSample.cpp:1745-1747 | a buffer size of 0 becomes 128; any other is kept |
| `Bench.MaxOps` | vmware-vix-disklib-distrib/doc/samples/diskLib/vixDiskLibSample.cpp:1761 | `maxOps` is at most `capacity / bufSize`, and equal to it when the quotient fits in 32 bits; `Bench.MaxOpsCover` shows the buffers then cover the disk |
| `Bench.MaxOpsCover` | vmware-vix-disklib-distrib/doc/samples/diskLib/vixDiskLibSample.cpp:1761 | the buffers lie on the disk, and without 32-bit truncation fewer than `bufSize` sectors at the end are left out |
| `Bench.OffsetProduct` | vmware-vix-disklib-distrib/doc/samples/diskLib/vixDiskLibSample.cpp:1774-1778 | the first sector of buffer i is `i * bufSize` |
| `Bench.RunOnDisk` | vmware-vix-disklib-distrib/doc/samples/diskLib/vixDiskLibSample.cpp:1761-1779 | all `maxOps` buffers end within the capacity |
| `Bench.Ops` | vmware-vix-disklib-distrib/doc/samples/diskLib/vixDiskLibSample.cpp:1769-1779 | there is one transfer per buffer |
| `Bench.OpsPartition` | vmware-vix-disklib-distrib/doc/samples/diskLib/vixDiskLibSample.cpp:1773-1779 | the buffers tile the start of the disk: sector s lies in buffer `s / bufSize` and no other |
| `Bench.OpsNext` | vmware-vix-disklib-distrib/doc/samples/diskLib/vixDiskLibSample.cpp:1769-1779 | buffer i's transfer covers `[i*bufSize, i*bufSize + bufSize)` |
| `Bench.Moved` | vmware-vix-disklib-distrib/doc/samples/diskLib/vixDiskLibSample.cpp:1769-1785 | the buffers moved before the first failure number at most `maxOps` |
| `Bench.MovedAll` | vmware-vix-disklib-distrib/doc/samples/diskLib/vixDiskLibSample.cpp:1769-1785 | without failing sectors in the run and with a writable handle for writes, every buffer is moved |
| `Bench.MovedStops` | vmware-vix-disklib-distrib/doc/samples/diskLib/vixDiskLibSample.cpp:1769-1785 | the number of buffers moved is the first buffer refused, or `maxOps` when none is |
| `Bench.Printed` | vmware-vix-disklib-distrib/doc/samples/diskLib/vixDiskLibSample.cpp:1788-1796 | each report is printed by PrintStat, in order |
| `Bench.Repeat` | vmware-vix-disklib-distrib/doc/samples/diskLib/vixDiskLibSample.cpp:1777-1779 | m buffers written one after another fill `m * bufSize` sectors |
| `Bench.RepeatAt` | vmware-vix-disklib-distrib/doc/samples/diskLib/vixDiskLibSample.cpp:1777-1779 | sector s of m buffers written in turn holds block `s % bufSize` of the buffer |
| `Bench.StripedAt` | vmware-vix-disklib-distrib/doc/samples/diskLib/vixDiskLibSample.cpp:1777-1779 | after a write run of m buffers, each sector they cover holds block `s % bufSize` of the buffer and every other sector is as before |
| `Bench.StripeNext` | vmware-vix-disklib-distrib/doc/samples/diskLib/vixDiskLibSample.cpp:1777-1779 | writing buffer i puts the buffer's contents on its sectors |
| `Bench.WriteBuffer` | vmware-vix-disklib-distrib/doc/samples/diskLib/vixDiskLibSample.cpp:1777-1779 | the write of buffer i stripes one more buffer if the library accepts |
| `Bench.BenchStep` | vmware-vix-disklib-distrib/doc/samples/diskLib/vixDiskLibSample.cpp:1772-1781 | one buffer's read or write at `i * bufSize` passes exactly when the transfer is allowed |
| `Bench.MeterBounds` | vmware-vix-disklib-distrib/doc/samples/diskLib/vixDiskLibSample.cpp:1787-1793 | after every buffer `bufUpdate < 131072`; each report covers at least 131072 sectors and runs from one clock reading to the next |
| `Bench.MeterConserves` | vmware-vix-disklib-distrib/doc/samples/diskLib/vixDiskLibSample.cpp:1787-1793 | without a wrap, the reports and the pending count add up to the sectors moved |
| `Bench.MeterLarge` | vmware-vix-disklib-distrib/doc/samples/diskLib/vixDiskLibSample.cpp:1787-1793 | a buffer of at least 131072 sectors is reported after every buffer, on its own |
| `Bench.Tick` | vmware-vix-disklib-distrib/doc/samples/diskLib/vixDiskLibSample.cpp:1787-1793 | after one buffer fewer than BUFS_PER_STAT sectors are pending, and at most one report is added; `Bench.MeterBounds` states what the reports hold |
| `Bench.MeterAt` | vmware-vix-disklib-distrib/doc/samples/diskLib/vixDiskLibSample.cpp:1787-1793 | the statistics after `c` buffers; `Bench.MeterBounds`, `Bench.MeterConserves`, `Bench.MeterLarge` and `Bench.MeterCount` state their properties |
| `Bench.MeterCount` | vmware-vix-disklib-distrib/doc/samples/diskLib/vixDiskLibSample.cpp:1787-1793 | each buffer adds at most one report, so `c` buffers give at most `c` reports |
| `Bench.RunReports` | vmware-vix-disklib-distrib/doc/samples/diskLib/vixDiskLibSample.cpp:1787-1796 | a run of `done` buffers reports at most once per buffer plus the final total, and the total only when all `maxOps` buffers were moved |
| `Bench.TallyStep` | vmware-vix-disklib-distrib/doc/samples/diskLib/vixDiskLibSample.cpp:1787-1793 | the loop's tally of one buffer is one step of the statistics state |
| `Bench.Advance` | vmware-vix-disklib-distrib/doc/samples/diskLib/vixDiskLibSample.cpp:1770-1793 | one loop pass: the buffer's transfer, and its tally when it was moved |
| `Bench.Transfer` | vmware-vix-disklib-distrib/doc/samples/diskLib/vixDiskLibSample.cpp:1769-1794 | the loop moves buffers until the first refused one, logs exactly those transfers and tallies the moved buffers |
| `Bench.RunBuffers` | vmware-vix-disklib-distrib/doc/samples/diskLib/vixDiskLibSample.cpp:1769-1796 | a refused buffer raises at 1784; a complete run ends with a report over the whole run |
| `Bench.RWBench` | vmware-vix-disklib-distrib/doc/samples/diskLib/vixDiskLibSample.cpp:1742-1797 | on an open handle, DoRWBench fixes `bufSize`, raises at 1758 when GetInfo fails, otherwise moves buffers, writes the random buffer for a write run, raises at 1784 on the first refused buffer, and prints the periodic and final statistics |
| `Bench.RWBenchHeld` | vmware-vix-disklib-distrib/doc/samples/diskLib/vixDiskLibSample.cpp:1736-1798 | the benchmark on the handle a `VixDisk` holds, then its destructor: the disk is left closed, in its mode, with the benchmark's result |
| `Bench.DoRWBench` | vmware-vix-disklib-distrib/doc/samples/diskLib/vixDiskLibSample.cpp:1733-1798 | DoRWBench raises at 606 iff there is no disk at the path, before `bufSize` is touched; otherwise it runs the benchmark as RWBench says and leaves the disk closed in the mode it was opened with |
| `Sample.DispatchFrom` | vmware-vix-disklib-distrib/doc/samples/diskLib/vixDiskLibSample.cpp:770-794 | the `if (command & COMMAND_x)` chain from its `k`-th test on; `Sample.DispatchFromSome` and `Sample.DispatchFromNone` state which command it picks |
| `Sample.Dispatch` | vmware-vix-disklib-distrib/doc/samples/diskLib/vixDiskLibSample.cpp:770-794 | a command `main` runs has its bit set in `command`; that it is the first such one in the test order is `Sample.DispatchSpec` |
| `Sample.Rank` | vmware-vix-disklib-distrib/doc/samples/diskLib/vixDiskLibSample.cpp:770-794 | each command has a position in the `else if` chain |
| `Sample.TestsBit` | vmware-vix-disklib-distrib/doc/samples/diskLib/vixDiskLibSample.cpp:770-794 | `command & COMMAND_x` is non-zero iff x's bit is set |
| `Sample.RankOf` | vmware-vix-disklib-distrib/doc/samples/diskLib/vixDiskLibSample.cpp:770-794 | each command is tested once |
| `Sample.DispatchFromSome` | vmware-vix-disklib-distrib/doc/samples/diskLib/vixDiskLibSample.cpp:770-794 | the chain from test k runs cmd iff cmd comes at or after k, its bit is set and no bit between is set |
| `Sample.DispatchFromNone` | vmware-vix-disklib-distrib/doc/samples/diskLib/vixDiskLibSample.cpp:770-794 | the chain from test k runs nothing iff no remaining bit is set |
| `Sample.DispatchSpec` | vmware-vix-disklib-distrib/doc/samples/diskLib/vixDiskLibSample.cpp:770-794 | `main` runs the first command in chain order whose bit is set |
| `Sample.DispatchNone` | vmware-vix-disklib-distrib/doc/samples/diskLib/vixDiskLibSample.cpp:770-794 | `main` runs no command iff no command bit is set |
| `Sample.DispatchOnly` | vmware-vix-disklib-distrib/doc/samples/diskLib/vixDiskLibSample.cpp:770-794 | with a single bit set, `main` runs its command |
| `Sample.ParsedDispatch` | vmware-vix-disklib-distrib/doc/samples/diskLib/vixDiskLibSample.cpp:770-796 | after a successful parse, `main` runs exactly the command the command line selects |
| `Sample.Params` | vmware-vix-disklib-distrib/doc/samples/diskLib/vixDiskLibSample.cpp:729-740 | `cnxParams` holds the remote settings exactly when the connection is remote, with its vmx spec and server name; otherwise it is all zero |
| `Sample.ConnectCall` | vmware-vix-disklib-distrib/doc/samples/diskLib/vixDiskLibSample.cpp:757-768 | `main` calls Connect exactly when neither a snapshot nor a transport mode is given, otherwise ConnectEx, always with `cnxParams`; `Sample.MainConnect` ties it to the command line |
| `Sample.Cleanup` | vmware-vix-disklib-distrib/doc/samples/diskLib/vixDiskLibSample.cpp:802-811 | EndAccess runs exactly when a VM was named, Disconnect exactly when connected, Exit exactly when the library was initialised; `Sample.CleanupInOrder` states the order |
| `Sample.Session` | vmware-vix-disklib-distrib/doc/samples/diskLib/vixDiskLibSample.cpp:731-811 | after a successful parse `main` returns 0 exactly when nothing was caught, and 1 otherwise; a failed initialisation is caught at line 754; `Sample.SessionReleases` and `Sample.SessionInOrder` state the calls |
| `Sample.Main` | vmware-vix-disklib-distrib/doc/samples/diskLib/vixDiskLibSample.cpp:703-812 | `main` returns 0 or 1, and makes a library call exactly when ParseArguments succeeds; `Sample.MainRetval` states when it returns 0 |
| `Sample.MainRetval` | vmware-vix-disklib-distrib/doc/samples/diskLib/vixDiskLibSample.cpp:703-812 | `main` returns 0 iff the command line parses, the library initialises and connects and the command does not raise; else 1; a rejected line makes no library call; after a parse, 1 means an error was caught |
| `Sample.SessionShape` | vmware-vix-disklib-distrib/doc/samples/diskLib/vixDiskLibSample.cpp:731-811 | the calls are those of the `try` block followed by the cleanup |
| `Sample.AttemptedInOrder` | vmware-vix-disklib-distrib/doc/samples/diskLib/vixDiskLibSample.cpp:742-794 | the calls of the `try` block come once each, in order |
| `Sample.CleanupInOrder` | vmware-vix-disklib-distrib/doc/samples/diskLib/vixDiskLibSample.cpp:802-811 | the cleanup calls come once each, in order: EndAccess, Disconnect, Exit |
| `Sample.SessionInOrder` | vmware-vix-disklib-distrib/doc/samples/diskLib/vixDiskLibSample.cpp:731-811 | however the session ends, each call is made at most once and in program order |
| `Sample.SessionReleases` | vmware-vix-disklib-distrib/doc/samples/diskLib/vixDiskLibSample.cpp:802-811 | Exit iff the library initialised; Disconnect iff it connected; EndAccess iff a VM was named (even after a failed initialisation); PrepareForAccess iff a VM was named and the library initialised; a command only on a live connection |
| `Sample.SessionCall` | vmware-vix-disklib-distrib/doc/samples/diskLib/vixDiskLibSample.cpp:731-811 | a call is made exactly when the `try` block or the cleanup makes it |
| `Sample.SessionRuns` | vmware-vix-disklib-distrib/doc/samples/diskLib/vixDiskLibSample.cpp:770-794 | a command runs exactly when the library initialised and connected and it is the command dispatched |
| `Sample.MainConnect` | vmware-vix-disklib-distrib/doc/samples/diskLib/vixDiskLibSample.cpp:757-768 | `main` connects with plain Connect iff no snapshot or transport mode is set, remotely iff a remote option was given, and ConnectEx is read-only iff a read-only command was given |
| `Sample.MainRuns` | vmware-vix-disklib-distrib/doc/samples/diskLib/vixDiskLibSample.cpp:769-794 | once connected, `main` runs a command iff the command line selects it |
| `Sample.DoCreate` | vmware-vix-disklib-distrib/doc/samples/diskLib/vixDiskLibSample.cpp:1091-1109 | DoCreate creates an empty disk at the disk path of `mbSize * 2048` sectors in 32 bits for the chosen adapter type, keeps the other disks, and raises at 1108 with the library's code (VIX_E_INVALID_ARG without a path) iff the library refuses, changing nothing then |
| `Sample.DoInfo` | vmware-vix-disklib-distrib/doc/samples/diskLib/vixDiskLibSample.cpp:1033-1044 | DoInfo raises at 606 when the disk does not open, at 1042 when GetInfo fails, reports the capacity otherwise, and closes the disk on every path |

## Left out

- The description constructor of `VixDiskLibErrWrapper` (line 576) is never called by the sample and is not modelled.
- The vendor library (VixDiskLib) is replaced by the abstract disk and connection above. Disk formats, transport modes, snapshots and the library's text for an error code are not modelled. `VixError` names only the codes the sample distinguishes.
- The dynamic loading of the library (`LoadOneFunc`, `DynLoadDiskLib`) is foreign symbol binding and is not modelled.
- DoRedo and DoClone are not modelled beyond their capacity expression (`Units.CreateCapacity`): each is one vendor call (`CreateChild`, `Clone`) behind a `VixDisk` or a `Connect`.
- Sample.DoCreate: the disk type (monolithic sparse) and hardware version it passes are vendor constants with no effect on the abstract disk, and are not recorded.
- Sample.DoInfo: only the capacity is returned. The link count, adapter type, geometries and transport-mode list it prints are vendor data.
- Sample.Session: the results of PrepareForAccess and EndAccess are overwritten or ignored by `main`, so the oracle has no field for them. The connection handle is taken to be set exactly when the connection succeeds. How the selected command ends is the oracle's free field `commandOutcome`: Sample.Main, Sample.MainRetval, Sample.MainRuns and Sample.SessionReleases are not tied to the per-command members (DoInfo, DoFill, DoRWBench and the rest), which model each command on its own disk state.
- The threads of DoTestMultiThread (`PrepareThreadData`, thread creation and joining) are not modelled. Only the body of one copy job (`MultiThread.CopyThread`) and the sequential cleanup (`MultiThread.Cleanup`) are. Concurrent jobs clearing the shared `success` flag are not modelled.
- The clock (`gettimeofday`, `GetTickCount`) is an input function `clock`. The contents of `InitBuffer`'s random buffer (`srand`, `rand`) are an input `noise`.
- The buffer allocation and `delete []` of DoRWBench, and the `std::vector` buffers of the metadata commands, are not modelled.
- Output text is not modelled: `printf`/`cout` lines, the wording of `PrintUsage`, and the Log/Warn/Panic callbacks. `DumpBytes` yields line records (offset, hex bytes, text), and `PrintStat` yields a `Stat` record.
- The numeric values of `VIXDISKLIB_FLAG_OPEN_*` are defined in a vendor header that is not part of this model. `openFlags` is modelled as two booleans.
- Command-line words are compared as whole strings, as `strcmp` compares C strings without embedded NULs.
- Args.Bit: states only that each bit is below 2^12. Its exact value `1 << Index(x)` is `ArgsFacts.BitIsPow2`.
- CLib.StrToL: its own contract gives only the range. The decimal round trip and the octal case are separate lemmas; hexadecimal input is modelled but has no lemma of its own.
- Bits.BitCount: requires a non-negative `int` below 2^31. For a negative argument the source's loop reaches `INT_MIN - 1`, a signed overflow, and `main` only ever passes a non-negative `command`.
