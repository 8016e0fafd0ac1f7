# zzuf launcher core, in Dafny

A model of the deterministic core of zzuf's process launcher,
`src/myfork.c`. zzuf starts the program under test so that its fault-injection
library, libzzuf, is loaded into it. On systems with `fork` it does this through
the dynamic loader's preload variable. On Windows it writes a loader stub into
the suspended child.

The model covers these pieces:

- **C strings and buffers** (`buffers.dfy`): strings as `seq<char>`, and
  malloc'd blocks whose initial contents are a parameter. Contracts show that
  results do not depend on those contents. Also `strcpy`, `strcat`, `strrchr`.
- **Environment** (`environ.dfy`): putenv's list of `NAME=VALUE` entries,
  getenv with first-match lookup, and the fallback `setenv`.
- **`%i` encoding** (`decimal.dfy`): the encoding the launcher publishes, with
  its decoding and the 64-byte buffer bound.
- **Library path and preload** (`libpath.dfy`): the resolver, the merge with a
  previous preload value, the mode gate, and the per-platform constants.
- **Descriptor remap** (`fdremap.dfy`): the child's loop over its three
  channels, as `close`/`dup2` calls on a descriptor table. `dup2` replaces
  whatever its target held, as POSIX says.
- **Resource ceilings** (`rlimits.dfy`): the `setrlimit` calls the child makes.
- **Fork branch** (`spawner.dfy`): fork's three outcomes, the parent closing its
  write ends, and the child's state just before `execvp`.
- **Windows command line** (`cmdline.dfy`): the argument join.
- **Windows launch** (`windows.dfy`): standard handles, then create, inject and
  resume.
- **Loader payload** (`payload.dfy`): the byte templates, the address slot, and
  the library name after the template.
- **Export lookup** (`pe_exports.dfy`, `memory.dfy`, `bytes.dfy`): the
  `LoadLibraryA` lookup through the export directory of `kernel32.dll`. The
  layout is that of sections 3.4.3 and 6.3 of the Microsoft PE/COFF
  specification. The child's memory is a byte map.
- **Injection** (`injector.dfy`): the sequence of remote calls and writes. Each
  call's failure is an input.

The operating system is never called. What it would answer is an input to the
model:

- `access()` is a predicate on paths.
- The fork result is an integer.
- The descriptor table is a map.
- The refused Windows calls are a set.
- The module snapshot is a sequence.
- `VirtualAllocEx`'s result is a number.
- The thread context that polling finds at the entry point is an option.
- The child's memory once it has run to its entry point is a byte map.

Notes on the code:

- **No quoting on Windows.** The command line is not quoted, so an argument
  containing a space reaches the child as two arguments
  (`CommandLine.SpacesSplitArguments`).
- **The remap can clobber the debug pipe.** If zzuf starts with stdout and
  stderr closed, `pipe()` gives the debug pipe descriptors 1 and 2. The remap
  then clobbers both ends of that pipe
  (`FdRemap.ClobberedDebugChannel`). The debug descriptor ends up on the stderr
  channel, and stdout and stderr are left closed. The positive results
  (`FdRemap.ChildChannelsWired`) assume that no target is a descriptor of a
  pipe handled later.
- **Parent write ends are closed twice.** `run_process` closes them on fork
  systems, and `myfork` closes them again (src/myfork.c:113-117). That second
  step is outside the core modelled here.
- **The launcher's environment is changed.** On Windows, the environment
  variables are set in the launcher's own process. On the Mac, the flat-namespace
  variable is set before the fork, so the parent keeps it
  (`Spawner.RunProcess`).

## Model

| member | source | states |
|---|---|---|
| Buffers.LastIndex | src/myfork.c:307 | strrchr gives an index holding the character with none after it, and finds nothing exactly when the character does not occur |
| Buffers.StrCpyInside | src/myfork.c:310 | strcpy at an offset within a C string leaves the string's prefix up to the offset followed by the copied text, terminated |
| Buffers.StrCat | src/myfork.c:318 | strcat leaves the previous string followed by the appended text, terminated |
| Decimal.FormatInt | src/myfork.c:287-290 | the %i text starts with '-' exactly for negative values and is otherwise digits |
| Decimal.ParseFormatInt | src/myfork.c:287-291 | reading the %i text of any integer back as a decimal gives the integer |
| Decimal.FormatInt32Fits | src/myfork.c:283-291 | any C int printed with %i takes at most 11 characters and fits `buf[64]` with its terminator |
| Environ.GetEnvFirst | src/myfork.c:197 | getenv finds a variable exactly when some entry defines it, and returns the value of the first such entry |
| Environ.PutEnv | src/myfork.c:202 | after putenv the name maps to the entry's value, every other valid name keeps its value, and entries stay C strings |
| Environ.FormatEntry | src/myfork.c:200-201 | the sprintf'd entry is `name=value` and, with its terminator, fills the block sized for name, '=', value and NUL exactly |
| Environ.SetEnv | src/myfork.c:195-203 | with overwrite 0 and the name present the environment is unchanged; otherwise the name maps to the value; other names keep their values |
| LibPath.ResolveLibPath | src/myfork.c:297-318 | the path built in place is the chosen one of the three cases whatever the block held, and it plus its NUL fits the block of line 301 |
| LibPath.PlaceColocated | src/myfork.c:307-310 | after the last '/' of argv0 the block holds `LT_OBJDIR SONAME`, within the block |
| LibPath.TailFits | src/myfork.c:299-310 | the colocated tail copied after the last '/' fits the block |
| LibPath.MergeBlock | src/myfork.c:324-325 | the merged value is the old value, ':' and the path, and it fills the block sized for both strings, ':' and NUL exactly |
| LibPath.MergePreload | src/myfork.c:321-328 | a present non-empty old value is kept in front of ':' and the path; otherwise the value is the path |
| LibPath.ApplyPreload | src/myfork.c:320-332 | in preload mode the preload variable holds the merged value; in other modes the environment is unchanged; other variables never change |
| LibPath.PreloadKeepsChain | src/myfork.c:320-328 | a non-empty previous preload value is a strict prefix of the new one, followed by ':' |
| LibPath.FlatNamespace | src/myfork.c:212-214 | on the Mac in preload mode DYLD_FORCE_FLAT_NAMESPACE is 1; elsewhere the environment is unchanged |
| LibPath.PreloadVarValid | src/myfork.c:208-224 | every platform's preload variable is a name setenv accepts |
| Rlimits.MemoryResource | src/myfork.c:61-69 | the memory ceiling uses RLIMIT_AS, else RLIMIT_VMEM, else RLIMIT_DATA, else none |
| Rlimits.ResourceLimits | src/myfork.c:262-280 | a memory call is made exactly when a memory resource exists and maxmem >= 0; it comes first, on that resource, with soft = hard = maxmem MiB. A CPU call is made exactly when RLIMIT_CPU exists and maxcpu >= 0; it comes last, with soft = maxcpu and hard = soft + 5. No other call is made |
| FdRemap.RemapLoop | src/myfork.c:249-259 | after the loop every processed channel's write end is recorded at its target, the rest are untouched, and the calls are those of `LoopCalls` |
| FdRemap.RemapLoopRuns | src/myfork.c:250-259 | the table after the loop is the effect of its recorded close/dup2 calls |
| FdRemap.LoopCallsMade | src/myfork.c:250-259 | every read end is closed, a write end is dup2'd exactly when off target, and no other dup2 is made |
| FdRemap.DebugCallsLast | src/myfork.c:247-250 | the debug channel's calls end the loop |
| FdRemap.RemapLoopTable | src/myfork.c:250-259 | without clobbering, the table loses the pipe descriptors and gains the targets, each holding its channel's write end, and nothing else changes |
| FdRemap.ChildChannelsWired | src/myfork.c:244-259 | for the three channels: targets hold the write ends, no read end stays open, and inherited descriptors other than the targets are kept |
| FdRemap.DebugChannelLast | src/myfork.c:247-259 | the debug descriptor holds the debug pipe's write end whenever that end is not 1 or 2, even if the other channels collide |
| FdRemap.ClobberedDebugChannel | src/myfork.c:244-259 | with the debug pipe on descriptors 1 and 2, the loop leaves the stderr channel on the debug descriptor and stdout and stderr closed |
| Spawner.FormatIntBuffer | src/myfork.c:283-290 | the `%i` text in `buf[64]` fits and reads back as the value |
| Spawner.PropagateEnv | src/myfork.c:282-295 | afterwards ZZUF_DEBUGFD and ZZUF_SEED read back as the descriptor and the seed, the ratio variables hold their text, and other variables are unchanged |
| Spawner.ResolvedLib | src/myfork.c:297-318 | the child's library path is the chosen path, a C string |
| Spawner.ChildEnv | src/myfork.c:283-332 | the exec environment carries the four parameters and, in preload mode only, the merged preload value; other variables are inherited |
| Spawner.ChildBranch | src/myfork.c:244-333 | after the remap each channel's recorded write end is its target; the ceilings are the `setrlimit` calls `Rlimits.ResourceLimits` gives for the host and the options, none exactly when neither applies; the environment is built around the debug target |
| Spawner.RunProcess | src/myfork.c:206-242 | a negative fork result fails, a positive one is the parent that closed its write ends, zero is the child's branch; the flat-namespace variable is set before the split, so the parent (or the failed launch) keeps it as 1 on the Mac in preload mode, and the child starts from that environment |
| Spawner.ParentKeepsReadEnds | src/myfork.c:234-241 | the parent keeps the three read ends and inherited descriptors, and holds no write end |
| Spawner.AdvertisedDebugFd | src/myfork.c:250-291 | the debug descriptor the child publishes refers to the debug pipe's write end when that end is not 1 or 2 |
| CommandLine.BuildCommandLine | src/myfork.c:357-368 | the block is exactly the sum of the argument lengths plus one each, and holds the arguments joined by single spaces with a NUL |
| CommandLine.SpacedIsJoin | src/myfork.c:361-368 | each argument followed by a space, with the last space replaced, is the space-joined line |
| CommandLine.SplitJoin | src/myfork.c:357-368 | arguments without spaces are recovered by splitting the line at its spaces |
| CommandLine.SpacesSplitArguments | src/myfork.c:357-368 | the argument `a b` and the two arguments `a`, `b` give the same line |
| WindowsLaunch.SameStdChannels | src/myfork.c:353-354 | the child's stdout and stderr handles are channels 2 and 1, where the fork child moves them |
| WindowsLaunch.Launch | src/myfork.c:345-409 | the handle is returned exactly when creation, injection and resume succeed; a failure after creation terminates the child; the command line is the join |
| WindowsLaunch.LaunchSucceeds | src/myfork.c:372-409 | the launch succeeds exactly when the process is created, no injection step fails and the thread resumes |
| Payload.SlotIsPlaceholder | src/myfork.c:421-461 | the address slot (0x15-0x1C on AMD64, 0x04-0x07 on IX86) is exactly the run of '_' bytes in the template |
| Payload.ForgePayload | src/myfork.c:483-535 | the payload is the template length plus the name length plus one bytes: the slot holds the little-endian address, other template bytes are copied, and the tail is the name and a NUL |
| Payload.PatchedAddress | src/myfork.c:534 | the address read back from the slot is the one patched in |
| Payload.BlankedSlot | src/myfork.c:531-534 | putting the placeholder back over the slot gives the template |
| Payload.ForgeIgnoresBlock | src/myfork.c:531-535 | the payload does not depend on what the fresh block held |
| Payload.LeaReachesName | src/myfork.c:430 | the AMD64 `lea` displacement points just past the template, where the name is |
| Payload.SpinLoopSpins | src/myfork.c:469 | the `wait` stub is a two-byte short jump onto itself |
| Payload.JmpReachesCall | src/myfork.c:452-460 | the IX86 opening short `jmp` lands on the closing `call` |
| Payload.CallPushesName | src/myfork.c:451-460 | the IX86 closing `call` jumps back to the `mov` of the address and pushes the address just past the template |
| RemoteMemory.ReadWritten | src/myfork.c:495-541 | reading back what was written gives it back |
| RemoteMemory.ReadElsewhere | src/myfork.c:495-541 | a write leaves every disjoint range as it was |
| PeExports.StrICaseEqual | src/myfork.c:581 | the stricmp comparison is equality up to ASCII case |
| PeExports.StrcmpEqual | src/myfork.c:602-605 | strcmp of the name read with the wanted length plus one is equality with the NUL-terminated wanted name |
| PeExports.ScanNames | src/myfork.c:594-606 | the name loop gives the first index below `(int)NumberOfNames` whose name matches, and nothing exactly when none does |
| PeExports.ScanModule | src/myfork.c:579-621 | a module is searched only if named kernel32.dll and with a non-zero export RVA, and then gives the name loop's result |
| PeExports.FirstHit | src/myfork.c:572-622 | the module loop stops at the first module whose pass finds the name, and finds nothing exactly when no pass does |
| PeExports.GetProcAddress | src/myfork.c:564-627 | NULL when no kernel32.dll names the function; otherwise there is a first such module and a first position of the name in it, and the result is that module's base plus the export address the name's ordinal selects |
| PeExports.PassesMiss | src/myfork.c:572-622 | the module loop finds nothing exactly when no kernel32.dll of the snapshot names the function |
| PeExports.PassesFind | src/myfork.c:572-622 | a hit of the module loop is the first kernel32.dll naming the function, at the first position of the name |
| Injector.PushedSp | src/myfork.c:523 | the pushed stack pointer is sp minus the pointer size, modulo the pointer width |
| Injector.Wrap | src/myfork.c:523 | a pointer-width value is the integer reduced modulo the pointer width: below it, congruent to the integer, and the integer itself when it fits |
| Injector.LoadLibraryAddress | src/myfork.c:516 | `rldlib` is the export lookup's address on the memory the child has at its entry point, as a pointer: it fits the pointer width, is congruent to the lookup's sum, and equals it when the sum fits |
| Injector.StepAt | src/myfork.c:490-547 | the n-th checked step has rank n |
| Injector.RankStepAt | src/myfork.c:490-547 | every step has a rank below the step count, and the n-th step of that rank is the step itself |
| Injector.InjectedMemory | src/myfork.c:518-541 | after the writes onto the entry-point memory, the entry bytes are the saved ones, the payload and the return address are in place when disjoint from the rest, and all other bytes are unchanged |
| Injector.Injected | src/myfork.c:494-541 | ip is the payload block, sp has the entry pushed, the entry bytes are those saved before the child ran, the payload is the forged one, and nothing else changes in the memory the child had at its entry point |
| Injector.FirstFailure | src/myfork.c:490-547 | gives the first failing step from a rank on, or states that none fails |
| Injector.Inject | src/myfork.c:466-556 | an error is a failing step with no earlier failure; success means no step fails and the child is the injected state |
| Injector.InjectOutcome | src/myfork.c:466-556 | the injection succeeds exactly when no step fails, and otherwise reports the earliest failing step |
| Injector.DllInject | src/myfork.c:466-556 | returns 0 exactly when no step fails, and -1 otherwise |

## Left out

- `mypipe`, `myfork`'s pipe setup and its bookkeeping (src/myfork.c:91-187): OS pipe plumbing. Failed launches do not close pipes (FIXME at src/myfork.c:107), so no cleanup is modelled.
- `execvp` and the process after it; `CreateProcess`, `ResumeThread` and `TerminateProcess` as calls: their success is an input and their effect is not modelled.
- `perror`, `FormatMessage` and the other error reporting: output only.
- `%g` formatting of the ratios (src/myfork.c:292-295): floating point. The ratio text is an input, and must fit the 64-byte buffer.
- On Windows the published debug value is `_get_osfhandle` of the descriptor (src/myfork.c:285). Only the POSIX value, the descriptor itself, is modelled. Standard handles are identified with descriptors.
- The polling loop until the thread reaches the entry point (src/myfork.c:504-510) is one step: the context it finds is an input, absent if polling fails. The loop has no timeout, so a thread that never reaches the entry point keeps the launcher waiting forever. The model has no such outcome.
- The child's run from its suspended start to the entry point: the memory it has there (`Os.loaded`, with the loader's modules mapped and the spin loop in place) is an input. It is not derived from the spin loop written at src/myfork.c:497.
- What the payload's instructions do when executed: only the byte layout and the displacements the stub relies on are modelled.
- The effects of `access()`, `getenv` on the real environment, `setrlimit`, `VirtualAllocEx` and the Toolhelp snapshot: oracle inputs. `setrlimit` failures are ignored by the source, so only the calls are listed.
- The ignored `ReadProcessMemory` results in `get_proc_address` (src/myfork.c:585-617): reads are total, and an unmapped byte reads as zero.
- PeExports.GetProcAddress: addresses are unbounded integers. No pointer wrap-around is modelled in the export walk; only the final address is reduced to the pointer width, in `Injector.LoadLibraryAddress`. A `base + funcaddr` of zero is not told apart from NULL.
- The malloc'd payload block is taken as zeros (`Injector.ScratchBlock`). `Payload.ForgeIgnoresBlock` shows that its contents do not matter.
- The state of the child after a failed injection: the model returns only the failing step.
- Spawner.ValidOptions: the seed is assumed to be a C `int`, since `opts.h` is not part of this model. Other option fields are unbounded integers.
- Rlimits.ResourceLimits: `maxmem * 1048576` (src/myfork.c:266-267) is computed exactly. If `maxmem` is a C `int`, which `opts.h` would say, the product overflows `int` for any maxmem of 2048 or more before it is converted to `rlim_t`. Likewise the CPU hard limit `maxcpu + 5` (src/myfork.c:277) overflows `int` for any maxcpu above INT_MAX - 5. The model shows neither overflow.
- WindowsLaunch.Launch: the process handle is returned as an unbounded integer. The source returns `(long int)pinfo.hProcess` from a function returning `int` (src/myfork.c:78, src/myfork.c:409), which truncates a handle outside the `int` range.
- WindowsLaunch.Launch: the environment variables set at src/myfork.c:282-295 are not a step of the launch. On Windows they are set in the launcher's own environment before CreateProcess; `Spawner.PropagateEnv` states what they are.
- Environ.SetEnv: the environment is a list of entries with first-match lookup. The ownership and lifetime of the never-freed heap entry is not modelled.
