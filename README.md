# A verified model of the ProjetLP25 process monitor core

ProjetLP25 is a terminal process monitor, something like `htop`, that also
watches remote machines. This project models the monitor's core in Dafny and
proves properties of that model:

- **Host registry** (`hosts.dfy`, module `Hosts`). The reader of the
  `name:address:port:username:password:type` configuration file fills a
  bounded array of host records, and entry 0 is always a synthesized
  localhost. The network manager owns that array.
- **Command capture** (`transport.dfy`, module `Transport`). The loop that
  appends a command's output into a bounded buffer, the exit status, and the
  choice between ssh and telnet for a host.
- **Remote listing and actions** (`remote.dfy`, module `Remote`):
  - fetching a `ps` listing, with one retry using a simpler command;
  - splitting it into at most 100 lines;
  - reading each line with three layouts tried in a fixed order;
  - the kill, pause, resume and restart commands sent to a remote host, and
    the verdict read from their output.
- **Local enumerator** (`process.dfy`, module `Process`):
  - the `/proc` scan with its record buffer, which starts at 256 slots and
    doubles when full;
  - the `/proc/<pid>/status` parser;
  - `get_process`;
  - the signal primitives.
- **Selection state** (`ui.dfy`, module `Ui`). The selected row and scroll
  offset of the list, the clamp and scroll adjustment done when the list is
  drawn, the arrow keys, and the key-to-action table.
- **C library behaviour** (`text.dfy`, module `Text`). `strtok_r` tokens
  (runs of separators collapse), `atoi` and `%d` scanning, decimal
  formatting, and truncation to a buffer.

The outside world appears in the model as inputs and oracles:

- **Files.** The configuration file is a flag (could it be opened?) plus its
  lines. `/proc` is a value: the directory listing in readdir order and the
  lines of each status file that opens.
- **Memory.** `malloc` and `realloc` are an oracle that says whether a
  buffer of a given size can be had.
- **`kill(2)`.** The `Process.Kernel` class logs every call and gets each
  answer from an oracle.
- **Commands.** Running a command through ssh or telnet is the
  `Transport.Shell` class. It logs every invocation. An oracle supplies each
  run's launch result, the chunks `fgets` returns and the wait status. That
  oracle may depend on the invocations made before.

Where the program mutates state, the model does too. Host records are
written into an array in place. The process buffer is an array that is
replaced by a larger copy when it grows. The manager and the selection state
are classes whose methods update their fields. Each such method is proved
against a specification function (`ConfigHosts`, `Snapshot`,
`ListingRecords`, `Accepted`, `Clamped`, `Scrolled`), and lemmas prove
properties of those functions.

Where the code and its documentation disagree, the model follows the code:

- `get_process_list` never fills the name, CPU percentage or time of a
  record, so they stay zero. The code stores the `VmRSS:` value into a field
  `memory` that `process_info_t` does not declare; the model stores it in
  `memoryKb`.
- The `ps aux` layout (`src/network.c:323-324`) reads CPU from the `%MEM`
  column and memory from the `VSZ` column. The format skips `%CPU` and then
  takes the next two numbers. The model reads the same columns, and
  `Remote.ParsePsAuxLine` proves the shift on a whole `ps aux` line.
- The port of the synthesized localhost is 22 when the file cannot be
  opened, but 0 when it can.
- `current_host` is only ever set to 0. The code never switches hosts.

## Model

| member | source | states |
|---|---|---|
| Text.Tokens | src/network.c:199-205 | Every token `strtok_r` yields is non-empty and contains no separator. |
| Text.TokensOfJoinFields | src/network.c:199-205 | Splitting fields joined by a separator yields exactly the non-empty fields, in order. Empty fields vanish. |
| Text.PresentDrops | src/network.c:199-205 | A line with an empty field yields fewer tokens than it has fields. |
| Text.TokensOfJoin | src/network.c:199-205 | Non-empty, separator-free fields joined by a separator split back into the same fields. |
| Text.TokensSkipLead | src/network.c:199-205 | Separators before the first token are skipped. |
| Text.TokensCollapse | src/network.c:199-205 | Any run of separators splits tokens as a single separator does. |
| Text.Truncate | src/network.c:208-214 | A bounded copy keeps a prefix of the source. It is the whole source when that fits; otherwise exactly the bound. |
| Text.ScanFormatted | src/network.c:314-315 | `%d` scanning reads back any formatted integer followed by a non-digit. |
| Text.AtoiFormatted | src/network.c:210 | `atoi` reads back any formatted integer followed by a non-digit. |
| Text.FormatInt32Length | src/network.c:360-361 | The decimal form of any 32-bit int has at most 11 characters. |
| Text.WholeIntIsScanned | src/network.c:314-315 | A token that is a whole integer scans with `%d` as that integer. |
| Text.WholeIntIsDecimal | src/network.c:323-324 | A whole-integer token also reads as a number with `%f`, with the same value. |
| Hosts.CutLine | src/network.c:192 | The line is cut at its first '\n' or '\r': the result is the prefix before it and contains neither. |
| Hosts.KindOf | src/network.c:216-222 | The type is SSH iff the field is "ssh", TELNET iff it is "telnet", and LOCAL otherwise. |
| Hosts.PortOf | src/network.c:210-211 | The port is the `atoi` value when that is positive, else 22. It is always positive. |
| Hosts.ParseHostLine | src/network.c:189-224 | Skipped lines (first char '\n', '#' or '\r') give no host. Other lines give one iff they have at least six tokens. The host is never local, its port is positive and every string field fits its buffer. |
| Hosts.ExtraFieldsIgnored | src/network.c:192-205 | Text after a sixth ':' does not change the host a line gives, with or without the line end `fgets` keeps. |
| Hosts.ParseFormatted | src/network.c:189-224 | Round trip: the configuration line written for a well-formed host reads back as that host. |
| Hosts.FieldsFormatted | src/network.c:192-205 | The line written for a well-formed host is not skipped and splits into exactly its six fields. |
| Hosts.EmptyFieldSkipsLine | src/network.c:192-205 | A six-field line with an empty field, such as `web:10.0.0.6::bob::ssh` followed by its newline or not, gives no host. |
| Hosts.StrncpyField | src/network.c:208-214 | `strncpy(dst, src, size - 1)` copies at most size - 1 characters and pads with NULs. The buffer's last character keeps its old value. A NUL-free source shorter than size - 1 is held as a C string exactly. |
| Hosts.UnterminatedField | src/network.c:208 | As written: a source of size - 1 characters or more leaves the buffer with no terminator. |
| Hosts.TerminatedFieldHolds | src/network.c:208-214 | Corrected: once the last character is written NUL, the buffer holds exactly the truncated field. |
| Hosts.CString | header/network.h:15-23 | A buffer holds a C string iff it contains a NUL. The string is everything before the first NUL. |
| Hosts.ParsedRemote | src/network.c:224 | No host read from the file is marked local, whatever its type. |
| Hosts.ParsedPrefix | src/network.c:187-226 | The hosts read from a prefix of the file are a prefix of those read from the whole file. |
| Hosts.ConfigHosts | src/network.c:160-230 | If the file cannot be opened, the registry is exactly [localhost, 127.0.0.1, port 22, LOCAL, local]. Otherwise entry 0 is that localhost with port 0. The rest is every host the file yields, in order, when fewer than max_hosts; otherwise exactly the first max_hosts - 1 of them, so every slot is filled. There are 1 to max_hosts entries, and all after entry 0 are non-local. |
| Hosts.ConfigRoundTrip | src/network.c:160-230 | A file of well-formed host lines that fits reads back as localhost followed by exactly those hosts. |
| Hosts.ParseConfigFile | src/network.c:160-230 | Fills the array in place with `ConfigHosts` and returns its length. Entries past the count are untouched. |
| Hosts.ReadHostLines | src/network.c:174-229 | The reading loop stops at the end of the file or when the array is full. Its result is `ConfigHosts` for an opened file. |
| Hosts.NetworkManager.Init | src/network.c:496-514 | Fails with -1 exactly when the host array cannot be allocated, leaving no array and zero counters. Otherwise it holds a fresh MAX_HOSTS-entry array filled by the configuration reader, with count = number of hosts and current_host = 0. The manager's invariant holds after it. |
| Hosts.NetworkManager.Cleanup | src/network.c:523-532 | Releases the array and resets count and current_host to 0. |
| Transport.Accepted | src/network.c:31-37 | The kept chunks, plus what was kept before, stay below the buffer size. |
| Transport.AcceptedInOrder | src/network.c:31-37 | Kept chunks are whole chunks of the output, in the order they were read. |
| Transport.AllFit | src/network.c:31-37 | Output that fits the buffer is captured entirely. |
| Transport.CaptureOutput | src/network.c:26-37 | The append loop's result is the concatenation of the accepted chunks and is shorter than the buffer. |
| Transport.ExitStatus | src/network.c:39-40 | The exit status taken from a wait status lies in 0..255. |
| Transport.ExitStatusOfExit | src/network.c:39-40 | A wait status holding exit code n in bits 8 to 15 reports exactly n. |
| Transport.Outcome | src/network.c:22-41 | Status -1 iff the command could not be started. Otherwise it is the exit status with the captured output, which always fits the buffer. |
| Transport.RunCommand | src/network.c:22-41 | Returns exactly the `Outcome` of the run. |
| Transport.SessionFor | src/network.c:256-262 | ssh is used iff the host's type is SSH; every other type goes through telnet. |
| Transport.Shell.Execute | src/network.c:58-83 | Logs exactly one invocation on the host's transport and returns the `Outcome` of the oracle's run. |
| Remote.Fetch | src/network.c:252-276 | The listing command goes first. The fallback runs once, and only when the first exit status is non-zero. The result is no text when both fail, otherwise the text of the command that succeeded. |
| Remote.FetchListing | src/network.c:252-276 | Sends exactly the commands `Fetch` names and returns its text. |
| Remote.SplitLines | src/network.c:279-288 | Lines are the '\n' tokens (empty lines vanish). All are kept when there are at most 100, otherwise exactly the first 100. |
| Remote.TruncateReal | src/network.c:319 | The float-to-int cast truncates toward zero. |
| Remote.ParsePsAuxLine | src/network.c:313-329 | Round trip for layout 2: a `ps aux` line (USER, PID, %CPU, %MEM, VSZ, RSS, TTY, STAT, START, TIME, COMMAND) whose user is not a number reads back with pid = PID, cpu = %MEM, memory = truncated VSZ*1024 and name = COMMAND. This is the column shift described above. |
| Remote.ParseLine | src/network.c:294-338 | The state is 'R', the parent 1, the kernel flag 0 and the time 0. The name fits 255 characters and is empty iff the line has no words. A layout-1 match gives that reading's pid, cpu, memory and name. Layout 2 is used only when layout 1 fails, and then gives its reading. A line neither layout reads keeps pid i+1 with zero cpu and memory, and its first word (cut to size) as the name. |
| Remote.ListingRecords | src/network.c:294-341 | One record per line, in line order. |
| Remote.FillRecords | src/network.c:294-341 | The record loop fills a fresh array with exactly `ListingRecords` of the lines. |
| Remote.ParsePsEoLine | src/network.c:313-321 | Round trip: a `ps -eo pid,pcpu,pmem,comm` line reads back as its pid, cpu, memory (truncated mem*1024) and name. |
| Remote.PaddedLine | src/network.c:313-334 | Widening a single space to any run of white space does not change the record a line gives, so the round trips hold for padded `ps` columns. |
| Remote.IndentedLine | src/network.c:313-334 | White space before the first column does not change the record a line gives. |
| Remote.FewWordsNameOnly | src/network.c:330-334 | A line with fewer than four words keeps only its first word, as the name, with the defaults for everything else. |
| Remote.NumericUserReadsAsPsEo | src/network.c:313-329 | Layout 1 takes precedence. A `ps aux` line whose user column is numeric is read by layout 1, with that number as pid. |
| Remote.GetRemoteProcessList | src/network.c:243-343 | A local host gets the local enumeration and sends no command. A remote host sends exactly the `Fetch` commands. It succeeds iff text was fetched and the array allocated; the array then has one `ParseLine` record per line. |
| Remote.ActionCommand | src/network.c:360-361 | The command stored for an action always fits its buffer. |
| Remote.ActionCommandFits | src/network.c:360-361 | For every 32-bit pid the command is stored whole. |
| Remote.ActionCommandTargets | src/network.c:361 | Each command starts with its verb's `kill` prefix, followed by exactly the given pid. |
| Remote.RestartTargetsTwice | src/network.c:465-468 | The restart command sends its CONT to the same pid as its TERM. |
| Remote.Verdict | src/network.c:373-377 | Success iff the transport status is 0 and the output reads as 0 with `atoi`. |
| Remote.EchoVerdict | src/network.c:373-377 | When the remote shell echoes kill's exit code, the action succeeds iff that code is 0. |
| Remote.UnreadableOutputSucceeds | src/network.c:376-377 | With status 0, output that does not start with a number counts as success. |
| Remote.LocalAction | src/process.c:79-99 | A verb's local signal function makes exactly the kill(2) calls and returns exactly the result that `LocalEffect` gives. |
| Remote.RemoteAction | src/network.c:352-484 | A local host goes to the local signal function before the pid is checked. Otherwise pid <= 0 fails with no command. A valid pid sends exactly one command on the host's transport and returns its verdict. No local signal is sent. |
| Process.SetInt | src/process.c:61-64 | Writing a scanned integer changes that field only, and only when the scan succeeded. |
| Process.SetState | src/process.c:60 | Writing a scanned state character changes the state only, and only when the scan succeeded. |
| Process.ApplyStatusLineGet | src/process.c:59-65 | A status line whose prefix matches a field sets that field; every other field keeps its value. |
| Process.StatusRecord | src/process.c:54-65 | A parsed record never has a name, CPU percentage or time. |
| Process.StatusLastWins | src/process.c:59-65 | Of several lines that set a field, the last one decides its value. |
| Process.StatusRecordField | src/process.c:59-65 | Each field of a parsed record is the value from the last line that sets it, and zero if no line does. |
| Process.StatusUnset | src/process.c:54-65 | A field that no line sets stays zero. |
| Process.PPidIsNotPid | src/process.c:61-62 | A "PPid:" line never sets the pid. |
| Process.ReadStatus | src/process.c:54-65 | The `fgets` loop yields `StatusRecord` of the file's lines. |
| Process.SnapshotMembers | src/process.c:32-52 | A record is in the snapshot iff some entry whose name starts with a digit, and whose status file opens, yields it. |
| Process.Grown | src/process.c:23-43 | The capacity reached by doubling from 256 covers the demand, and is less than twice the demand whenever it grew. |
| Process.GrowStep | src/process.c:34-43 | One slot past a full buffer costs exactly one doubling and one more allocation. |
| Process.GrownStable | src/process.c:34-43 | A demand that still fits causes no growth and no allocation. |
| Process.AllocsMonotone | src/process.c:34-43 | An allocation chain that serves a larger demand serves every smaller one. |
| Process.EnumerationStep | src/process.c:32-71 | Each directory entry keeps the scan's invariant: kept records plus the rest's snapshot equal the full snapshot, index <= capacity, and capacity tracks the doubling. |
| Process.ReadEntry | src/process.c:32-71 | One directory entry: a failed allocation is reported only when the allocation chain fails. Otherwise the scan invariant holds one entry further on, in the same or a fresh larger buffer. |
| Process.GrowthFails | src/process.c:36-41 | A failed doubling means the whole chain of allocations cannot succeed. |
| Process.Realloc | src/process.c:36-42 | The grown buffer has the new capacity and starts with exactly the old records. |
| Process.GetProcessList | src/process.c:15-76 | Returns 0 iff /proc opens and every allocation the doubling asks for succeeds. Then the records are the snapshot, in directory order, and the buffer is 256 doubled just enough. |
| Process.GetProcess | src/process.c:102-126 | Returns -1, leaving the record as it was, iff the pid's status file is absent. Otherwise the record is zeroed and parsed like an enumerated one. |
| Process.ProcessInSnapshot | src/process.c:102-126 | What `get_process` reads for a listed pid is a record of the enumeration. |
| Process.Kernel.Send | src/process.c:79-81 | Every kill(2) call is logged; it returns 0 if the oracle accepts it, else -1. |
| Process.LocalEffect | src/process.c:79-99 | kill, pause and resume make one call (SIGKILL, SIGSTOP, SIGCONT) to the pid. restart makes exactly the call SIGTERM to the pid and, only if that is accepted, SIGCONT to the same pid. The result is 0 iff every call made succeeded. |
| Process.KillProcess | src/process.c:79-81 | Sends exactly SIGKILL to the pid and returns its result. |
| Process.PauseProcess | src/process.c:84-86 | Sends exactly SIGSTOP to the pid and returns its result. |
| Process.ResumeProcess | src/process.c:89-91 | Sends exactly SIGCONT to the pid and returns its result. |
| Process.RestartProcess | src/process.c:94-99 | Sends SIGTERM, and SIGCONT only after a successful SIGTERM; the result is as `LocalEffect` states. |
| Ui.KeyAction | src/ui.c:211-241 | Each action is named by exactly its function key or letter; 'q'/'Q' quit. ERR and the arrows name no action. |
| Ui.Clamped | src/ui.c:140-143 | With a non-empty list the selection lands inside it, and a selection already inside is kept. With an empty list it is untouched. |
| Ui.Scrolled | src/ui.c:146-150 | After the adjustment the selection is inside the window. The offset is unchanged when it already was, and otherwise moves the least amount. |
| Ui.Visible | src/ui.c:153-155 | The drawn rows run from the offset, at most a screen's height of them, and never past the list's end. |
| Ui.SelectionShown | src/ui.c:136-155 | With a non-empty list, the selected row is among the rows drawn. |
| Ui.DrawSettles | src/ui.c:136-155 | A second draw changes neither the selection nor the offset. |
| Ui.Ui.DrawProcesses | src/ui.c:136-155 | With no room for rows, nothing changes. Otherwise the selection is clamped, the offset scrolled and the visible range returned. Non-negative state stays non-negative. |
| Ui.Ui.GetAction | src/ui.c:209-243 | Up decrements the selection only when it is positive; Down increments it. Nothing else changes state, and the action is `KeyAction` of the key. |

## Left out

- CPU sampling: no sampler exists in the modelled code, so CPU percentage, name and time stay zero for local records.
- Starting commands (`popen`, `pclose`), the `which sshpass` / `which expect` checks, and the temporary expect script are all inside the `Transport.Shell` oracle. The ssh and telnet command texts that `ssh_execute` and `telnet_execute` build are not modelled; the model keeps only which transport a host uses.
- Transport.RunCommand: when `popen` fails, C leaves the output buffer untouched. The model returns empty text, which no caller reads, because every caller rejects status -1.
- Opening and reading files, `opendir` and `readdir` are inputs. A line longer than the 511 characters `fgets` reads at once is taken whole rather than in pieces.
- Hosts.ParseHostLine: stores each field already truncated and terminated, which is the corrected behaviour under "## Findings". The as-written buffer contents are modelled separately, by `Hosts.StrncpyField`.
- Text.Atoi and Text.ScanInt: C `int` overflow is not modelled, so integers are unbounded.
- Remote.PsEoLayout and Remote.PsAuxLayout: `%d` and `%f` are modelled on whole words, as an integer or a signed decimal with an optional fraction. sscanf's acceptance of a numeric prefix, exponents, `inf`/`nan` and hexadecimal floats is not modelled.
- Floating point: CPU and memory values are reals. The `(int)(mem * 1024)` cast is modelled as truncation toward zero, without float rounding.
- Remote.MemoryKb: the product `mem * 1024` is unbounded in the model. In C the cast to `int` is undefined once the product passes INT_MAX, which layout 2 reaches for any VSZ above 2,097,151 kB; x86-64 then yields INT_MIN. The model does not bound the value, because there is no defined result to model.
- Freeing memory is not modelled, including the `free` before -1 on a failed `realloc`. `malloc(0)` for an empty listing is whatever the allocation oracle answers.
- Hosts.NetworkManager.Init: the `!manager` check is not modelled, because a method always has its object. The `count <= 0` branch cannot be reached: the configuration reader always returns at least 1, and `Init`'s contract shows this.
- The ncurses drawing, the memory-percentage and RAM display, and `get_total_memory_kb` (file I/O) are not modelled. The key is an input, not a `getch` call.
- The command-line front end (src/main.c), the status printer (src/manager.c) and the prototype root main.c are not modelled.
- Host switching: `current_host` is only ever set to 0 in the code, so no switching is modelled.
- Concurrency: the program is single-threaded.

## Findings

| source | as written | input that shows it | evidently intended | confidence | as-written member | corrected member |
|---|---|---|---|---|---|---|
| src/network.c:208-214 | `strncpy(field, token, sizeof field - 1)` into an array from `malloc`, with no terminator written | a configuration line whose name token has 63 or more characters (or an address of 127 or more, or a username or password of 63 or more): the field's last byte is whatever `malloc` left, so the name is not NUL-terminated | every field holds its token cut to size - 1 characters and NUL-terminated | medium, not executed | Hosts.UnterminatedField | Hosts.TerminatedFieldHolds |
