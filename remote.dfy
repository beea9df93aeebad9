/**
 * The remote side of the monitor: fetching a process listing from a host
 * (get_remote_process_list), reading each line of it with a chain of three
 * layouts, and acting on a process through a remote shell
 * (remote_kill_process, remote_pause_process, remote_resume_process,
 * remote_restart_process). Local hosts are handed to the local enumerator and
 * the local signal functions.
 */
module Remote {
  import opened Text
  import opened Process
  import opened Hosts
  import opened Transport

  // ---------------------------------------------------------------------------
  // The listing commands
  // ---------------------------------------------------------------------------

  const ListingCommand: string := "ps -eo pid,pcpu,pmem,comm --no-headers --sort=-pcpu | head -50"
  const FallbackCommand: string := "ps aux --no-headers | head -50"

  /** Size of the buffer the listing is captured into. */
  const ListingOutputSize: nat := 8192

  /** At most this many lines of a listing become records. */
  const MaxLines: nat := 100

  /** The %255s conversion keeps at most this many characters of a name. */
  const NameLength: nat := 255

  /**
   * The commands sent to fetch a listing and the text obtained: the listing
   * command first, then the fallback command only when the first one did not
   * give exit status 0; no text when neither did.
   */
  function Fetch(respond: (seq<Invocation>, Invocation) -> Run, issued: seq<Invocation>,
                 host: HostConfig): (f: (seq<Invocation>, Option<string>))
    ensures 1 <= |f.0| <= 2
    ensures f.0[0] == Invocation(SessionFor(host), host, ListingCommand)
    ensures |f.0| == 2 <==> Outcome(respond(issued, f.0[0]), ListingOutputSize).0 != 0
    ensures |f.0| == 2 ==> f.0[1] == Invocation(SessionFor(host), host, FallbackCommand)
    ensures |f.0| == 1 ==> f.1 == Some(Outcome(respond(issued, f.0[0]), ListingOutputSize).1)
    ensures |f.0| == 2 ==> (f.1.None? <==> Outcome(respond(issued + [f.0[0]], f.0[1]), ListingOutputSize).0 != 0)
    ensures |f.0| == 2 && f.1.Some? ==> f.1.value == Outcome(respond(issued + [f.0[0]], f.0[1]), ListingOutputSize).1
  {
    var first := Invocation(SessionFor(host), host, ListingCommand);
    var o1 := Outcome(respond(issued, first), ListingOutputSize);
    if o1.0 == 0 then ([first], Some(o1.1))
    else
      var second := Invocation(SessionFor(host), host, FallbackCommand);
      var o2 := Outcome(respond(issued + [first], second), ListingOutputSize);
      ([first, second], if o2.0 == 0 then Some(o2.1) else None)
  }

  /** The lines of a listing as strtok_r on '\n' finds them, at most MaxLines of them. */
  function SplitLines(text: string): (r: seq<string>)
    ensures |r| <= MaxLines
    ensures r <= Tokens(text, {'\n'})
    ensures |Tokens(text, {'\n'})| <= MaxLines ==> r == Tokens(text, {'\n'})
    ensures |Tokens(text, {'\n'})| > MaxLines ==> |r| == MaxLines
    ensures forall i :: 0 <= i < |r| ==> r[i] != [] && NoneIn(r[i], {'\n'})
  {
    var lines := Tokens(text, {'\n'});
    if |lines| <= MaxLines then lines else lines[..MaxLines]
  }

  // ---------------------------------------------------------------------------
  // One line of a listing
  // ---------------------------------------------------------------------------

  /** The white-space separated words of a line, as successive %s conversions see them. */
  function Words(line: string): (w: seq<string>)
    ensures forall i :: 0 <= i < |w| ==> w[i] != [] && NoneIn(w[i], Whitespace)
  {
    Tokens(line, Whitespace)
  }

  /** The conversion of a float to int: truncation toward zero. */
  function TruncateReal(x: real): (r: int)
    ensures x >= 0.0 ==> r as real <= x < r as real + 1.0
    ensures x < 0.0 ==> r as real - 1.0 < x <= r as real
  {
    if x >= 0.0 then x.Floor else -((-x).Floor)
  }

  /** Memory in kB from a memory percentage, as (int)(mem * 1024). */
  function MemoryKb(mem: real): int
  {
    TruncateReal(mem * 1024.0)
  }

  /** The fields a listing line yields: pid, cpu, memory and name. */
  datatype Reading = Reading(pid: int, cpu: real, mem: real, name: string)

  /** Layout 1 (`ps -eo pid,pcpu,pmem,comm`): an int, two numbers, a name. */
  function PsEoLayout(w: seq<string>): (r: Option<Reading>)
    ensures r.Some? <==> |w| >= 4 && WholeInt(w[0]).Some? && Decimal(w[1]).Some? && Decimal(w[2]).Some?
    ensures r.Some? ==> r.value == Reading(WholeInt(w[0]).value, Decimal(w[1]).value, Decimal(w[2]).value, w[3])
  {
    if |w| >= 4 && WholeInt(w[0]).Some? && Decimal(w[1]).Some? && Decimal(w[2]).Some? then
      Some(Reading(WholeInt(w[0]).value, Decimal(w[1]).value, Decimal(w[2]).value, w[3]))
    else None
  }

  /**
   * Layout 2 (`ps aux`): eleven words; the pid is word 1, word 2 must be a
   * number but is skipped, cpu and memory are read from words 3 and 4, the
   * name is word 10.
   */
  function PsAuxLayout(w: seq<string>): (r: Option<Reading>)
    ensures r.Some? <==> |w| >= 11 && WholeInt(w[1]).Some? && Decimal(w[2]).Some?
                         && Decimal(w[3]).Some? && Decimal(w[4]).Some?
    ensures r.Some? ==> r.value == Reading(WholeInt(w[1]).value, Decimal(w[3]).value, Decimal(w[4]).value, w[10])
  {
    if |w| >= 11 && WholeInt(w[1]).Some? && Decimal(w[2]).Some? && Decimal(w[3]).Some? && Decimal(w[4]).Some? then
      Some(Reading(WholeInt(w[1]).value, Decimal(w[3]).value, Decimal(w[4]).value, w[10]))
    else None
  }

  /** The record for line `i` before any layout is tried. */
  function DefaultRecord(i: nat): ProcessInfo
  {
    Zeroed.(pid := i + 1, state := 'R', ppid := 1)
  }

  /** The record carries the pid, cpu, memory and (cut to size) name of a reading. */
  predicate Holds(p: ProcessInfo, x: Reading)
  {
    p.pid == x.pid && p.cpuPercent == x.cpu && p.memoryKb == MemoryKb(x.mem) && p.name == Truncate(x.name, NameLength)
  }

  /** A record filled from a reading. */
  function FromReading(base: ProcessInfo, x: Reading): ProcessInfo
  {
    base.(pid := x.pid, cpuPercent := x.cpu, memoryKb := MemoryKb(x.mem), name := Truncate(x.name, NameLength))
  }

  /**
   * The record for line `i`: layout 1 if it matches, else layout 2, else only
   * the first word as the name. State, parent and kernel flag always keep
   * their defaults.
   */
  function ParseLine(line: string, i: nat): (p: ProcessInfo)
    ensures p.state == 'R' && p.ppid == 1 && p.isKernel == 0 && p.time == 0.0
    ensures |p.name| <= NameLength
    ensures p.name != [] <==> Words(line) != []
    ensures PsEoLayout(Words(line)).Some? ==> Holds(p, PsEoLayout(Words(line)).value)
    ensures PsEoLayout(Words(line)).None? && PsAuxLayout(Words(line)).Some?
            ==> Holds(p, PsAuxLayout(Words(line)).value)
    ensures PsEoLayout(Words(line)).None? && PsAuxLayout(Words(line)).None?
            ==> p.pid == i + 1 && p.cpuPercent == 0.0 && p.memoryKb == 0
    ensures PsEoLayout(Words(line)).None? && PsAuxLayout(Words(line)).None? && Words(line) != []
            ==> p.name == Truncate(Words(line)[0], NameLength)
  {
    var w := Words(line);
    match PsEoLayout(w)
    case Some(x) => FromReading(DefaultRecord(i), x)
    case None =>
      match PsAuxLayout(w)
      case Some(x) => FromReading(DefaultRecord(i), x)
      case None => DefaultRecord(i).(name := if w == [] then [] else Truncate(w[0], NameLength))
  }

  /** The records of a listing: one per line, in order. */
  function ListingRecords(lines: seq<string>): (r: seq<ProcessInfo>)
    ensures |r| == |lines|
    ensures forall i :: 0 <= i < |r| ==> r[i] == ParseLine(lines[i], i)
  {
    seq(|lines|, i requires 0 <= i < |lines| => ParseLine(lines[i], i))
  }

  /** Words that are digits only contain no white space. */
  lemma DigitsNoSpace(ds: string)
    requires AllDigits(ds)
    ensures NoneIn(ds, Whitespace)
  {
    assert forall c :: c in Whitespace ==> !IsDigit(c);
  }

  lemma FormatIntNoSpace(n: int)
    ensures NoneIn(FormatInt(n), Whitespace)
  {
    var f := FormatNat(if n < 0 then -n else n);
    DigitsNoSpace(f);
    if n < 0 {
      assert FormatInt(n) == "-" + f;
      assert forall k :: 1 <= k < |FormatInt(n)| ==> FormatInt(n)[k] == f[k - 1];
    }
  }

  /** A number of tenths written as ps writes %CPU: whole part, '.', one digit. */
  function FormatTenths(x: nat): (r: string)
    ensures r != [] && NoneIn(r, Whitespace)
  {
    var r := FormatNat(x / 10) + "." + [Digit(x % 10)];
    DigitsNoSpace(FormatNat(x / 10));
    assert forall k :: 0 <= k < |FormatNat(x / 10)| ==> r[k] == FormatNat(x / 10)[k];
    r
  }

  lemma DecimalOfTenths(x: nat)
    ensures Decimal(FormatTenths(x)) == Some(x as real / 10.0)
  {
    var whole := FormatNat(x / 10);
    var tenth := [Digit(x % 10)];
    assert FormatTenths(x) == whole + "." + tenth;
    DecimalOfPoint(whole, tenth);
    TenthsValue(x);
  }

  lemma TenthsValue(x: nat)
    ensures PointValue(FormatNat(x / 10), [Digit(x % 10)]) == x as real / 10.0
  {
    var tenth := [Digit(x % 10)];
    assert tenth[..0] == [];
    assert DigitsValue(tenth) == x % 10;
    assert Pow10(|tenth|) == 10;
    var q, d := x / 10, x % 10;
    assert x == 10 * q + d;
    assert q as real + d as real / 10.0 == x as real / 10.0;
  }

  /** A `ps -eo pid,pcpu,pmem,comm` line. */
  function PsEoLine(pid: int, cpuTenths: nat, memTenths: nat, name: string): string
  {
    Join([FormatInt(pid), FormatTenths(cpuTenths), FormatTenths(memTenths), name], ' ')
  }

  /** A line in layout 1 is read back field for field. */
  lemma ParsePsEoLine(pid: int, cpuTenths: nat, memTenths: nat, name: string, i: nat)
    requires name != [] && NoneIn(name, Whitespace) && |name| <= NameLength
    ensures ParseLine(PsEoLine(pid, cpuTenths, memTenths, name), i)
            == DefaultRecord(i).(pid := pid, cpuPercent := cpuTenths as real / 10.0,
                                 memoryKb := MemoryKb(memTenths as real / 10.0), name := name)
  {
    var fields := [FormatInt(pid), FormatTenths(cpuTenths), FormatTenths(memTenths), name];
    FormatIntNoSpace(pid);
    TokensOfJoin(fields, ' ', Whitespace);
    WholeIntOfFormat(pid);
    DecimalOfTenths(cpuTenths);
    DecimalOfTenths(memTenths);
  }

  /**
   * A `ps aux` line: USER, PID, %CPU, %MEM, VSZ, RSS, TTY, STAT, START, TIME,
   * COMMAND, the percentages in tenths.
   */
  function PsAuxLine(user: string, pid: int, cpuTenths: nat, memTenths: nat, vsz: nat, rss: nat,
                     tty: string, stat: string, start: string, time: string, command: string): string
  {
    Join([user, FormatInt(pid), FormatTenths(cpuTenths), FormatTenths(memTenths), FormatInt(vsz),
          FormatInt(rss), tty, stat, start, time, command], ' ')
  }

  /** A word that can appear in a line: non-empty and free of white space. */
  predicate IsWord(s: string)
  {
    s != [] && NoneIn(s, Whitespace)
  }

  /**
   * A line in layout 2 whose user is not a number is read with the columns
   * shifted: pid from PID, cpu from %MEM, memory from VSZ (times 1024), and
   * the name from COMMAND.
   */
  lemma ParsePsAuxLine(user: string, pid: int, cpuTenths: nat, memTenths: nat, vsz: nat, rss: nat,
                       tty: string, stat: string, start: string, time: string, command: string, i: nat)
    requires IsWord(user) && WholeInt(user).None?
    requires IsWord(tty) && IsWord(stat) && IsWord(start) && IsWord(time)
    requires IsWord(command) && |command| <= NameLength
    ensures ParseLine(PsAuxLine(user, pid, cpuTenths, memTenths, vsz, rss, tty, stat, start, time, command), i)
            == DefaultRecord(i).(pid := pid, cpuPercent := memTenths as real / 10.0,
                                 memoryKb := MemoryKb(vsz as real), name := command)
  {
    var line := PsAuxLine(user, pid, cpuTenths, memTenths, vsz, rss, tty, stat, start, time, command);
    PsAuxWords(user, pid, cpuTenths, memTenths, vsz, rss, tty, stat, start, time, command);
    var w := Words(line);
    var x := Reading(pid, memTenths as real / 10.0, vsz as real, command);
    assert WholeInt(w[1]) == Some(pid) by { WholeIntOfFormat(pid); }
    assert Decimal(w[2]).Some? by { DecimalOfTenths(cpuTenths); }
    assert Decimal(w[3]) == Some(memTenths as real / 10.0) by { DecimalOfTenths(memTenths); }
    assert Decimal(w[4]) == Some(vsz as real) by {
      WholeIntOfFormat(vsz);
      WholeIntIsDecimal(FormatInt(vsz));
    }
    PsAuxOf(w, x);
    PsAuxReading(line, i, x);
  }

  lemma PsAuxWords(user: string, pid: int, cpuTenths: nat, memTenths: nat, vsz: nat, rss: nat,
                   tty: string, stat: string, start: string, time: string, command: string)
    requires IsWord(user) && IsWord(tty) && IsWord(stat) && IsWord(start) && IsWord(time) && IsWord(command)
    ensures var w := Words(PsAuxLine(user, pid, cpuTenths, memTenths, vsz, rss, tty, stat, start, time, command));
            && |w| == 11 && w[0] == user && w[1] == FormatInt(pid) && w[2] == FormatTenths(cpuTenths)
            && w[3] == FormatTenths(memTenths) && w[4] == FormatInt(vsz) && w[10] == command
  {
    var fields := [user, FormatInt(pid), FormatTenths(cpuTenths), FormatTenths(memTenths), FormatInt(vsz),
                   FormatInt(rss), tty, stat, start, time, command];
    FormatIntNoSpace(pid);
    FormatIntNoSpace(vsz);
    FormatIntNoSpace(rss);
    TokensOfJoin(fields, ' ', Whitespace);
  }

  lemma PsAuxOf(w: seq<string>, x: Reading)
    requires |w| >= 11 && WholeInt(w[0]).None? && WholeInt(w[1]) == Some(x.pid) && Decimal(w[2]).Some?
    requires Decimal(w[3]) == Some(x.cpu) && Decimal(w[4]) == Some(x.mem) && w[10] == x.name
    ensures PsEoLayout(w).None? && PsAuxLayout(w) == Some(x)
  {
  }

  /** A line whose words fit layout 2 but not layout 1 is read by layout 2. */
  lemma PsAuxReading(line: string, i: nat, x: Reading)
    requires PsEoLayout(Words(line)).None? && PsAuxLayout(Words(line)) == Some(x) && |x.name| <= NameLength
    ensures ParseLine(line, i) == DefaultRecord(i).(pid := x.pid, cpuPercent := x.cpu, memoryKb := MemoryKb(x.mem), name := x.name)
  {
  }

  /**
   * ps pads its columns. Any run of white space where the written line has
   * one space reads as that space does, so the round trips above also hold
   * for padded output.
   */
  lemma PaddedLine(a: string, run: string, b: string, i: nat)
    requires run != [] && AllIn(run, Whitespace)
    ensures ParseLine(a + run + b, i) == ParseLine(a + " " + b, i)
  {
    TokensCollapse(a, run, b, ' ', Whitespace);
  }

  /** White space before the first column, as ps writes a right-aligned PID, is skipped. */
  lemma IndentedLine(lead: string, line: string, i: nat)
    requires AllIn(lead, Whitespace)
    ensures ParseLine(lead + line, i) == ParseLine(line, i)
  {
    TokensSkipLead(lead, line, Whitespace);
  }

  /** A line of fewer than four words fits neither layout: only its first word is kept, as the name. */
  lemma FewWordsNameOnly(line: string, i: nat)
    requires |Words(line)| < 4
    ensures ParseLine(line, i)
            == DefaultRecord(i).(name := if Words(line) == [] then [] else Truncate(Words(line)[0], NameLength))
  {
  }

  /**
   * Layout 1 is tried first: a `ps aux` line whose user column is numeric
   * (a bare uid) is read as layout 1, with the uid as pid and the name taken
   * from word 3.
   */
  lemma NumericUserReadsAsPsEo(line: string, i: nat)
    requires PsAuxLayout(Words(line)).Some? && WholeInt(Words(line)[0]).Some?
    ensures ParseLine(line, i).pid == WholeInt(Words(line)[0]).value
    ensures ParseLine(line, i).name == Truncate(Words(line)[3], NameLength)
  {
    var w := Words(line);
    WholeIntIsDecimal(w[1]);
  }

  // ---------------------------------------------------------------------------
  // The listing
  // ---------------------------------------------------------------------------

  /** The listing command, then the fallback command when it fails: the text of the one that succeeded. */
  method FetchListing(host: HostConfig, shell: Shell) returns (text: Option<string>)
    modifies shell
    ensures shell.issued == old(shell.issued) + Fetch(shell.respond, old(shell.issued), host).0
    ensures text == Fetch(shell.respond, old(shell.issued), host).1
  {
    ghost var before := shell.issued;
    var status, output := shell.Execute(host, ListingCommand, ListingOutputSize);
    if status != 0 {
      status, output := shell.Execute(host, FallbackCommand, ListingOutputSize);
      if status != 0 {
        return None;
      }
    }
    return Some(output);
  }

  /** The record loop: one record per line, each built from its line and position. */
  method FillRecords(lines: seq<string>) returns (list: array<ProcessInfo>)
    ensures fresh(list) && list[..] == ListingRecords(lines)
  {
    list := new ProcessInfo[|lines|];
    var i := 0;
    while i < |lines|
      invariant i <= |lines| == list.Length
      invariant list[..i] == ListingRecords(lines)[..i]
    {
      list[i] := ParseLine(lines[i], i);
      assert list[..i + 1] == list[..i] + [ListingRecords(lines)[i]];
      assert ListingRecords(lines)[..i + 1] == ListingRecords(lines)[..i] + [ListingRecords(lines)[i]];
      i := i + 1;
    }
    assert list[..] == list[..i];
    assert ListingRecords(lines)[..i] == ListingRecords(lines);
  }

  /**
   * get_process_list's result for a local host, get_remote_process_list's
   * otherwise: a fetched listing becomes one record per line, provided the
   * record array can be allocated (`alloc`, asked with the line count).
   */
  method GetRemoteProcessList(host: HostConfig, fs: ProcFs, alloc: nat -> bool, shell: Shell)
    returns (r: int, list: array<ProcessInfo>, count: nat)
    modifies shell
    ensures r == 0 || r == -1
    ensures host.isLocal ==> shell.issued == old(shell.issued)
    ensures host.isLocal ==> (r == 0 <==> fs.readable && Allocs(alloc, InitialCapacity, Demand(fs)))
    ensures host.isLocal && r == 0 ==> count <= list.Length && list[..count] == Snapshot(fs)
    ensures !host.isLocal ==>
              var f := Fetch(shell.respond, old(shell.issued), host);
              && shell.issued == old(shell.issued) + f.0
              && (r == 0 <==> f.1.Some? && alloc(|SplitLines(f.1.value)|))
              && (r == 0 ==> count == list.Length == |SplitLines(f.1.value)|
                             && list[..] == ListingRecords(SplitLines(f.1.value)))
  {
    if host.isLocal {
      r, list, count := GetProcessList(fs, alloc);
      return;
    }
    var text := FetchListing(host, shell);
    if text.None? {
      return -1, new ProcessInfo[0], 0;
    }
    var lines := SplitLines(text.value);
    if !alloc(|lines|) {
      return -1, new ProcessInfo[0], 0;
    }
    list := FillRecords(lines);
    return 0, list, |lines|;
  }

  // ---------------------------------------------------------------------------
  // Acting on a remote process
  // ---------------------------------------------------------------------------

  /** The prefix of each command before the (first) pid. */
  function ActionPrefix(verb: Verb): string
  {
    match verb
    case Kill => "kill -9 "
    case Pause => "kill -STOP "
    case Resume => "kill -CONT "
    case Restart => "kill -TERM "
  }

  /** Discard kill's messages and print its exit status. */
  const EchoStatus: string := " 2>/dev/null; echo $?"

  /** Restart's text between its two pids. */
  const RestartMiddle: string := " 2>/dev/null; sleep 0.5; kill -CONT "

  /** What follows the first pid: restart names the pid a second time, for the CONT. */
  function ActionSuffix(verb: Verb, p: string): string
  {
    if verb == Restart then RestartMiddle + p + EchoStatus else EchoStatus
  }

  /** The shell command for a verb, before it is stored in its buffer. */
  function ActionText(verb: Verb, pid: int): string
  {
    ActionPrefix(verb) + FormatInt(pid) + ActionSuffix(verb, FormatInt(pid))
  }

  /** The size of the buffer each command is written into. */
  function CommandSize(verb: Verb): nat
  {
    if verb == Restart then 128 else 64
  }

  /** What snprintf stores: the command, cut to the buffer. */
  function ActionCommand(verb: Verb, pid: int): (c: string)
    ensures |c| < CommandSize(verb)
  {
    Truncate(ActionText(verb, pid), CommandSize(verb) - 1)
  }

  /** For every 32-bit pid the command fits its buffer, so nothing is cut. */
  lemma ActionCommandFits(verb: Verb, pid: int)
    requires -0x8000_0000 <= pid < 0x8000_0000
    ensures ActionCommand(verb, pid) == ActionText(verb, pid)
  {
    FormatInt32Length(pid);
  }

  /** A formatted pid between any text and a non-digit is read back from its position. */
  lemma ScanPidAt(head: string, pid: int, tail: string)
    requires tail == [] || !IsDigit(tail[0])
    ensures var t := head + FormatInt(pid) + tail;
            t[..|head|] == head && ScanInt(t[|head|..]) == Some(pid)
  {
    var t := head + FormatInt(pid) + tail;
    assert t[..|head|] == head;
    assert t[|head|..] == FormatInt(pid) + tail;
    ScanFormatted(pid, tail);
  }

  lemma Regroup(a: string, b: string, c: string, d: string, e: string)
    ensures a + b + (c + d + e) == a + b + c + d + e
  {
  }

  /** Each command names the pid it was built for, right after its prefix. */
  lemma ActionCommandTargets(verb: Verb, pid: int)
    ensures ActionText(verb, pid)[..|ActionPrefix(verb)|] == ActionPrefix(verb)
    ensures ScanInt(ActionText(verb, pid)[|ActionPrefix(verb)|..]) == Some(pid)
  {
    var rest := ActionSuffix(verb, FormatInt(pid));
    assert EchoStatus[0] == ' ' && RestartMiddle[0] == ' ';
    assert rest[0] == ' ';
    ScanPidAt(ActionPrefix(verb), pid, rest);
  }

  /** Restart's CONT goes to the same pid as its TERM. */
  lemma RestartTargetsTwice(pid: int)
    ensures var k := |ActionPrefix(Restart)| + |FormatInt(pid)| + |RestartMiddle|;
            k <= |ActionText(Restart, pid)| && ScanInt(ActionText(Restart, pid)[k..]) == Some(pid)
  {
    var p := FormatInt(pid);
    var head := ActionPrefix(Restart) + p + RestartMiddle;
    Regroup(ActionPrefix(Restart), p, RestartMiddle, p, EchoStatus);
    assert EchoStatus[0] == ' ';
    ScanPidAt(head, pid, EchoStatus);
  }

  /** Size of the buffer an action's output is captured into. */
  const ActionOutputSize: nat := 256

  /** Success exactly when the shell reported status 0 and the output reads as 0. */
  function Verdict(status: int, output: string): (r: int)
    ensures r == 0 || r == -1
    ensures r == 0 <==> status == 0 && Atoi(output) == 0
  {
    if status != 0 then -1 else if Atoi(output) == 0 then 0 else -1
  }

  /** With the remote `echo $?` output, the verdict is success exactly when kill exited with 0. */
  lemma EchoVerdict(code: int)
    ensures Verdict(0, FormatInt(code) + "\n") == 0 <==> code == 0
  {
    AtoiFormatted(code, "\n");
  }

  /** Output that does not start with a number counts as success. */
  lemma UnreadableOutputSucceeds(output: string)
    requires ScanInt(output).None?
    ensures Verdict(0, output) == 0
  {
  }

  /** The local signal function for a verb. */
  method LocalAction(verb: Verb, pid: int, k: Kernel) returns (r: int)
    modifies k
    ensures (k.calls, r) == (old(k.calls) + LocalEffect(k.accepts, old(k.calls), verb, pid).0,
                             LocalEffect(k.accepts, old(k.calls), verb, pid).1)
  {
    match verb
    case Kill => r := KillProcess(k, pid);
    case Pause => r := PauseProcess(k, pid);
    case Resume => r := ResumeProcess(k, pid);
    case Restart => r := RestartProcess(k, pid);
  }

  /**
   * remote_kill_process, remote_pause_process, remote_resume_process and
   * remote_restart_process: a local host goes to the local signal functions
   * before the pid is looked at; otherwise a pid that is not positive fails
   * without any command, and a valid pid is acted on through one command.
   */
  method RemoteAction(host: HostConfig, verb: Verb, pid: int, k: Kernel, shell: Shell) returns (r: int)
    modifies k, shell
    ensures r == 0 || r == -1
    ensures host.isLocal ==> shell.issued == old(shell.issued)
    ensures host.isLocal ==> (k.calls, r) == (old(k.calls) + LocalEffect(k.accepts, old(k.calls), verb, pid).0,
                                             LocalEffect(k.accepts, old(k.calls), verb, pid).1)
    ensures !host.isLocal ==> k.calls == old(k.calls)
    ensures !host.isLocal && pid <= 0 ==> r == -1 && shell.issued == old(shell.issued)
    ensures !host.isLocal && pid > 0 ==>
              var call := Invocation(SessionFor(host), host, ActionCommand(verb, pid));
              var o := Outcome(shell.respond(old(shell.issued), call), ActionOutputSize);
              shell.issued == old(shell.issued) + [call] && r == Verdict(o.0, o.1)
  {
    if host.isLocal {
      r := LocalAction(verb, pid, k);
      return;
    }
    if pid <= 0 {
      return -1;
    }
    var status, output := shell.Execute(host, ActionCommand(verb, pid), ActionOutputSize);
    r := Verdict(status, output);
  }
}
