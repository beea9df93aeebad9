/**
 * The local process enumerator and the local signal primitives
 * (src/process.c, header/process.h).
 *
 * The /proc file system is an input value (`ProcFs`): the directory listing in
 * readdir order and, for each directory name whose status file can be opened,
 * that file's lines. Memory allocation is an oracle `alloc` that says whether a
 * buffer of a given number of records can be obtained. kill(2) is the `Kernel`
 * class, which logs every call and answers from an oracle.
 */
module Process {
  import opened Text

  /** process_info_t. */
  datatype ProcessInfo = ProcessInfo(
    pid: int,
    ppid: int,
    state: char,
    memoryKb: int,
    isKernel: int,
    name: string,
    cpuPercent: real,
    time: real)

  /** A record after memset(&proc, 0, sizeof proc). */
  const Zeroed := ProcessInfo(0, 0, '\0', 0, 0, "", 0.0, 0.0)

  // ---------------------------------------------------------------------------
  // The /proc/<pid>/status parser
  // ---------------------------------------------------------------------------

  /** The five fields the status parser looks for. */
  datatype StatusField = State | Pid | PPid | Kthread | VmRSS

  function Key(f: StatusField): string
  {
    match f
    case State => "State:"
    case Pid => "Pid:"
    case PPid => "PPid:"
    case Kthread => "Kthread:"
    case VmRSS => "VmRSS:"
  }

  /** sscanf(line, "State: %c", ...): the literal, white space, then one character. */
  function StateAfter(line: string): Option<char>
  {
    if Key(State) <= line then
      var t := SkipSpaces(line[|Key(State)|..]);
      if t == [] then None else Some(t[0])
    else None
  }

  /** sscanf(line, "<key> %d", ...) for one of the integer fields. */
  function IntAfter(line: string, key: string): Option<int>
  {
    if key <= line then ScanInt(line[|key|..]) else None
  }

  /** The value `line` assigns to field `f`, if any (the state as its character code). */
  function LineValue(line: string, f: StatusField): Option<int>
  {
    if f == State then
      match StateAfter(line)
      case Some(c) => Some(c as int)
      case None => None
    else IntAfter(line, Key(f))
  }

  /** Field `f` of a record (the state as its character code). The VmRSS line fills memoryKb. */
  function Get(p: ProcessInfo, f: StatusField): int
  {
    match f
    case State => p.state as int
    case Pid => p.pid
    case PPid => p.ppid
    case Kthread => p.isKernel
    case VmRSS => p.memoryKb
  }

  /** Writes `v`, when present, into integer field `f`. */
  function SetInt(p: ProcessInfo, f: StatusField, v: Option<int>): (q: ProcessInfo)
    requires f != State
    ensures forall g :: Get(q, g) == if g == f && v.Some? then v.value else Get(p, g)
    ensures q.name == p.name && q.cpuPercent == p.cpuPercent && q.time == p.time
  {
    match v
    case None => p
    case Some(x) =>
      match f
      case Pid => p.(pid := x)
      case PPid => p.(ppid := x)
      case Kthread => p.(isKernel := x)
      case VmRSS => p.(memoryKb := x)
  }

  /** Writes `c`, when present, into the state. */
  function SetState(p: ProcessInfo, c: Option<char>): (q: ProcessInfo)
    ensures forall g :: Get(q, g) == if g == State && c.Some? then c.value as int else Get(p, g)
    ensures q.name == p.name && q.cpuPercent == p.cpuPercent && q.time == p.time
  {
    match c
    case None => p
    case Some(x) => p.(state := x)
  }

  /** The five sscanf calls made on one line of the status file, in source order. */
  function ApplyStatusLine(p: ProcessInfo, line: string): (q: ProcessInfo)
    ensures q.name == p.name && q.cpuPercent == p.cpuPercent && q.time == p.time
  {
    var p1 := SetState(p, StateAfter(line));
    var p2 := SetInt(p1, Pid, IntAfter(line, Key(Pid)));
    var p3 := SetInt(p2, PPid, IntAfter(line, Key(PPid)));
    var p4 := SetInt(p3, Kthread, IntAfter(line, Key(Kthread)));
    SetInt(p4, VmRSS, IntAfter(line, Key(VmRSS)))
  }

  /** A line that matches a field's prefix sets that field; every other field keeps its value. */
  lemma ApplyStatusLineGet(p: ProcessInfo, line: string, f: StatusField)
    ensures Get(ApplyStatusLine(p, line), f)
            == match LineValue(line, f) case Some(v) => v case None => Get(p, f)
  {
  }

  /** The record built from a status file: zeroed, then every line applied in order. */
  function StatusRecord(lines: seq<string>): (p: ProcessInfo)
    ensures p.name == "" && p.cpuPercent == 0.0 && p.time == 0.0
  {
    if lines == [] then Zeroed
    else ApplyStatusLine(StatusRecord(lines[..|lines| - 1]), lines[|lines| - 1])
  }

  /** The last line decides a field when it sets it; otherwise the lines before it do. */
  lemma StatusRecordStep(lines: seq<string>, f: StatusField)
    requires lines != []
    ensures Get(StatusRecord(lines), f)
            == match LineValue(lines[|lines| - 1], f)
               case Some(v) => v
               case None => Get(StatusRecord(lines[..|lines| - 1]), f)
  {
    ApplyStatusLineGet(StatusRecord(lines[..|lines| - 1]), lines[|lines| - 1], f);
  }

  /** What each line assigns to field `f`, line by line. */
  function FieldValues(lines: seq<string>, f: StatusField): (vs: seq<Option<int>>)
    ensures |vs| == |lines| && forall k :: 0 <= k < |lines| ==> vs[k] == LineValue(lines[k], f)
  {
    seq(|lines|, k requires 0 <= k < |lines| => LineValue(lines[k], f))
  }

  /** The last value assigned, or zero when none is. */
  function LastOf(vs: seq<Option<int>>): int
  {
    if vs == [] then 0
    else match vs[|vs| - 1]
      case Some(v) => v
      case None => LastOf(vs[..|vs| - 1])
  }

  /** Each field of the parsed record is the last value a line assigned to it. */
  lemma {:induction false} StatusRecordField(lines: seq<string>, f: StatusField)
    ensures Get(StatusRecord(lines), f) == LastOf(FieldValues(lines, f))
  {
    if lines != [] {
      var n := |lines| - 1;
      var vs := FieldValues(lines, f);
      assert FieldValues(lines[..n], f) == vs[..n];
      assert vs[n] == LineValue(lines[n], f);
      StatusRecordField(lines[..n], f);
      StatusRecordStep(lines, f);
    }
  }

  lemma {:induction false} LastOfWins(vs: seq<Option<int>>, j: nat)
    requires j < |vs| && vs[j].Some?
    requires forall k :: j < k < |vs| ==> vs[k].None?
    ensures LastOf(vs) == vs[j].value
  {
    var n := |vs| - 1;
    if j < n {
      assert vs[..n][j] == vs[j];
      LastOfWins(vs[..n], j);
    }
  }

  /** The last line that sets a field decides its value. */
  lemma StatusLastWins(lines: seq<string>, f: StatusField, j: nat)
    requires j < |lines| && LineValue(lines[j], f).Some?
    requires forall k :: j < k < |lines| ==> LineValue(lines[k], f).None?
    ensures Get(StatusRecord(lines), f) == LineValue(lines[j], f).value
  {
    StatusRecordField(lines, f);
    LastOfWins(FieldValues(lines, f), j);
  }

  /** A field no line sets stays zero. */
  lemma {:induction false} StatusUnset(lines: seq<string>, f: StatusField)
    requires forall k :: 0 <= k < |lines| ==> LineValue(lines[k], f).None?
    ensures Get(StatusRecord(lines), f) == 0
  {
    if lines != [] {
      var n := |lines| - 1;
      var prev := lines[..n];
      forall k | 0 <= k < n ensures LineValue(prev[k], f).None? {
        assert prev[k] == lines[k];
      }
      StatusUnset(prev, f);
      StatusRecordStep(lines, f);
    }
  }

  /** A "PPid:" line never sets the pid: the prefixes differ in their second character. */
  lemma PPidIsNotPid(line: string)
    requires Key(PPid) <= line
    ensures LineValue(line, Pid).None?
  {
    assert line[1] == 'P';
  }

  /** The fgets loop over one status file. */
  method ReadStatus(lines: seq<string>) returns (proc: ProcessInfo)
    ensures proc == StatusRecord(lines)
  {
    proc := Zeroed;
    var i := 0;
    while i < |lines|
      invariant 0 <= i <= |lines|
      invariant proc == StatusRecord(lines[..i])
    {
      assert lines[..i + 1][..i] == lines[..i];
      proc := ApplyStatusLine(proc, lines[i]);
      i := i + 1;
    }
    assert lines[..|lines|] == lines;
  }

  // ---------------------------------------------------------------------------
  // Enumeration of /proc
  // ---------------------------------------------------------------------------

  /**
   * The /proc directory: whether opendir succeeds, the entry names in readdir
   * order, and the lines of /proc/<name>/status for every name whose status
   * file can be opened.
   */
  datatype ProcFs = ProcFs(readable: bool, listing: seq<string>, status: map<string, seq<string>>)

  /** isdigit(d_name[0]). */
  predicate IsPidDir(name: string) { |name| > 0 && IsDigit(name[0]) }

  /** Whether an entry yields a record: a process directory with a readable status file. */
  predicate Yields(name: string, status: map<string, seq<string>>)
  {
    IsPidDir(name) && name in status
  }

  function SnapshotOf(names: seq<string>, status: map<string, seq<string>>): (s: seq<ProcessInfo>)
    ensures |s| <= |names|
  {
    if names == [] then []
    else (if Yields(names[0], status) then [StatusRecord(status[names[0]])] else [])
         + SnapshotOf(names[1..], status)
  }

  /** The records a successful enumeration returns, in directory order. */
  function Snapshot(fs: ProcFs): seq<ProcessInfo>
  {
    SnapshotOf(fs.listing, fs.status)
  }

  /** Every record of the snapshot comes from one yielding entry, and every yielding entry gives one. */
  lemma {:induction false} SnapshotMembers(names: seq<string>, status: map<string, seq<string>>, x: ProcessInfo)
    ensures x in SnapshotOf(names, status) <==>
            exists k :: 0 <= k < |names| && Yields(names[k], status) && x == StatusRecord(status[names[k]])
  {
    if names != [] {
      SnapshotMembers(names[1..], status, x);
      if x !in SnapshotOf(names, status) {
        forall k | 0 < k < |names| ensures names[1..][k - 1] == names[k] { }
      } else {
        if !(Yields(names[0], status) && x == StatusRecord(status[names[0]])) {
          var k :| 0 <= k < |names[1..]| && Yields(names[1..][k], status)
                   && x == StatusRecord(status[names[1..][k]]);
          assert names[k + 1] == names[1..][k];
        }
      }
    }
  }

  function Max(a: nat, b: nat): nat { if a < b then b else a }

  /**
   * The largest number of slots the record buffer must offer while `names` are
   * read, `kept` records having been stored before them: a process directory
   * asks for slot `kept` before its status file is opened.
   */
  function DemandFrom(names: seq<string>, status: map<string, seq<string>>, kept: nat): nat
  {
    if names == [] then 0
    else
      var rest := DemandFrom(names[1..], status, kept + if Yields(names[0], status) then 1 else 0);
      if IsPidDir(names[0]) then Max(kept + 1, rest) else rest
  }

  function Demand(fs: ProcFs): nat
  {
    DemandFrom(fs.listing, fs.status, 0)
  }

  const InitialCapacity: nat := 256

  /** The capacity reached from `cap` by doubling until `demand` slots fit. */
  function Grown(cap: nat, demand: nat): (r: nat)
    requires cap >= 1
    ensures r >= cap && r >= demand
    ensures r == cap || r < 2 * demand
    decreases if demand > cap then demand - cap else 0
  {
    if demand <= cap then cap else Grown(2 * cap, demand)
  }

  /** Every allocation on the way from `cap` to `Grown(cap, demand)` succeeds. */
  predicate Allocs(alloc: nat -> bool, cap: nat, demand: nat)
    requires cap >= 1
    decreases if demand > cap then demand - cap else 0
  {
    alloc(cap) && (demand <= cap || Allocs(alloc, 2 * cap, demand))
  }

  /** A full buffer doubles: one more slot than the current capacity costs exactly one doubling. */
  lemma {:induction false} GrowStep(alloc: nat -> bool, cap: nat, peak: nat)
    requires cap >= 1
    ensures Grown(cap, Grown(cap, peak) + 1) == 2 * Grown(cap, peak)
    ensures Allocs(alloc, cap, Grown(cap, peak) + 1)
            == (Allocs(alloc, cap, peak) && alloc(2 * Grown(cap, peak)))
    decreases if peak > cap then peak - cap else 0
  {
    if peak > cap {
      GrowStep(alloc, 2 * cap, peak);
    }
  }

  /** A demand that still fits the current capacity causes no allocation. */
  lemma {:induction false} GrownStable(alloc: nat -> bool, cap: nat, peak: nat, demand: nat)
    requires cap >= 1 && peak <= demand <= Grown(cap, peak)
    ensures Grown(cap, demand) == Grown(cap, peak)
    ensures Allocs(alloc, cap, demand) == Allocs(alloc, cap, peak)
    decreases if peak > cap then peak - cap else 0
  {
    if peak > cap {
      GrownStable(alloc, 2 * cap, peak, demand);
    }
  }

  /** Meeting a larger demand means meeting every smaller one on the way. */
  lemma {:induction false} AllocsMonotone(alloc: nat -> bool, cap: nat, small: nat, large: nat)
    requires cap >= 1 && small <= large
    ensures Allocs(alloc, cap, large) ==> Allocs(alloc, cap, small)
    decreases if large > cap then large - cap else 0
  {
    if small > cap {
      AllocsMonotone(alloc, 2 * cap, small, large);
    }
  }

  /** One entry further: how the demand and the snapshot of a suffix unfold. */
  lemma EntryStep(names: seq<string>, status: map<string, seq<string>>, i: nat, kept: nat)
    requires i < |names|
    ensures var next := kept + if Yields(names[i], status) then 1 else 0;
            DemandFrom(names[i..], status, kept)
            == if IsPidDir(names[i]) then Max(kept + 1, DemandFrom(names[i + 1..], status, next))
               else DemandFrom(names[i + 1..], status, next)
    ensures SnapshotOf(names[i..], status)
            == (if Yields(names[i], status) then [StatusRecord(status[names[i]])] else [])
               + SnapshotOf(names[i + 1..], status)
  {
    assert names[i..][0] == names[i];
    assert names[i..][1..] == names[i + 1..];
  }

  /**
   * The state of the enumeration after `i` entries: `kept` records stored in a
   * buffer of `capacity` slots, `peak` the largest demand met so far.
   */
  ghost predicate EnumerationState(fs: ProcFs, alloc: nat -> bool, i: nat, capacity: nat, peak: nat,
                                   kept: seq<ProcessInfo>)
  {
    && i <= |fs.listing|
    && |kept| <= capacity == Grown(InitialCapacity, peak)
    && Allocs(alloc, InitialCapacity, peak)
    && Demand(fs) == Max(peak, DemandFrom(fs.listing[i..], fs.status, |kept|))
    && kept + SnapshotOf(fs.listing[i..], fs.status) == Snapshot(fs)
  }

  /** The kept records and the snapshot of the rest of the listing still make up the whole snapshot. */
  lemma SnapshotStep(fs: ProcFs, i: nat, kept: seq<ProcessInfo>, kept': seq<ProcessInfo>)
    requires i < |fs.listing| && kept + SnapshotOf(fs.listing[i..], fs.status) == Snapshot(fs)
    requires kept' == kept + if Yields(fs.listing[i], fs.status)
                             then [StatusRecord(fs.status[fs.listing[i]])] else []
    ensures kept' + SnapshotOf(fs.listing[i + 1..], fs.status) == Snapshot(fs)
  {
    EntryStep(fs.listing, fs.status, i, |kept|);
    var added := kept'[|kept|..];
    assert kept' == kept + added;
    assert kept + added + SnapshotOf(fs.listing[i + 1..], fs.status)
        == kept + (added + SnapshotOf(fs.listing[i + 1..], fs.status));
  }

  /** The demand met so far and the demand of the rest of the listing still make up the whole demand. */
  lemma DemandStep(fs: ProcFs, i: nat, peak: nat, kept: nat, peak': nat, kept': nat)
    requires i < |fs.listing| && Demand(fs) == Max(peak, DemandFrom(fs.listing[i..], fs.status, kept))
    requires peak' == if IsPidDir(fs.listing[i]) then Max(peak, kept + 1) else peak
    requires kept' == kept + if Yields(fs.listing[i], fs.status) then 1 else 0
    ensures Demand(fs) == Max(peak', DemandFrom(fs.listing[i + 1..], fs.status, kept'))
  {
    EntryStep(fs.listing, fs.status, i, kept);
  }

  /** The buffer is the doubling of 256 that covers the demand met so far, every allocation on the way having succeeded. */
  lemma CapacityStep(alloc: nat -> bool, capacity: nat, peak: nat, index: nat, pidDir: bool,
                     capacity': nat, peak': nat)
    requires index <= capacity == Grown(InitialCapacity, peak) && Allocs(alloc, InitialCapacity, peak)
    requires var grows := pidDir && index >= capacity;
             && capacity' == (if grows then 2 * capacity else capacity)
             && (grows ==> alloc(capacity'))
    requires peak' == if pidDir then Max(peak, index + 1) else peak
    ensures capacity' == Grown(InitialCapacity, peak') && Allocs(alloc, InitialCapacity, peak')
    ensures pidDir ==> index + 1 <= capacity'
  {
    if pidDir {
      if index >= capacity {
        GrowStep(alloc, InitialCapacity, peak);
      } else {
        GrownStable(alloc, InitialCapacity, peak, Max(peak, index + 1));
      }
    }
  }

  /**
   * Reading entry `i` moves the state on by one entry: a process directory
   * that finds the buffer full doubles it, and raises the demand to one slot
   * past the records already kept.
   */
  lemma EnumerationStep(fs: ProcFs, alloc: nat -> bool, i: nat, capacity: nat, peak: nat,
                        kept: seq<ProcessInfo>, capacity': nat, peak': nat, kept': seq<ProcessInfo>)
    requires EnumerationState(fs, alloc, i, capacity, peak, kept) && i < |fs.listing|
    requires var grows := IsPidDir(fs.listing[i]) && |kept| >= capacity;
             && capacity' == (if grows then 2 * capacity else capacity)
             && (grows ==> alloc(capacity'))
    requires peak' == if IsPidDir(fs.listing[i]) then Max(peak, |kept| + 1) else peak
    requires kept' == kept + if Yields(fs.listing[i], fs.status)
                             then [StatusRecord(fs.status[fs.listing[i]])] else []
    ensures EnumerationState(fs, alloc, i + 1, capacity', peak', kept')
  {
    SnapshotStep(fs, i, kept, kept');
    DemandStep(fs, i, peak, |kept|, peak', |kept'|);
    CapacityStep(alloc, capacity, peak, |kept|, IsPidDir(fs.listing[i]), capacity', peak');
  }

  /** A doubling that fails means the whole chain of allocations cannot succeed. */
  lemma GrowthFails(fs: ProcFs, alloc: nat -> bool, i: nat, capacity: nat, peak: nat, kept: seq<ProcessInfo>)
    requires EnumerationState(fs, alloc, i, capacity, peak, kept) && i < |fs.listing|
    requires IsPidDir(fs.listing[i]) && |kept| >= capacity && !alloc(2 * capacity)
    ensures !Allocs(alloc, InitialCapacity, Demand(fs))
  {
    EntryStep(fs.listing, fs.status, i, |kept|);
    GrowStep(alloc, InitialCapacity, peak);
    AllocsMonotone(alloc, InitialCapacity, |kept| + 1, Demand(fs));
  }

  /** realloc: a buffer of `capacity` records that starts with the first `used` records of `list`. */
  method Realloc(list: array<ProcessInfo>, used: nat, capacity: nat) returns (grown: array<ProcessInfo>)
    requires used <= list.Length && used <= capacity
    ensures fresh(grown) && grown.Length == capacity && grown[..used] == list[..used]
  {
    grown := new ProcessInfo[capacity];
    var j := 0;
    while j < used
      invariant 0 <= j <= used
      invariant grown[..j] == list[..j]
    {
      grown[j] := list[j];
      j := j + 1;
    }
  }

  /**
   * One directory entry of get_process_list: a process directory finding the
   * buffer full first doubles it (failing when that allocation does), then
   * its status file, when it opens, fills the next slot.
   */
  method ReadEntry(fs: ProcFs, alloc: nat -> bool, i: nat, list: array<ProcessInfo>, index: nat,
                   capacity: nat, ghost peak: nat)
    returns (ok: bool, grown: array<ProcessInfo>, next: nat, capacity': nat, ghost peak': nat)
    requires i < |fs.listing| && capacity == list.Length && index <= capacity
    requires EnumerationState(fs, alloc, i, capacity, peak, list[..index])
    modifies list
    ensures !ok ==> !Allocs(alloc, InitialCapacity, Demand(fs))
    ensures ok ==> (grown == list || fresh(grown)) && capacity' == grown.Length && next <= capacity'
    ensures ok ==> EnumerationState(fs, alloc, i + 1, capacity', peak', grown[..next])
  {
    var name := fs.listing[i];
    ghost var done := list[..index];
    grown, next, capacity', peak' := list, index, capacity, peak;
    if IsPidDir(name) {
      if index >= capacity {
        if !alloc(capacity * 2) {
          GrowthFails(fs, alloc, i, capacity, peak, done);
          return false, list, index, capacity, peak;
        }
        capacity' := capacity * 2;
        grown := Realloc(list, index, capacity');
      }
      peak' := Max(peak, index + 1);
      if name in fs.status {
        var proc := ReadStatus(fs.status[name]);
        grown[index] := proc;
        assert grown[..index + 1] == done + [proc];
        next := index + 1;
      }
    }
    EnumerationStep(fs, alloc, i, capacity, peak, done, capacity', peak', grown[..next]);
    ok := true;
  }

  /**
   * get_process_list: scan the directory, keep a record for every process
   * directory whose status file opens, growing the buffer by doubling from 256
   * whenever the next slot is past its end.
   */
  method GetProcessList(fs: ProcFs, alloc: nat -> bool) returns (r: int, list: array<ProcessInfo>, count: nat)
    ensures r == 0 || r == -1
    ensures r == 0 <==> fs.readable && Allocs(alloc, InitialCapacity, Demand(fs))
    ensures r == 0 ==> count <= list.Length && list[..count] == Snapshot(fs)
    ensures r == 0 ==> list.Length == Grown(InitialCapacity, Demand(fs))
  {
    if !fs.readable {
      return -1, new ProcessInfo[0], 0;
    }
    var capacity: nat := InitialCapacity;
    var index: nat := 0;
    if !alloc(capacity) {
      return -1, new ProcessInfo[0], 0;
    }
    list := new ProcessInfo[capacity];
    ghost var peak: nat := 0;
    var i := 0;
    while i < |fs.listing|
      invariant fresh(list)
      invariant capacity == list.Length && index <= capacity
      invariant EnumerationState(fs, alloc, i, capacity, peak, list[..index])
    {
      var ok;
      ok, list, index, capacity, peak := ReadEntry(fs, alloc, i, list, index, capacity, peak);
      if !ok {
        return -1, list, index;
      }
      i := i + 1;
    }
    assert fs.listing[i..] == [];
    return 0, list, index;
  }

  /** get_process: the status file of one pid, parsed like an enumerated entry. */
  method GetProcess(fs: ProcFs, pid: int, prior: ProcessInfo) returns (r: int, proc: ProcessInfo)
    ensures r == 0 || r == -1
    ensures r == -1 <==> FormatInt(pid) !in fs.status
    ensures r == -1 ==> proc == prior
    ensures r == 0 ==> proc == StatusRecord(fs.status[FormatInt(pid)])
  {
    var path := FormatInt(pid);
    if path !in fs.status {
      return -1, prior;
    }
    proc := ReadStatus(fs.status[path]);
    r := 0;
  }

  /** What get_process reads for a listed pid is the record the enumeration keeps for it. */
  lemma ProcessInSnapshot(fs: ProcFs, pid: int)
    requires pid >= 0 && FormatInt(pid) in fs.listing && FormatInt(pid) in fs.status
    ensures StatusRecord(fs.status[FormatInt(pid)]) in Snapshot(fs)
  {
    var name := FormatInt(pid);
    var k :| 0 <= k < |fs.listing| && fs.listing[k] == name;
    assert IsDigit(name[0]);
    SnapshotMembers(fs.listing, fs.status, StatusRecord(fs.status[name]));
  }

  // ---------------------------------------------------------------------------
  // Signals
  // ---------------------------------------------------------------------------

  datatype Signal = SIGKILL | SIGSTOP | SIGCONT | SIGTERM

  datatype SignalCall = SignalCall(pid: int, sig: Signal)

  /** The four process actions. */
  datatype Verb = Kill | Pause | Resume | Restart

  /**
   * kill(2). Every call is logged; whether it succeeds is up to the oracle
   * `accepts`, which may depend on the calls made before it.
   */
  class Kernel {
    var calls: seq<SignalCall>
    const accepts: (seq<SignalCall>, SignalCall) -> bool

    constructor (accepts: (seq<SignalCall>, SignalCall) -> bool)
      ensures calls == [] && this.accepts == accepts
    {
      calls := [];
      this.accepts := accepts;
    }

    method Send(pid: int, sig: Signal) returns (r: int)
      modifies this
      ensures calls == old(calls) + [SignalCall(pid, sig)]
      ensures r == (if accepts(old(calls), SignalCall(pid, sig)) then 0 else -1)
    {
      r := if accepts(calls, SignalCall(pid, sig)) then 0 else -1;
      calls := calls + [SignalCall(pid, sig)];
    }
  }

  /** The signal a one-shot action sends. */
  function SignalOf(verb: Verb): Signal
    requires verb != Restart
  {
    match verb
    case Kill => SIGKILL
    case Pause => SIGSTOP
    case Resume => SIGCONT
  }

  /** Whether each call of `calls`, made in order after `history`, is accepted. */
  predicate AllAccepted(accepts: (seq<SignalCall>, SignalCall) -> bool,
                        history: seq<SignalCall>, calls: seq<SignalCall>)
  {
    forall k :: 0 <= k < |calls| ==> accepts(history + calls[..k], calls[k])
  }

  /**
   * The kill(2) calls a local action makes after `history`, and what it
   * returns: restart sends SIGTERM and, only if that succeeded, SIGCONT.
   */
  function LocalEffect(accepts: (seq<SignalCall>, SignalCall) -> bool,
                       history: seq<SignalCall>, verb: Verb, pid: int): (e: (seq<SignalCall>, int))
    ensures e.1 == 0 || e.1 == -1
    ensures e.0 != [] && e.0[0].pid == pid
    ensures e.1 == 0 <==> AllAccepted(accepts, history, e.0)
    ensures verb != Restart ==> e.0 == [SignalCall(pid, SignalOf(verb))]
    ensures verb == Restart ==> e.0[0].sig == SIGTERM
    ensures verb == Restart ==> (|e.0| == 2 <==> accepts(history, e.0[0]))
    ensures verb == Restart ==>
              e.0 == [SignalCall(pid, SIGTERM)]
                     + (if accepts(history, SignalCall(pid, SIGTERM)) then [SignalCall(pid, SIGCONT)] else [])
  {
    if verb != Restart then
      var call := SignalCall(pid, SignalOf(verb));
      assert history + [call][..0] == history;
      (if accepts(history, call) then ([call], 0) else ([call], -1))
    else
      var term := SignalCall(pid, SIGTERM);
      var cont := SignalCall(pid, SIGCONT);
      assert history + [term][..0] == history && history + [term, cont][..0] == history;
      assert history + [term, cont][..1] == history + [term];
      if !accepts(history, term) then ([term], -1)
      else ([term, cont], if accepts(history + [term], cont) then 0 else -1)
  }

  /** kill_process. */
  method KillProcess(k: Kernel, pid: int) returns (r: int)
    modifies k
    ensures (k.calls, r) == (old(k.calls) + LocalEffect(k.accepts, old(k.calls), Kill, pid).0,
                             LocalEffect(k.accepts, old(k.calls), Kill, pid).1)
  {
    r := k.Send(pid, SIGKILL);
  }

  /** pause_process. */
  method PauseProcess(k: Kernel, pid: int) returns (r: int)
    modifies k
    ensures (k.calls, r) == (old(k.calls) + LocalEffect(k.accepts, old(k.calls), Pause, pid).0,
                             LocalEffect(k.accepts, old(k.calls), Pause, pid).1)
  {
    r := k.Send(pid, SIGSTOP);
  }

  /** resume_process. */
  method ResumeProcess(k: Kernel, pid: int) returns (r: int)
    modifies k
    ensures (k.calls, r) == (old(k.calls) + LocalEffect(k.accepts, old(k.calls), Resume, pid).0,
                             LocalEffect(k.accepts, old(k.calls), Resume, pid).1)
  {
    r := k.Send(pid, SIGCONT);
  }

  /** restart_process: SIGTERM, then SIGCONT only if SIGTERM succeeded. */
  method RestartProcess(k: Kernel, pid: int) returns (r: int)
    modifies k
    ensures (k.calls, r) == (old(k.calls) + LocalEffect(k.accepts, old(k.calls), Restart, pid).0,
                             LocalEffect(k.accepts, old(k.calls), Restart, pid).1)
  {
    var term := k.Send(pid, SIGTERM);
    if term == -1 {
      return -1;
    }
    r := k.Send(pid, SIGCONT);
    assert k.calls == old(k.calls) + [SignalCall(pid, SIGTERM), SignalCall(pid, SIGCONT)];
  }
}
