/**
 * Running a shell command on a host and capturing what it prints
 * (run_command, ssh_execute, telnet_execute). Starting the child process, the
 * availability checks for sshpass and expect, and the temporary expect script
 * are one oracle: for each invocation it says whether the command could be
 * started, which pieces of text fgets reads from its output, and the wait
 * status pclose reports.
 */
module Transport {
  import opened Text
  import opened Hosts

  /** What one attempt to run a command produced. */
  datatype Run = Run(launched: bool, chunks: seq<string>, waitStatus: int)

  /** The strings of `ss`, one after the other. */
  function Concat(ss: seq<string>): string
  {
    if ss == [] then [] else ss[0] + Concat(ss[1..])
  }

  lemma ConcatCons(s: string, ss: seq<string>)
    ensures Concat([s] + ss) == s + Concat(ss)
  {
    assert ([s] + ss)[1..] == ss;
  }

  /**
   * The chunks run_command keeps, having kept `total` characters so far: it
   * reads while fewer than size - 1 characters are kept, and keeps a chunk
   * whole when total plus its length stays below `size`, dropping it otherwise.
   */
  function Accepted(chunks: seq<string>, size: nat, total: nat): (r: seq<string>)
    requires total < size
    ensures total + |Concat(r)| < size
    decreases |chunks|
  {
    if chunks == [] || total >= size - 1 then []
    else if total + |chunks[0]| < size then
      ConcatCons(chunks[0], Accepted(chunks[1..], size, total + |chunks[0]|));
      [chunks[0]] + Accepted(chunks[1..], size, total + |chunks[0]|)
    else
      Accepted(chunks[1..], size, total)
  }

  /** `sub` is made of elements of `s`, in the order they occur there. */
  predicate IsSubsequence(sub: seq<string>, s: seq<string>)
    decreases |s|
  {
    if sub == [] then true
    else if s == [] then false
    else if sub[0] == s[0] then IsSubsequence(sub[1..], s[1..])
    else IsSubsequence(sub, s[1..])
  }

  /** Kept chunks appear whole and in the order they were read. */
  lemma {:induction false} AcceptedInOrder(chunks: seq<string>, size: nat, total: nat)
    requires total < size
    ensures IsSubsequence(Accepted(chunks, size, total), chunks)
    decreases |chunks|
  {
    if chunks != [] && total < size - 1 {
      if total + |chunks[0]| < size {
        AcceptedInOrder(chunks[1..], size, total + |chunks[0]|);
        var rest := Accepted(chunks[1..], size, total + |chunks[0]|);
        assert ([chunks[0]] + rest)[1..] == rest;
      } else {
        AcceptedInOrder(chunks[1..], size, total);
        SubsequenceSkip(Accepted(chunks[1..], size, total), chunks);
      }
    }
  }

  lemma SubsequenceSkip(sub: seq<string>, s: seq<string>)
    requires s != [] && IsSubsequence(sub, s[1..])
    ensures IsSubsequence(sub, s)
    decreases |s|, 0
  {
    if sub != [] && sub[0] == s[0] {
      SubsequenceTail(sub, s[1..]);
    }
  }

  lemma {:induction false} SubsequenceTail(sub: seq<string>, s: seq<string>)
    requires sub != [] && IsSubsequence(sub, s)
    ensures IsSubsequence(sub[1..], s)
    decreases |s|, 1
  {
    if sub[0] != s[0] {
      SubsequenceTail(sub, s[1..]);
      SubsequenceSkip(sub[1..], s);
    } else if sub[1..] != [] {
      SubsequenceSkip(sub[1..], s);
    }
  }

  /** When all the text fits in the buffer, all of it is captured. */
  lemma {:induction false} AllFit(chunks: seq<string>, size: nat, total: nat)
    requires total + |Concat(chunks)| < size
    ensures Concat(Accepted(chunks, size, total)) == Concat(chunks)
    decreases |chunks|
  {
    if chunks != [] {
      ConcatCons(chunks[0], chunks[1..]);
      assert chunks == [chunks[0]] + chunks[1..];
      if total >= size - 1 {
        assert |Concat(chunks)| == 0;
        assert Concat(chunks[1..]) == [];
        assert chunks[0] == [];
      } else {
        AllFit(chunks[1..], size, total + |chunks[0]|);
        ConcatCons(chunks[0], Accepted(chunks[1..], size, total + |chunks[0]|));
      }
    }
  }

  /**
   * The append loop of run_command: the captured text is the kept chunks in
   * order, and always leaves room for the terminator.
   */
  method CaptureOutput(chunks: seq<string>, outputSize: nat) returns (output: string)
    requires outputSize >= 1
    ensures output == Concat(Accepted(chunks, outputSize, 0))
    ensures |output| < outputSize
  {
    output := [];
    var total := 0;
    var i := 0;
    while i < |chunks| && total < outputSize - 1
      invariant i <= |chunks| && total == |output| < outputSize
      invariant output + Concat(Accepted(chunks[i..], outputSize, total)) == Concat(Accepted(chunks, outputSize, 0))
    {
      var chunk := chunks[i];
      assert chunks[i..][0] == chunk && chunks[i..][1..] == chunks[i + 1..];
      if total + |chunk| < outputSize {
        ConcatCons(chunk, Accepted(chunks[i + 1..], outputSize, total + |chunk|));
        assert output + (chunk + Concat(Accepted(chunks[i + 1..], outputSize, total + |chunk|)))
            == output + chunk + Concat(Accepted(chunks[i + 1..], outputSize, total + |chunk|));
        output := output + chunk;
        total := total + |chunk|;
      }
      i := i + 1;
    }
    assert output + [] == output;
  }

  /** WEXITSTATUS: bits 8 to 15 of a wait status. */
  function ExitStatus(waitStatus: int): (r: int)
    ensures 0 <= r < 256
  {
    (waitStatus / 256) % 256
  }

  /** A child that exits with code `n` (and `low` in the low byte of the status) reports `n`. */
  lemma ExitStatusOfExit(n: int, low: int)
    requires 0 <= n < 256 && 0 <= low < 256
    ensures ExitStatus(256 * n + low) == n
  {
    assert (256 * n + low) / 256 == n;
  }

  /** The result run_command returns for `run`: -1 when nothing ran, else the exit status. */
  function Outcome(run: Run, outputSize: nat): (o: (int, string))
    requires outputSize >= 1
    ensures o.0 == -1 <==> !run.launched
    ensures -1 <= o.0 < 256
    ensures |o.1| < outputSize
    ensures run.launched ==> o.1 == Concat(Accepted(run.chunks, outputSize, 0))
  {
    if !run.launched then (-1, []) else (ExitStatus(run.waitStatus), Concat(Accepted(run.chunks, outputSize, 0)))
  }

  /** run_command. */
  method RunCommand(run: Run, outputSize: nat) returns (status: int, output: string)
    requires outputSize >= 1
    ensures (status, output) == Outcome(run, outputSize)
  {
    if !run.launched {
      return -1, [];
    }
    output := CaptureOutput(run.chunks, outputSize);
    status := ExitStatus(run.waitStatus);
  }

  // ---------------------------------------------------------------------------
  // Remote shells
  // ---------------------------------------------------------------------------

  datatype Session = Ssh | Telnet

  /** One command sent to a remote host. */
  datatype Invocation = Invocation(session: Session, host: HostConfig, command: string)

  /** SSH hosts are reached with ssh; every other type goes through telnet. */
  function SessionFor(host: HostConfig): (s: Session)
    ensures s == Ssh <==> host.kind == SSH
  {
    if host.kind == SSH then Ssh else Telnet
  }

  /**
   * The remote shells as the program sees them: the commands sent so far and,
   * for each new one, what running it produces given everything sent before.
   */
  class Shell {
    var issued: seq<Invocation>
    const respond: (seq<Invocation>, Invocation) -> Run

    constructor (respond: (seq<Invocation>, Invocation) -> Run)
      ensures issued == [] && this.respond == respond
    {
      issued := [];
      this.respond := respond;
    }

    /** ssh_execute for SSH hosts and telnet_execute for the others. */
    method Execute(host: HostConfig, command: string, outputSize: nat) returns (status: int, output: string)
      requires outputSize >= 1
      modifies this
      ensures issued == old(issued) + [Invocation(SessionFor(host), host, command)]
      ensures (status, output)
              == Outcome(respond(old(issued), Invocation(SessionFor(host), host, command)), outputSize)
    {
      var call := Invocation(SessionFor(host), host, command);
      var run := respond(issued, call);
      issued := issued + [call];
      status, output := RunCommand(run, outputSize);
    }
  }
}
