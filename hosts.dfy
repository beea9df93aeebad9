/**
 * The host registry: the configuration file reader (parse_config_file) that
 * turns `name:address:port:username:password:type` lines into a bounded array
 * of host records whose first entry is always a synthesized localhost, and
 * the network manager that owns that array (network_init, network_cleanup).
 */
module Hosts {
  import opened Text

  datatype ConnectionType = SSH | TELNET | LOCAL

  datatype HostConfig = HostConfig(
    name: string,
    address: string,
    port: int,
    username: string,
    password: string,
    kind: ConnectionType,
    isLocal: bool)

  /** Capacity of the registry's host array. */
  const MaxHosts: nat := 10

  /** Sizes of the character buffers of a host record, terminator included. */
  const NameSize: nat := 64
  const AddressSize: nat := 128
  const CredentialSize: nat := 64

  /** The default port, used when the port field does not read as a positive number. */
  const DefaultPort: int := 22

  const FieldSeparator: set<char> := {':'}
  const LineEnd: set<char> := {'\n', '\r'}

  /** The synthesized local host, with the given port. */
  function Localhost(port: int): HostConfig
  {
    HostConfig("localhost", "127.0.0.1", port, "", "", LOCAL, true)
  }

  // ---------------------------------------------------------------------------
  // One configuration line
  // ---------------------------------------------------------------------------

  /** Blank lines and comments are passed over before any splitting. */
  predicate Skipped(line: string)
  {
    |line| > 0 && (line[0] == '\n' || line[0] == '#' || line[0] == '\r')
  }

  /** The line up to, not including, its first '\n' or '\r'. */
  function CutLine(line: string): (r: string)
    ensures r <= line && NoneIn(r, LineEnd)
    ensures |r| < |line| ==> line[|r|] in LineEnd
  {
    if line == [] || line[0] in LineEnd then [] else [line[0]] + CutLine(line[1..])
  }

  /** The connection type named by a type field: anything unrecognised is LOCAL. */
  function KindOf(field: string): (k: ConnectionType)
    ensures k == SSH <==> field == "ssh"
    ensures k == TELNET <==> field == "telnet"
  {
    if field == "ssh" then SSH else if field == "telnet" then TELNET else LOCAL
  }

  /** The port field as atoi reads it, or the default port when that is not positive. */
  function PortOf(field: string): (p: int)
    ensures p > 0
    ensures Atoi(field) > 0 ==> p == Atoi(field)
    ensures Atoi(field) <= 0 ==> p == DefaultPort
  {
    var p := Atoi(field);
    if p <= 0 then DefaultPort else p
  }

  /** The six fields of a configuration line after strtok_r, if there are at least six. */
  function Fields(line: string): Option<seq<string>>
  {
    var toks := Tokens(CutLine(line), FieldSeparator);
    if |toks| < 6 then None else Some(toks[..6])
  }

  /** The host the six fields of a line describe, each string field truncated to its buffer. */
  function HostOf(f: seq<string>): (h: HostConfig)
    requires |f| == 6
    ensures !h.isLocal && h.port > 0
    ensures |h.name| < NameSize && |h.address| < AddressSize
    ensures |h.username| < CredentialSize && |h.password| < CredentialSize
  {
    HostConfig(
      Truncate(f[0], NameSize - 1),
      Truncate(f[1], AddressSize - 1),
      PortOf(f[2]),
      Truncate(f[3], CredentialSize - 1),
      Truncate(f[4], CredentialSize - 1),
      KindOf(f[5]),
      false)
  }

  /**
   * The host a configuration line yields: none for a skipped line or one with
   * fewer than six tokens; otherwise the fields truncated to their buffers.
   */
  function ParseHostLine(line: string): (r: Option<HostConfig>)
    ensures Skipped(line) ==> r == None
    ensures !Skipped(line) ==> (r.Some? <==> |Tokens(CutLine(line), FieldSeparator)| >= 6)
    ensures r.Some? ==> !r.value.isLocal && r.value.port > 0
    ensures r.Some? ==> |r.value.name| < NameSize && |r.value.address| < AddressSize
    ensures r.Some? ==> |r.value.username| < CredentialSize && |r.value.password| < CredentialSize
  {
    if Skipped(line) then None
    else match Fields(line)
      case None => None
      case Some(f) => Some(HostOf(f))
  }

  /**
   * Only the first six tokens matter: anything after a sixth ':' is ignored,
   * whether or not the line still ends in its newline.
   */
  lemma ExtraFieldsIgnored(line: string, extra: string, end: string)
    requires !Skipped(line) && |Tokens(CutLine(line), FieldSeparator)| == 6
    requires NoneIn(line, LineEnd) && NoneIn(extra, LineEnd)
    requires end == [] || end[0] in LineEnd
    ensures ParseHostLine(line + ":" + extra + end) == ParseHostLine(line + end)
  {
    var long := line + ":" + extra;
    ExtraFieldsKept(line, extra);
    FieldsWithEnd(long, end);
    FieldsWithEnd(line, end);
    SameFieldsSameHost(long + end, line + end);
  }

  lemma ExtraFieldsKept(line: string, extra: string)
    requires |Tokens(CutLine(line), FieldSeparator)| == 6
    requires NoneIn(line, LineEnd) && NoneIn(extra, LineEnd)
    ensures var long := line + ":" + extra;
            line != [] && long[0] == line[0] && Fields(long) == Fields(line) && NoneIn(long, LineEnd)
  {
    NoneInCons(':', extra, LineEnd);
    assert line + ":" + extra == line + (":" + extra);
    FieldsAppend(line, ":" + extra);
    NoneInAppend(line, ":" + extra, LineEnd);
  }

  /** A line end after a line changes neither its fields nor its first character. */
  lemma FieldsWithEnd(s: string, end: string)
    requires NoneIn(s, LineEnd) && (end == [] || end[0] in LineEnd)
    ensures Fields(s + end) == Fields(s)
    ensures s != [] ==> (s + end)[0] == s[0]
  {
    CutAny(s, end);
    CutWhole(s);
  }

  /** Two non-empty lines with the same first character and the same fields give the same host. */
  lemma SameFieldsSameHost(a: string, b: string)
    requires a != [] && b != [] && a[0] == b[0] && Fields(a) == Fields(b)
    ensures ParseHostLine(a) == ParseHostLine(b)
  {
  }

  /** A line keeps the same cut whether it ends there or at a line end. */
  lemma CutAny(s: string, end: string)
    requires NoneIn(s, LineEnd) && (end == [] || end[0] in LineEnd)
    ensures CutLine(s + end) == s
  {
    if end == [] {
      assert s + end == s;
      CutWhole(s);
    } else {
      CutFrom(s, end);
    }
  }

  lemma NoneInCons(c: char, s: string, cs: set<char>)
    requires c !in cs && NoneIn(s, cs)
    ensures NoneIn([c] + s, cs)
  {
    NoneInAppend([c], s, cs);
  }

  lemma NoneInAppend(a: string, b: string, cs: set<char>)
    requires NoneIn(a, cs) && NoneIn(b, cs)
    ensures NoneIn(a + b, cs)
  {
    forall k | 0 <= k < |a + b| ensures (a + b)[k] !in cs {
      if k >= |a| {
        assert (a + b)[k] == b[k - |a|];
      }
    }
  }

  /** Appending a ':' and more text keeps the first character and the six fields of a line. */
  lemma FieldsAppend(line: string, rest: string)
    requires |Tokens(CutLine(line), FieldSeparator)| == 6
    requires NoneIn(line, LineEnd) && NoneIn(rest, LineEnd)
    requires rest != [] && rest[0] in FieldSeparator
    ensures line != [] && (line + rest)[0] == line[0]
    ensures Fields(line + rest) == Fields(line)
  {
    CutWhole(line);
    NoneInAppend(line, rest, LineEnd);
    CutWhole(line + rest);
    TokensAppend(line, rest, FieldSeparator);
    var toks := Tokens(line, FieldSeparator);
    assert (toks + Tokens(rest[1..], FieldSeparator))[..6] == toks[..6];
  }

  lemma {:induction false} CutWhole(s: string)
    requires NoneIn(s, LineEnd)
    ensures CutLine(s) == s
  {
    if s != [] {
      CutWhole(s[1..]);
      assert s == [s[0]] + s[1..];
    }
  }

  /** Tokens of a line followed by a delimiter and more text start with the line's tokens. */
  lemma TokensAppend(t: string, rest: string, delims: set<char>)
    requires rest != [] && rest[0] in delims
    ensures Tokens(t + rest, delims) == Tokens(t, delims) + Tokens(rest[1..], delims)
  {
    TokensSplit(t, rest, delims, []);
  }

  lemma {:induction false} TokensSplit(t: string, rest: string, delims: set<char>, cur: string)
    requires NoneIn(cur, delims)
    requires rest != [] && rest[0] in delims
    ensures TokensFrom(t + rest, delims, cur) == TokensFrom(t, delims, cur) + TokensFrom(rest[1..], delims, [])
    decreases |t|
  {
    if t == [] {
      assert t + rest == rest;
    } else {
      assert (t + rest)[0] == t[0];
      assert (t + rest)[1..] == t[1..] + rest;
      if t[0] in delims {
        TokensSplit(t[1..], rest, delims, []);
      } else {
        assert NoneIn(cur + [t[0]], delims);
        TokensSplit(t[1..], rest, delims, cur + [t[0]]);
      }
    }
  }

  /** A host whose fields survive being written out as a configuration line. */
  predicate WellFormed(h: HostConfig)
  {
    && h.name != [] && h.address != [] && h.username != [] && h.password != []
    && NoneIn(h.name, FieldSeparator + LineEnd) && NoneIn(h.address, FieldSeparator + LineEnd)
    && NoneIn(h.username, FieldSeparator + LineEnd) && NoneIn(h.password, FieldSeparator + LineEnd)
    && h.name[0] != '#'
    && |h.name| < NameSize && |h.address| < AddressSize
    && |h.username| < CredentialSize && |h.password| < CredentialSize
    && h.port > 0 && !h.isLocal
  }

  function KindName(k: ConnectionType): string
  {
    match k
    case SSH => "ssh"
    case TELNET => "telnet"
    case LOCAL => "local"
  }

  /** The six fields a host is written as. */
  function FieldsOf(h: HostConfig): seq<string>
  {
    [h.name, h.address, FormatInt(h.port), h.username, h.password, KindName(h.kind)]
  }

  /** The configuration line describing `h`, as a user would write it. */
  function FormatHostLine(h: HostConfig): string
  {
    Join(FieldsOf(h), ':') + "\n"
  }

  /** Reading back a written host line gives the host. */
  lemma ParseFormatted(h: HostConfig)
    requires WellFormed(h)
    ensures ParseHostLine(FormatHostLine(h)) == Some(h)
  {
    FieldsFormatted(h);
    HostOfFields(h);
  }

  /** The fields of a well-formed host describe that host. */
  lemma HostOfFields(h: HostConfig)
    requires WellFormed(h)
    ensures HostOf(FieldsOf(h)) == h
  {
    KindRoundTrip(h.kind);
    PortRoundTrip(h.port);
  }

  lemma KindRoundTrip(k: ConnectionType)
    ensures KindOf(KindName(k)) == k
  {
    match k
    case SSH =>
    case TELNET => assert KindName(k) != "ssh";
    case LOCAL => assert KindName(k) != "ssh" && KindName(k) != "telnet";
  }

  lemma PortRoundTrip(port: int)
    requires port > 0
    ensures PortOf(FormatInt(port)) == port
  {
    AtoiFormatted(port, []);
    assert FormatInt(port) + [] == FormatInt(port);
  }

  /** A written host line is not skipped and splits into exactly the host's fields. */
  lemma FieldsFormatted(h: HostConfig)
    requires WellFormed(h)
    ensures !Skipped(FormatHostLine(h))
    ensures Fields(FormatHostLine(h)) == Some(FieldsOf(h))
  {
    var fields := FieldsOf(h);
    var joined := Join(fields, ':');
    DigitsAvoid(FormatNat(h.port), FieldSeparator + LineEnd);
    assert FormatInt(h.port) == FormatNat(h.port);
    forall i | 0 <= i < |fields|
      ensures fields[i] != [] && NoneIn(fields[i], FieldSeparator + LineEnd)
    {
    }
    JoinAvoids(fields, ':', LineEnd);
    TokensOfJoin(fields, ':', FieldSeparator);
    CutEnd(joined);
    assert joined[0] == h.name[0];
    assert fields[..6] == fields;
    assert FormatHostLine(h)[0] == joined[0];
  }

  lemma {:induction false} DigitsAvoid(ds: string, cs: set<char>)
    requires AllDigits(ds) && forall c :: c in cs ==> !IsDigit(c)
    ensures NoneIn(ds, cs)
  {
  }

  lemma {:induction false} JoinAvoids(fields: seq<string>, c: char, cs: set<char>)
    requires c !in cs
    requires forall i :: 0 <= i < |fields| ==> NoneIn(fields[i], cs)
    ensures NoneIn(Join(fields, c), cs)
    ensures |fields| > 0 && fields[0] != [] ==> Join(fields, c)[0] == fields[0][0]
  {
    if |fields| > 1 {
      JoinAvoids(fields[1..], c, cs);
      var j := Join(fields, c);
      assert j == fields[0] + [c] + Join(fields[1..], c);
      forall i | 0 <= i < |j| ensures j[i] !in cs {
        if i < |fields[0]| {
          assert j[i] == fields[0][i];
        } else if i > |fields[0]| {
          assert j[i] == Join(fields[1..], c)[i - |fields[0]| - 1];
        }
      }
    }
  }

  lemma CutEnd(s: string)
    requires NoneIn(s, LineEnd)
    ensures CutLine(s + "\n") == s
  {
    CutFrom(s, "\n");
  }

  lemma {:induction false} CutFrom(s: string, rest: string)
    requires NoneIn(s, LineEnd) && rest != [] && rest[0] in LineEnd
    ensures CutLine(s + rest) == s
  {
    if s == [] {
      assert s + rest == rest;
    } else {
      assert (s + rest)[0] == s[0];
      assert (s + rest)[1..] == s[1..] + rest;
      CutFrom(s[1..], rest);
      assert s == [s[0]] + s[1..];
    }
  }

  /**
   * A line with an empty field and nothing else wrong is not a host: the two
   * separators around the empty field read as one, leaving fewer than six tokens.
   */
  lemma EmptyFieldSkipsLine(fields: seq<string>, k: nat, end: string)
    requires |fields| == 6 && k < 6 && fields[k] == []
    requires forall i :: 0 <= i < 6 ==> NoneIn(fields[i], FieldSeparator + LineEnd)
    requires end == [] || end[0] in LineEnd
    ensures ParseHostLine(Join(fields, ':') + end) == None
  {
    var joined := Join(fields, ':');
    JoinAvoids(fields, ':', LineEnd);
    CutAny(joined, end);
    forall i | 0 <= i < |fields| ensures NoneIn(fields[i], FieldSeparator) {
      assert forall c :: c in FieldSeparator ==> c in FieldSeparator + LineEnd;
    }
    TokensOfJoinFields(fields, ':', FieldSeparator);
    PresentDrops(fields, k);
  }

  // ---------------------------------------------------------------------------
  // Storing a field: strncpy into a fixed buffer
  // ---------------------------------------------------------------------------

  const Nul: char := 0 as char

  /** The C string a buffer holds: its characters up to the first NUL, none when it has none. */
  function CString(buf: seq<char>): (r: Option<string>)
    ensures r.None? <==> NoneIn(buf, {Nul})
    ensures r.Some? ==> |r.value| < |buf| && r.value == buf[..|r.value|]
                        && buf[|r.value|] == Nul && NoneIn(r.value, {Nul})
  {
    if buf == [] then None
    else if buf[0] == Nul then Some([])
    else match CString(buf[1..])
      case None => None
      case Some(t) => Some([buf[0]] + t)
  }

  lemma {:induction false} CStringOf(t: string, rest: seq<char>)
    requires NoneIn(t, {Nul})
    ensures CString(t + [Nul] + rest) == Some(t)
  {
    if t != [] {
      assert (t + [Nul] + rest)[1..] == t[1..] + [Nul] + rest;
      CStringOf(t[1..], rest);
      assert [t[0]] + t[1..] == t;
    }
  }

  function Nuls(n: nat): (r: seq<char>)
    ensures |r| == n && forall i :: 0 <= i < n ==> r[i] == Nul
  {
    seq(n, _ => Nul)
  }

  /**
   * strncpy(dst, src, size - 1) into a buffer of `size` characters that held
   * `prior`: at most size - 1 characters are copied, a shorter source is padded
   * with NULs, and the last character keeps whatever it held.
   */
  function StrncpyField(prior: seq<char>, src: string, size: nat): (buf: seq<char>)
    requires size >= 1 && |prior| == size
    ensures |buf| == size && buf[size - 1] == prior[size - 1]
    ensures buf[..size - 1] == Truncate(src, size - 1) + Nuls(size - 1 - |Truncate(src, size - 1)|)
    ensures |src| < size - 1 && NoneIn(src, {Nul}) ==> CString(buf) == Some(src)
  {
    var kept := Truncate(src, size - 1);
    var buf := kept + Nuls(size - 1 - |kept|) + [prior[size - 1]];
    if |src| < size - 1 && NoneIn(src, {Nul}) then
      var pad := size - 1 - |src|;
      assert buf == src + [Nul] + (Nuls(pad - 1) + [prior[size - 1]]);
      CStringOf(src, Nuls(pad - 1) + [prior[size - 1]]);
      buf
    else buf
  }

  /**
   * As written, a field of size - 1 characters or more is left without a
   * terminator unless the buffer's last character already was NUL; the host
   * array comes from malloc, so nothing makes it so.
   */
  lemma UnterminatedField(prior: seq<char>, src: string, size: nat)
    requires size >= 1 && |prior| == size && prior[size - 1] != Nul
    requires |src| >= size - 1 && NoneIn(src, {Nul})
    ensures CString(StrncpyField(prior, src, size)) == None
  {
    var buf := StrncpyField(prior, src, size);
    assert buf == src[..size - 1] + [prior[size - 1]];
    forall i | 0 <= i < |buf| ensures buf[i] != Nul {
      if i < size - 1 {
        assert buf[i] == src[i];
      }
    }
  }

  /** strncpy followed by writing NUL into the last character. */
  function TerminatedField(prior: seq<char>, src: string, size: nat): (buf: seq<char>)
    requires size >= 1 && |prior| == size
    ensures |buf| == size && buf[size - 1] == Nul
  {
    StrncpyField(prior, src, size)[size - 1 := Nul]
  }

  /** With the terminator written, the buffer holds exactly the truncated field. */
  lemma TerminatedFieldHolds(prior: seq<char>, src: string, size: nat)
    requires size >= 1 && |prior| == size && NoneIn(src, {Nul})
    ensures CString(TerminatedField(prior, src, size)) == Some(Truncate(src, size - 1))
  {
    var kept := Truncate(src, size - 1);
    var buf := TerminatedField(prior, src, size);
    var pad := size - 1 - |kept|;
    if pad == 0 {
      assert buf == kept + [Nul] + [];
    } else {
      assert buf == kept + [Nul] + (Nuls(pad)[1..] + [Nul]);
    }
    CStringOf(kept, buf[|kept| + 1..]);
    assert buf == kept + [Nul] + buf[|kept| + 1..];
  }

  // ---------------------------------------------------------------------------
  // The whole file
  // ---------------------------------------------------------------------------

  /** The host a line yields, as a list of zero or one hosts. */
  function Entry(line: string): (r: seq<HostConfig>)
    ensures |r| <= 1
  {
    match ParseHostLine(line) case Some(h) => [h] case None => []
  }

  /** The hosts that the lines yield, in order, ignoring any capacity. */
  function Parsed(lines: seq<string>): (r: seq<HostConfig>)
    ensures |r| <= |lines|
  {
    if lines == [] then [] else Parsed(lines[..|lines| - 1]) + Entry(lines[|lines| - 1])
  }

  /** No parsed host is marked local, whatever its connection type. */
  lemma {:induction false} ParsedRemote(lines: seq<string>)
    ensures forall i :: 0 <= i < |Parsed(lines)| ==> !Parsed(lines)[i].isLocal
  {
    if lines != [] {
      ParsedRemote(lines[..|lines| - 1]);
    }
  }

  lemma ParsedStep(lines: seq<string>, i: nat)
    requires i < |lines|
    ensures Parsed(lines[..i + 1]) == Parsed(lines[..i]) + Entry(lines[i])
  {
    assert lines[..i + 1][..i] == lines[..i];
  }

  /** The hosts read from a prefix of the file are a prefix of those read from all of it. */
  lemma {:induction false} ParsedPrefix(lines: seq<string>, i: nat)
    requires i <= |lines|
    ensures Parsed(lines[..i]) <= Parsed(lines)
    decreases |lines| - i
  {
    if i < |lines| {
      ParsedStep(lines, i);
      ParsedPrefix(lines, i + 1);
      PrefixOfPrefix(Parsed(lines[..i]), Entry(lines[i]), Parsed(lines));
    } else {
      assert lines[..i] == lines;
    }
  }

  lemma PrefixOfPrefix(a: seq<HostConfig>, e: seq<HostConfig>, b: seq<HostConfig>)
    requires a + e <= b
    ensures a <= b
  {
    assert b[..|a|] == (a + e)[..|a|];
  }

  /**
   * The registry contents parse_config_file produces: the default localhost
   * alone when the file cannot be opened; otherwise localhost with port 0
   * followed by as many parsed hosts as fit.
   */
  function ConfigHosts(readable: bool, lines: seq<string>, maxHosts: nat): (r: seq<HostConfig>)
    requires maxHosts >= 1
    ensures 1 <= |r| <= maxHosts
    ensures r[0].isLocal && r[0].name == "localhost" && r[0].kind == LOCAL
    ensures !readable ==> r == [Localhost(DefaultPort)]
    ensures readable ==> r[0] == Localhost(0)
    ensures forall i :: 1 <= i < |r| ==> !r[i].isLocal
    ensures readable && |Parsed(lines)| < maxHosts ==> r[1..] == Parsed(lines)
    ensures readable && |Parsed(lines)| >= maxHosts ==> r[1..] == Parsed(lines)[..maxHosts - 1]
    ensures readable ==> r[1..] <= Parsed(lines)
  {
    if !readable then [Localhost(DefaultPort)]
    else
      ParsedRemote(lines);
      var hosts := Parsed(lines);
      [Localhost(0)] + if |hosts| < maxHosts then hosts else hosts[..maxHosts - 1]
  }

  /** A file of well-formed host lines, few enough to fit, is read back host for host. */
  lemma {:induction false} ConfigRoundTrip(hosts: seq<HostConfig>, maxHosts: nat)
    requires |hosts| < maxHosts
    requires forall i :: 0 <= i < |hosts| ==> WellFormed(hosts[i])
    ensures ConfigHosts(true, FormatLines(hosts), maxHosts) == [Localhost(0)] + hosts
  {
    ParsedFormatted(hosts);
  }

  /** A configuration file listing `hosts`, one line each. */
  function FormatLines(hosts: seq<HostConfig>): (r: seq<string>)
    ensures |r| == |hosts| && forall i :: 0 <= i < |hosts| ==> r[i] == FormatHostLine(hosts[i])
  {
    seq(|hosts|, i requires 0 <= i < |hosts| => FormatHostLine(hosts[i]))
  }

  lemma ParsedFormatted(hosts: seq<HostConfig>)
    requires forall i :: 0 <= i < |hosts| ==> WellFormed(hosts[i])
    ensures Parsed(FormatLines(hosts)) == hosts
  {
    var lines := FormatLines(hosts);
    forall i | 0 <= i < |lines| ensures Entry(lines[i]) == [hosts[i]] {
      EntryFormatted(hosts[i]);
    }
    ParsedEntries(lines, hosts);
  }

  /** Lines that yield one host each yield those hosts, in order. */
  lemma {:induction false} ParsedEntries(lines: seq<string>, hosts: seq<HostConfig>)
    requires |lines| == |hosts| && forall i :: 0 <= i < |lines| ==> Entry(lines[i]) == [hosts[i]]
    ensures Parsed(lines) == hosts
  {
    if lines != [] {
      var n := |lines| - 1;
      forall i | 0 <= i < n ensures Entry(lines[..n][i]) == [hosts[..n][i]] {
        assert lines[..n][i] == lines[i] && hosts[..n][i] == hosts[i];
      }
      ParsedEntries(lines[..n], hosts[..n]);
      LastSplit(hosts);
    }
  }

  lemma LastSplit(hosts: seq<HostConfig>)
    requires hosts != []
    ensures hosts == hosts[..|hosts| - 1] + [hosts[|hosts| - 1]]
  {
  }

  lemma EntryFormatted(h: HostConfig)
    requires WellFormed(h)
    ensures Entry(FormatHostLine(h)) == [h]
  {
    ParseFormatted(h);
  }

  /**
   * parse_config_file: fills `hosts` in place and returns the number of
   * entries written, reading lines only while the array has room.
   */
  method ParseConfigFile(readable: bool, lines: seq<string>, hosts: array<HostConfig>, maxHosts: nat)
    returns (count: nat)
    requires 1 <= maxHosts <= hosts.Length
    modifies hosts
    ensures count == |ConfigHosts(readable, lines, maxHosts)|
    ensures hosts[..count] == ConfigHosts(readable, lines, maxHosts)
    ensures forall j :: count <= j < hosts.Length ==> hosts[j] == old(hosts[j])
  {
    if !readable {
      hosts[0] := Localhost(DefaultPort);
      assert hosts[..1] == [Localhost(DefaultPort)];
      return 1;
    }
    count := ReadHostLines(lines, hosts, maxHosts);
  }

  /** The loop of parse_config_file, after the file has been opened. */
  method ReadHostLines(lines: seq<string>, hosts: array<HostConfig>, maxHosts: nat) returns (count: nat)
    requires 1 <= maxHosts <= hosts.Length
    modifies hosts
    ensures 1 <= count <= maxHosts
    ensures hosts[..count] == ConfigHosts(true, lines, maxHosts)
    ensures forall j :: count <= j < hosts.Length ==> hosts[j] == old(hosts[j])
  {
    count := Store(hosts, 0, [Localhost(0)]);
    var i := 0;
    ghost var got: seq<HostConfig> := [];
    while i < |lines| && count < maxHosts
      invariant i <= |lines| && 1 <= count <= maxHosts
      invariant got == Parsed(lines[..i])
      invariant count == 1 + |got|
      invariant hosts[..count] == [Localhost(0)] + got
      invariant forall j :: count <= j < hosts.Length ==> hosts[j] == old(hosts[j])
    {
      ParsedStep(lines, i);
      var entry := Entry(lines[i]);
      count := Store(hosts, count, entry);
      AppendAssociates([Localhost(0)], got, entry);
      got := got + entry;
      i := i + 1;
    }
    ConfigHostsStop(lines, i, maxHosts);
  }

  lemma AppendAssociates(a: seq<HostConfig>, b: seq<HostConfig>, c: seq<HostConfig>)
    ensures a + b + c == a + (b + c)
  {
  }

  /** Writes the zero or one hosts of `entry` at position `count`. */
  method Store(hosts: array<HostConfig>, count: nat, entry: seq<HostConfig>) returns (next: nat)
    requires |entry| <= 1 && count + |entry| <= hosts.Length
    modifies hosts
    ensures next == count + |entry|
    ensures hosts[..next] == old(hosts[..count]) + entry
    ensures forall j :: next <= j < hosts.Length ==> hosts[j] == old(hosts[j])
  {
    if entry != [] {
      hosts[count] := entry[0];
      assert hosts[..count + 1] == old(hosts[..count]) + entry;
    }
    next := count + |entry|;
  }

  /** Where the reading loop stops, at the end of the file or with a full array. */
  lemma ConfigHostsStop(lines: seq<string>, i: nat, maxHosts: nat)
    requires i <= |lines| && 1 + |Parsed(lines[..i])| <= maxHosts
    requires i == |lines| || 1 + |Parsed(lines[..i])| == maxHosts
    ensures ConfigHosts(true, lines, maxHosts) == [Localhost(0)] + Parsed(lines[..i])
  {
    ParsedPrefix(lines, i);
    if i == |lines| {
      assert lines[..i] == lines;
    }
  }

  // ---------------------------------------------------------------------------
  // The network manager
  // ---------------------------------------------------------------------------

  class NetworkManager {
    /** The host array, or null when none is held. */
    var hosts: array?<HostConfig>
    var count: int
    /** Index of the host whose processes are on display. */
    var currentHost: int

    /** A held array has a local host first and a count within its bounds; no array, no hosts. */
    ghost predicate Valid()
      reads this, hosts
    {
      if hosts == null then count == 0 && currentHost == 0
      else 1 <= count <= hosts.Length && 0 <= currentHost < count && hosts[0].isLocal
    }

    /** A zeroed manager, as memset leaves it. */
    constructor ()
      ensures hosts == null && count == 0 && currentHost == 0
      ensures Valid()
    {
      hosts := null;
      count := 0;
      currentHost := 0;
    }

    /**
     * network_init: zero the manager, allocate room for MaxHosts hosts
     * (`allocOk` says whether that succeeds) and load the configuration.
     */
    method Init(readable: bool, lines: seq<string>, allocOk: bool) returns (r: int)
      modifies this
      ensures r == 0 <==> allocOk
      ensures r == 0 || r == -1
      ensures !allocOk ==> hosts == null && count == 0 && currentHost == 0
      ensures allocOk ==> hosts != null && fresh(hosts) && hosts.Length == MaxHosts
                          && count == |ConfigHosts(readable, lines, MaxHosts)|
                          && hosts[..count] == ConfigHosts(readable, lines, MaxHosts)
                          && currentHost == 0
      ensures Valid()
    {
      hosts := null;
      count := 0;
      currentHost := 0;
      if !allocOk {
        return -1;
      }
      var a := new HostConfig[MaxHosts](_ => Localhost(0));
      hosts := a;
      var n := ParseConfigFile(readable, lines, a, MaxHosts);
      count := n;
      currentHost := 0;
      return 0;
    }

    /** network_cleanup: release the array and reset the counters. */
    method Cleanup()
      modifies this
      ensures hosts == null && count == 0 && currentHost == 0
      ensures Valid()
    {
      hosts := null;
      count := 0;
      currentHost := 0;
    }
  }
}
