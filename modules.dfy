/** The tool-wrapping modules: validation with two messages, the module
    whitelist, and the WHOIS, DNS, nmap and ping handlers. The WHOIS
    library, the DNS resolver, the nmap binary and TCP connects are oracle
    fields of `Tools`. */
module ReconModules {
  import opened Common
  import opened TargetSyntax

  const AvailableModules: seq<string> := ["whois", "dns", "nmap", "ping"]

  const InvalidTarget := "Invalid target"
  const TargetTooLong := "Target too long"
  const UnknownModule := "Unknown module"
  const MaxTargetLength := 253

  // ---------------------------------------------------------------------
  // Validation
  // ---------------------------------------------------------------------

  /** `_validate_target` exactly as written, with Python's `$` that also
      matches before a final newline. */
  function ValidateTargetAsWritten(t: string): (r: Outcome<()>)
    ensures r == Failure(InvalidTarget) <==> t == "" || !PatternMatchesAsWritten(t)
    ensures r == Failure(TargetTooLong) <==> t != "" && PatternMatchesAsWritten(t) && |t| > MaxTargetLength
  {
    if t == "" || !PatternMatchesAsWritten(t) then Failure(InvalidTarget)
    else if |t| > MaxTargetLength then Failure(TargetTooLong)
    else Success(())
  }

  /** As written, a valid target with a newline appended (and still room for
      it) passes, although the newline is outside the target alphabet. */
  lemma AsWrittenAcceptsNewline(t: string)
    requires ValidateTarget(t).Success? && |t| < MaxTargetLength
    ensures ValidateTargetAsWritten(t + "\n").Success?
    ensures ValidateTarget(t + "\n") == Failure(InvalidTarget)
  {
    var u := t + "\n";
    assert u[..|u| - 1] == t;
    assert !IsTargetChar(u[|u| - 1]);
  }

  /** `_validate_target` as intended: a non-empty string of
      `[A-Za-z0-9.\-:]` is accepted up to 253 characters; an empty string or
      one with any other character is "Invalid target", checked first; a
      longer string of valid characters is "Target too long". */
  function ValidateTarget(t: string): (r: Outcome<()>)
    ensures r.Success? <==> 0 < |t| <= MaxTargetLength && forall i :: 0 <= i < |t| ==> IsTargetChar(t[i])
    ensures r == Failure(InvalidTarget) <==> |t| == 0 || exists i :: 0 <= i < |t| && !IsTargetChar(t[i])
    ensures r == Failure(TargetTooLong) <==>
      |t| > MaxTargetLength && forall i :: 0 <= i < |t| ==> IsTargetChar(t[i])
  {
    if t == "" || !PatternMatchesWhole(t) then Failure(InvalidTarget)
    else if |t| > MaxTargetLength then Failure(TargetTooLong)
    else Success(())
  }

  /** The two checks differ exactly on the targets whose final newline the
      as-written pattern lets through (accepted, or "Target too long"); on
      every other target they agree. */
  lemma ValidatorsAgree(t: string)
    ensures ValidateTarget(t) != ValidateTargetAsWritten(t) <==>
      PatternMatchesAsWritten(t) && t[|t| - 1] == '\n'
    ensures !EndsWith(t, "\n") ==> ValidateTarget(t) == ValidateTargetAsWritten(t)
  {
    if |t| > 0 && t[|t| - 1] == '\n' {
      assert !IsTargetChar(t[|t| - 1]);
    }
    if !EndsWith(t, "\n") && |t| > 0 {
      assert t[|t| - 1..] != "\n";
      assert t[|t| - 1] != '\n';
    }
  }

  // ---------------------------------------------------------------------
  // The handlers' environment
  // ---------------------------------------------------------------------

  datatype Family = Inet | Inet6

  /** `whois`: the items of the WHOIS record with each value rendered by
      `str`; `resolverInit`: the error constructing the DNS resolver
      raises, if any; `resolve`: the rendered answers for a name and a
      record type; `nmapInstalled`: whether `nmap` is on PATH; `run`: stdout
      and stderr of a command, or the exception `subprocess.run` raised;
      `connect`: a TCP connect of the given family to a host and port. */
  datatype Tools = Tools(whois: string -> Outcome<seq<(string, string)>>,
                         resolverInit: Option<string>,
                         resolve: (string, string) -> Outcome<seq<string>>,
                         nmapInstalled: bool,
                         run: seq<string> -> Outcome<(string, string)>,
                         connect: (Family, string, int) -> Outcome<()>)

  // ---------------------------------------------------------------------
  // whois
  // ---------------------------------------------------------------------

  function WhoisLine(item: (string, string)): string {
    item.0 + ": " + item.1
  }

  /** What `_mod_whois` returns: one "k: v" line per item, or the library's
      error after "whois error: ". */
  function WhoisReport(target: string, tools: Tools): string {
    match tools.whois(target)
    case Failure(e) => "whois error: " + e
    case Success(items) => Join(seq(|items|, i requires 0 <= i < |items| => WhoisLine(items[i])), "\n")
  }

  /** The loop of `_mod_whois`. */
  method ModWhois(target: string, tools: Tools) returns (r: string)
    ensures r == WhoisReport(target, tools)
  {
    var w := tools.whois(target);
    if w.Failure? {
      return "whois error: " + w.msg;
    }
    var items := w.value;
    var out: seq<string> := [];
    var i := 0;
    while i < |items|
      invariant 0 <= i <= |items|
      invariant |out| == i
      invariant forall j :: 0 <= j < i ==> out[j] == WhoisLine(items[j])
    {
      var (k, v) := items[i];
      out := out + [k + ": " + v];
      i := i + 1;
    }
    assert out == seq(|items|, i requires 0 <= i < |items| => WhoisLine(items[i]));
    r := Join(out, "\n");
  }

  /** Every item gives exactly one line, "key: value", in item order; a
      library error gives exactly "whois error: " and the message. */
  lemma WhoisReportSpec(target: string, tools: Tools)
    ensures tools.whois(target).Failure? ==> WhoisReport(target, tools) == "whois error: " + tools.whois(target).msg
    ensures tools.whois(target).Success? ==>
      var items := tools.whois(target).value;
      exists lines: seq<string> ::
        && WhoisReport(target, tools) == Join(lines, "\n")
        && |lines| == |items|
        && forall i :: 0 <= i < |items| ==> lines[i] == items[i].0 + ": " + items[i].1
  {
    if tools.whois(target).Success? {
      var items := tools.whois(target).value;
      var lines := seq(|items|, i requires 0 <= i < |items| => WhoisLine(items[i]));
      assert WhoisReport(target, tools) == Join(lines, "\n");
    }
  }

  // ---------------------------------------------------------------------
  // dns
  // ---------------------------------------------------------------------

  const RecordTypes: seq<string> := ["A", "AAAA", "MX", "NS", "TXT", "SOA"]
  const NoDnsRecords := "No DNS records found or resolution failed."

  function DnsHeader(rtype: string): string {
    "== " + rtype + " records =="
  }

  /** The lines for one record type: nothing when resolving it raised. */
  function DnsSection(target: string, rtype: string, tools: Tools): seq<string> {
    match tools.resolve(target, rtype)
    case Failure(_) => []
    case Success(answers) => [DnsHeader(rtype)] + answers
  }

  function DnsLines(target: string, types: seq<string>, tools: Tools): seq<string>
  {
    if |types| == 0 then [] else DnsSection(target, types[0], tools) + DnsLines(target, types[1..], tools)
  }

  /** What `_mod_dns` returns; Failure when constructing the resolver
      raised, which `_mod_dns` does not catch. */
  function DnsReport(target: string, tools: Tools): Outcome<string> {
    match tools.resolverInit
    case Some(e) => Failure(e)
    case None =>
      var lines := DnsLines(target, RecordTypes, tools);
      Success(if lines == [] then NoDnsRecords else Join(lines, "\n"))
  }

  lemma DnsLinesSnoc(target: string, types: seq<string>, rtype: string, tools: Tools)
    ensures DnsLines(target, types + [rtype], tools) == DnsLines(target, types, tools) + DnsSection(target, rtype, tools)
    decreases |types|
  {
    if |types| == 0 {
      assert types + [rtype] == [rtype];
    } else {
      assert (types + [rtype])[1..] == types[1..] + [rtype];
      DnsLinesSnoc(target, types[1..], rtype, tools);
    }
  }

  /** The loop of `_mod_dns`: try each record type in order, skip the ones
      that raise, and fall back to the fixed message when nothing was
      found. */
  method ModDns(target: string, tools: Tools) returns (r: Outcome<string>)
    ensures r == DnsReport(target, tools)
  {
    if tools.resolverInit.Some? {
      return Failure(tools.resolverInit.value);
    }
    var output := CollectRecords(target, RecordTypes, tools);
    if output != [] {
      r := Success(Join(output, "\n"));
    } else {
      r := Success(NoDnsRecords);
    }
  }

  /** The loop over the record types, appending each answer after its
      header. */
  method CollectRecords(target: string, types: seq<string>, tools: Tools) returns (output: seq<string>)
    ensures output == DnsLines(target, types, tools)
  {
    output := [];
    var i := 0;
    while i < |types|
      invariant 0 <= i <= |types|
      invariant output == DnsLines(target, types[..i], tools)
    {
      var rtype := types[i];
      DnsLinesSnoc(target, types[..i], rtype, tools);
      assert types[..i + 1] == types[..i] + [rtype];
      var answers := tools.resolve(target, rtype);
      if answers.Success? {
        output := output + [DnsHeader(rtype)];
        output := AppendAll(output, answers.value);
      }
      i := i + 1;
    }
    assert types[..i] == types;
  }

  /** `for rdata in answers: output.append(str(rdata))`. */
  method AppendAll(output: seq<string>, items: seq<string>) returns (r: seq<string>)
    ensures r == output + items
  {
    r := output;
    var k := 0;
    while k < |items|
      invariant 0 <= k <= |items|
      invariant r == output + items[..k]
    {
      assert items[..k + 1] == items[..k] + [items[k]];
      r := r + [items[k]];
      k := k + 1;
    }
    assert items[..k] == items;
  }

  /** A record type that resolves contributes its header followed by its
      answers, in the order of the type list; one that raises contributes
      nothing. The lines are empty exactly when every type raised. */
  lemma {:induction false} DnsLinesSpec(target: string, types: seq<string>, tools: Tools)
    ensures DnsLines(target, types, tools) == [] <==>
      forall i :: 0 <= i < |types| ==> tools.resolve(target, types[i]).Failure?
    ensures forall i :: 0 <= i < |types| && tools.resolve(target, types[i]).Success? ==>
      DnsHeader(types[i]) in DnsLines(target, types, tools)
  {
    if |types| > 0 {
      DnsLinesSpec(target, types[1..], tools);
      var rest := DnsLines(target, types[1..], tools);
      var sec := DnsSection(target, types[0], tools);
      assert DnsLines(target, types, tools) == sec + rest;
      forall i | 0 <= i < |types| && tools.resolve(target, types[i]).Success?
        ensures DnsHeader(types[i]) in DnsLines(target, types, tools)
      {
        if i == 0 {
          assert sec[0] == DnsHeader(types[0]);
        } else {
          assert types[i] == types[1..][i - 1];
          assert DnsHeader(types[i]) in rest;
        }
      }
      if rest == [] && sec == [] {
        forall i | 0 <= i < |types| ensures tools.resolve(target, types[i]).Failure? {
          if i > 0 { assert types[i] == types[1..][i - 1]; }
        }
      }
      if DnsLines(target, types, tools) == [] {
        assert sec == [] && rest == [];
      }
    }
  }

  /** The fallback message is returned exactly when every one of the six
      record types raised, and each type that resolved has its section. */
  lemma DnsFallback(target: string, tools: Tools)
    requires tools.resolverInit.None?
    ensures DnsReport(target, tools) == Success(NoDnsRecords) <==>
      forall i :: 0 <= i < |RecordTypes| ==> tools.resolve(target, RecordTypes[i]).Failure?
    ensures forall i :: 0 <= i < |RecordTypes| && tools.resolve(target, RecordTypes[i]).Success? ==>
      DnsHeader(RecordTypes[i]) in DnsLines(target, RecordTypes, tools)
  {
    DnsLinesSpec(target, RecordTypes, tools);
    var lines := DnsLines(target, RecordTypes, tools);
    if lines != [] {
      JoinStartsWith(lines, "\n");
      assert lines[0][0] == '=' by {
        DnsLinesStart(target, RecordTypes, tools);
      }
      assert Join(lines, "\n")[0] == '=';
    }
  }

  /** Non-empty DNS output starts with a section header. */
  lemma {:induction false} DnsLinesStart(target: string, types: seq<string>, tools: Tools)
    requires DnsLines(target, types, tools) != []
    ensures StartsWith(DnsLines(target, types, tools)[0], "== ")
  {
    var sec := DnsSection(target, types[0], tools);
    if sec == [] {
      DnsLinesStart(target, types[1..], tools);
    } else {
      assert DnsLines(target, types, tools)[0] == DnsHeader(types[0]);
    }
  }

  // ---------------------------------------------------------------------
  // nmap and ping
  // ---------------------------------------------------------------------

  const NmapMissing := "nmap not installed (pkg install nmap)"

  function NmapCommand(target: string): seq<string> {
    ["nmap", "-sS", "-Pn", "-T4", "-p", "1-1024", target]
  }

  /** What `_mod_nmap` returns: the fixed message when nmap is absent,
      otherwise stdout followed by the stderr section when stderr is not
      empty; an exception of `subprocess.run` propagates. */
  function NmapReport(target: string, tools: Tools): Outcome<string> {
    if !tools.nmapInstalled then Success(NmapMissing)
    else
      match tools.run(NmapCommand(target))
      case Failure(e) => Failure(e)
      case Success((stdout, stderr)) =>
        Success(stdout + (if stderr != "" then "\n\nSTDERR:\n" + stderr else ""))
  }

  /** Without nmap nothing is run: the report does not depend on `run`.
      With it, the one command run scans ports 1-1024 of the target with a
      SYN scan, and the report starts with its stdout, which is all of it
      when stderr is empty. */
  lemma NmapSpec(target: string, tools: Tools, run': seq<string> -> Outcome<(string, string)>)
    ensures !tools.nmapInstalled ==>
      NmapReport(target, tools) == NmapReport(target, tools.(run := run')) == Success(NmapMissing)
    ensures NmapCommand(target) == ["nmap", "-sS", "-Pn", "-T4", "-p", "1-1024", target]
    ensures tools.nmapInstalled && tools.run(NmapCommand(target)).Success? ==>
      var (stdout, stderr) := tools.run(NmapCommand(target)).value;
      && NmapReport(target, tools).Success?
      && StartsWith(NmapReport(target, tools).value, stdout)
      && (stderr == "" <==> NmapReport(target, tools).value == stdout)
  {
    if tools.nmapInstalled && tools.run(NmapCommand(target)).Success? {
      var (stdout, stderr) := tools.run(NmapCommand(target)).value;
      var r := NmapReport(target, tools).value;
      assert r[..|stdout|] == stdout;
      if stderr != "" {
        assert |r| > |stdout|;
      }
    }
  }

  /** The connect `_mod_ping` makes: IPv6 exactly when the target contains
      ':', port 80 either way. */
  function PingCall(target: string): (Family, string, int) {
    if ':' in target then (Inet6, target, 80) else (Inet, target, 80)
  }

  function PingReport(target: string, tools: Tools): string {
    var call := PingCall(target);
    match tools.connect(call.0, call.1, call.2)
    case Failure(e) => "Unreachable: " + e
    case Success(_) => if call.0 == Inet6 then "TCP/80 reachable (IPv6)" else "TCP/80 reachable"
  }

  /** Ping reports reachability of TCP port 80 of the target, over IPv6
      exactly when the target contains ':', and never raises. */
  lemma PingSpec(target: string, tools: Tools)
    ensures var fam := if ':' in target then Inet6 else Inet;
      match tools.connect(fam, target, 80)
      case Failure(e) => PingReport(target, tools) == "Unreachable: " + e
      case Success(_) =>
        PingReport(target, tools) == (if ':' in target then "TCP/80 reachable (IPv6)" else "TCP/80 reachable")
  {
  }

  // ---------------------------------------------------------------------
  // run_module_safe
  // ---------------------------------------------------------------------

  /** `run_module_safe`: validate first, then dispatch on the whitelist. */
  function RunModuleSafe(name: string, target: string, tools: Tools): Outcome<string> {
    match ValidateTarget(target)
    case Failure(e) => Failure(e)
    case Success(_) =>
      if name == "whois" then Success(WhoisReport(target, tools))
      else if name == "dns" then DnsReport(target, tools)
      else if name == "nmap" then NmapReport(target, tools)
      else if name == "ping" then Success(PingReport(target, tools))
      else Failure(UnknownModule)
  }

  /** An invalid target is refused with its validation message before the
      module name is looked at, and without consulting any tool. */
  lemma InvalidTargetFirst(name: string, target: string, tools: Tools, tools': Tools)
    requires ValidateTarget(target).Failure?
    ensures RunModuleSafe(name, target, tools) == Failure(ValidateTarget(target).msg)
                                             == RunModuleSafe(name, target, tools')
    ensures RunModuleSafe(name, target, tools).msg == InvalidTarget
         || RunModuleSafe(name, target, tools).msg == TargetTooLong
  {
  }

  /** For a valid target, a name outside the whitelist is "Unknown module"
      whatever the tools; every listed name reaches its own handler. */
  lemma Whitelist(name: string, target: string, tools: Tools, tools': Tools)
    requires ValidateTarget(target).Success?
    ensures name !in AvailableModules ==> RunModuleSafe(name, target, tools') == Failure(UnknownModule)
    ensures name == "whois" ==> RunModuleSafe(name, target, tools) == Success(WhoisReport(target, tools))
    ensures name == "dns" ==> RunModuleSafe(name, target, tools) == DnsReport(target, tools)
    ensures name == "nmap" ==> RunModuleSafe(name, target, tools) == NmapReport(target, tools)
    ensures name == "ping" ==> RunModuleSafe(name, target, tools) == Success(PingReport(target, tools))
  {
  }
}
