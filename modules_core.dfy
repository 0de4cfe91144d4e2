/** The four reconnaissance probes: a TCP connect sweep, a WHOIS client
    (the client side of RFC 3912, section 2), an HTTP fetcher and a
    subdomain resolver. Sockets, DNS and HTTP are oracle parameters; the
    order in which the worker pool completes its tasks is a parameter that
    is any permutation of the submitted tasks. */
module ModulesCore {
  import opened Common
  import opened Sorting
  import opened TargetSyntax

  const InvalidTarget := "Invalid target"
  const MaxTargetLength := 253

  // ---------------------------------------------------------------------
  // Target validation
  // ---------------------------------------------------------------------

  /** `_validate_target` exactly as written: because `$` also matches before
      a final newline, a valid target followed by "\n" is accepted. */
  function ValidateTargetAsWritten(t: string): (r: Outcome<()>)
    ensures r.Success? <==>
      && 0 < |t| <= MaxTargetLength
      && ((forall i :: 0 <= i < |t| ==> IsTargetChar(t[i]))
          || (|t| >= 2 && t[|t| - 1] == '\n' && forall i :: 0 <= i < |t| - 1 ==> IsTargetChar(t[i])))
    ensures r.Failure? ==> r.msg == InvalidTarget
  {
    if t == "" || !PatternMatchesAsWritten(t) || |t| > MaxTargetLength then Failure(InvalidTarget)
    else Success(())
  }

  /** The as-written validator lets a newline through: any accepted target
      with one more character of room is still accepted with "\n" appended,
      although "\n" is outside the target alphabet. */
  lemma AsWrittenAcceptsNewline(t: string)
    requires ValidateTarget(t).Success? && |t| < MaxTargetLength
    ensures ValidateTargetAsWritten(t + "\n").Success?
    ensures ValidateTarget(t + "\n").Failure?
  {
    var u := t + "\n";
    assert u[..|u| - 1] == t;
    assert !IsTargetChar(u[|u| - 1]);
  }

  /** `_validate_target` as intended: the target is non-empty, at most 253
      characters, and made only of `[A-Za-z0-9.\-:]`. Every probe below
      uses this one. */
  function ValidateTarget(t: string): (r: Outcome<()>)
    ensures r.Success? <==> 0 < |t| <= MaxTargetLength && forall i :: 0 <= i < |t| ==> IsTargetChar(t[i])
    ensures r.Failure? ==> r.msg == InvalidTarget
  {
    if t == "" || !PatternMatchesWhole(t) || |t| > MaxTargetLength then Failure(InvalidTarget)
    else Success(())
  }

  /** The two checks differ exactly on the targets that the as-written one
      accepts with a final newline; on every other target they agree. */
  lemma ValidatorsAgree(t: string)
    ensures ValidateTarget(t) != ValidateTargetAsWritten(t) <==>
      ValidateTargetAsWritten(t).Success? && t[|t| - 1] == '\n'
    ensures !EndsWith(t, "\n") ==> ValidateTarget(t) == ValidateTargetAsWritten(t)
  {
    if |t| > 0 && t[|t| - 1] == '\n' {
      assert !IsTargetChar(t[|t| - 1]);
    }
    if !EndsWith(t, "\n") && |t| > 0 {
      assert t[|t| - 1..] != "\n";
      assert t[|t| - 1] != '\n';
    }
  }

  /** `max(1, min(w, 200))`: the pool size actually used. */
  function ClampWorkers(w: int): (r: int)
    ensures 1 <= r <= 200
    ensures 1 <= w <= 200 ==> r == w
    ensures w < 1 ==> r == 1
    ensures w > 200 ==> r == 200
  {
    if w < 1 then 1 else if w > 200 then 200 else w
  }

  // ---------------------------------------------------------------------
  // tcp_port_scan
  // ---------------------------------------------------------------------

  datatype PortOutcome = PortOutcome(port: int, open: bool)

  /** One output line, `f"{p}: {'open' if open_ else 'closed'}"`. */
  function PortLine(o: PortOutcome): string {
    IntToString(o.port) + ": " + (if o.open then "open" else "closed")
  }

  /** The sort key of the source, `int(s.split(':')[0])`, gives back the port
      of the line, so sorting lines by it is sorting outcomes by port. */
  lemma PortLineKey(o: PortOutcome)
    ensures Before(PortLine(o), ':') == IntToString(o.port)
    ensures ParseInt(Before(PortLine(o), ':')) == o.port
  {
    var rest := " " + (if o.open then "open" else "closed");
    assert PortLine(o) == IntToString(o.port) + [':'] + rest;
    BeforeAppend(IntToString(o.port), ':', rest);
    IntRoundTrip(o.port);
  }

  predicate PortLe(a: PortOutcome, b: PortOutcome) {
    a.port <= b.port
  }

  /** What one worker computes for port `p`: a refused or timed-out connect
      is simply "closed". */
  function PortProbe(target: string, connect: (string, int) -> bool): int -> Option<PortOutcome> {
    p => Some(PortOutcome(p, connect(target, p)))
  }

  function PortOf(o: PortOutcome): Option<int> {
    Some(o.port)
  }

  /** The outcomes of a scan, sorted by port. */
  function SortedOutcomes(target: string, ports: seq<int>, connect: (string, int) -> bool): seq<PortOutcome> {
    Sort(Collect(ports, PortProbe(target, connect)), PortLe)
  }

  function ScanLines(target: string, ports: seq<int>, connect: (string, int) -> bool): seq<string> {
    var os := SortedOutcomes(target, ports, connect);
    seq(|os|, i requires 0 <= i < |os| => PortLine(os[i]))
  }

  /** What `tcp_port_scan` returns, defined on the order in which the ports
      were requested. */
  function PortScan(target: string, ports: seq<int>, connect: (string, int) -> bool): Outcome<string> {
    match ValidateTarget(target)
    case Failure(e) => Failure(e)
    case Success(_) => Success(Join(ScanLines(target, ports, connect), "\n"))
  }

  lemma {:induction false} ProbedPorts(target: string, ports: seq<int>, connect: (string, int) -> bool)
    ensures Collect(Collect(ports, PortProbe(target, connect)), PortOf) == ports
    ensures forall o :: o in Collect(ports, PortProbe(target, connect)) ==> o.open == connect(target, o.port)
  {
    var f := PortProbe(target, connect);
    if |ports| > 0 {
      ProbedPorts(target, ports[1..], connect);
      CollectCons(ports, f);
      var os := Collect(ports, f);
      assert os == [PortOutcome(ports[0], connect(target, ports[0]))] + Collect(ports[1..], f);
      CollectCons(os, PortOf);
      assert os[1..] == Collect(ports[1..], f);
    }
  }

  /** The scan report: one line per requested port (duplicates included),
      each `"<p>: open"` exactly when the connect to `p` succeeds and
      `"<p>: closed"` otherwise, in ascending port order. */
  lemma ScanReport(target: string, ports: seq<int>, connect: (string, int) -> bool)
    ensures var os := SortedOutcomes(target, ports, connect);
      && |ScanLines(target, ports, connect)| == |ports|
      && multiset(Collect(os, PortOf)) == multiset(ports)
      && (forall i :: 0 <= i < |os| ==>
            && ScanLines(target, ports, connect)[i] == PortLine(os[i])
            && os[i].open == connect(target, os[i].port))
      && (forall i, j :: 0 <= i < j < |os| ==> os[i].port <= os[j].port)
  {
    var unsorted := Collect(ports, PortProbe(target, connect));
    var os := SortedOutcomes(target, ports, connect);
    ProbedPorts(target, ports, connect);
    CollectPermutation(os, unsorted, PortOf);
    assert |Collect(unsorted, PortOf)| == |ports|;
    assert |multiset(Collect(os, PortOf))| == |ports|;
    CollectLength(os, PortOf);
    forall i | 0 <= i < |os| ensures os[i].open == connect(target, os[i].port) {
      assert os[i] in multiset(unsorted);
    }
  }

  lemma {:induction false} CollectLength(os: seq<PortOutcome>, f: PortOutcome -> Option<int>)
    requires forall o :: f(o).Some?
    ensures |Collect(os, f)| == |os|
  {
    if |os| > 0 {
      CollectCons(os, f);
      CollectLength(os[1..], f);
    }
  }

  /** Outcomes of one scan with equal ports are equal, so sorting by port
      leaves nothing to the order of completion. */
  lemma PortKeyDetermines(target: string, xs: seq<int>, connect: (string, int) -> bool)
    ensures KeyDetermines(Collect(xs, PortProbe(target, connect)), PortLe)
  {
    ProbedPorts(target, xs, connect);
  }

  /** `tcp_port_scan`: validate, clamp the pool, collect one outcome per port
      in the order the workers complete, then sort by port. The result is
      the same for every completion order and every `maxWorkers`; an invalid
      target is refused before any connect. */
  method TcpPortScan(target: string, ports: seq<int>, maxWorkers: int,
                     connect: (string, int) -> bool, completion: seq<int>)
    returns (r: Outcome<string>, ghost probed: seq<int>)
    requires multiset(completion) == multiset(ports)
    ensures r == PortScan(target, ports, connect)
    ensures ValidateTarget(target).Success? ==> probed == completion
    ensures ValidateTarget(target).Failure? ==> probed == []
  {
    var v := ValidateTarget(target);
    if v.Failure? {
      return Failure(v.msg), [];
    }
    var workers := ClampWorkers(maxWorkers);
    var results: seq<PortOutcome> := [];
    probed := [];
    var i := 0;
    while i < |completion|
      invariant 0 <= i <= |completion|
      invariant results == Collect(completion[..i], PortProbe(target, connect))
      invariant probed == completion[..i]
    {
      var p := completion[i];
      var open := connect(target, p);
      CollectSnoc(completion[..i], p, PortProbe(target, connect));
      assert completion[..i + 1] == completion[..i] + [p];
      results := results + [PortOutcome(p, open)];
      probed := probed + [p];
      i := i + 1;
    }
    assert completion[..i] == completion;
    CollectPermutation(completion, ports, PortProbe(target, connect));
    PortKeyDetermines(target, completion, connect);
    SortPermutation(results, Collect(ports, PortProbe(target, connect)), PortLe);
    var sorted := Sort(results, PortLe);
    var lines := seq(|sorted|, k requires 0 <= k < |sorted| => PortLine(sorted[k]));
    r := Success(Join(lines, "\n"));
  }

  // ---------------------------------------------------------------------
  // whois_query
  // ---------------------------------------------------------------------

  const WhoisServers: seq<string> := ["whois.iana.org", "whois.verisign-grs.com", "whois.crsnic.net", "whois.arin.net"]
  const WhoisPort := 43
  const WhoisFailed := "WHOIS failed (no server answered)"

  /** The query line of RFC 3912, section 2: the domain terminated by CRLF. */
  function WhoisRequest(domain: string): (q: string)
    ensures |q| == |domain| + 2 && q[..|domain|] == domain && q[|domain|..] == "\r\n"
  {
    domain + "\r\n"
  }

  /** A WHOIS exchange as the network performs it: connect to `host` on
      `port`, send `request`, and return the chunks `recv` yields, or None
      when anything raised. */
  type Exchange = (string, int, string) -> Option<seq<string>>

  /** The reply is everything read until the server closes (the first empty
      chunk). */
  function Received(chunks: seq<string>): (r: string)
    ensures r != "" <==> |chunks| > 0 && chunks[0] != ""
    ensures |chunks| > 0 ==> StartsWith(r, chunks[0])
  {
    if |chunks| == 0 || chunks[0] == "" then "" else chunks[0] + Received(chunks[1..])
  }

  /** The reply text from one server, or None when the exchange failed. */
  function ServerReply(exchange: Exchange, server: string, domain: string): Option<string> {
    match exchange(server, WhoisPort, WhoisRequest(domain))
    case None => None
    case Some(chunks) => Some(Received(chunks))
  }

  predicate Answered(exchange: Exchange, server: string, domain: string) {
    var reply := ServerReply(exchange, server, domain);
    reply.Some? && |reply.value| > 0
  }

  /** The first server, in list order, that gives a non-empty reply. */
  function FirstAnswer(servers: seq<string>, exchange: Exchange, domain: string): Option<nat> {
    if |servers| == 0 then None
    else if Answered(exchange, servers[0], domain) then Some(0)
    else match FirstAnswer(servers[1..], exchange, domain)
      case None => None
      case Some(i) => Some(i + 1)
  }

  function WhoisText(server: string, reply: string): string {
    "WHOIS from " + server + ":\n\n" + reply
  }

  /** What `whois_query` returns. */
  function Whois(domain: string, exchange: Exchange): Outcome<string> {
    match ValidateTarget(domain)
    case Failure(e) => Failure(e)
    case Success(_) =>
      match FirstAnswer(WhoisServers, exchange, domain)
      case None => Failure(WhoisFailed)
      case Some(i) =>
        if i < |WhoisServers| then
          WhoisFirstAnswerSpec(WhoisServers, exchange, domain);
          Success(WhoisText(WhoisServers[i], ServerReply(exchange, WhoisServers[i], domain).value))
        else Failure(WhoisFailed)
  }

  lemma {:induction false} WhoisFirstAnswerSpec(servers: seq<string>, exchange: Exchange, domain: string)
    ensures match FirstAnswer(servers, exchange, domain)
      case None => forall j :: 0 <= j < |servers| ==> !Answered(exchange, servers[j], domain)
      case Some(i) =>
        && i < |servers| && Answered(exchange, servers[i], domain)
        && forall j :: 0 <= j < i ==> !Answered(exchange, servers[j], domain)
  {
    if |servers| > 0 && !Answered(exchange, servers[0], domain) {
      WhoisFirstAnswerSpec(servers[1..], exchange, domain);
      var rest := FirstAnswer(servers[1..], exchange, domain);
      if rest.None? {
        forall j | 0 <= j < |servers| ensures !Answered(exchange, servers[j], domain) {
          if j > 0 { assert servers[j] == servers[1..][j - 1]; }
        }
      } else {
        forall j | 0 <= j < rest.value + 1 ensures !Answered(exchange, servers[j], domain) {
          if j > 0 { assert servers[j] == servers[1..][j - 1]; }
        }
      }
    }
  }

  /** The WHOIS result: the servers are tried in their fixed order and the
      first non-empty reply is returned, prefixed by that server's name; the
      call fails exactly when no server answers. */
  lemma WhoisResult(domain: string, exchange: Exchange)
    requires ValidateTarget(domain).Success?
    ensures Whois(domain, exchange).Failure? <==>
      forall j :: 0 <= j < |WhoisServers| ==> !Answered(exchange, WhoisServers[j], domain)
    ensures Whois(domain, exchange).Failure? ==> Whois(domain, exchange).msg == WhoisFailed
    ensures Whois(domain, exchange).Success? ==>
      exists i :: 0 <= i < |WhoisServers|
        && (forall j :: 0 <= j < i ==> !Answered(exchange, WhoisServers[j], domain))
        && Answered(exchange, WhoisServers[i], domain)
        && Whois(domain, exchange).value
           == WhoisText(WhoisServers[i], ServerReply(exchange, WhoisServers[i], domain).value)
  {
    WhoisFirstAnswerSpec(WhoisServers, exchange, domain);
  }

  /** The `recv` loop: append chunks until the server closes. */
  method ReadReply(chunks: seq<string>) returns (out: string)
    ensures out == Received(chunks)
  {
    out := "";
    var i := 0;
    while i < |chunks|
      invariant 0 <= i <= |chunks|
      invariant forall j :: 0 <= j < i ==> chunks[j] != ""
      invariant out + Received(chunks[i..]) == Received(chunks)
    {
      var chunk := chunks[i];
      if chunk == "" {
        break;
      }
      assert chunks[i..][1..] == chunks[i + 1..];
      out := out + chunk;
      i := i + 1;
    }
    if i == |chunks| {
      assert Received(chunks[i..]) == "";
    }
  }

  /** One server's `query`: connect on port 43, send the CRLF-terminated
      domain, read to the end; None when any step raised. */
  method QueryServer(exchange: Exchange, server: string, domain: string) returns (res: Option<string>)
    ensures res == ServerReply(exchange, server, domain)
  {
    var q := domain + "\r\n";
    var conn := exchange(server, WhoisPort, q);
    if conn.None? {
      return None;
    }
    var text := ReadReply(conn.value);
    res := Some(text);
  }

  /** `whois_query`: validate, then query the servers one after another and
      stop at the first non-empty reply. `asked` lists the servers contacted,
      which is every server up to and including the one that answered. */
  method WhoisQuery(domain: string, exchange: Exchange) returns (r: Outcome<string>, ghost asked: seq<string>)
    ensures r == Whois(domain, exchange)
    ensures ValidateTarget(domain).Failure? ==> asked == []
    ensures ValidateTarget(domain).Success? ==>
      match FirstAnswer(WhoisServers, exchange, domain)
      case None => asked == WhoisServers
      case Some(i) => i < |WhoisServers| && asked == WhoisServers[..i + 1]
  {
    var v := ValidateTarget(domain);
    if v.Failure? {
      return Failure(v.msg), [];
    }
    WhoisFirstAnswerSpec(WhoisServers, exchange, domain);
    var servers := WhoisServers;
    asked := [];
    var i := 0;
    while i < |servers|
      invariant 0 <= i <= |servers|
      invariant asked == servers[..i]
      invariant forall j :: 0 <= j < i ==> !Answered(exchange, servers[j], domain)
    {
      var s := servers[i];
      asked := asked + [s];
      var res := QueryServer(exchange, s, domain);
      if res.Some? && |res.value| > 0 {
        assert FirstAnswer(WhoisServers, exchange, domain) == Some(i) by {
          FirstAnswerAt(WhoisServers, exchange, domain, i);
        }
        return Success("WHOIS from " + s + ":\n\n" + res.value), asked;
      }
      i := i + 1;
    }
    FirstAnswerAt(WhoisServers, exchange, domain, |servers|);
    r := Failure(WhoisFailed);
  }

  lemma {:induction false} FirstAnswerAt(servers: seq<string>, exchange: Exchange, domain: string, i: nat)
    requires i <= |servers|
    requires forall j :: 0 <= j < i ==> !Answered(exchange, servers[j], domain)
    requires i < |servers| ==> Answered(exchange, servers[i], domain)
    ensures FirstAnswer(servers, exchange, domain) == if i < |servers| then Some(i) else None
  {
    if |servers| > 0 && i > 0 {
      forall j | 0 <= j < i - 1 ensures !Answered(exchange, servers[1..][j], domain) {
        assert servers[1..][j] == servers[j + 1];
      }
      FirstAnswerAt(servers[1..], exchange, domain, i - 1);
    }
  }

  // ---------------------------------------------------------------------
  // http_enumeration
  // ---------------------------------------------------------------------

  /** A followed-redirects GET reply: final URL, its scheme and host, the
      status, the headers in order, and the body text (Failure when reading
      or decoding it raised). */
  datatype HttpResponse = HttpResponse(url: string, scheme: string, host: string, status: int,
                                       headers: seq<(string, string)>, text: Outcome<string>)

  /** What the page's regexes find in the first 200000 characters: the
      (already unescaped) title, the first `<loc>` URL, and every `href`. */
  datatype PageFacts = PageFacts(title: Option<string>, sitemap: Option<string>, links: seq<string>)

  const MaxLinkSample := 50
  const MaxContent := 200000
  const MaxRobots := 4000

  /** The URL fetched for a target. */
  function NormalizeUrl(target: string): (url: string)
    ensures StartsWith(url, "http") && EndsWith(url, target)
    ensures url == target <==> StartsWith(target, "http")
    ensures !StartsWith(target, "http") ==> url == "http://" + target
  {
    if StartsWith(target, "http") then target else "http://" + target
  }

  predicate NoDup(s: seq<string>) {
    forall i, j :: 0 <= i < j < |s| ==> s[i] != s[j]
  }

  function FirstIndex(s: seq<string>, x: string): (k: nat)
    requires x in s
    ensures k < |s|
  {
    if s[0] == x then 0 else 1 + FirstIndex(s[1..], x)
  }

  /** The first index holds `x` and nothing before it does. */
  lemma {:induction false} FirstIndexSpec(s: seq<string>, x: string)
    requires x in s
    ensures var k := FirstIndex(s, x); s[k] == x && x !in s[..k]
  {
    if s[0] != x {
      assert x in s[1..];
      FirstIndexSpec(s[1..], x);
      var k := FirstIndex(s[1..], x);
      assert s[..k + 1] == [s[0]] + s[1..][..k];
    }
  }

  /** `list(dict.fromkeys(s))`: the distinct elements of `s`, each once. */
  function Dedup(s: seq<string>): (r: seq<string>)
    ensures NoDup(r)
    ensures forall x :: x in r <==> x in s
    ensures |r| <= |s|
  {
    if |s| == 0 then []
    else
      var d := Dedup(s[..|s| - 1]);
      assert s == s[..|s| - 1] + [s[|s| - 1]];
      if s[|s| - 1] in d then d else d + [s[|s| - 1]]
  }

  lemma {:induction false} FirstIndexPrefix(s: seq<string>, n: nat, x: string)
    requires n <= |s| && x in s[..n]
    ensures FirstIndex(s, x) == FirstIndex(s[..n], x)
  {
    assert s[..n][0] == s[0];
    if s[0] != x {
      assert s[1..][..n - 1] == s[..n][1..];
      FirstIndexPrefix(s[1..], n - 1, x);
    }
  }

  lemma {:induction false} FirstIndexLast(p: seq<string>, x: string)
    requires x !in p
    ensures FirstIndex(p + [x], x) == |p|
  {
    if |p| > 0 {
      assert (p + [x])[0] == p[0];
      assert (p + [x])[1..] == p[1..] + [x];
      FirstIndexLast(p[1..], x);
    }
  }

  /** `dict.fromkeys` keeps first-seen order: the distinct links appear in the
      order of their first occurrence. */
  lemma {:induction false} DedupFirstSeenOrder(s: seq<string>)
    ensures forall i, j :: 0 <= i < j < |Dedup(s)| ==> FirstIndex(s, Dedup(s)[i]) < FirstIndex(s, Dedup(s)[j])
  {
    if |s| > 0 {
      var p, x := s[..|s| - 1], s[|s| - 1];
      var d := Dedup(p);
      DedupFirstSeenOrder(p);
      assert s == p + [x];
      OrderInExtension(p, x, d);
      if x !in d {
        OrderWithLast(p, x, d);
      }
    }
  }

  /** First positions in `p + [x]` of elements of `p` are their first
      positions in `p`, before the last position. */
  lemma OrderInExtension(p: seq<string>, x: string, d: seq<string>)
    requires forall i :: 0 <= i < |d| ==> d[i] in p
    requires forall i, j :: 0 <= i < j < |d| ==> FirstIndex(p, d[i]) < FirstIndex(p, d[j])
    ensures forall i :: 0 <= i < |d| ==> d[i] in p + [x] && FirstIndex(p + [x], d[i]) < |p|
    ensures forall i, j :: 0 <= i < j < |d| ==> FirstIndex(p + [x], d[i]) < FirstIndex(p + [x], d[j])
  {
    var s := p + [x];
    assert s[..|p|] == p;
    forall i | 0 <= i < |d|
      ensures d[i] in s && FirstIndex(s, d[i]) == FirstIndex(p, d[i])
    {
      FirstIndexPrefix(s, |p|, d[i]);
    }
  }

  /** A new last element is first seen after everything seen before it. */
  lemma OrderWithLast(p: seq<string>, x: string, d: seq<string>)
    requires x !in p
    requires forall i :: 0 <= i < |d| ==> d[i] in p + [x] && FirstIndex(p + [x], d[i]) < |p|
    requires forall i, j :: 0 <= i < j < |d| ==> FirstIndex(p + [x], d[i]) < FirstIndex(p + [x], d[j])
    ensures forall i, j :: 0 <= i < j < |d + [x]| ==>
      FirstIndex(p + [x], (d + [x])[i]) < FirstIndex(p + [x], (d + [x])[j])
  {
    var s := p + [x];
    FirstIndexLast(p, x);
    var r := d + [x];
    forall i, j | 0 <= i < j < |r| ensures r[i] in s && r[j] in s && FirstIndex(s, r[i]) < FirstIndex(s, r[j]) {
      assert r[i] == d[i];
      if j < |d| {
        assert r[j] == d[j];
      } else {
        assert r[j] == x;
      }
    }
  }

  /** The link sample: `list(dict.fromkeys(links))[:50]`. */
  function LinkSample(links: seq<string>): seq<string> {
    var d := Dedup(links);
    if |d| <= MaxLinkSample then d else d[..MaxLinkSample]
  }

  /** The sample holds at most 50 links, no link twice, only links of the
      page, the first 50 distinct links in first-seen order, and every link
      when there are at most 50 distinct ones. */
  lemma LinkSampleSpec(links: seq<string>)
    ensures var r := LinkSample(links);
      && |r| <= MaxLinkSample && NoDup(r)
      && (forall x :: x in r ==> x in links)
      && (|Dedup(links)| <= MaxLinkSample ==> forall x :: x in links ==> x in r)
      && |r| == (if |Dedup(links)| < MaxLinkSample then |Dedup(links)| else MaxLinkSample)
      && r == Dedup(links)[..|r|]
      && (forall i, j :: 0 <= i < j < |r| ==> FirstIndex(links, r[i]) < FirstIndex(links, r[j]))
  {
    var d := Dedup(links);
    DedupFirstSeenOrder(links);
    if |d| > MaxLinkSample {
      assert forall x :: x in d[..MaxLinkSample] ==> x in d;
    }
  }

  function HeaderLine(k: string, v: string): string {
    k + ": " + v
  }

  function HeaderLines(headers: seq<(string, string)>): (r: seq<string>)
    ensures |r| == |headers|
    ensures forall i :: 0 <= i < |r| ==> r[i] == HeaderLine(headers[i].0, headers[i].1)
  {
    seq(|headers|, i requires 0 <= i < |headers| => HeaderLine(headers[i].0, headers[i].1))
  }

  function HttpError(e: string): string {
    "HTTP error: " + e
  }

  /** The lines written before the body is read. */
  function ResponseHead(resp: HttpResponse): seq<string> {
    ["URL: " + resp.url, "Status: " + IntToString(resp.status), "---- HEADERS ----"] + HeaderLines(resp.headers)
  }

  function TitleLines(page: PageFacts): seq<string> {
    match page.title
    case Some(t) => ["Title: " + Strip(t)]
    case None => []
  }

  function RobotsUrl(resp: HttpResponse): string {
    resp.scheme + "://" + resp.host + "/robots.txt"
  }

  /** The best-effort robots.txt section: any failure of this second request
      is ignored; "robots.txt:" is written before its text is read. */
  function RobotsLines(robots: Outcome<HttpResponse>): seq<string> {
    match robots
    case Failure(_) => []
    case Success(r2) =>
      if r2.status != 200 then []
      else match r2.text
        case Failure(_) => ["robots.txt:"]
        case Success(t) => ["robots.txt:", Take(t, MaxRobots)]
  }

  function SitemapLines(page: PageFacts): seq<string> {
    match page.sitemap
    case Some(u) => ["Sitemap suggestion: " + u]
    case None => []
  }

  function LinkLines(links: seq<string>): seq<string> {
    ["Links found (sample up to 50): " + IntToString(|links|), Join(LinkSample(links), ", ")]
  }

  /** The lines drawn from the body: title, robots.txt section, sitemap
      suggestion and links. */
  function BodyLines(resp: HttpResponse, text: string, get: string -> Outcome<HttpResponse>,
                     scrape: string -> PageFacts): seq<string> {
    var page := scrape(Take(text, MaxContent));
    TitleLines(page) + RobotsLines(get(RobotsUrl(resp))) + SitemapLines(page) + LinkLines(page.links)
  }

  /** The lines of the report for `url`; `scrape` stands for the regex
      extraction over the first 200000 characters of the body. */
  function EnumerationLines(url: string, get: string -> Outcome<HttpResponse>,
                            scrape: string -> PageFacts): seq<string> {
    match get(url)
    case Failure(e) => [HttpError(e)]
    case Success(resp) =>
      match resp.text
      case Failure(e) => ResponseHead(resp) + [HttpError(e)]
      case Success(text) => ResponseHead(resp) + BodyLines(resp, text, get, scrape)
  }

  /** What `http_enumeration` returns. */
  function HttpEnum(target: string, get: string -> Outcome<HttpResponse>,
                    scrape: string -> PageFacts): Outcome<string> {
    match ValidateTarget(target)
    case Failure(e) => Failure(e)
    case Success(_) => Success(Join(EnumerationLines(NormalizeUrl(target), get, scrape), "\n"))
  }

  /** Past validation, HTTP enumeration never fails: a failed request becomes
      a single "HTTP error: ..." line, a failure while reading the body is
      appended as that line after the URL, status and header lines already
      written, and the last two lines are the link count (duplicates
      included) and the de-duplicated sample. */
  lemma HttpEnumAbsorbsErrors(target: string, get: string -> Outcome<HttpResponse>, scrape: string -> PageFacts)
    requires ValidateTarget(target).Success?
    ensures HttpEnum(target, get, scrape).Success?
    ensures var lines := EnumerationLines(NormalizeUrl(target), get, scrape);
      match get(NormalizeUrl(target))
      case Failure(e) => lines == ["HTTP error: " + e]
      case Success(resp) =>
        && |lines| >= 4 + |resp.headers|
        && lines[0] == "URL: " + resp.url
        && lines[1] == "Status: " + IntToString(resp.status)
        && lines[3..3 + |resp.headers|] == HeaderLines(resp.headers)
        && (resp.text.Failure? ==> |lines| == 4 + |resp.headers| && lines[|lines| - 1] == "HTTP error: " + resp.text.msg)
        && (resp.text.Success? ==>
              var links := scrape(Take(resp.text.value, MaxContent)).links;
              && lines[|lines| - 2] == "Links found (sample up to 50): " + IntToString(|links|)
              && lines[|lines| - 1] == Join(LinkSample(links), ", "))
  {
    var url := NormalizeUrl(target);
    var lines := EnumerationLines(url, get, scrape);
    if get(url).Success? {
      var resp := get(url).value;
      var head := ResponseHead(resp);
      assert |head| == 3 + |resp.headers|;
      assert head[3..] == HeaderLines(resp.headers);
      if resp.text.Success? {
        var page := scrape(Take(resp.text.value, MaxContent));
        var body := BodyLines(resp, resp.text.value, get, scrape);
        var tail := LinkLines(page.links);
        assert lines == head + body;
        assert body[|body| - 2..] == tail;
        assert lines[|lines| - 2] == tail[0] && lines[|lines| - 1] == tail[1];
      } else {
        assert lines == head + [HttpError(resp.text.msg)];
      }
      assert lines[..|head|] == head;
    }
  }

  /** The first part of the report: URL, status, then one line per header. */
  method WriteHead(resp: HttpResponse) returns (out: seq<string>)
    ensures out == ResponseHead(resp)
  {
    out := ["URL: " + resp.url, "Status: " + IntToString(resp.status), "---- HEADERS ----"];
    var i := 0;
    while i < |resp.headers|
      invariant 0 <= i <= |resp.headers|
      invariant out == ["URL: " + resp.url, "Status: " + IntToString(resp.status), "---- HEADERS ----"]
                       + HeaderLines(resp.headers[..i])
    {
      var (k, v) := resp.headers[i];
      assert resp.headers[..i + 1] == resp.headers[..i] + [(k, v)];
      out := out + [k + ": " + v];
      i := i + 1;
    }
    assert resp.headers[..i] == resp.headers;
  }

  /** The part of the report drawn from the body: title, robots.txt,
      sitemap and links. */
  method WriteBody(resp: HttpResponse, text: string, get: string -> Outcome<HttpResponse>, scrape: string -> PageFacts)
    returns (out: seq<string>, ghost fetched: string)
    ensures out == BodyLines(resp, text, get, scrape)
    ensures fetched == RobotsUrl(resp)
  {
    var content := Take(text, MaxContent);
    var page := scrape(content);
    out := [];
    if page.title.Some? {
      out := out + ["Title: " + Strip(page.title.value)];
    }
    ghost var title := out;
    assert title == TitleLines(page);
    var robotsUrl := resp.scheme + "://" + resp.host + "/robots.txt";
    assert robotsUrl == RobotsUrl(resp);
    fetched := robotsUrl;
    var r2 := get(robotsUrl);
    if r2.Success? && r2.value.status == 200 {
      out := out + ["robots.txt:"];
      if r2.value.text.Success? {
        out := out + [Take(r2.value.text.value, MaxRobots)];
      }
    }
    assert out == title + RobotsLines(r2);
    ghost var robots := out;
    if page.sitemap.Some? {
      out := out + ["Sitemap suggestion: " + page.sitemap.value];
    }
    assert out == robots + SitemapLines(page);
    ghost var sitemap := out;
    var links := page.links;
    out := out + ["Links found (sample up to 50): " + IntToString(|links|)];
    out := out + [Join(LinkSample(links), ", ")];
    assert out == sitemap + LinkLines(links);
  }

  /** The body of the `try` block: GET the URL and append the report
      lines; `fetched` lists the URLs requested. */
  method Enumerate(url: string, get: string -> Outcome<HttpResponse>, scrape: string -> PageFacts)
    returns (out: seq<string>, ghost fetched: seq<string>)
    ensures out == EnumerationLines(url, get, scrape)
    ensures |fetched| >= 1 && fetched[0] == url
  {
    fetched := [url];
    var resp := get(url);
    if resp.Failure? {
      out := [HttpError(resp.msg)];
      return;
    }
    var head := WriteHead(resp.value);
    if resp.value.text.Failure? {
      out := head + [HttpError(resp.value.text.msg)];
      return;
    }
    var body, robotsUrl := WriteBody(resp.value, resp.value.text.value, get, scrape);
    fetched := fetched + [robotsUrl];
    out := head + body;
  }

  /** `http_enumeration`: validate, normalise the URL, then enumerate it;
      `fetched` lists the URLs requested. */
  method HttpEnumeration(target: string, get: string -> Outcome<HttpResponse>, scrape: string -> PageFacts)
    returns (r: Outcome<string>, ghost fetched: seq<string>)
    ensures r == HttpEnum(target, get, scrape)
    ensures ValidateTarget(target).Failure? ==> fetched == []
    ensures ValidateTarget(target).Success? ==> |fetched| >= 1 && fetched[0] == NormalizeUrl(target)
  {
    var v := ValidateTarget(target);
    if v.Failure? {
      return Failure(v.msg), [];
    }
    var url: string;
    if StartsWith(target, "http") {
      url := target;
    } else {
      url := "http://" + target;
    }
    assert url == NormalizeUrl(target);
    var out;
    out, fetched := Enumerate(url, get, scrape);
    r := Success(Join(out, "\n"));
  }

  // ---------------------------------------------------------------------
  // subdomain_bruteforce
  // ---------------------------------------------------------------------

  const NoSubdomains := "No subdomains found (or DNS blocked)"

  /** A wordlist entry becomes a task when it is non-empty once stripped. */
  function TaskWord(w: string): Option<string> {
    if Strip(w) != "" then Some(Strip(w)) else None
  }

  /** The words submitted to the pool, in wordlist order. */
  function Tasks(wordlist: seq<string>): seq<string> {
    Collect(wordlist, TaskWord)
  }

  function SubdomainLine(host: string, addr: string): string {
    host + " -> " + addr
  }

  /** What one worker computes for word `w`: the host line when
      `<w>.<domain>` resolves, nothing otherwise. */
  function SubProbe(domain: string, resolve: string -> Option<string>): string -> Option<string> {
    w => match resolve(w + "." + domain)
      case Some(addr) => Some(SubdomainLine(w + "." + domain, addr))
      case None => None
  }

  /** Python's string order: lexicographic by code point, a proper prefix
      before the longer string. */
  predicate StrLe(a: string, b: string) {
    if |a| == 0 then true
    else if |b| == 0 then false
    else if a[0] != b[0] then a[0] < b[0]
    else StrLe(a[1..], b[1..])
  }

  lemma {:induction false} StrLeTotal(a: string, b: string)
    ensures StrLe(a, b) || StrLe(b, a)
    ensures StrLe(a, b) && StrLe(b, a) ==> a == b
  {
    if |a| > 0 && |b| > 0 && a[0] == b[0] {
      StrLeTotal(a[1..], b[1..]);
      assert a == [a[0]] + a[1..] && b == [b[0]] + b[1..];
    }
  }

  lemma {:induction false} StrLeTransitive(a: string, b: string, c: string)
    requires StrLe(a, b) && StrLe(b, c)
    ensures StrLe(a, c)
  {
    if |a| > 0 && |b| > 0 && |c| > 0 && a[0] == b[0] && b[0] == c[0] {
      StrLeTransitive(a[1..], b[1..], c[1..]);
    }
  }

  lemma StrLeOrder()
    ensures TotalPreorder(StrLe)
  {
    forall a, b ensures StrLe(a, b) || StrLe(b, a) { StrLeTotal(a, b); }
    forall a, b, c | StrLe(a, b) && StrLe(b, c) ensures StrLe(a, c) { StrLeTransitive(a, b, c); }
  }

  lemma StrKeyDetermines(s: seq<string>)
    ensures KeyDetermines(s, StrLe)
  {
    forall a, b | a in s && b in s && StrLe(a, b) && StrLe(b, a) ensures a == b {
      StrLeTotal(a, b);
    }
  }

  /** Python's `sorted` on a list of strings. */
  function SortStrings(s: seq<string>): (r: seq<string>)
    ensures multiset(r) == multiset(s)
    ensures forall i, j :: 0 <= i < j < |r| ==> StrLe(r[i], r[j])
  {
    StrLeOrder();
    Sort(s, StrLe)
  }

  lemma SortStringsPermutation(s: seq<string>, t: seq<string>)
    requires multiset(s) == multiset(t)
    ensures SortStrings(s) == SortStrings(t)
  {
    StrLeOrder();
    StrKeyDetermines(s);
    SortPermutation(s, t, StrLe);
  }

  function Found(domain: string, wordlist: seq<string>, resolve: string -> Option<string>): seq<string> {
    Collect(Tasks(wordlist), SubProbe(domain, resolve))
  }

  /** What `subdomain_bruteforce` returns. */
  function SubdomainScan(domain: string, wordlist: seq<string>, resolve: string -> Option<string>): Outcome<string> {
    match ValidateTarget(domain)
    case Failure(e) => Failure(e)
    case Success(_) =>
      var found := Found(domain, wordlist, resolve);
      if found == [] then Success(NoSubdomains)
      else Success(Join(SortStrings(found), "\n"))
  }

  /** Only stripped, non-empty words are probed. */
  lemma TasksAreStripped(wordlist: seq<string>)
    ensures forall w :: w in Tasks(wordlist) ==> w != "" && Strip(w) == w
    ensures forall w :: w in wordlist && Strip(w) != "" ==> Strip(w) in Tasks(wordlist)
  {
    forall w | w in Tasks(wordlist) ensures w != "" && Strip(w) == w {
      CollectMember(wordlist, TaskWord, w);
      var x :| x in wordlist && TaskWord(x) == Some(w);
      StripIdempotent(x);
    }
    forall w | w in wordlist && Strip(w) != "" ensures Strip(w) in Tasks(wordlist) {
      CollectComplete(wordlist, TaskWord, w);
    }
  }

  /** The found lines are exactly the host lines of the resolving tasks:
      one `"<w>.<domain> -> <addr>"` per task whose host resolves, and
      nothing else. */
  lemma FoundLines(domain: string, wordlist: seq<string>, resolve: string -> Option<string>)
    ensures forall w :: w in Tasks(wordlist) && resolve(w + "." + domain).Some? ==>
      SubdomainLine(w + "." + domain, resolve(w + "." + domain).value) in Found(domain, wordlist, resolve)
    ensures forall line :: line in Found(domain, wordlist, resolve) ==>
      exists w :: && w in Tasks(wordlist) && resolve(w + "." + domain).Some?
                  && line == SubdomainLine(w + "." + domain, resolve(w + "." + domain).value)
  {
    var tasks := Tasks(wordlist);
    var f := SubProbe(domain, resolve);
    forall w | w in tasks && resolve(w + "." + domain).Some?
      ensures SubdomainLine(w + "." + domain, resolve(w + "." + domain).value) in Found(domain, wordlist, resolve)
    {
      CollectComplete(tasks, f, w);
    }
    forall line | line in Found(domain, wordlist, resolve)
      ensures exists w :: && w in tasks && resolve(w + "." + domain).Some?
                          && line == SubdomainLine(w + "." + domain, resolve(w + "." + domain).value)
    {
      CollectMember(tasks, f, line);
    }
  }

  lemma HostLineHasArrow(host: string, addr: string)
    ensures '>' in SubdomainLine(host, addr)
  {
    assert SubdomainLine(host, addr)[|host| + 2] == '>';
  }

  lemma FoundEmpty(domain: string, wordlist: seq<string>, resolve: string -> Option<string>)
    ensures Found(domain, wordlist, resolve) == [] <==>
      forall w :: w in Tasks(wordlist) ==> resolve(w + "." + domain).None?
  {
    var tasks := Tasks(wordlist);
    var f := SubProbe(domain, resolve);
    if Found(domain, wordlist, resolve) != [] {
      var line := Found(domain, wordlist, resolve)[0];
      CollectMember(tasks, f, line);
    } else {
      forall w | w in tasks ensures resolve(w + "." + domain).None? {
        if resolve(w + "." + domain).Some? {
          CollectComplete(tasks, f, w);
        }
      }
    }
  }

  lemma FoundHaveArrow(domain: string, wordlist: seq<string>, resolve: string -> Option<string>, line: string)
    requires line in Found(domain, wordlist, resolve)
    ensures '>' in line
  {
    CollectMember(Tasks(wordlist), SubProbe(domain, resolve), line);
    var w :| w in Tasks(wordlist) && SubProbe(domain, resolve)(w) == Some(line);
    HostLineHasArrow(w + "." + domain, resolve(w + "." + domain).value);
  }

  /** The fallback message is the output exactly when no task resolves. */
  lemma SubdomainFallback(domain: string, wordlist: seq<string>, resolve: string -> Option<string>)
    requires ValidateTarget(domain).Success?
    ensures SubdomainScan(domain, wordlist, resolve) == Success(NoSubdomains) <==>
      forall w :: w in Tasks(wordlist) ==> resolve(w + "." + domain).None?
  {
    FoundEmpty(domain, wordlist, resolve);
    if Found(domain, wordlist, resolve) != [] {
      ScanReportHasArrow(domain, wordlist, resolve);
      assert '>' !in NoSubdomains;
    }
  }

  /** A report of found hosts contains the '>' of some " -> ". */
  lemma ScanReportHasArrow(domain: string, wordlist: seq<string>, resolve: string -> Option<string>)
    requires Found(domain, wordlist, resolve) != []
    ensures '>' in Join(SortStrings(Found(domain, wordlist, resolve)), "\n")
  {
    var found := Found(domain, wordlist, resolve);
    var sorted := SortStrings(found);
    assert |sorted| == |multiset(sorted)| == |multiset(found)| > 0;
    assert sorted[0] in multiset(found);
    FoundHaveArrow(domain, wordlist, resolve, sorted[0]);
    ArrowInReport(sorted);
  }

  lemma ArrowInReport(lines: seq<string>)
    requires |lines| > 0 && '>' in lines[0]
    ensures '>' in Join(lines, "\n")
  {
    JoinStartsWith(lines, "\n");
    var k :| 0 <= k < |lines[0]| && lines[0][k] == '>';
    assert Join(lines, "\n")[k] == '>';
  }

  /** The worker loop: resolve each task in completion order and keep the
      host lines of those that resolve. */
  method ResolveAll(domain: string, completion: seq<string>, resolve: string -> Option<string>)
    returns (results: seq<string>, ghost probed: seq<string>)
    ensures results == Collect(completion, SubProbe(domain, resolve))
    ensures probed == completion
  {
    results := [];
    probed := [];
    var i := 0;
    while i < |completion|
      invariant 0 <= i <= |completion|
      invariant results == Collect(completion[..i], SubProbe(domain, resolve))
      invariant probed == completion[..i]
    {
      var w := completion[i];
      var host := w + "." + domain;
      var addr := resolve(host);
      CollectSnoc(completion[..i], w, SubProbe(domain, resolve));
      assert completion[..i + 1] == completion[..i] + [w];
      if addr.Some? {
        results := results + [host + " -> " + addr.value];
      }
      probed := probed + [w];
      i := i + 1;
    }
    assert completion[..i] == completion;
  }

  /** `subdomain_bruteforce`: validate, clamp the pool, probe each task in
      the order workers complete, keep the successes, then either the
      fallback message or the sorted lines. The result is the same for
      every completion order and every `maxWorkers`. */
  method SubdomainBruteforce(domain: string, wordlist: seq<string>, maxWorkers: int,
                             resolve: string -> Option<string>, completion: seq<string>)
    returns (r: Outcome<string>, ghost probed: seq<string>)
    requires multiset(completion) == multiset(Tasks(wordlist))
    ensures r == SubdomainScan(domain, wordlist, resolve)
    ensures ValidateTarget(domain).Success? ==> probed == completion
    ensures ValidateTarget(domain).Failure? ==> probed == []
  {
    var v := ValidateTarget(domain);
    if v.Failure? {
      return Failure(v.msg), [];
    }
    var workers := ClampWorkers(maxWorkers);
    var results;
    results, probed := ResolveAll(domain, completion, resolve);
    ghost var found := Found(domain, wordlist, resolve);
    CollectPermutation(completion, Tasks(wordlist), SubProbe(domain, resolve));
    assert multiset(results) == multiset(found);
    if results == [] {
      assert |found| == |multiset(found)| == 0;
      return Success(NoSubdomains), probed;
    }
    assert found != [] by {
      assert |multiset(found)| == |multiset(results)| > 0;
    }
    SortStringsPermutation(results, found);
    r := Success(Join(SortStrings(results), "\n"));
  }
}
