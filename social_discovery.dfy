/** Username discovery: one HTTP check per platform profile URL. The HTTP
    client is an oracle from the client configuration and a URL to a status
    code or the message of the exception the request raised; the
    semaphore and the event loop only change the order in which checks
    finish, which `gather` does not expose. */
module SocialDiscovery {
  import opened Common

  /** The platform table, in insertion order: name and URL template. */
  const Platforms: seq<(string, string)> := [
    ("GitHub", "https://github.com/{u}"),
    ("Twitter", "https://twitter.com/{u}"),
    ("Instagram", "https://www.instagram.com/{u}/"),
    ("Reddit", "https://www.reddit.com/user/{u}"),
    ("LinkedIn", "https://www.linkedin.com/in/{u}"),
    ("Facebook", "https://www.facebook.com/{u}"),
    ("YouTube", "https://www.youtube.com/{u}"),
    ("GitLab", "https://gitlab.com/{u}"),
    ("Medium", "https://medium.com/@{u}"),
    ("Tumblr", "https://{u}.tumblr.com")
  ]

  const UserAgent := "Termux-OSINT-Manager/1.0 (+local)"
  const TorProxy := "socks5h://127.0.0.1:9050"

  /** The shared client: its headers and its proxy mapping. */
  datatype ClientConfig = ClientConfig(headers: seq<(string, string)>, proxies: Option<seq<(string, string)>>)

  /** The result dict of one check; a missing "error" key is None. */
  datatype CheckResult = CheckResult(platform: string, url: string, status: Option<int>,
                                     found: bool, error: Option<string>)

  /** The GET of one profile URL (redirects followed, 8 s timeout). */
  type HttpGet = (ClientConfig, string) -> Outcome<int>

  // ---------------------------------------------------------------------
  // Template substitution
  // ---------------------------------------------------------------------

  predicate NoBraces(s: string) {
    '{' !in s && '}' !in s
  }

  /** `tpl.format(u=username)` for templates whose replacement fields are
      all `{u}`: `{{` and `}}` are literal braces, `{u}` becomes the
      username, and any other brace makes the template malformed (None). */
  function Format(tpl: string, u: string): Option<string>
    decreases |tpl|
  {
    if |tpl| == 0 then Some("")
    else if |tpl| >= 2 && tpl[..2] == "{{" then
      match Format(tpl[2..], u) case None => None case Some(r) => Some("{" + r)
    else if |tpl| >= 2 && tpl[..2] == "}}" then
      match Format(tpl[2..], u) case None => None case Some(r) => Some("}" + r)
    else if |tpl| >= 3 && tpl[..3] == "{u}" then
      match Format(tpl[3..], u) case None => None case Some(r) => Some(u + r)
    else if tpl[0] == '{' || tpl[0] == '}' then None
    else
      match Format(tpl[1..], u) case None => None case Some(r) => Some([tpl[0]] + r)
  }

  /** Text without braces is copied unchanged. */
  lemma {:induction false} FormatLiteral(s: string, u: string, rest: string)
    requires NoBraces(s)
    ensures Format(s + rest, u).Some? <==> Format(rest, u).Some?
    ensures Format(rest, u).Some? ==> Format(s + rest, u) == Some(s + Format(rest, u).value)
  {
    if |s| > 0 {
      assert (s + rest)[1..] == s[1..] + rest;
      assert (s + rest)[0] == s[0];
      assert s[0] in s;
      assert s[0] != '{' && s[0] != '}';
      if |s + rest| >= 2 { assert (s + rest)[..2][0] == s[0]; }
      if |s + rest| >= 3 { assert (s + rest)[..3][0] == s[0]; }
      FormatLiteral(s[1..], u, rest);
      if Format(rest, u).Some? {
        var r := Format(rest, u).value;
        assert Format(s + rest, u) == Some([s[0]] + (s[1..] + r));
        assert [s[0]] + (s[1..] + r) == s + r by {
          assert s == [s[0]] + s[1..];
        }
      }
    } else {
      assert s + rest == rest;
      if Format(rest, u).Some? {
        assert s + Format(rest, u).value == Format(rest, u).value;
      }
    }
  }

  /** A template with one `{u}` between brace-free text is that text
      around the username, whatever characters the username holds. */
  lemma FormatOneField(p: string, q: string, u: string)
    requires NoBraces(p) && NoBraces(q)
    ensures Format(p + "{u}" + q, u) == Some(p + u + q)
  {
    assert Format(q, u) == Some(q) by {
      FormatLiteral(q, u, "");
      assert q + "" == q;
    }
    var t := "{u}" + q;
    assert t[..3] == "{u}" && t[3..] == q;
    assert t[..2] != "{{" && t[..2] != "}}" by { assert t[1] == 'u'; }
    assert Format(t, u) == Some(u + q);
    FormatLiteral(p, u, t);
    assert p + "{u}" + q == p + t;
    assert p + (u + q) == p + u + q;
  }

  // ---------------------------------------------------------------------
  // Checks
  // ---------------------------------------------------------------------

  /** `_check_one`: the status and whether it counts as found, or the
      error message with no status. */
  function CheckOne(cfg: ClientConfig, get: HttpGet, url: string, platform: string): CheckResult {
    match get(cfg, url)
    case Success(status) => CheckResult(platform, url, Some(status), status in {200, 301, 302}, None)
    case Failure(e) => CheckResult(platform, url, None, false, Some(e))
  }

  /** The client `discover_username_async` builds. */
  function Client(useTor: bool): ClientConfig {
    ClientConfig([("User-Agent", UserAgent)],
                 if useTor then Some([("all://", TorProxy)]) else None)
  }

  lemma ClientSpec(useTor: bool)
    ensures Client(useTor).headers == [("User-Agent", "Termux-OSINT-Manager/1.0 (+local)")]
    ensures useTor <==> Client(useTor).proxies.Some?
    ensures useTor ==> Client(useTor).proxies == Some([("all://", "socks5h://127.0.0.1:9050")])
  {
  }

  /** The list `gather` returns: one check per table entry, in table
      order; None when a template is malformed and formatting raises. */
  function Discover(username: string, platforms: seq<(string, string)>, useTor: bool, get: HttpGet)
    : Option<seq<CheckResult>>
  {
    if |platforms| == 0 then Some([])
    else
      var (pl, tpl) := platforms[0];
      match Format(tpl, username)
      case None => None
      case Some(url) =>
        match Discover(username, platforms[1..], useTor, get)
        case None => None
        case Some(rest) => Some([CheckOne(Client(useTor), get, url, pl)] + rest)
  }

  predicate AllFormat(platforms: seq<(string, string)>, username: string) {
    forall i :: 0 <= i < |platforms| ==> Format(platforms[i].1, username).Some?
  }

  /** `r` is the check of `platform`'s profile of `username`: it carries
      the platform name and the filled template; found holds exactly for
      status 200, 301 or 302, and a request error yields no status, not
      found, and the error message. */
  predicate Reports(r: CheckResult, platform: (string, string), username: string, cfg: ClientConfig, get: HttpGet) {
    && r.platform == platform.0
    && Some(r.url) == Format(platform.1, username)
    && match get(cfg, r.url)
       case Success(st) =>
         r.status == Some(st) && (r.found <==> st == 200 || st == 301 || st == 302) && r.error.None?
       case Failure(e) => r.status.None? && !r.found && r.error == Some(e)
  }

  /** Discovery gives exactly one result per platform, in table order, each
      carrying its own platform name and its template filled with the
      username; found holds exactly for status 200, 301 or 302, and a
      request error yields no status, not found, and the error message.
      It fails only when some template is malformed. */
  lemma {:induction false} DiscoverSpec(username: string, platforms: seq<(string, string)>, useTor: bool, get: HttpGet)
    ensures Discover(username, platforms, useTor, get).Some? <==> AllFormat(platforms, username)
    ensures Discover(username, platforms, useTor, get).Some? ==>
      var rs := Discover(username, platforms, useTor, get).value;
      && |rs| == |platforms|
      && forall i :: 0 <= i < |rs| ==> Reports(rs[i], platforms[i], username, Client(useTor), get)
  {
    if |platforms| > 0 {
      DiscoverSpec(username, platforms[1..], useTor, get);
      AllFormatCons(platforms, username);
      var d := Discover(username, platforms, useTor, get);
      if d.Some? {
        var rs := d.value;
        var rest := Discover(username, platforms[1..], useTor, get).value;
        assert rs == [rs[0]] + rest;
        forall i | 0 < i < |rs| ensures rs[i] == rest[i - 1] && platforms[i] == platforms[1..][i - 1] {
        }
      }
    }
  }

  lemma AllFormatCons(platforms: seq<(string, string)>, username: string)
    requires |platforms| > 0
    ensures AllFormat(platforms, username) <==>
      Format(platforms[0].1, username).Some? && AllFormat(platforms[1..], username)
  {
    if Format(platforms[0].1, username).Some? && AllFormat(platforms[1..], username) {
      forall i | 0 <= i < |platforms| ensures Format(platforms[i].1, username).Some? {
        if i > 0 { assert platforms[i] == platforms[1..][i - 1]; }
      }
    }
    if AllFormat(platforms, username) {
      forall i | 0 <= i < |platforms| - 1 ensures Format(platforms[1..][i].1, username).Some? {
        assert platforms[1..][i] == platforms[i + 1];
      }
    }
  }

  /** Each default template split around its `{u}` field: the text before
      the username and the text after it. */
  const ProfileParts: seq<(string, string)> := [
    ("https://github.com/", ""),
    ("https://twitter.com/", ""),
    ("https://www.instagram.com/", "/"),
    ("https://www.reddit.com/user/", ""),
    ("https://www.linkedin.com/in/", ""),
    ("https://www.facebook.com/", ""),
    ("https://www.youtube.com/", ""),
    ("https://gitlab.com/", ""),
    ("https://medium.com/@", ""),
    ("https://", ".tumblr.com")
  ]

  lemma DefaultTemplateShape(i: nat)
    requires i < 10
    ensures NoBraces(ProfileParts[i].0) && NoBraces(ProfileParts[i].1)
    ensures Platforms[i].1 == ProfileParts[i].0 + "{u}" + ProfileParts[i].1
  {
    DefaultPartsPlain(i);
    DefaultTemplateSplit(i);
  }

  lemma DefaultPartsPlain(i: nat)
    requires i < 10
    ensures NoBraces(ProfileParts[i].0) && NoBraces(ProfileParts[i].1)
  {
    if i < 5 { PlainLow(i); } else { PlainHigh(i); }
  }

  lemma PlainLow(i: nat)
    requires i < 5
    ensures NoBraces(ProfileParts[i].0) && NoBraces(ProfileParts[i].1)
  {
    if i == 0 {} else if i == 1 {} else if i == 2 {} else if i == 3 {} else {}
  }

  lemma PlainHigh(i: nat)
    requires 5 <= i < 10
    ensures NoBraces(ProfileParts[i].0) && NoBraces(ProfileParts[i].1)
  {
    if i == 5 {} else if i == 6 {} else if i == 7 {} else if i == 8 {} else {}
  }

  lemma DefaultTemplateSplit(i: nat)
    requires i < 10
    ensures Platforms[i].1 == ProfileParts[i].0 + "{u}" + ProfileParts[i].1
  {
    if i < 5 { SplitLow(i); } else { SplitHigh(i); }
  }

  lemma SplitLow(i: nat)
    requires i < 5
    ensures Platforms[i].1 == ProfileParts[i].0 + "{u}" + ProfileParts[i].1
  {
    if i == 0 {} else if i == 1 {} else if i == 2 {} else if i == 3 {} else {}
  }

  lemma SplitHigh(i: nat)
    requires 5 <= i < 10
    ensures Platforms[i].1 == ProfileParts[i].0 + "{u}" + ProfileParts[i].1
  {
    if i == 5 {} else if i == 6 {} else if i == 7 {} else if i == 8 {} else {}
  }

  /** The profile URL of `u` on each default platform is the template's
      text with `u` in place of `{u}`. */
  lemma DefaultUrls(u: string)
    ensures |Platforms| == |ProfileParts| == 10
    ensures forall i :: 0 <= i < 10 ==>
      Format(Platforms[i].1, u) == Some(ProfileParts[i].0 + u + ProfileParts[i].1)
  {
    forall i | 0 <= i < 10
      ensures Format(Platforms[i].1, u) == Some(ProfileParts[i].0 + u + ProfileParts[i].1)
    {
      DefaultTemplateShape(i);
      FormatOneField(ProfileParts[i].0, ProfileParts[i].1, u);
    }
  }

  /** With the default table discovery never fails and checks the ten
      platforms in order; the GitHub profile of `u` is
      "https://github.com/" + u and the Tumblr one is
      "https://" + u + ".tumblr.com". */
  lemma DefaultDiscovery(username: string, useTor: bool, get: HttpGet)
    ensures Discover(username, Platforms, useTor, get).Some?
    ensures var rs := Discover(username, Platforms, useTor, get).value;
      && |rs| == 10
      && (forall i :: 0 <= i < 10 ==>
            rs[i].platform == Platforms[i].0 && rs[i].url == ProfileParts[i].0 + username + ProfileParts[i].1)
  {
    DefaultUrls(username);
    DiscoverSpec(username, Platforms, useTor, get);
  }
}
