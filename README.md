# osint_me reconnaissance engine — a Dafny model

This project models the core of the osint_me reconnaissance manager.

**Probes.** Four network probes of `modules_core.py`:
- a TCP port scan;
- a WHOIS client trying four servers in turn;
- an HTTP enumerator;
- a subdomain brute-forcer.

Each validates its target first.

**Job runner.** The background runner of `job_runner.py` does the following:
- marks a queued job running;
- dispatches on its type;
- absorbs any probe failure into the output;
- marks the job done or error;
- appends exactly one result row.

**Other parts.**
- The username discovery over a table of profile URL templates (`social_discovery.py`).
- The tool-wrapping modules of `modules.py`: whitelist dispatch and the whois, dns, nmap and ping handlers.
- The file-name sanitiser and secret generator of `utils.py`.
- The duplicate-image grouping and the download rules of `image_tools.py`.

**Oracles.** Everything outside the process becomes a function-typed parameter:
- socket connects;
- WHOIS exchanges;
- HTTP GETs;
- DNS lookups;
- `subprocess.run` and `shutil.which`;
- the image hash;
- file writes;
- the random choice;
- clocks.

**Completion order.** The thread pools hand results back in an arbitrary order. That order is a parameter constrained only to be a permutation of the submitted tasks. The proofs show that the sorted report does not depend on it (`Sorting.SortedUnique`, `ModulesCore.SortStringsPermutation`).

**Imperative code becomes methods.**
- `JobStore` is a class whose `jobs` and `results` fields play the job and result tables; a ghost `log` records status commits, probe invocations and result writes.
- The loops of the probes, `_mod_whois`, `_mod_dns` and `find_duplicates_in_dir` are methods. Each is proved equal to a specification function, and the properties are proved about those functions.

**Job types.** The design also names a `username_discovery` job type. `run_job` has no branch for it, so the model follows the code: such a job ends in `error` with "Unknown job type".

**Known bug, modelled as written.** `download_image` falls back to `f"image_{int(time.time())}"` when the URL has no file name. `time` is never imported (image_tools.py:5-10), so that path raises `NameError`. The model returns that failure.

## Model

| member | source | states |
|---|---|---|
| ModulesCore.ValidateTargetAsWritten | modules_core.py:16-20 | accepts exactly the non-empty strings of at most 253 characters that are all `[A-Za-z0-9.\-:]`, or all such characters followed by one final newline; every refusal says "Invalid target" |
| ModulesCore.AsWrittenAcceptsNewline | modules_core.py:16-20 | the as-written check accepts a valid target with "\n" appended, which the intended check refuses |
| ModulesCore.ValidatorsAgree | modules_core.py:16-20 | the corrected and the as-written check give the same outcome on every target except those the as-written one accepts with a final newline |
| ModulesCore.ValidateTarget | modules_core.py:18-20 | accepts a target iff it is non-empty, at most 253 characters and made only of `[A-Za-z0-9.\-:]`; otherwise "Invalid target" |
| ModulesCore.ClampWorkers | modules_core.py:34 | the pool size lies in [1, 200] and equals the requested size when that is already in range |
| ModulesCore.PortLineKey | modules_core.py:39-40 | the sort key `int(line.split(':')[0])` of a rendered line gives back its port |
| ModulesCore.ProbedPorts | modules_core.py:36-39 | one outcome per submitted port, in submission order, with open exactly when the connect succeeded |
| ModulesCore.ScanReport | modules_core.py:22-40 | one line per requested port (duplicates kept), each "p: open" iff the connect to p succeeds, ports ascending, a permutation of the requested ports |
| ModulesCore.PortKeyDetermines | modules_core.py:40 | outcomes with equal ports are equal, so the sort by port leaves no order to the pool |
| ModulesCore.TcpPortScan | modules_core.py:22-40 | the report equals the scan of the requested port order whatever order the pool completes in; nothing is probed for an invalid target, every port once otherwise |
| ModulesCore.WhoisRequest | modules_core.py:45 | the query is the domain followed by "\r\n" |
| ModulesCore.Received | modules_core.py:50-55 | the reply is empty iff the first chunk is empty, and otherwise starts with that chunk |
| ModulesCore.WhoisFirstAnswerSpec | modules_core.py:60-63 | the chosen server answered and every server before it in the list did not; no choice means no server answered |
| ModulesCore.WhoisResult | modules_core.py:42-64 | for a valid domain, failure iff none of the four servers answers, with "WHOIS failed (no server answered)"; otherwise "WHOIS from s:\n\n" + reply of the first server s that answered |
| ModulesCore.FirstAnswerAt | modules_core.py:60-63 | a position where the first non-empty answer sits is the one the search picks |
| ModulesCore.ReadReply | modules_core.py:50-55 | the recv loop concatenates chunks up to the first empty one |
| ModulesCore.QueryServer | modules_core.py:46-59 | one server query gives its reply, or None when the exchange raised |
| ModulesCore.WhoisQuery | modules_core.py:42-64 | the returned text is the WHOIS result; it asks no server for an invalid domain, and otherwise the servers up to and including the first that answered, in list order, or all four |
| ModulesCore.NormalizeUrl | modules_core.py:68-71 | the URL starts with "http" and ends with the target; it is the target unchanged iff the target starts with "http", and "http://" + target otherwise |
| ModulesCore.FirstIndexSpec | modules_core.py:99 | the first position of a link holds it and no earlier position does |
| ModulesCore.Dedup | modules_core.py:99 | `dict.fromkeys` keeps each link once, exactly the links of the page |
| ModulesCore.FirstIndexPrefix | modules_core.py:99 | the first occurrence of a link in a prefix is its first occurrence in the list |
| ModulesCore.FirstIndexLast | modules_core.py:99 | a link new to a list appended to it first occurs at the end |
| ModulesCore.DedupFirstSeenOrder | modules_core.py:99 | de-duplicated links are in order of first occurrence |
| ModulesCore.LinkSampleSpec | modules_core.py:97-99 | at most 50 distinct links of the page, the first 50 distinct in first-seen order, all of them when there are at most 50 |
| ModulesCore.HeaderLines | modules_core.py:79-80 | one "k: v" line per response header, in order |
| ModulesCore.HttpEnumAbsorbsErrors | modules_core.py:66-102 | past validation enumeration never fails: a failed GET is one "HTTP error: e" line; a body failure appends that line after URL, status and headers; the last two lines are the link count (duplicates included) and the sample |
| ModulesCore.WriteHead | modules_core.py:76-80 | the URL, status, header banner and header lines are written first |
| ModulesCore.WriteBody | modules_core.py:81-99 | title, robots.txt section, sitemap suggestion and link lines follow in that order; robots.txt is requested at scheme://host/robots.txt |
| ModulesCore.HttpEnumeration | modules_core.py:66-102 | the report is the enumeration of the normalised URL; no request for an invalid target, the normalised URL first otherwise |
| ModulesCore.StrLeTotal | modules_core.py:123 | Python's string order is total and antisymmetric |
| ModulesCore.StrLeTransitive | modules_core.py:123 | Python's string order is transitive |
| ModulesCore.StrLeOrder | modules_core.py:123 | Python's string order is a total preorder |
| ModulesCore.StrKeyDetermines | modules_core.py:123 | strings that sort as equal are equal |
| ModulesCore.SortStrings | modules_core.py:123 | `sorted` returns an ascending permutation of its input |
| ModulesCore.SortStringsPermutation | modules_core.py:115-123 | sorting permuted inputs gives the same list, so the pool's completion order is erased |
| ModulesCore.TasksAreStripped | modules_core.py:116 | only stripped, non-empty words are submitted, and every word that strips to non-empty is |
| ModulesCore.FoundLines | modules_core.py:107-120 | a "host -> addr" line is among the found lines iff some submitted word's "w.domain" resolves to addr (presence, not multiplicity) |
| ModulesCore.HostLineHasArrow | modules_core.py:111 | every found line contains "->" |
| ModulesCore.FoundEmpty | modules_core.py:117-121 | nothing is found iff no submitted word resolves |
| ModulesCore.FoundHaveArrow | modules_core.py:111-120 | every found line contains '>' |
| ModulesCore.SubdomainFallback | modules_core.py:121-123 | for a valid domain the report is "No subdomains found (or DNS blocked)" iff no submitted word resolves |
| ModulesCore.ScanReportHasArrow | modules_core.py:121-123 | a non-empty report of found lines contains a '>' (so it cannot be mistaken for the fallback text) |
| ModulesCore.ResolveAll | modules_core.py:115-120 | the results are the resolving words' lines in completion order, each task probed once |
| ModulesCore.SubdomainBruteforce | modules_core.py:104-123 | the report is the sorted found lines whatever the completion order; nothing is resolved for an invalid domain |
| Sorting.SortedUnique | modules_core.py:40 | two sorted permutations of one list under a key that determines the element are equal |
| Sorting.SortPermutation | modules_core.py:123 | sorting two permutations of a list gives the same list |
| Common.NatRoundTrip | modules_core.py:39-40 | parsing the decimal rendering of a natural number gives it back |
| Common.IntRoundTrip | modules_core.py:39-40 | parsing the decimal rendering of an integer gives it back |
| Common.StripSpec | modules_core.py:116 | `strip` removes exactly the leading and trailing whitespace; it is empty iff the text is all whitespace |
| Common.StripIdempotent | modules_core.py:116 | stripping twice is stripping once |
| Common.CollectPermutation | modules_core.py:37-39 | permuting the tasks permutes the collected results |
| JobRunner.Range | job_runner.py:26 | `range(lo, hi)` is the hi - lo integers from lo |
| JobRunner.ScanPortsRange | job_runner.py:26 | a tcp_scan job scans exactly the 511 ports 1..511, in order |
| JobRunner.LoadWordlistSpec | job_runner.py:36-41 | an unreadable file gives the five built-in words; otherwise the words are the stripped form of exactly the lines that are not blank and do not start with '#', and there are no more words than lines |
| JobRunner.LoadWordlistLines | job_runner.py:38-39 | loading goes line by line in file order: no words for an empty file, a kept line gives its stripped form, and the words of a + b are those of a followed by those of b, duplicates kept |
| JobRunner.WordlistIsTasks | job_runner.py:39-42 | a loaded wordlist is submitted to the brute-forcer unchanged |
| JobRunner.DispatchUnknown | job_runner.py:44-45 | the output is "Unknown job type" iff the type is none of the four, and such a run is an error with no counters |
| JobRunner.ProbeOutputNotUnknown | job_runner.py:25-43 | a known job type never produces the unknown-type text |
| JobRunner.PortScanFirstChar | modules_core.py:39-40 | a scan report of at least one port starts with a digit or '-' |
| JobRunner.TcpOutputNotUnknown | job_runner.py:25-28 | a tcp_scan report is never the unknown-type text |
| JobRunner.HttpOutputNotUnknown | job_runner.py:31-32 | an http_enum report is never the unknown-type text |
| JobRunner.SubOutputNotUnknown | job_runner.py:33-43 | a sub_bruteforce report is never the unknown-type text |
| JobRunner.DispatchFailure | job_runner.py:24-55 | a run fails iff the type is unknown, the target is invalid, or it is a whois job no server answers; the error output is "Error during job: " + the message |
| JobRunner.DispatchMeta | job_runner.py:23-43 | counters are ports_scanned = 511 for a tcp_scan and wordlist_count = the wordlist size for a sub_bruteforce, and empty on failure and for other types |
| JobRunner.RunTraceShape | job_runner.py:12-65 | a run commits running first, then done or error; a probe runs only after running is committed and only for a known type; the result is written last |
| JobRunner.SubmitConsistent | main.py:123-125 | filing a fresh queued job without timestamps under the next id keeps the tables consistent |
| JobRunner.FinishConsistent | job_runner.py:57-65 | finishing a queued job with both timestamps and one result row keeps the tables consistent |
| JobRunner.ResultsOfNewId | job_runner.py:64-65 | an id no row mentions has no results |
| JobRunner.ResultsAppend | job_runner.py:64-65 | appending a row adds one result to its job and none to others |
| JobRunner.JobStore.constructor | main.py:123-125 | the store starts empty and consistent, with ids starting at 1 |
| JobRunner.JobStore.Submit | main.py:123-125 | a new job is filed `queued`, without timestamps, under a fresh id; nothing else changes |
| JobRunner.JobStore.RunJob | job_runner.py:12-65 | a missing job changes nothing; otherwise the job gets status done or error, both timestamps and exactly one result row holding the dispatch output and counters, and consistency is preserved |
| JobRunner.JobStore.MarkRunning | job_runner.py:17-20 | the job is marked running with its start time, and the commit is logged |
| JobRunner.JobStore.Attempt | job_runner.py:22-55 | output and counters are the dispatch result; the status becomes error exactly on failure |
| JobRunner.JobStore.Finish | job_runner.py:57-65 | the finish time is set, an error status is kept and anything else becomes done, and one result row is appended |
| JobRunner.RunProbe | job_runner.py:25-51 | a known probe either returns its output and counters or raises the message the error output is built from |
| SocialDiscovery.FormatLiteral | social_discovery.py:42 | brace-free template text is copied unchanged by `format` |
| SocialDiscovery.FormatOneField | social_discovery.py:42 | a template with one `{u}` field becomes its text around the username |
| SocialDiscovery.ClientSpec | social_discovery.py:34-38 | the client sends the fixed User-Agent and uses the Tor SOCKS proxy iff asked to |
| SocialDiscovery.DiscoverSpec | social_discovery.py:24-45 | one result per platform in table order, with its name and filled URL; found iff status 200, 301 or 302; a request error gives no status, not found and the message; discovery fails only on a malformed template |
| SocialDiscovery.DefaultTemplateShape | social_discovery.py:9-20 | each default template is brace-free text around one `{u}` |
| SocialDiscovery.DefaultPartsPlain | social_discovery.py:9-20 | the text around each default `{u}` has no braces |
| SocialDiscovery.DefaultTemplateSplit | social_discovery.py:9-20 | each default template is its prefix, `{u}` and its suffix |
| SocialDiscovery.DefaultUrls | social_discovery.py:9-20 | each default template filled with u is its prefix, u and its suffix |
| SocialDiscovery.DefaultDiscovery | social_discovery.py:9-45 | with the default table discovery checks the ten platforms in order at their profile URLs and never fails |
| ReconModules.ValidateTargetAsWritten | modules.py:30-36 | "Invalid target" iff the target is empty or fails the `$`-anchored match; "Target too long" iff it matches and is longer than 253 |
| ReconModules.AsWrittenAcceptsNewline | modules.py:30-36 | the as-written check accepts a valid target with "\n" appended, which the intended check refuses |
| ReconModules.ValidatorsAgree | modules.py:30-36 | the corrected and the as-written check give the same outcome on every target except those whose final newline the as-written pattern lets through |
| ReconModules.ValidateTarget | modules.py:32-36 | accepts exactly non-empty targets of at most 253 `[A-Za-z0-9.\-:]` characters; empty or any other character is "Invalid target", checked before length; valid characters beyond 253 are "Target too long" |
| ReconModules.InvalidTargetFirst | modules.py:38-39 | an invalid target is refused with its validation message for every module name, without any tool being consulted |
| ReconModules.Whitelist | modules.py:40-48 | for a valid target each of whois, dns, nmap and ping reaches its handler, and any other name is "Unknown module" whatever the tools |
| ReconModules.ModWhois | modules.py:50-58 | the loop produces the whois report |
| ReconModules.WhoisReportSpec | modules.py:50-58 | exactly one line "key: value" per record item, in item order, joined by newlines; a library error gives "whois error: " + message |
| ReconModules.ModDns | modules.py:60-74 | the loop produces the DNS report; a failing resolver construction propagates |
| ReconModules.CollectRecords | modules.py:64-70 | the loop over the record types builds exactly the header-and-answers lines of the types that resolve |
| ReconModules.AppendAll | modules.py:68-69 | the answers are appended in order after what is already there |
| ReconModules.DnsLinesSnoc | modules.py:64-70 | one more record type appends its section |
| ReconModules.DnsLinesSpec | modules.py:64-70 | the lines are empty iff every type raised, and each type that resolved has its "== T records ==" header |
| ReconModules.DnsLinesStart | modules.py:67 | non-empty DNS output starts with a section header |
| ReconModules.DnsFallback | modules.py:64-72 | "No DNS records found or resolution failed." iff all six types A, AAAA, MX, NS, TXT, SOA raised |
| ReconModules.NmapSpec | modules.py:76-83 | without nmap the fixed message and nothing run; otherwise the command scans ports 1-1024 with -sS -Pn -T4, and the report starts with stdout and equals it iff stderr is empty |
| ReconModules.PingSpec | modules.py:85-103 | TCP port 80 is tried over IPv6 iff the target contains ':'; success reports reachability, failure "Unreachable: " + message |
| Utils.BasenameSpec | utils.py:14 | the basename is a '/'-free suffix of the path preceded by '/' or the whole path |
| Utils.BasenameNoSlash | utils.py:14 | a name without '/' is its own basename |
| Utils.BasenameOfJoin | utils.py:14 | the basename of "dir/name" is name |
| Utils.SafeFilenameSpec | utils.py:10-17 | length is min(basename length, 255); only `[A-Za-z0-9._-]` characters, so no '/'; allowed characters kept in place and every other one replaced by '_' |
| Utils.SafeFilenameIdempotent | utils.py:10-17 | sanitising twice is sanitising once |
| Utils.CharRun | utils.py:24 | a run of consecutive characters, as the `string` module's letter and digit constants are |
| Utils.AlphabetChars | utils.py:24 | the alphabet is the 26 lowercase letters, the 26 uppercase letters and the 10 digits in order: exactly the ASCII letters and digits |
| Utils.GenerateSecret | utils.py:23-25 | as many characters as the length (none for a negative one), each the alphabet character drawn for its position |
| Utils.SecretShape | utils.py:23-25 | the secret has exactly the requested number of characters, each an ASCII letter or digit |
| ImageTools.ListCandidates | image_tools.py:37-44 | the nested loops build the candidate list |
| ImageTools.DirFilesMember | image_tools.py:39-44 | a directory contributes exactly the kept files among its names |
| ImageTools.CandidatesMember | image_tools.py:37-44 | a (path, hash) pair is a candidate iff some walked file has an image extension (case-insensitive), joins to that path and hashes to that non-empty hash |
| ImageTools.FirstSeenMember | image_tools.py:45-47 | a hash is a group key iff some file carries it |
| ImageTools.FindDuplicates | image_tools.py:36-48 | the method returns the groups of the candidates |
| ImageTools.GroupFiles | image_tools.py:45-47 | the grouping loop builds a dict whose key order is the first-seen order of the hashes and whose entry for each hash is its group |
| ImageTools.KeepLargeGroups | image_tools.py:48 | the comprehension keeps, in key order, exactly the entries with more than one path |
| ImageTools.FirstSeenDistinct | image_tools.py:45-47 | group keys are distinct |
| ImageTools.KeepLargeMember | image_tools.py:48 | an entry is kept iff its hash is a key with more than one path |
| ImageTools.KeepLargeDistinct | image_tools.py:48 | filtering keeps keys distinct |
| ImageTools.GroupSize | image_tools.py:46-47 | a group holds as many paths as there are files with its hash |
| ImageTools.GroupIndexSnoc | image_tools.py:46-47 | appending a file extends the positions of its hash's group and no other |
| ImageTools.GroupOrder | image_tools.py:46-47 | a group lists exactly the files with its hash, in encounter order |
| ImageTools.GroupMembers | image_tools.py:46-47 | every path in group k is a file with hash k |
| ImageTools.DuplicatesSpec | image_tools.py:45-48 | keys distinct; each group has at least two paths, all with its hash; a hash has a group iff at least two files carry it |
| ImageTools.ImageNameSpec | image_tools.py:14 | the name of "dir/name?query" is name; an empty name raises the NameError of the missing `time` import |
| ImageTools.ReplaceNoop | image_tools.py:14-15 | a derived name is non-empty and has no '/' or '?', so `replace("/", "_")` changes nothing |
| ImageTools.DownloadImageSpec | image_tools.py:12-26 | only a nameless URL raises, before any request; a path comes back iff the GET succeeds with status 200 and an `image` content type and the write succeeds, and it is dest joined with the name |

## Left out

- Real I/O is replaced by the oracles listed above: sockets, DNS, WHOIS, httpx, subprocess, file reads and writes, and the image hash.
- Thread pools, asyncio, the semaphore bound and thread safety are not modelled. Because the pool's completion order is a free permutation, the worker count affects nothing in the model.
- Timeouts are not modelled; a unit that times out is a failed unit. Timestamps are opaque integers supplied by the caller.
- The model does not cover the web layer in main.py (routing, authentication, sessions, thread spawning), auth.py, investigations.py, pdf_report.py or pgp_sign.py. Only job creation in `queued` state (main.py:123-125) is modelled, by `JobStore.Submit`.
- The job fields `project_id` and `requested_by` and the result's `created_at` play no part in running a job and are omitted.
- RunJob (JobRunner.JobStore.RunJob) reads the job's type and target after the session that loaded them has closed (job_runner.py:13-25). The session comes from sqlmodel, which keeps SQLAlchemy's default of expiring loaded objects on commit, so as written the read of `job.job_type` at job_runner.py:25 would raise DetachedInstanceError inside the `try`: every job would end `error` with "Error during job: Instance <Job …> is not bound to a Session…" and no probe would run. The model assumes no expiry on commit, i.e. the detached record stays readable, and models the dispatch the code evidently intends.
- TcpPortScan: like the function PortScan it is proved against, it checks the target with the corrected `ModulesCore.ValidateTarget` of the first Findings row. A target that the source accepts because of a final newline (such as "example.com\n") is refused with "Invalid target" and no port probed, where the source scans all requested ports. `ModulesCore.ValidatorsAgree` proves the two checks agree on every other target; the same holds for the next three lines.
- WhoisQuery: like Whois, it uses the corrected check, so on "example.com\n" it asks no server, where the source sends "example.com\n\r\n" to each server in turn.
- HttpEnumeration: like HttpEnum, it uses the corrected check, so "example.com\n" is refused, where the source fetches "http://example.com\n".
- SubdomainBruteforce: like SubdomainScan, it uses the corrected check, so "example.com\n" is refused, where the source resolves each word under it.
- DispatchFailure: built on Dispatch, which runs the probes above, it counts a newline-terminated target as invalid, so such a job ends `error` with "Error during job: Invalid target" and empty counters, where the source runs the probe and can end `done`.
- RunProbe: raises "Invalid target" on a newline-terminated target, on which the source's probes do not raise.
- Attempt: its output comes from Dispatch, so it ends a newline-terminated target in `error` where the source can end `done`.
- RunJob: its final status and output come from Dispatch, with the same gap on newline-terminated targets.
- InvalidTargetFirst: RunModuleSafe checks with the corrected `ReconModules.ValidateTarget` of the second Findings row, so a target the source passes to the handler because of a final newline is refused here. `ReconModules.ValidatorsAgree` proves the two checks agree on every other target.
- Database failures are not modelled; every commit succeeds.
- `utils.ensure_dirs` and the `os.makedirs` call of `download_image` are directory creation and are not modelled.
- `compute_phash` and the `os.walk` traversal are not modelled. The walk is given as `(root, filenames)` pairs, and the hash is an oracle that answers None where hashing raised.
- `ImageTools.DownloadImage`: the path is joined as a string. pathlib's normalisation of repeated or trailing '/' in the destination directory is not modelled.
- `ImageTools.IsImageName` lowers ASCII letters only, not the whole of Python's Unicode `lower()`.
- The regex extraction in `http_enumeration` (title, sitemap, href) is an oracle over the truncated body. HTML unescaping and UTF-8 decoding with `errors='replace'` are also part of the oracles.
- The byte-level UTF-8 encoding of the WHOIS query and decoding of the reply are not modelled; the reply is text.
- The outer `except` of `_mod_dns` ("dns error: ...") is not modelled. Every error inside its loop is caught by the inner handler, and the loop itself cannot raise.
- The WHOIS library's record and the DNS answers are oracles that already give the rendered `str` values.
- `SocialDiscovery.Format` covers `{u}`, `{{` and `}}`. Any other replacement field, conversion or format spec counts as malformed (None), and the exception it raises is not modelled.

## Findings

| source | as written | input that shows it | evidently intended | confidence | as-written member | corrected member |
|---|---|---|---|---|---|---|
| modules_core.py:16-20 | `re.match` with `^...$` where Python's `$` also matches before a final newline | "example.com\n" is accepted as a target | only strings made entirely of `[A-Za-z0-9.\-:]` pass | not executed | ModulesCore.ValidateTargetAsWritten, ModulesCore.AsWrittenAcceptsNewline | ModulesCore.ValidateTarget |
| modules.py:30-36 | the same `$`-anchored pattern in the second validator | "example.com\n" passes and reaches the module handlers | only strings made entirely of `[A-Za-z0-9.\-:]` pass | not executed | ReconModules.ValidateTargetAsWritten, ReconModules.AsWrittenAcceptsNewline | ReconModules.ValidateTarget |
