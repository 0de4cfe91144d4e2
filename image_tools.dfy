/** Image helpers: grouping image files by perceptual hash, and the name and
    acceptance rules of an image download. The directory walk is given as
    the `(root, filenames)` pairs `os.walk` yields, the hash function, the
    HTTP GET and the file write are oracles. */
module ImageTools {
  import opened Common
  import opened Utils

  // ---------------------------------------------------------------------
  // Candidate files
  // ---------------------------------------------------------------------

  /** The `(root, filenames)` pairs of a directory walk, in walk order. */
  type Walk = seq<(string, seq<string>)>

  /** `hashfunc`: the hash of a file, None when hashing raised. */
  type HashFunc = string -> Option<string>

  function AsciiLower(c: char): char {
    if 'A' <= c <= 'Z' then (c as int + 32) as char else c
  }

  function Lower(s: string): string {
    seq(|s|, i requires 0 <= i < |s| => AsciiLower(s[i]))
  }

  /** `fn.lower().endswith((".png", ".jpg", ".jpeg", ".gif", ".webp"))`. */
  predicate IsImageName(fn: string) {
    var l := Lower(fn);
    EndsWith(l, ".png") || EndsWith(l, ".jpg") || EndsWith(l, ".jpeg")
    || EndsWith(l, ".gif") || EndsWith(l, ".webp")
  }

  /** POSIX `os.path.join` of two components. */
  function PathJoin(root: string, fn: string): string {
    if StartsWith(fn, "/") then fn
    else if root == "" || EndsWith(root, "/") then root + fn
    else root + "/" + fn
  }

  /** The `(path, hash)` pair a file contributes: only image names, and only
      when the hash is truthy (neither None nor empty). */
  function Keep(root: string, fn: string, hash: HashFunc): Option<(string, string)> {
    var fp := PathJoin(root, fn);
    if IsImageName(fn) && hash(fp).Some? && hash(fp).value != "" then Some((fp, hash(fp).value)) else None
  }

  function DirFiles(root: string, fns: seq<string>, hash: HashFunc): seq<(string, string)> {
    if |fns| == 0 then [] else DirFiles(root, fns[..|fns| - 1], hash) + OptSeq(Keep(root, fns[|fns| - 1], hash))
  }

  /** The `files` list of `find_duplicates_in_dir`, in walk order. */
  function Candidates(walk: Walk, hash: HashFunc): seq<(string, string)> {
    if |walk| == 0 then []
    else Candidates(walk[..|walk| - 1], hash) + DirFiles(walk[|walk| - 1].0, walk[|walk| - 1].1, hash)
  }

  /** The nested loops that fill `files`. */
  method ListCandidates(walk: Walk, hash: HashFunc) returns (files: seq<(string, string)>)
    ensures files == Candidates(walk, hash)
  {
    files := [];
    var i := 0;
    while i < |walk|
      invariant 0 <= i <= |walk|
      invariant files == Candidates(walk[..i], hash)
    {
      var (root, fns) := walk[i];
      var j := 0;
      while j < |fns|
        invariant 0 <= j <= |fns|
        invariant files == Candidates(walk[..i], hash) + DirFiles(root, fns[..j], hash)
      {
        var fn := fns[j];
        assert fns[..j + 1][..j] == fns[..j];
        var fp := PathJoin(root, fn);
        if IsImageName(fn) {
          var ph := hash(fp);
          if ph.Some? && ph.value != "" {
            files := files + [(fp, ph.value)];
          }
        }
        j := j + 1;
      }
      assert fns[..j] == fns;
      assert walk[..i + 1][..i] == walk[..i];
      i := i + 1;
    }
    assert walk[..i] == walk;
  }

  /** A directory's files are exactly the kept files among its names. */
  lemma {:induction false} DirFilesMember(root: string, fns: seq<string>, hash: HashFunc, x: (string, string))
    ensures x in DirFiles(root, fns, hash) <==> exists fn :: fn in fns && Keep(root, fn, hash) == Some(x)
  {
    if |fns| > 0 {
      var init := fns[..|fns| - 1];
      var last := fns[|fns| - 1];
      DirFilesMember(root, init, hash, x);
      assert fns == init + [last];
      if exists fn :: fn in fns && Keep(root, fn, hash) == Some(x) {
        var fn :| fn in fns && Keep(root, fn, hash) == Some(x);
        if fn != last {
          assert fn in init;
        }
      }
    }
  }

  /** A `(path, hash)` pair is a candidate exactly when some walked
      directory has a file name that is an image name, joins to that path,
      and hashes to that non-empty hash. */
  lemma CandidatesMember(walk: Walk, hash: HashFunc, x: (string, string))
    ensures x in Candidates(walk, hash) <==>
      exists e, fn :: e in walk && fn in e.1 && IsImageName(fn) && x.0 == PathJoin(e.0, fn)
                      && hash(x.0) == Some(x.1) && x.1 != ""
  {
    CandidatesFromWalk(walk, hash, x);
    if FromWalk(walk, hash, x) {
      var e, fn :| e in walk && fn in e.1 && Keep(e.0, fn, hash) == Some(x);
      assert IsImageName(fn) && x.0 == PathJoin(e.0, fn) && hash(x.0) == Some(x.1) && x.1 != "";
    }
    if exists e, fn :: e in walk && fn in e.1 && IsImageName(fn) && x.0 == PathJoin(e.0, fn)
                       && hash(x.0) == Some(x.1) && x.1 != "" {
      var e, fn :| e in walk && fn in e.1 && IsImageName(fn) && x.0 == PathJoin(e.0, fn)
                   && hash(x.0) == Some(x.1) && x.1 != "";
      assert Keep(e.0, fn, hash) == Some(x);
    }
  }

  /** Some walked file is kept as `x`. */
  ghost predicate FromWalk(walk: Walk, hash: HashFunc, x: (string, string)) {
    exists e, fn :: e in walk && fn in e.1 && Keep(e.0, fn, hash) == Some(x)
  }

  lemma {:induction false} CandidatesFromWalk(walk: Walk, hash: HashFunc, x: (string, string))
    ensures x in Candidates(walk, hash) <==> FromWalk(walk, hash, x)
  {
    if |walk| > 0 {
      var last := walk[|walk| - 1];
      CandidatesFromWalk(walk[..|walk| - 1], hash, x);
      DirFilesMember(last.0, last.1, hash, x);
      FromWalkSnoc(walk, hash, x);
    }
  }

  lemma FromWalkSnoc(walk: Walk, hash: HashFunc, x: (string, string))
    requires |walk| > 0
    ensures var init, last := walk[..|walk| - 1], walk[|walk| - 1];
      FromWalk(walk, hash, x) <==>
      FromWalk(init, hash, x) || exists fn :: fn in last.1 && Keep(last.0, fn, hash) == Some(x)
  {
    var init, last := walk[..|walk| - 1], walk[|walk| - 1];
    assert walk == init + [last];
    if FromWalk(walk, hash, x) {
      var e, fn :| e in walk && fn in e.1 && Keep(e.0, fn, hash) == Some(x);
      if e != last {
        assert e in init;
      }
    }
    if FromWalk(init, hash, x) {
      var e, fn :| e in init && fn in e.1 && Keep(e.0, fn, hash) == Some(x);
      assert e in walk;
    }
    if exists fn :: fn in last.1 && Keep(last.0, fn, hash) == Some(x) {
      var fn :| fn in last.1 && Keep(last.0, fn, hash) == Some(x);
      assert last in walk;
    }
  }

  // ---------------------------------------------------------------------
  // Grouping
  // ---------------------------------------------------------------------

  /** The hashes in order of first appearance: the key order of `groups`. */
  function FirstSeen(files: seq<(string, string)>): seq<string> {
    if |files| == 0 then []
    else
      var p := FirstSeen(files[..|files| - 1]);
      if files[|files| - 1].1 in p then p else p + [files[|files| - 1].1]
  }

  /** The paths with hash `k`, in encounter order: `groups[k]`. */
  function GroupOf(files: seq<(string, string)>, k: string): seq<string> {
    if |files| == 0 then []
    else GroupOf(files[..|files| - 1], k) + (if files[|files| - 1].1 == k then [files[|files| - 1].0] else [])
  }

  /** The filtering comprehension, over keys in insertion order. */
  function KeepLarge(keys: seq<string>, files: seq<(string, string)>): seq<(string, seq<string>)> {
    if |keys| == 0 then []
    else
      var k := keys[|keys| - 1];
      KeepLarge(keys[..|keys| - 1], files) + (if |GroupOf(files, k)| > 1 then [(k, GroupOf(files, k))] else [])
  }

  /** What `find_duplicates_in_dir` returns: the dict as a sequence of
      entries in its insertion order. */
  function Duplicates(files: seq<(string, string)>): seq<(string, seq<string>)> {
    KeepLarge(FirstSeen(files), files)
  }

  /** A hash has been seen exactly when it has a non-empty group. */
  lemma {:induction false} FirstSeenMember(files: seq<(string, string)>, k: string)
    ensures k in FirstSeen(files) <==> GroupOf(files, k) != []
  {
    if |files| > 0 {
      FirstSeenMember(files[..|files| - 1], k);
    }
  }

  /** `find_duplicates_in_dir`: build the file list, group it with
      `setdefault(ph, []).append(fp)`, keep groups larger than one. */
  method FindDuplicates(walk: Walk, hash: HashFunc) returns (dups: seq<(string, seq<string>)>)
    ensures dups == Duplicates(Candidates(walk, hash))
  {
    var files := ListCandidates(walk, hash);
    var groups, order := GroupFiles(files);
    dups := KeepLargeGroups(order, groups, files);
  }

  /** The `setdefault(ph, []).append(fp)` loop: `order` is the key order of
      the dict it builds. */
  method GroupFiles(files: seq<(string, string)>) returns (groups: map<string, seq<string>>, order: seq<string>)
    ensures order == FirstSeen(files)
    ensures forall k :: k in groups <==> k in order
    ensures forall k :: k in groups ==> groups[k] == GroupOf(files, k)
  {
    groups, order := map[], [];
    var i := 0;
    while i < |files|
      invariant 0 <= i <= |files|
      invariant order == FirstSeen(files[..i])
      invariant forall k :: k in groups <==> k in order
      invariant forall k :: k in groups ==> groups[k] == GroupOf(files[..i], k)
    {
      var (fp, ph) := files[i];
      assert files[..i + 1][..i] == files[..i];
      if ph !in groups {
        FirstSeenMember(files[..i], ph);
        groups := groups[ph := []];
        order := order + [ph];
      }
      groups := groups[ph := groups[ph] + [fp]];
      i := i + 1;
    }
    assert files[..i] == files;
  }

  /** The comprehension keeping the groups with more than one path, in key
      order. */
  method KeepLargeGroups(order: seq<string>, groups: map<string, seq<string>>, files: seq<(string, string)>)
    returns (dups: seq<(string, seq<string>)>)
    requires forall k :: k in order ==> k in groups && groups[k] == GroupOf(files, k)
    ensures dups == KeepLarge(order, files)
  {
    dups := [];
    var j := 0;
    while j < |order|
      invariant 0 <= j <= |order|
      invariant dups == KeepLarge(order[..j], files)
    {
      var k := order[j];
      assert order[..j + 1][..j] == order[..j];
      if |groups[k]| > 1 {
        dups := dups + [(k, groups[k])];
      }
      j := j + 1;
    }
    assert order[..j] == order;
  }

  predicate Distinct(s: seq<string>) {
    forall i, j :: 0 <= i < j < |s| ==> s[i] != s[j]
  }

  function Hashes(files: seq<(string, string)>): seq<string> {
    seq(|files|, i requires 0 <= i < |files| => files[i].1)
  }

  function Keys(d: seq<(string, seq<string>)>): seq<string> {
    seq(|d|, i requires 0 <= i < |d| => d[i].0)
  }

  lemma {:induction false} FirstSeenDistinct(files: seq<(string, string)>)
    ensures Distinct(FirstSeen(files))
  {
    if |files| > 0 {
      FirstSeenDistinct(files[..|files| - 1]);
    }
  }

  lemma {:induction false} KeepLargeMember(keys: seq<string>, files: seq<(string, string)>, x: (string, seq<string>))
    ensures x in KeepLarge(keys, files) <==> x.0 in keys && |GroupOf(files, x.0)| > 1 && x.1 == GroupOf(files, x.0)
  {
    if |keys| > 0 {
      var init := keys[..|keys| - 1];
      KeepLargeMember(init, files, x);
      assert keys == init + [keys[|keys| - 1]];
    }
  }

  lemma {:induction false} KeepLargeDistinct(keys: seq<string>, files: seq<(string, string)>)
    requires Distinct(keys)
    ensures Distinct(Keys(KeepLarge(keys, files)))
  {
    if |keys| > 0 {
      var init := keys[..|keys| - 1];
      var k := keys[|keys| - 1];
      var prev := KeepLarge(init, files);
      KeepLargeDistinct(init, files);
      if |GroupOf(files, k)| > 1 {
        var d := KeepLarge(keys, files);
        assert d == prev + [(k, GroupOf(files, k))];
        forall i | 0 <= i < |prev| ensures Keys(d)[i] != k {
          assert prev[i] in prev;
          KeepLargeMember(init, files, prev[i]);
          var m :| 0 <= m < |init| && init[m] == prev[i].0;
          assert keys[m] == init[m];
        }
        assert Keys(d) == Keys(prev) + [k];
        forall a, b | 0 <= a < b < |Keys(d)| ensures Keys(d)[a] != Keys(d)[b] {
          if b < |prev| {
            assert Keys(d)[a] == Keys(prev)[a] && Keys(d)[b] == Keys(prev)[b];
          }
        }
      } else {
        assert KeepLarge(keys, files) == prev;
      }
    }
  }

  /** The size of a group is the number of files with that hash. */
  lemma {:induction false} GroupSize(files: seq<(string, string)>, k: string)
    ensures |GroupOf(files, k)| == multiset(Hashes(files))[k]
  {
    if |files| > 0 {
      var init := files[..|files| - 1];
      GroupSize(init, k);
      assert Hashes(files) == Hashes(init) + [files[|files| - 1].1];
    }
  }

  /** `idx` lists, in increasing order, the positions of `files` that
      carry hash `k`, and `g` holds their paths. */
  ghost predicate IsGroupIndex(files: seq<(string, string)>, k: string, g: seq<string>, idx: seq<int>) {
    && |idx| == |g|
    && (forall a, b :: 0 <= a < b < |idx| ==> idx[a] < idx[b])
    && (forall a :: 0 <= a < |idx| ==> 0 <= idx[a] < |files| && files[idx[a]] == (g[a], k))
    && (forall i :: 0 <= i < |files| && files[i].1 == k ==> i in idx)
  }

  lemma GroupIndexSnoc(files: seq<(string, string)>, k: string, g: seq<string>, idx: seq<int>)
    requires |files| > 0 && IsGroupIndex(files[..|files| - 1], k, g, idx)
    ensures files[|files| - 1].1 == k ==> IsGroupIndex(files, k, g + [files[|files| - 1].0], idx + [|files| - 1])
    ensures files[|files| - 1].1 != k ==> IsGroupIndex(files, k, g, idx)
  {
    var n := |files| - 1;
    var init := files[..n];
    if files[n].1 == k {
      var idx' := idx + [n];
      var g' := g + [files[n].0];
      forall a | 0 <= a < |idx'| ensures 0 <= idx'[a] < |files| && files[idx'[a]] == (g'[a], k) {
        if a < |idx| {
          assert files[idx[a]] == init[idx[a]];
        }
      }
      forall i | 0 <= i < |files| && files[i].1 == k ensures i in idx' {
        if i < n {
          assert init[i] == files[i];
        }
      }
    } else {
      forall a | 0 <= a < |idx| ensures 0 <= idx[a] < |files| && files[idx[a]] == (g[a], k) {
        assert files[idx[a]] == init[idx[a]];
      }
      forall i | 0 <= i < |files| && files[i].1 == k ensures i in idx {
        assert init[i] == files[i];
      }
    }
  }

  /** Every path of group `k` is a file with hash `k`, and the group lists
      all such files in the order they were encountered: its paths sit at
      strictly increasing positions of the file list, and every position
      holding hash `k` is one of them. */
  lemma {:induction false} GroupOrder(files: seq<(string, string)>, k: string)
    ensures exists idx: seq<int> :: IsGroupIndex(files, k, GroupOf(files, k), idx)
  {
    if |files| == 0 {
      assert IsGroupIndex(files, k, GroupOf(files, k), []);
    } else {
      var n := |files| - 1;
      GroupOrder(files[..n], k);
      var g := GroupOf(files[..n], k);
      var idx: seq<int> :| IsGroupIndex(files[..n], k, g, idx);
      GroupIndexSnoc(files, k, g, idx);
      if files[n].1 == k {
        assert GroupOf(files, k) == g + [files[n].0];
        assert IsGroupIndex(files, k, GroupOf(files, k), idx + [n]);
      } else {
        assert GroupOf(files, k) == g;
        assert IsGroupIndex(files, k, GroupOf(files, k), idx);
      }
    }
  }

  /** The returned groups: keys are distinct; every group has at least two
      paths, all of files with its hash (the whole group in encounter
      order); and a hash gets a group exactly when two or more files carry
      it. */
  lemma DuplicatesSpec(files: seq<(string, string)>)
    ensures Distinct(Keys(Duplicates(files)))
    ensures forall x :: x in Duplicates(files) ==>
      && |x.1| >= 2
      && x.1 == GroupOf(files, x.0)
      && (forall p :: p in x.1 ==> (p, x.0) in files)
    ensures forall k :: k in Keys(Duplicates(files)) <==> multiset(Hashes(files))[k] >= 2
  {
    var d := Duplicates(files);
    FirstSeenDistinct(files);
    KeepLargeDistinct(FirstSeen(files), files);
    forall x | x in d
      ensures |x.1| >= 2 && x.1 == GroupOf(files, x.0) && (forall p :: p in x.1 ==> (p, x.0) in files)
    {
      KeepLargeMember(FirstSeen(files), files, x);
      GroupMembers(files, x.0);
    }
    forall k ensures k in Keys(d) <==> multiset(Hashes(files))[k] >= 2 {
      GroupSize(files, k);
      FirstSeenMember(files, k);
      var x := (k, GroupOf(files, k));
      KeepLargeMember(FirstSeen(files), files, x);
      if k in Keys(d) {
        var i :| 0 <= i < |d| && d[i].0 == k;
        assert d[i] in d;
        KeepLargeMember(FirstSeen(files), files, d[i]);
      }
      if multiset(Hashes(files))[k] >= 2 {
        var i :| 0 <= i < |d| && d[i] == x;
        assert Keys(d)[i] == k;
      }
    }
  }

  lemma {:induction false} GroupMembers(files: seq<(string, string)>, k: string)
    ensures forall p :: p in GroupOf(files, k) ==> (p, k) in files
  {
    if |files| > 0 {
      var init := files[..|files| - 1];
      GroupMembers(init, k);
      assert files == init + [files[|files| - 1]];
    }
  }

  // ---------------------------------------------------------------------
  // download_image
  // ---------------------------------------------------------------------

  /** Status, `content-type` header ("" when absent) and body of a GET. */
  datatype ImageResponse = ImageResponse(status: int, contentType: string, content: seq<bv8>)

  /** The fallback `f"image_{int(time.time())}"` names a module that is
      never imported, so evaluating it raises this NameError. */
  const TimeUndefined := "name 'time' is not defined"

  /** The file name: the basename of the URL without its query. */
  function ImageName(url: string): Outcome<string> {
    var fname := Basename(Before(url, '?'));
    if fname == "" then Failure(TimeUndefined) else Success(fname)
  }

  /** `s.replace("/", "_")`. */
  function ReplaceSlash(s: string): string {
    seq(|s|, i requires 0 <= i < |s| => if s[i] == '/' then '_' else s[i])
  }

  /** `download_image`: Failure is the exception raised before the request;
      None when the GET or the write raised or the response is not an
      image; otherwise the path written. */
  function DownloadImage(url: string, dest: string, fetch: string -> Outcome<ImageResponse>,
                         write: (string, seq<bv8>) -> Outcome<()>): Outcome<Option<string>>
  {
    match ImageName(url)
    case Failure(e) => Failure(e)
    case Success(fname) =>
      var path := PathJoin(dest, ReplaceSlash(fname));
      match fetch(url)
      case Failure(_) => Success(None)
      case Success(r) =>
        if r.status == 200 && StartsWith(r.contentType, "image") then
          match write(path, r.content)
          case Failure(_) => Success(None)
          case Success(_) => Success(Some(path))
        else Success(None)
  }

  /** The name of ".../name?query" is "name"; a URL whose path ends in '/'
      has no name. */
  lemma ImageNameSpec(dir: string, name: string, query: string)
    requires '?' !in dir && '?' !in name && '/' !in name
    ensures ImageName(dir + "/" + name + "?" + query) == (if name == "" then Failure(TimeUndefined) else Success(name))
  {
    var base := dir + "/" + name;
    assert '?' !in base by {
      forall i | 0 <= i < |base| ensures base[i] != '?' {
        if i < |dir| { assert base[i] == dir[i]; assert dir[i] in dir; }
        else if i > |dir| { assert base[i] == name[i - |dir| - 1]; assert name[i - |dir| - 1] in name; }
      }
    }
    BeforeAppend(base, '?', query);
    BasenameOfJoin(dir, name);
  }

  /** A derived name never contains '/', so the replace is a no-op. */
  lemma ReplaceNoop(url: string)
    requires ImageName(url).Success?
    ensures ReplaceSlash(ImageName(url).value) == ImageName(url).value
    ensures '/' !in ImageName(url).value && '?' !in ImageName(url).value && ImageName(url).value != ""
  {
    var b := Before(url, '?');
    BasenameSpec(b);
    var f := Basename(b);
    assert f == b[|b| - |f|..];
    forall i | 0 <= i < |f| ensures f[i] != '?' {
      assert f[i] == b[|b| - |f| + i];
      assert b[|b| - |f| + i] in b;
    }
  }

  /** A path comes back exactly when the URL yields a name, the GET
      succeeds with status 200 and an `image...` content type, and writing
      the body to `dest`/name succeeds; the only exception is the missing
      name, raised before any request. */
  lemma DownloadImageSpec(url: string, dest: string, fetch: string -> Outcome<ImageResponse>,
                          write: (string, seq<bv8>) -> Outcome<()>, fetch': string -> Outcome<ImageResponse>)
    ensures DownloadImage(url, dest, fetch, write).Failure? <==> ImageName(url).Failure?
    ensures ImageName(url).Failure? ==>
      DownloadImage(url, dest, fetch, write) == DownloadImage(url, dest, fetch', write) == Failure(TimeUndefined)
    ensures ImageName(url).Success? ==>
      var path := PathJoin(dest, ImageName(url).value);
      && (DownloadImage(url, dest, fetch, write).Success? && DownloadImage(url, dest, fetch, write).value.Some? <==>
            && fetch(url).Success?
            && fetch(url).value.status == 200
            && StartsWith(fetch(url).value.contentType, "image")
            && write(path, fetch(url).value.content).Success?)
      && (DownloadImage(url, dest, fetch, write).Success? && DownloadImage(url, dest, fetch, write).value.Some? ==>
            DownloadImage(url, dest, fetch, write).value.value == path)
  {
    if ImageName(url).Success? {
      ReplaceNoop(url);
    }
  }
}
