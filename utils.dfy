/** File-name sanitising and secret generation. The cryptographic random
    choice of `generate_secret` is an oracle: the index drawn for each
    position. */
module Utils {
  import opened Common

  const MaxFilenameLength := 255

  /** POSIX `os.path.basename`: the text after the last '/'. */
  function Basename(p: string): string {
    if |p| == 0 then ""
    else if p[|p| - 1] == '/' then ""
    else Basename(p[..|p| - 1]) + [p[|p| - 1]]
  }

  /** The basename is a '/'-free suffix of the path that is either all of
      it or preceded by a '/'. */
  lemma BasenameSpec(p: string)
    ensures var r := Basename(p);
      && '/' !in r
      && EndsWith(p, r)
      && (|r| < |p| ==> p[|p| - |r| - 1] == '/')
  {
    BasenameSlashFree(p);
    BasenameSuffix(p);
  }

  lemma {:induction false} BasenameSlashFree(p: string)
    ensures '/' !in Basename(p)
  {
    if |p| > 0 && p[|p| - 1] != '/' {
      BasenameSlashFree(p[..|p| - 1]);
    }
  }

  lemma {:induction false} BasenameSuffix(p: string)
    ensures var r := Basename(p);
      && |r| <= |p| && p[|p| - |r|..] == r
      && (|r| < |p| ==> p[|p| - |r| - 1] == '/')
  {
    if |p| > 0 && p[|p| - 1] != '/' {
      var q := p[..|p| - 1];
      BasenameSuffix(q);
      var b := Basename(q);
      var n := |q| - |b|;
      assert Basename(p) == b + [p[|p| - 1]];
      assert p == q + [p[|p| - 1]];
      assert p[n..] == q[n..] + [p[|p| - 1]];
      if n > 0 {
        assert p[n - 1] == q[n - 1];
      }
    }
  }

  /** A path without '/' is its own basename. */
  lemma {:induction false} BasenameNoSlash(p: string)
    requires '/' !in p
    ensures Basename(p) == p
  {
    if |p| > 0 {
      assert p[|p| - 1] in p;
      var q := p[..|p| - 1];
      assert '/' !in q by {
        forall i | 0 <= i < |q| ensures q[i] != '/' {
          assert p[i] in p;
        }
      }
      BasenameNoSlash(p[..|p| - 1]);
      assert p[..|p| - 1] + [p[|p| - 1]] == p;
    }
  }

  /** The basename of "dir/name" is "name", whatever the directory. */
  lemma {:induction false} BasenameOfJoin(dir: string, name: string)
    requires '/' !in name
    ensures Basename(dir + "/" + name) == name
  {
    var p := dir + "/" + name;
    if |name| > 0 {
      var n := |name| - 1;
      assert name[n] in name;
      assert p[..|p| - 1] == dir + "/" + name[..n];
      var m := name[..n];
      assert '/' !in m by {
        forall i | 0 <= i < |m| ensures m[i] != '/' {
          assert name[i] in name;
        }
      }
      BasenameOfJoin(dir, name[..n]);
      assert name[..n] + [name[n]] == name;
    }
  }

  /** The class `[A-Za-z0-9._\-]` of characters kept as they are. */
  predicate IsNameChar(c: char) {
    ('A' <= c <= 'Z') || ('a' <= c <= 'z') || ('0' <= c <= '9') || c == '.' || c == '_' || c == '-'
  }

  /** `re.sub(r'[^A-Za-z0-9._\-]', '_', s)`: one-for-one replacement. */
  function Sanitize(s: string): string {
    seq(|s|, i requires 0 <= i < |s| => if IsNameChar(s[i]) then s[i] else '_')
  }

  /** `safe_filename`. */
  function SafeFilename(name: string): string {
    Take(Sanitize(Basename(name)), MaxFilenameLength)
  }

  /** The sanitised name is at most 255 characters, exactly as long as the
      basename up to that bound, made only of allowed characters (so it has
      no '/'), keeps every allowed character of the basename in place and
      puts '_' where the basename had any other character. */
  lemma SafeFilenameSpec(name: string)
    ensures var b := Basename(name); var r := SafeFilename(name);
      && |r| == (if |b| < MaxFilenameLength then |b| else MaxFilenameLength)
      && (forall i :: 0 <= i < |r| ==> IsNameChar(r[i]))
      && '/' !in r
      && (forall i :: 0 <= i < |r| ==> r[i] == if IsNameChar(b[i]) then b[i] else '_')
  {
    BasenameSpec(name);
    var b := Basename(name);
    var z := Sanitize(b);
    var r := SafeFilename(name);
    assert r == Take(z, MaxFilenameLength);
    assert r == z[..|r|];
    forall i | 0 <= i < |r|
      ensures r[i] == (if IsNameChar(b[i]) then b[i] else '_') && IsNameChar(r[i])
    {
      assert r[i] == z[i];
    }
    assert '/' !in r by {
      forall i | 0 <= i < |r| ensures r[i] != '/' {
        assert IsNameChar(r[i]);
      }
    }
  }

  /** Sanitising a sanitised name changes nothing. */
  lemma SafeFilenameIdempotent(name: string)
    ensures SafeFilename(SafeFilename(name)) == SafeFilename(name)
  {
    var r := SafeFilename(name);
    SafeFilenameSpec(name);
    BasenameNoSlash(r);
    assert Sanitize(r) == r;
  }

  // ---------------------------------------------------------------------
  // generate_secret
  // ---------------------------------------------------------------------

  /** The `n` consecutive characters from `lo` on. */
  function CharRun(lo: char, n: nat): (r: string)
    requires lo as int + n <= 0xD800
    ensures |r| == n
    ensures forall i :: 0 <= i < n ==> r[i] as int == lo as int + i
  {
    seq(n, i requires 0 <= i < n => (lo as int + i) as char)
  }

  /** `string.ascii_lowercase`, `string.ascii_uppercase`, `string.digits`. */
  const AsciiLowercase := CharRun('a', 26)
  const AsciiUppercase := CharRun('A', 26)
  const Digits := CharRun('0', 10)

  /** `string.ascii_letters + string.digits`. */
  const Alphabet := AsciiLowercase + AsciiUppercase + Digits

  predicate IsAlnumAscii(c: char) {
    ('a' <= c <= 'z') || ('A' <= c <= 'Z') || ('0' <= c <= '9')
  }

  /** The alphabet is "a".."z", then "A".."Z", then "0".."9": 62 characters,
      all ASCII letters or digits, and every such character occurs. */
  lemma AlphabetChars()
    ensures |Alphabet| == 62
    ensures forall i :: 0 <= i < 26 ==> Alphabet[i] as int == 'a' as int + i
    ensures forall i :: 26 <= i < 52 ==> Alphabet[i] as int == 'A' as int + i - 26
    ensures forall i :: 52 <= i < 62 ==> Alphabet[i] as int == '0' as int + i - 52
    ensures forall i :: 0 <= i < 62 ==> IsAlnumAscii(Alphabet[i])
    ensures forall c :: IsAlnumAscii(c) ==> c in Alphabet
  {
    forall i | 0 <= i < 62 ensures IsAlnumAscii(Alphabet[i]) {
      if i < 26 {
        assert Alphabet[i] == AsciiLowercase[i];
      } else if i < 52 {
        assert Alphabet[i] == AsciiUppercase[i - 26];
      } else {
        assert Alphabet[i] == Digits[i - 52];
      }
    }
    forall c | IsAlnumAscii(c) ensures c in Alphabet {
      if 'a' <= c <= 'z' {
        assert Alphabet[c as int - 'a' as int] == c;
      } else if 'A' <= c <= 'Z' {
        assert Alphabet[26 + c as int - 'A' as int] == c;
      } else {
        assert Alphabet[52 + c as int - '0' as int] == c;
      }
    }
  }

  /** `generate_secret(length)` where `pick(i)` is the index that
      `secrets.choice` draws for position i: `range(length)` is empty for a
      negative length. */
  function GenerateSecret(length: int, pick: nat -> nat): (r: string)
    requires forall i: nat :: i < length ==> pick(i) < |Alphabet|
    ensures |r| == if length < 0 then 0 else length
    ensures forall i :: 0 <= i < |r| ==> r[i] == Alphabet[pick(i)]
    decreases if length < 0 then 0 else length
  {
    if length <= 0 then "" else GenerateSecret(length - 1, pick) + [Alphabet[pick(length - 1)]]
  }

  /** The secret has exactly `length` characters (none for a negative
      length), each an ASCII letter or digit. */
  lemma SecretShape(length: int, pick: nat -> nat)
    requires forall i: nat :: i < length ==> pick(i) < |Alphabet|
    ensures |GenerateSecret(length, pick)| == if length < 0 then 0 else length
    ensures forall i :: 0 <= i < |GenerateSecret(length, pick)| ==> IsAlnumAscii(GenerateSecret(length, pick)[i])
  {
    AlphabetChars();
  }
}
