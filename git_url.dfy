/**
 * Repository-URL helpers of the dashboard's utility module: the git hosting
 * provider guessed from a substring of the URL, and the owner and repository
 * name taken positionally from the URL's `/`-separated parts.
 */
module GitUrl {
  import opened Wrappers

  const GITHUB: string := "github"
  const GITLAB: string := "gitlab"

  // ---------------------------------------------------------------------------
  // Substring search (JavaScript `String.prototype.includes`)
  // ---------------------------------------------------------------------------

  /** `sub` occurs in `s` starting at index `i`. */
  ghost predicate OccursAt(s: string, sub: string, i: nat) {
    i + |sub| <= |s| && s[i..i + |sub|] == sub
  }

  /** Reference meaning of `s.includes(sub)`: some position where `sub` occurs. */
  ghost predicate ContainsSubstring(s: string, sub: string) {
    exists i: nat :: OccursAt(s, sub, i)
  }

  /** `s.includes(sub)`, computed by trying every start position in turn. */
  function Includes(s: string, sub: string): bool
    decreases |s|
  {
    if sub <= s then true
    else if s == [] then false
    else Includes(s[1..], sub)
  }

  /** The computed search agrees with the reference meaning, in both directions. */
  lemma {:induction false} IncludesIff(s: string, sub: string)
    ensures Includes(s, sub) <==> ContainsSubstring(s, sub)
    decreases |s|
  {
    if sub <= s {
      assert OccursAt(s, sub, 0);
    } else if s == [] {
      assert |sub| > 0;
    } else {
      IncludesIff(s[1..], sub);
      if ContainsSubstring(s[1..], sub) {
        var i: nat :| OccursAt(s[1..], sub, i);
        assert s[i + 1..i + 1 + |sub|] == s[1..][i..i + |sub|];
        assert OccursAt(s, sub, i + 1);
      }
      if ContainsSubstring(s, sub) {
        assert !OccursAt(s, sub, 0);
        var i: nat :| OccursAt(s, sub, i);
        assert s[1..][i - 1..i - 1 + |sub|] == s[i..i + |sub|];
        assert OccursAt(s[1..], sub, i - 1);
      }
    }
  }

  /** A string lacking one of `sub`'s characters does not contain `sub`. */
  lemma MissingCharNotContained(s: string, sub: string, c: char)
    requires c in sub && c !in s
    ensures !ContainsSubstring(s, sub)
  {
  }

  // ---------------------------------------------------------------------------
  // Provider detection (getGitProvideFromGitRepoUrl)
  // ---------------------------------------------------------------------------

  /**
   * "github" when the URL mentions github anywhere, else "gitlab" when it
   * mentions gitlab, else no provider. The test is on substrings, not on the
   * host component.
   */
  function ProviderFromUrl(url: string): (r: Option<string>)
    ensures r == Some(GITHUB) <==> ContainsSubstring(url, GITHUB)
    ensures r == Some(GITLAB) <==> !ContainsSubstring(url, GITHUB) && ContainsSubstring(url, GITLAB)
    ensures r == None <==> !ContainsSubstring(url, GITHUB) && !ContainsSubstring(url, GITLAB)
  {
    IncludesIff(url, GITHUB);
    IncludesIff(url, GITLAB);
    if Includes(url, GITHUB) then Some(GITHUB)
    else if Includes(url, GITLAB) then Some(GITLAB)
    else None
  }

  // ---------------------------------------------------------------------------
  // Splitting on '/' (JavaScript `String.prototype.split('/')`)
  // ---------------------------------------------------------------------------

  /** Every part is free of the separator. */
  ghost predicate SlashFree(parts: seq<string>) {
    forall i :: 0 <= i < |parts| ==> '/' !in parts[i]
  }

  /**
   * `s.split('/')`: the maximal slash-free runs of `s`, empty ones included.
   * Built from the back one character at a time; a '/' opens a new, empty
   * last part, any other character extends the current last part.
   */
  function Split(s: string): (parts: seq<string>)
    ensures |parts| >= 1
    ensures SlashFree(parts)
    decreases |s|
  {
    if s == [] then [""]
    else
      var init := Split(s[..|s| - 1]);
      var c := s[|s| - 1];
      if c == '/' then init + [""]
      else init[..|init| - 1] + [init[|init| - 1] + [c]]
  }

  /** `parts.join('/')`, the inverse of Split. */
  function Join(parts: seq<string>): string
    requires |parts| >= 1
    decreases |parts|
  {
    if |parts| == 1 then parts[0]
    else Join(parts[..|parts| - 1]) + "/" + parts[|parts| - 1]
  }

  /** Splitting yields a single part exactly when the string holds no '/'. */
  lemma {:induction false} SplitSingleIffNoSlash(s: string)
    ensures |Split(s)| == 1 <==> '/' !in s
    decreases |s|
  {
    if s != [] {
      var init := s[..|s| - 1];
      assert s == init + [s[|s| - 1]];
      SplitSingleIffNoSlash(init);
      assert |Split(init)| >= 1;
    }
  }

  /** Joining the parts gives back the original string. */
  lemma {:induction false} JoinSplit(s: string)
    ensures Join(Split(s)) == s
    decreases |s|
  {
    if s != [] {
      var init := s[..|s| - 1];
      var c := s[|s| - 1];
      var ps := Split(init);
      JoinSplit(init);
      assert s == init + [c];
      if c == '/' {
        assert (ps + [""])[..|ps|] == ps;
      } else {
        var n := |ps|;
        var ps' := ps[..n - 1] + [ps[n - 1] + [c]];
        assert ps'[..n - 1] == ps[..n - 1];
        if n == 1 {
          assert Join(ps') == ps[0] + [c];
        } else {
          assert ps[..n - 1][..n - 2] == ps[..n - 2];
          assert Join(ps) == Join(ps[..n - 1]) + "/" + ps[n - 1];
          assert Join(ps') == Join(ps[..n - 1]) + "/" + (ps[n - 1] + [c]);
        }
      }
    }
  }

  /** Appending slash-free text extends the last part only. */
  lemma {:induction false} SplitAppendSlashFree(s: string, t: string)
    requires '/' !in t
    ensures var ps := Split(s);
            Split(s + t) == ps[..|ps| - 1] + [ps[|ps| - 1] + t]
    decreases |t|
  {
    var ps := Split(s);
    if t == [] {
      assert s + t == s;
      assert ps[|ps| - 1] + t == ps[|ps| - 1];
      assert ps[..|ps| - 1] + [ps[|ps| - 1]] == ps;
    } else {
      var t' := t[..|t| - 1];
      var c := t[|t| - 1];
      assert t == t' + [c];
      SplitAppendSlashFree(s, t');
      assert (s + t)[..|s + t| - 1] == s + t';
      assert (s + t)[|s + t| - 1] == c;
      var qs := Split(s + t');
      assert qs == ps[..|ps| - 1] + [ps[|ps| - 1] + t'];
      assert qs[..|qs| - 1] == ps[..|ps| - 1];
      assert qs[|qs| - 1] + [c] == ps[|ps| - 1] + t;
    }
  }

  /** Appending '/' and slash-free text adds exactly one new last part. */
  lemma SplitAppendPart(s: string, t: string)
    requires '/' !in t
    ensures Split(s + "/" + t) == Split(s) + [t]
  {
    var s' := s + "/";
    assert s'[..|s'| - 1] == s;
    assert s'[|s'| - 1] == '/';
    var ps := Split(s);
    assert Split(s') == ps + [""];
    SplitAppendSlashFree(s', t);
    var ps' := ps + [""];
    assert ps'[..|ps'| - 1] == ps;
    assert ps'[|ps'| - 1] + t == t;
    assert s + "/" + t == s' + t;
  }

  /**
   * Split is determined by Join: the only slash-free parts that join to a
   * string are its split.
   */
  lemma {:induction false} SplitJoin(parts: seq<string>)
    requires |parts| >= 1 && SlashFree(parts)
    ensures Split(Join(parts)) == parts
    decreases |parts|
  {
    if |parts| == 1 {
      SplitAppendSlashFree("", parts[0]);
      assert "" + parts[0] == parts[0];
    } else {
      var init := parts[..|parts| - 1];
      var last := parts[|parts| - 1];
      assert '/' !in last;
      SplitJoin(init);
      SplitAppendPart(Join(init), last);
      assert init + [last] == parts;
    }
  }

  // ---------------------------------------------------------------------------
  // Owner and repository name (getGitRepoOwnerFromGitRepoUrl,
  // getGitRepoNameFromGitRepoUrl)
  // ---------------------------------------------------------------------------

  /** The second-to-last part, or nothing when the split has fewer than 2 parts. */
  function OwnerFromUrl(url: string): (r: Option<string>)
    ensures r == None <==> '/' !in url
    ensures r.Some? ==> '/' !in r.value
  {
    SplitSingleIffNoSlash(url);
    var parts := Split(url);
    if |parts| < 2 then None else Some(parts[|parts| - 2])
  }

  /** The last part, or nothing when the split has fewer than 2 parts. */
  function NameFromUrl(url: string): (r: Option<string>)
    ensures r == None <==> '/' !in url
    ensures r.Some? ==> '/' !in r.value
  {
    SplitSingleIffNoSlash(url);
    var parts := Split(url);
    if |parts| < 2 then None else Some(parts[|parts| - 1])
  }

  /**
   * Round trip: a URL with a '/' is some prefix (empty, or ending in '/')
   * followed by owner + "/" + name. So the name is the text after the last
   * '/', and the owner the text between the last two (or the whole prefix
   * before a single '/').
   */
  lemma OwnerNameRoundTrip(url: string) returns (prefix: string)
    requires '/' in url
    ensures OwnerFromUrl(url).Some? && NameFromUrl(url).Some?
    ensures url == prefix + OwnerFromUrl(url).value + "/" + NameFromUrl(url).value
    ensures prefix == [] || prefix[|prefix| - 1] == '/'
  {
    var parts := Split(url);
    var n := |parts|;
    SplitSingleIffNoSlash(url);
    JoinSplit(url);
    var init := parts[..n - 1];
    assert url == Join(init) + "/" + parts[n - 1];
    if n == 2 {
      prefix := "";
      assert url == prefix + parts[0] + "/" + parts[1];
    } else {
      assert init[..n - 2] == parts[..n - 2];
      prefix := Join(parts[..n - 2]) + "/";
      assert url == prefix + parts[n - 2] + "/" + parts[n - 1];
    }
  }

  /**
   * Converse of the round trip: any URL written as such a prefix, a
   * slash-free owner, '/', and a slash-free name yields exactly that owner
   * and name.
   */
  lemma OwnerNameFromDecomposition(prefix: string, owner: string, name: string)
    requires prefix == [] || prefix[|prefix| - 1] == '/'
    requires '/' !in owner && '/' !in name
    ensures OwnerFromUrl(prefix + owner + "/" + name) == Some(owner)
    ensures NameFromUrl(prefix + owner + "/" + name) == Some(name)
  {
    var url := prefix + owner + "/" + name;
    var parts;
    if prefix == [] {
      parts := [owner, name];
      assert parts[..1] == [owner];
      assert Join(parts) == url;
    } else {
      var q := prefix[..|prefix| - 1];
      assert prefix == q + "/";
      var qs := Split(q);
      JoinSplit(q);
      parts := qs + [owner, name];
      assert parts[..|parts| - 1] == qs + [owner];
      assert (qs + [owner])[..|qs|] == qs;
      assert Join(qs + [owner]) == q + "/" + owner;
      assert Join(parts) == q + "/" + owner + "/" + name;
      assert q + "/" + owner + "/" + name == url;
    }
    assert SlashFree(parts);
    SplitJoin(parts);
  }

  /** Concrete cases a reader can check by hand. */
  lemma Examples()
    ensures OwnerFromUrl("a/b/c") == Some("b")
    ensures NameFromUrl("a/b/c") == Some("c")
    ensures OwnerFromUrl("abc") == None && NameFromUrl("abc") == None
    ensures NameFromUrl("org/repo/") == Some("")
  {
    OwnerNameFromDecomposition("a/", "b", "c");
    assert "a/" + "b" + "/" + "c" == "a/b/c";
    assert '/' !in "abc";
    OwnerNameFromDecomposition("org/", "repo", "");
    assert "org/" + "repo" + "/" + "" == "org/repo/";
  }

  /** Provider detection on concrete URLs. */
  lemma ProviderExamples()
    ensures ProviderFromUrl("https://github.com/org/repo") == Some(GITHUB)
    ensures ProviderFromUrl("https://gitlab.com/x/y") == Some(GITLAB)
    ensures ProviderFromUrl("https://example.com/x/y") == None
  {
    assert OccursAt("https://github.com/org/repo", GITHUB, 8);
    MissingCharNotContained("https://gitlab.com/x/y", GITHUB, 'u');
    assert OccursAt("https://gitlab.com/x/y", GITLAB, 8);
    MissingCharNotContained("https://example.com/x/y", GITHUB, 'g');
    MissingCharNotContained("https://example.com/x/y", GITLAB, 'g');
  }
}
