/** `make_github_link`: turns a repository name or URL into a link under
    `https://github.com/`. */
module GithubLink {

  import opened Text

  const Host: string := "https://github.com/"

  /** A string the script treats as a full URL. */
  predicate IsUrl(s: string) {
    "http://" <= s || "https://" <= s
  }

  /** `[p for p in parts if p]`. */
  function NonEmpty(parts: seq<string>): (r: seq<string>)
    ensures forall p :: p in r ==> p != [] && p in parts
    ensures forall p :: p in parts && p != [] ==> p in r
  {
    if parts == [] then []
    else
      assert forall p :: p in parts ==> p == parts[0] || p in parts[1..];
      (if parts[0] == [] then [] else [parts[0]]) + NonEmpty(parts[1..])
  }

  lemma {:induction false} NonEmptyAppend(a: seq<string>, b: seq<string>)
    ensures NonEmpty(a + b) == NonEmpty(a) + NonEmpty(b)
  {
    if a == [] {
      assert a + b == b;
    } else {
      assert (a + b)[0] == a[0];
      assert (a + b)[1..] == a[1..] + b;
      NonEmptyAppend(a[1..], b);
      var head := if a[0] == [] then [] else [a[0]];
      calc {
        NonEmpty(a + b);
        head + NonEmpty(a[1..] + b);
        head + (NonEmpty(a[1..]) + NonEmpty(b));
        (head + NonEmpty(a[1..])) + NonEmpty(b);
      }
    }
  }

  /** The non-empty `/`-separated segments of `s`. */
  function Segments(s: string): (r: seq<string>)
    ensures forall p :: p in r ==> p != [] && '/' !in p
    ensures forall p, c :: p in r && c in p ==> c in s
  {
    SplitPieces(s, '/');
    NonEmpty(Split(s, '/'))
  }

  /** What `make_github_link` puts after the host for the trimmed input `s`:
      the last two non-empty segments of a URL joined by `/` (or its only
      one), and otherwise `s` without leading and trailing `/`. */
  function LinkPath(s: string): (path: string)
    ensures path == [] || (path[0] != '/' && path[|path| - 1] != '/')
    ensures forall c :: c in path ==> c in s || c == '/'
  {
    if s == [] then []
    else if IsUrl(s) then
      var seg := Segments(s);
      if |seg| >= 2 then
        var a, b := seg[|seg| - 2], seg[|seg| - 1];
        assert a in seg && b in seg;
        a + "/" + b
      else if |seg| == 1 then
        assert seg[0] in seg;
        seg[0]
      else []
    else Strip(s, {'/'})
  }

  /** Python's `make_github_link(name)`: always a link under the host, whose
      path never starts or ends with `/` and consists of characters of
      `name` and `/`. */
  function MakeGithubLink(name: string): (r: string)
    ensures Host <= r
    ensures var path := r[|Host|..]; path == [] || (path[0] != '/' && path[|path| - 1] != '/')
    ensures forall c :: c in r[|Host|..] ==> c in name || c == '/'
  {
    var path := LinkPath(Trim(name));
    assert (Host + path)[|Host|..] == path;
    Host + path
  }

  /** A character found neither in the host, nor in `name`, nor equal to
      `/` is absent from any string shaped like a link built from `name`. */
  lemma AbsentFromLinkShape(r: string, name: string, x: char)
    requires Host <= r
    requires forall c :: c in r[|Host|..] ==> c in name || c == '/'
    requires x !in Host && x !in name && x != '/'
    ensures x !in r
  {
    assert r == Host + r[|Host|..];
  }

  /** The host is a single line. */
  lemma HostOneLine()
    ensures '\n' !in Host
  {
  }

  /** A link built from a one-line name is itself one line. */
  lemma LinkOneLine(name: string)
    requires '\n' !in name
    ensures '\n' !in MakeGithubLink(name)
  {
    HostOneLine();
    AbsentFromLinkShape(MakeGithubLink(name), name, '\n');
  }

  /** The scheme of a URL is its first non-empty segment, so a URL always has
      at least one segment and the "no segment" branch is never taken. */
  lemma SchemeIsFirstSegment(s: string)
    requires IsUrl(s)
    ensures |Segments(s)| >= 1
    ensures Segments(s)[0] == (if "https://" <= s then "https:" else "http:")
  {
    var scheme := if "https://" <= s then "https:" else "http:";
    var rest := s[|scheme| + 1..];
    assert s == scheme + ['/'] + rest;
    SplitAround(scheme, '/', rest);
    SplitWithoutSep(scheme, '/');
    NonEmptyAppend([scheme], Split(rest, '/'));
    assert NonEmpty([scheme]) == [scheme];
  }

  /** A string that neither starts nor ends with whitespace is its own trim. */
  lemma TrimUnchanged(s: string)
    requires s != [] && s[0] !in Whitespace && s[|s| - 1] !in Whitespace
    ensures Trim(s) == s
  {
  }

  /** A slash-free non-empty `owner` followed by `/` contributes exactly
      itself to the non-empty pieces. */
  lemma OwnerPiece(owner: string, rest: string)
    requires owner != [] && '/' !in owner
    ensures NonEmpty(Split(owner + ['/'] + rest, '/')) == [owner] + NonEmpty(Split(rest, '/'))
  {
    SplitAround(owner, '/', rest);
    SplitWithoutSep(owner, '/');
    NonEmptyAppend([owner], Split(rest, '/'));
  }

  /** `repo` with or without a final `/` has `repo` as its only non-empty
      piece. */
  lemma RepoPiece(repo: string, tail: string)
    requires repo != [] && '/' !in repo
    requires tail == "" || tail == "/"
    ensures NonEmpty(Split(repo + tail, '/')) == [repo]
  {
    SplitWithoutSep(repo, '/');
    if tail == "/" {
      assert repo + tail == repo + ['/'] + [];
      SplitAround(repo, '/', []);
      NonEmptyAppend([repo], [[]]);
    } else {
      assert repo + tail == repo;
    }
  }

  /** The non-empty pieces of `owner/repo[/]` are `owner` and `repo`. */
  lemma OwnerRepoPieces(owner: string, repo: string, tail: string)
    requires owner != [] && '/' !in owner
    requires repo != [] && '/' !in repo
    requires tail == "" || tail == "/"
    ensures NonEmpty(Split(owner + "/" + repo + tail, '/')) == [owner, repo]
  {
    assert owner + "/" + repo + tail == owner + ['/'] + (repo + tail);
    OwnerPiece(owner, repo + tail);
    RepoPiece(repo, tail);
  }

  /** The segments of `prefix/owner/repo[/]` are those of `prefix` followed by
      `owner` and `repo`. */
  lemma {:induction false} SegmentsOfRepoPath(prefix: string, owner: string, repo: string, tail: string)
    requires owner != [] && '/' !in owner
    requires repo != [] && '/' !in repo
    requires tail == "" || tail == "/"
    ensures Segments(prefix + "/" + owner + "/" + repo + tail) == Segments(prefix) + [owner, repo]
  {
    var rest := owner + "/" + repo + tail;
    assert prefix + "/" + owner + "/" + repo + tail == prefix + ['/'] + rest;
    SplitAround(prefix, '/', rest);
    NonEmptyAppend(Split(prefix, '/'), Split(rest, '/'));
    OwnerRepoPieces(owner, repo, tail);
  }

  /** Extending a URL keeps it a URL, starting with `h`. */
  lemma UrlExtended(u: string, s: string)
    requires IsUrl(u) && u <= s
    ensures IsUrl(s) && s[0] == 'h'
  {
    if "https://" <= u {
      assert s[..8] == u[..8];
    } else {
      assert s[..7] == u[..7];
    }
  }

  /** A trimmed URL with at least two segments is linked as its last two. */
  lemma UrlLink(s: string)
    requires IsUrl(s) && Trim(s) == s && |Segments(s)| >= 2
    ensures var seg := Segments(s);
            MakeGithubLink(s) == Host + seg[|seg| - 2] + "/" + seg[|seg| - 1]
  {
    assert s != [];
  }

  /** A URL whose path ends in `owner/repo` (with or without a final `/`)
      is canonicalised to exactly `https://github.com/owner/repo`, whatever
      scheme, host and path come before. */
  lemma UrlKeepsLastTwoSegments(prefix: string, owner: string, repo: string, tail: string)
    requires IsUrl(prefix + "/")
    requires owner != [] && '/' !in owner
    requires repo != [] && '/' !in repo && repo[|repo| - 1] !in Whitespace
    requires tail == "" || tail == "/"
    ensures MakeGithubLink(prefix + "/" + owner + "/" + repo + tail) == Host + owner + "/" + repo
  {
    var s := prefix + "/" + owner + "/" + repo + tail;
    assert s == (prefix + "/") + (owner + "/" + repo + tail);
    UrlExtended(prefix + "/", s);
    assert s[|s| - 1] == if tail == "/" then '/' else repo[|repo| - 1];
    TrimUnchanged(s);
    SegmentsOfRepoPath(prefix, owner, repo, tail);
    UrlLink(s);
  }

  /** `owner/repo` with slash-free parts cannot start with a URL scheme. */
  lemma RepoPathIsNotUrl(owner: string, repo: string)
    requires '/' !in owner && '/' !in repo
    ensures !IsUrl(owner + "/" + repo)
  {
    var s := owner + "/" + repo;
    forall i | 0 <= i < |s| && i != |owner|
      ensures s[i] != '/'
    {
      if i < |owner| {
        assert s[i] == owner[i];
      } else {
        assert s[i] == repo[i - |owner| - 1];
      }
    }
    if |s| >= 7 {
      assert s[5] != '/' || s[6] != '/';
    }
    if |s| >= 8 {
      assert s[6] != '/' || s[7] != '/';
    }
  }

  /** A bare `owner/repo` name is put under the host unchanged. */
  lemma PlainNameUnderHost(owner: string, repo: string)
    requires owner != [] && '/' !in owner && owner[0] !in Whitespace
    requires repo != [] && '/' !in repo && repo[|repo| - 1] !in Whitespace
    ensures MakeGithubLink(owner + "/" + repo) == Host + owner + "/" + repo
  {
    var s := owner + "/" + repo;
    assert s[0] == owner[0] && s[|s| - 1] == repo[|repo| - 1];
    TrimUnchanged(s);
    RepoPathIsNotUrl(owner, repo);
    assert Strip(s, {'/'}) == s;
  }

  /** An empty or whitespace-only name gives the bare host. */
  lemma BlankNameGivesHost(name: string)
    requires Trim(name) == []
    ensures MakeGithubLink(name) == Host
  {
  }

  /** A single bare name `n` is put under the host unchanged. */
  lemma BareNameUnderHost(n: string)
    requires n != [] && '/' !in n && n[0] !in Whitespace && n[|n| - 1] !in Whitespace
    ensures MakeGithubLink(n) == Host + n
  {
    TrimUnchanged(n);
    assert !IsUrl(n) by {
      if |n| >= 7 {
        assert n[5] in n && n[5] != '/';
      }
      if |n| >= 8 {
        assert n[6] in n && n[6] != '/';
      }
    }
    assert Strip(n, {'/'}) == n;
  }

  /** Helper for `NotIdempotent`: a link under the host, split into the
      argument shape of `UrlKeepsLastTwoSegments`. */
  lemma HostAsPrefix(path: string)
    ensures Host + path == "https:/" + "/" + "github.com" + "/" + path + ""
  {
  }

  /** Helper for `NotIdempotent`: the link of a bare name, in that shape. */
  lemma BareNameLinkAsUrl(n: string)
    requires n != [] && '/' !in n && n[0] !in Whitespace && n[|n| - 1] !in Whitespace
    ensures MakeGithubLink(n) == "https:/" + "/" + "github.com" + "/" + n + ""
  {
    BareNameUnderHost(n);
    HostAsPrefix(n);
  }

  /** Helper for `NotIdempotent`: canonicalising that link keeps its last
      two segments, `github.com` and `n`. */
  lemma HostReadAsOwner(n: string)
    requires n != [] && '/' !in n && n[|n| - 1] !in Whitespace
    ensures MakeGithubLink("https:/" + "/" + "github.com" + "/" + n + "") == Host + "github.com" + "/" + n
  {
    UrlKeepsLastTwoSegments("https:/", "github.com", n, "");
  }

  /** Canonicalisation is not idempotent: a bare name `n` becomes
      `https://github.com/n`, and canonicalising that again reads
      `github.com` as the owner. */
  lemma NotIdempotent(n: string)
    requires n != [] && '/' !in n && n[0] !in Whitespace && n[|n| - 1] !in Whitespace
    ensures MakeGithubLink(MakeGithubLink(n)) == Host + "github.com" + "/" + n
  {
    BareNameLinkAsUrl(n);
    HostReadAsOwner(n);
  }
}
