/** String helpers standing for the Python `str` methods the script uses:
    `strip()`, `strip(chars)`, `split(sep)`, `sep.join(...)`, `startswith`
    and the "trimmed non-empty lines" comprehension. */
module Text {

  import opened Options

  /** The characters `str.strip()` removes, restricted to ASCII whitespace. */
  const Whitespace: set<char> := {' ', '\t', '\n', '\r', '\U{000B}', '\U{000C}'}

  /** Removes the leading characters that belong to `cs`. */
  function StripStart(s: string, cs: set<char>): (r: string)
    ensures |r| <= |s| && r == s[|s| - |r|..]
    ensures forall i :: 0 <= i < |s| - |r| ==> s[i] in cs
    ensures r == [] || r[0] !in cs
  {
    if s != [] && s[0] in cs then StripStart(s[1..], cs) else s
  }

  /** Removes the trailing characters that belong to `cs`. */
  function StripEnd(s: string, cs: set<char>): (r: string)
    ensures |r| <= |s| && r == s[..|r|]
    ensures forall i :: |r| <= i < |s| ==> s[i] in cs
    ensures r == [] || r[|r| - 1] !in cs
  {
    if s != [] && s[|s| - 1] in cs then StripEnd(s[..|s| - 1], cs) else s
  }

  /** Python's `s.strip(chars)`: the longest infix of `s` that neither starts
      nor ends with a character of `cs`. */
  function Strip(s: string, cs: set<char>): (r: string)
    ensures |r| <= |s|
    ensures r == [] || (r[0] !in cs && r[|r| - 1] !in cs)
    ensures forall c :: c in r ==> c in s
    ensures s == [] || (s[0] !in cs && s[|s| - 1] !in cs) ==> r == s
  {
    StripEnd(StripStart(s, cs), cs)
  }

  /** `Strip` removes characters of `cs` from the two ends and nothing else:
      its result is the infix of `s` between a prefix and a suffix made only
      of characters of `cs`. */
  lemma StripIsInfix(s: string, cs: set<char>)
    ensures exists i, j :: 0 <= i <= j <= |s| && Strip(s, cs) == s[i..j]
                           && (forall k :: 0 <= k < i ==> s[k] in cs)
                           && (forall k :: j <= k < |s| ==> s[k] in cs)
  {
    var t := StripStart(s, cs);
    var r := StripEnd(t, cs);
    var i := |s| - |t|;
    assert r == s[i..i + |r|];
    assert forall k :: i + |r| <= k < |s| ==> s[k] == t[k - i];
  }

  /** Python's `s.strip()`. */
  function Trim(s: string): string {
    Strip(s, Whitespace)
  }

  /** A string that `Trim` leaves alone. */
  predicate Trimmed(s: string) {
    s == [] || (s[0] !in Whitespace && s[|s| - 1] !in Whitespace)
  }

  /** Python's `s.split(sep)`: the pieces between occurrences of `sep`,
      including empty ones; there is always at least one piece. */
  function Split(s: string, sep: char): (parts: seq<string>)
    ensures |parts| >= 1
    decreases |s|
  {
    if s == [] then [[]]
    else
      var rest := Split(s[1..], sep);
      if s[0] == sep then [[]] + rest
      else [[s[0]] + rest[0]] + rest[1..]
  }

  /** No piece of a split contains the separator, and every character of a
      piece comes from the split string. */
  lemma {:induction false} SplitPieces(s: string, sep: char)
    ensures forall p :: p in Split(s, sep) ==> sep !in p
    ensures forall p, c :: p in Split(s, sep) && c in p ==> c in s
    decreases |s|
  {
    if s != [] {
      SplitPieces(s[1..], sep);
      var rest := Split(s[1..], sep);
      var parts := Split(s, sep);
      assert forall p :: p in parts ==> p in rest || p == [] || p == [s[0]] + rest[0] by {
        if s[0] == sep {
          assert parts == [[]] + rest;
        } else {
          assert parts == [[s[0]] + rest[0]] + rest[1..];
          assert forall p :: p in rest[1..] ==> p in rest;
        }
      }
      assert rest[0] in rest;
      assert forall c :: c in s[1..] ==> c in s;
    }
  }

  /** Python's `sep.join(parts)`. */
  function Join(parts: seq<string>, sep: char): string {
    if parts == [] then []
    else if |parts| == 1 then parts[0]
    else parts[0] + [sep] + Join(parts[1..], sep)
  }

  /** Joining the pieces of a split gives back the original string. */
  lemma {:induction false} JoinSplit(s: string, sep: char)
    ensures Join(Split(s, sep), sep) == s
    decreases |s|
  {
    if s != [] {
      var rest := Split(s[1..], sep);
      JoinSplit(s[1..], sep);
      if s[0] == sep {
        assert Split(s, sep)[1..] == rest;
      } else if |rest| > 1 {
        var parts := Split(s, sep);
        assert parts[1..] == rest[1..];
        assert Join(rest, sep) == rest[0] + [sep] + Join(rest[1..], sep);
        assert parts[0] + [sep] + Join(parts[1..], sep)
            == [s[0]] + (rest[0] + [sep] + Join(rest[1..], sep));
      }
    }
  }

  /** Splitting a string without `sep` yields that string alone. */
  lemma {:induction false} SplitWithoutSep(s: string, sep: char)
    requires sep !in s
    ensures Split(s, sep) == [s]
    decreases |s|
  {
    if s != [] {
      SplitWithoutSep(s[1..], sep);
      assert [s[0]] + s[1..] == s;
    }
  }

  /** Splitting distributes over a separator occurrence. */
  lemma {:induction false} SplitAround(a: string, sep: char, b: string)
    ensures Split(a + [sep] + b, sep) == Split(a, sep) + Split(b, sep)
    decreases |a|
  {
    var s := a + [sep] + b;
    if a == [] {
      assert s[1..] == b;
    } else {
      assert s[1..] == a[1..] + [sep] + b;
      SplitAround(a[1..], sep, b);
    }
  }

  /** `[x.strip() for x in lines if x.strip()]`. */
  function CleanLines(lines: seq<string>): (r: seq<string>)
    ensures |r| <= |lines|
    ensures forall x :: x in r ==> x != [] && Trimmed(x)
  {
    if lines == [] then []
    else
      var t := Trim(lines[0]);
      (if t == [] then [] else [t]) + CleanLines(lines[1..])
  }

  /** Cleaning keeps order: it distributes over concatenation. */
  lemma {:induction false} CleanLinesAppend(a: seq<string>, b: seq<string>)
    ensures CleanLines(a + b) == CleanLines(a) + CleanLines(b)
  {
    if a != [] {
      assert (a + b)[0] == a[0];
      assert (a + b)[1..] == a[1..] + b;
      CleanLinesAppend(a[1..], b);
      var head := if Trim(a[0]) == [] then [] else [Trim(a[0])];
      calc {
        CleanLines(a + b);
        head + CleanLines(a[1..] + b);
        head + (CleanLines(a[1..]) + CleanLines(b));
        (head + CleanLines(a[1..])) + CleanLines(b);
        CleanLines(a) + CleanLines(b);
      }
    } else {
      assert a + b == b;
    }
  }

  /** An element survives cleaning exactly when some line trims to it. */
  lemma {:induction false} CleanLinesMembers(lines: seq<string>, x: string)
    ensures x in CleanLines(lines) <==> x != [] && exists l :: l in lines && Trim(l) == x
  {
    if lines != [] {
      CleanLinesMembers(lines[1..], x);
      if x != [] && (exists l :: l in lines && Trim(l) == x) {
        var l :| l in lines && Trim(l) == x;
        if l != lines[0] {
          assert l in lines[1..];
        }
      }
      if x in CleanLines(lines[1..]) {
        var l :| l in lines[1..] && Trim(l) == x;
        assert l in lines;
      }
    }
  }

  /** The first element of `lines` that starts with `key`, as
      `next((ln for ln in lines if ln.startswith(key)), None)`. */
  function FirstWithPrefix(lines: seq<string>, key: string): Option<string>
    decreases |lines|
  {
    if lines == [] then None
    else if key <= lines[0] then Some(lines[0])
    else FirstWithPrefix(lines[1..], key)
  }

  /** `next((ln for ln in lines if ln.startswith(key)), None)` finds nothing
      exactly when no line starts with `key`, and otherwise the line at the
      first index that does. */
  lemma {:induction false} FirstWithPrefixIsFirst(lines: seq<string>, key: string)
    ensures var r := FirstWithPrefix(lines, key);
            && (r.None? <==> forall l :: l in lines ==> !(key <= l))
            && (r.Some? ==> exists i :: 0 <= i < |lines| && lines[i] == r.value && key <= r.value
                                        && forall j :: 0 <= j < i ==> !(key <= lines[j]))
    decreases |lines|
  {
    if lines == [] {
    } else if key <= lines[0] {
      assert lines[0] in lines;
    } else {
      FirstWithPrefixIsFirst(lines[1..], key);
      var r := FirstWithPrefix(lines[1..], key);
      if r.Some? {
        var i :| 0 <= i < |lines[1..]| && lines[1..][i] == r.value && key <= r.value
                 && forall j :: 0 <= j < i ==> !(key <= lines[1..][j]);
        assert lines[i + 1] == r.value && lines[i + 1] in lines;
      } else {
        assert forall l :: l in lines ==> l == lines[0] || l in lines[1..];
      }
    }
  }
}
