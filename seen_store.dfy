/** `read_seen` / `append_seen`: the newline-separated file of links that
    have already been posted. The file is modelled by its text, `None` when
    it does not exist. */
module SeenStore {

  import opened Options
  import opened Text

  /** `read_seen(file)`: the file's lines, trimmed, without the blank ones,
      in file order; no file reads as no links. */
  function ReadSeen(file: Option<string>): (seen: seq<string>)
    ensures file.None? ==> seen == []
    ensures forall x :: x in seen ==> x != [] && Trimmed(x)
  {
    match file
    case None => []
    case Some(text) => CleanLines(Split(text, '\n'))
  }

  /** The file text after `append_seen(file, link)`; append mode creates a
      missing file. */
  function Appended(file: Option<string>, link: string): (text: string)
    ensures |text| == |file.GetOr("")| + |link| + 1 && text[|text| - 1] == '\n'
  {
    file.GetOr("") + link + "\n"
  }

  /** Appending only adds at the end: the old text stays as a prefix and the
      link follows it, before the final newline. */
  lemma AppendKeepsText(file: Option<string>, link: string)
    ensures var before := file.GetOr(""); var text := Appended(file, link);
            before <= text && text[|before|..|text| - 1] == link
  {
  }

  /** A file text that is empty or whose last line is complete. */
  predicate EndsLine(text: string) {
    text == [] || text[|text| - 1] == '\n'
  }

  /** A link that reads back exactly as written: one non-blank line without
      surrounding whitespace. */
  predicate Storable(link: string) {
    link != [] && Trimmed(link) && '\n' !in link
  }

  /** Reading the lines of `link + "\n"` gives back just `link`. */
  lemma ReadOneLine(link: string)
    requires Storable(link)
    ensures CleanLines(Split(link + "\n", '\n')) == [link]
  {
    assert link + "\n" == link + ['\n'] + [];
    SplitAround(link, '\n', []);
    SplitWithoutSep(link, '\n');
    CleanLinesAppend([link], [[]]);
  }

  /** The cleaned lines of `t` + newline + `u` are those of `t` followed by
      those of `u`. */
  lemma CleanSplitAround(t: string, u: string)
    ensures CleanLines(Split(t + "\n" + u, '\n')) == CleanLines(Split(t, '\n')) + CleanLines(Split(u, '\n'))
  {
    assert t + "\n" + u == t + ['\n'] + u;
    SplitAround(t, '\n', u);
    CleanLinesAppend(Split(t, '\n'), Split(u, '\n'));
  }

  /** A final newline adds no line. */
  lemma LineEndAddsNothing(t: string)
    ensures CleanLines(Split(t + "\n", '\n')) == CleanLines(Split(t, '\n'))
  {
    assert t + "\n" == t + "\n" + [];
    CleanSplitAround(t, []);
    assert Split([], '\n') == [[]];
    assert CleanLines(Split([], '\n')) == [];
  }

  /** Appending a storable link after a complete line adds just that link. */
  lemma AppendAfterLine(t: string, link: string)
    requires Storable(link)
    ensures CleanLines(Split(t + "\n" + (link + "\n"), '\n')) == CleanLines(Split(t + "\n", '\n')) + [link]
  {
    ReadOneLine(link);
    CleanSplitAround(t, link + "\n");
    LineEndAddsNothing(t);
  }

  /** Appending a storable link to a file whose lines are complete makes the
      read list grow by exactly that link, at the end. */
  lemma AppendThenRead(file: Option<string>, link: string)
    requires file.Some? ==> EndsLine(file.value)
    requires Storable(link)
    ensures ReadSeen(Some(Appended(file, link))) == ReadSeen(file) + [link]
  {
    var text := file.GetOr("");
    if text == [] {
      ReadOneLine(link);
      assert Appended(file, link) == link + "\n";
      assert ReadSeen(file) == [] by {
        if file.Some? {
          assert Split(text, '\n') == [[]];
        }
      }
    } else {
      var t := text[..|text| - 1];
      assert text == t + "\n";
      assert Appended(file, link) == t + "\n" + (link + "\n");
      AppendAfterLine(t, link);
    }
  }

  /** Stripping the end of `t + w` removes exactly `w` when `w` is made of
      characters of `cs` and `t` does not end in one. */
  lemma {:induction false} StripEndDrops(t: string, w: string, cs: set<char>)
    requires t == [] || t[|t| - 1] !in cs
    requires forall c :: c in w ==> c in cs
    ensures StripEnd(t + w, cs) == t
    decreases |w|
  {
    if w == [] {
      assert t + w == t;
    } else {
      var u := t + w;
      assert u[|u| - 1] == w[|w| - 1] && w[|w| - 1] in w;
      assert u[..|u| - 1] == t + w[..|w| - 1];
      assert forall c :: c in w[..|w| - 1] ==> c in w;
      StripEndDrops(t, w[..|w| - 1], cs);
    }
  }

  /** A storable link padded with blanks other than a newline is still one
      line, is no longer trimmed, and trims back to the link. */
  lemma PaddedLink(link: string, w: string)
    requires Storable(link) && w != []
    requires forall c :: c in w ==> c in Whitespace && c != '\n'
    ensures '\n' !in link + w
    ensures Trim(link + w) == link
    ensures !Trimmed(link + w)
  {
    var s := link + w;
    assert s[0] == link[0];
    assert StripStart(s, Whitespace) == s;
    StripEndDrops(link, w, Whitespace);
    assert s[|s| - 1] == w[|w| - 1] && w[|w| - 1] in w;
  }

  /** Reading the lines of `s + "\n"`, for a one-line `s` that is not blank,
      gives back `s` trimmed. */
  lemma ReadPaddedLine(s: string)
    requires '\n' !in s && Trim(s) != []
    ensures CleanLines(Split(s + "\n", '\n')) == [Trim(s)]
  {
    assert s + "\n" == s + ['\n'] + [];
    SplitAround(s, '\n', []);
    SplitWithoutSep(s, '\n');
    CleanLinesAppend([s], [[]]);
  }

  /** A link with trailing whitespace is stored as written but read back
      trimmed, so the raw link never shows up in the read list. */
  lemma UntrimmedLinkReadsBackTrimmed(link: string, w: string)
    requires Storable(link) && w != []
    requires forall c :: c in w ==> c in Whitespace && c != '\n'
    ensures ReadSeen(Some(Appended(None, link + w))) == [link]
    ensures link + w !in ReadSeen(Some(Appended(None, link + w)))
  {
    PaddedLink(link, w);
    assert Appended(None, link + w) == (link + w) + "\n";
    ReadPaddedLine(link + w);
    assert |link + w| > |link|;
  }

  /** The seen file, as the script's `SEEN_FILE`. */
  class SeenFile {
    var file: Option<string>

    constructor (file: Option<string>)
      ensures this.file == file
    {
      this.file := file;
    }

    /** `read_seen(SEEN_FILE)`. */
    function Seen(): seq<string>
      reads this
    {
      ReadSeen(file)
    }

    /** `append_seen(SEEN_FILE, link)`: writes `link` and a newline at the
        end of the file, creating it if needed. */
    method Append(link: string)
      modifies this
      ensures file == Some(Appended(old(file), link))
      ensures (old(file).Some? ==> EndsLine(old(file).value)) && Storable(link)
              ==> Seen() == old(Seen()) + [link]
    {
      ghost var before := file;
      file := Some(Appended(file, link));
      if (before.Some? ==> EndsLine(before.value)) && Storable(link) {
        AppendThenRead(before, link);
      }
    }
  }
}
