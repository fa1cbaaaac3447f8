/** `ds_tool_intro`: builds the four-section Persian caption from the
    language model's answer, with the link section always rebuilt locally. */
module Caption {

  import opened Options
  import opened Text
  import opened GithubLink

  /** "Introducing a new tool:" */
  const TitleKey: string := "معرفی ابزار جدید:"
  /** "Description:" */
  const DescriptionKey: string := "توضیحات:"
  /** "Category:" */
  const CategoryKey: string := "دسته بندی:"
  /** "GitHub link:" */
  const LinkKey: string := "لینک گیت هاب:"
  /** The section keys, in caption order. */
  const Keys: seq<string> := [TitleKey, DescriptionKey, CategoryKey, LinkKey]
  /** The marker put before the channel id on the last line. */
  const ChannelMarker: string := "🆔 "

  /** The caption for a blank name: the four keys, one per line. */
  const BlankCaption: string := TitleKey + "\n" + DescriptionKey + "\n" + CategoryKey + "\n" + LinkKey

  /** No key and no part of the channel tag spans a line break. */
  lemma KeysOneLine()
    ensures '\n' !in TitleKey && '\n' !in DescriptionKey && '\n' !in CategoryKey
    ensures '\n' !in LinkKey && '\n' !in ChannelMarker
  {
  }

  /** The trimmed non-empty lines of the model's answer. */
  function ResponseLines(text: string): seq<string> {
    CleanLines(Split(text, '\n'))
  }

  /** The answer's lines hold no line break. */
  lemma ResponseLinesOneLine(text: string)
    ensures forall l :: l in ResponseLines(text) ==> '\n' !in l
  {
    var parts := Split(text, '\n');
    SplitPieces(text, '\n');
    forall x | x in CleanLines(parts)
      ensures '\n' !in x
    {
      CleanLinesMembers(parts, x);
    }
  }

  /** `found or (key + " ")`: the first answer line starting with `key`,
      else the key followed by a space. */
  function Section(lines: seq<string>, key: string): string {
    var found := FirstWithPrefix(lines, key);
    if found.Some? && found.value != [] then found.value else key + " "
  }

  /** A section always starts with its key, and it is one of the answer's
      lines or the key and a space, so it is a single line when they are. */
  lemma SectionShape(lines: seq<string>, key: string)
    ensures key <= Section(lines, key)
    ensures Section(lines, key) in lines || Section(lines, key) == key + " "
    ensures (forall l :: l in lines ==> '\n' !in l) && '\n' !in key ==> '\n' !in Section(lines, key)
  {
    FirstWithPrefixIsFirst(lines, key);
    var found := FirstWithPrefix(lines, key);
    if found.Some? {
      var i :| 0 <= i < |lines| && lines[i] == found.value && key <= found.value
               && forall j :: 0 <= j < i ==> !(key <= lines[j]);
      assert found.value in lines;
    }
  }

  /** The link section: the canonical link and the channel id, never taken
      from the model's answer. */
  function Footer(link: string, channelId: string): string {
    LinkKey + "\n" + link + "\n" + ChannelMarker + channelId
  }

  /** The four sections for a non-blank name, in caption order. */
  function Sections(lines: seq<string>, link: string, channelId: string): seq<string> {
    [Section(lines, TitleKey), Section(lines, DescriptionKey), Section(lines, CategoryKey),
     Footer(link, channelId)]
  }

  /** What `ds_tool_intro(name, ...)` returns when the model answered
      `responseText` (`""` when the request or its decoding failed). */
  function CaptionOf(name: string, responseText: string, channelId: string): string {
    if Trim(name) == [] then BlankCaption
    else Join(Sections(ResponseLines(responseText), MakeGithubLink(name), channelId), '\n')
  }

  /** `"\n".join` of four parts. */
  lemma JoinFour(a: string, b: string, c: string, d: string)
    ensures Join([a, b, c, d], '\n') == a + "\n" + (b + "\n" + (c + "\n" + d))
  {
    assert [b, c, d][1..] == [c, d];
    assert [a, b, c, d][1..] == [b, c, d];
    assert Join([c, d], '\n') == c + "\n" + d;
    assert Join([b, c, d], '\n') == b + "\n" + Join([c, d], '\n');
  }

  /** For a non-blank name the caption is the four sections joined by
      newlines. */
  lemma CaptionIsJoin(name: string, responseText: string, channelId: string)
    requires Trim(name) != []
    ensures CaptionOf(name, responseText, channelId)
            == Join(Sections(ResponseLines(responseText), MakeGithubLink(name), channelId), '\n')
  {
  }

  /** Overwriting the last of the per-key sections with the link section
      gives the caption's four sections. */
  lemma ReplaceLinkSection(lines: seq<string>, clean: seq<string>, link: string, channelId: string)
    requires |clean| == |Keys|
    requires forall j :: 0 <= j < |Keys| ==> clean[j] == Section(lines, Keys[j])
    ensures clean[3 := Footer(link, channelId)] == Sections(lines, link, channelId)
  {
    assert clean[0] == Section(lines, TitleKey) && clean[1] == Section(lines, DescriptionKey)
        && clean[2] == Section(lines, CategoryKey) by {
      assert Keys[0] == TitleKey && Keys[1] == DescriptionKey && Keys[2] == CategoryKey;
    }
  }

  /** `ds_tool_intro(name, api_key)` with the model's answer passed in;
      `asked` tells whether the model is asked at all. */
  method DsToolIntro(name: string, responseText: string, channelId: string) returns (caption: string, asked: bool)
    ensures asked <==> Trim(name) != []
    ensures caption == CaptionOf(name, responseText, channelId)
  {
    if Trim(name) == [] {
      return BlankCaption, false;
    }
    asked := true;
    var lines := CleanLines(Split(responseText, '\n'));
    var clean: seq<string> := [];
    for k := 0 to |Keys|
      invariant |clean| == k
      invariant forall j :: 0 <= j < k ==> clean[j] == Section(lines, Keys[j])
    {
      var found := FirstWithPrefix(lines, Keys[k]);
      clean := clean + [if found.Some? && found.value != [] then found.value else Keys[k] + " "];
    }
    var link := MakeGithubLink(name);
    ReplaceLinkSection(lines, clean, link, channelId);
    clean := clean[3 := Footer(link, channelId)];
    caption := Join(clean, '\n');
    CaptionIsJoin(name, responseText, channelId);
  }

  /** A blank name gives the fixed four-key caption, whatever the answer. */
  lemma BlankNameCaption(name: string, responseText: string, channelId: string)
    requires Trim(name) == []
    ensures CaptionOf(name, responseText, channelId) == BlankCaption
  {
  }

  /** Without an answer, the first three sections are their placeholders
      (the title does not carry the repository name) and the link section
      is still built. */
  lemma FailedAnswerCaption(name: string, channelId: string)
    requires Trim(name) != []
    ensures CaptionOf(name, "", channelId)
            == Join([TitleKey + " ", DescriptionKey + " ", CategoryKey + " ",
                     Footer(MakeGithubLink(name), channelId)], '\n')
  {
    assert Split("", '\n') == [[]];
    assert ResponseLines("") == [];
  }

  /** `a + "\n" + (b + "\n" + (c + "\n" + f))` ends with `f`. */
  lemma EndsWithLast(a: string, b: string, c: string, f: string)
    ensures var t := a + "\n" + (b + "\n" + (c + "\n" + f));
            |f| < |t| && t[|t| - |f|..] == f
  {
    var t2 := c + "\n" + f;
    var t1 := b + "\n" + t2;
    var t0 := a + "\n" + t1;
    assert t2[|t2| - |f|..] == f;
    assert t1[|t1| - |f|..] == t2[|t2| - |f|..];
    assert t0[|t0| - |f|..] == t1[|t1| - |f|..];
  }

  /** Joining the four sections leaves the link section at the end: with
      `CaptionIsJoin`, every caption for a non-blank name ends with the
      locally built link section, whatever the model answered. */
  lemma SectionsEndWithFooter(lines: seq<string>, link: string, channelId: string)
    ensures var c := Join(Sections(lines, link, channelId), '\n');
            var f := Footer(link, channelId);
            |f| < |c| && c[|c| - |f|..] == f
  {
    var s := Sections(lines, link, channelId);
    JoinFour(s[0], s[1], s[2], s[3]);
    EndsWithLast(s[0], s[1], s[2], s[3]);
  }

  /** Three one-line strings joined by newlines split back into the three. */
  lemma SplitThree(a: string, b: string, c: string)
    requires '\n' !in a && '\n' !in b && '\n' !in c
    ensures Split(a + "\n" + b + "\n" + c, '\n') == [a, b, c]
  {
    assert a + "\n" + b + "\n" + c == a + ['\n'] + (b + ['\n'] + c);
    SplitWithoutSep(c, '\n');
    SplitAround(b, '\n', c);
    SplitWithoutSep(b, '\n');
    SplitAround(a, '\n', b + ['\n'] + c);
    SplitWithoutSep(a, '\n');
  }

  /** The lines of the link section. */
  lemma FooterLines(link: string, channelId: string)
    requires '\n' !in link && '\n' !in channelId
    ensures Split(Footer(link, channelId), '\n') == [LinkKey, link, ChannelMarker + channelId]
  {
    KeysOneLine();
    assert '\n' !in ChannelMarker + channelId;
    assert Footer(link, channelId) == LinkKey + "\n" + link + "\n" + (ChannelMarker + channelId);
    SplitThree(LinkKey, link, ChannelMarker + channelId);
  }

  /** `a + "\n" + (b + "\n" + (c + "\n" + f))` splits into the lines of
      `a`, `b`, `c` and `f`, when `a`, `b` and `c` are single lines. */
  lemma SplitFourParts(a: string, b: string, c: string, f: string)
    requires '\n' !in a && '\n' !in b && '\n' !in c
    ensures Split(a + "\n" + (b + "\n" + (c + "\n" + f)), '\n') == [a, b, c] + Split(f, '\n')
  {
    SplitAround(c, '\n', f);
    SplitWithoutSep(c, '\n');
    SplitAround(b, '\n', c + "\n" + f);
    SplitWithoutSep(b, '\n');
    SplitAround(a, '\n', b + "\n" + (c + "\n" + f));
    SplitWithoutSep(a, '\n');
  }

  /** Three single-line sections and a one-line link and channel id give
      six lines: the sections, the link key, the link and the channel tag. */
  lemma {:induction false} SectionsLayout(lines: seq<string>, link: string, channelId: string)
    requires forall l :: l in lines ==> '\n' !in l
    requires '\n' !in link && '\n' !in channelId
    ensures var out := Split(Join(Sections(lines, link, channelId), '\n'), '\n');
            && |out| == 6
            && TitleKey <= out[0] && DescriptionKey <= out[1] && CategoryKey <= out[2]
            && out[3] == LinkKey && out[4] == link && out[5] == ChannelMarker + channelId
  {
    var s := Sections(lines, link, channelId);
    KeysOneLine();
    SectionShape(lines, TitleKey);
    SectionShape(lines, DescriptionKey);
    SectionShape(lines, CategoryKey);
    JoinFour(s[0], s[1], s[2], s[3]);
    FooterLines(link, channelId);
    SplitFourParts(s[0], s[1], s[2], s[3]);
  }

  /** For a name and channel id on one line, the caption is exactly six
      lines: title, description and category sections (each starting with
      its key), the link key, the canonical link and the channel tag. */
  lemma CaptionLayout(name: string, responseText: string, channelId: string)
    requires Trim(name) != [] && '\n' !in name && '\n' !in channelId
    ensures var out := Split(CaptionOf(name, responseText, channelId), '\n');
            && |out| == 6
            && TitleKey <= out[0] && DescriptionKey <= out[1] && CategoryKey <= out[2]
            && out[3] == LinkKey && out[4] == MakeGithubLink(name) && out[5] == ChannelMarker + channelId
  {
    LinkOneLine(name);
    ResponseLinesOneLine(responseText);
    CaptionIsJoin(name, responseText, channelId);
    SectionsLayout(ResponseLines(responseText), MakeGithubLink(name), channelId);
  }
}
