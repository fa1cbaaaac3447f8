# GitHub trending → caption → Telegram bot, modelled in Dafny

`trending_bot.py` is a one-shot bot, run once per scheduled invocation.
It does the following:

- loads `KEY=VALUE` settings from a `.env` file into the environment;
- reads three settings: the Telegram bot token, the channel id and the DeepSeek API key;
- fetches the daily GitHub trending list;
- picks the first repository not posted yet, probing sixteen positions from an offset that depends on the hour;
- asks a language model for a four-section Persian caption and rebuilds its link section locally with a canonical `https://github.com/...` link;
- sends the caption to the channel, first with the repository's avatar as a photo and, if that fails, once more as text only;
- appends the link to a seen file (`link.txt`) once a send went through.

The model has one module per concern:

| file | module | models |
|---|---|---|
| `options.dfy` | `Options` | the `Option` type standing for Python's `None` |
| `text.dfy` | `Text` | `str.strip`, `str.split`, `str.join`, `startswith`, the "trimmed non-blank lines" comprehension and `next(...)` over lines |
| `github_link.dfy` | `GithubLink` | `make_github_link` |
| `seen_store.dfy` | `SeenStore` | `read_seen` / `append_seen`; the file is the class `SeenFile`, whose `Append` method updates its text |
| `env_file.dfy` | `EnvFile` | `load_env_file`: a loop over the lines updating the environment map, proved against a fold over the lines |
| `trending_pick.dfy` | `TrendingPick` | `pick_trending`: the probing loop, proved against a recursive selection function |
| `caption.dfy` | `Caption` | `ds_tool_intro`: the loop over the four keys and the link section, proved against a caption function |
| `run.dfy` | `Run` | the three settings and `main` |

Some inputs come from outside the program and are passed in as parameters:

- the hour of day;
- the environment before the `.env` file is read;
- the text of the `.env` file and of the seen file, `None` when the file does not exist;
- the model's answer, `""` when the request or its decoding failed;
- the trending feed, `None` when the request failed.

The outcomes of the Telegram requests are booleans in a `World` value.
`Run.RunBot` returns what the run does as a trace of effects: fetch, ask the model, send, record.
It changes the `SeenFile` it is given.

Behaviour worth noting:

- When the model's answer is missing, each of the first three sections is its key followed by a space, and the fourth is still the locally built link section (`Caption.FailedAnswerCaption`).
- For a blank name, the caption is the four keys alone, with no link and no channel tag (`Caption.BlankNameCaption`).
- Only a full URL is cut down to its last two segments. A bare name loses only its leading and trailing `/`, so `a/b/c` stays `a/b/c`. Applying the link function twice reads `github.com` as the owner (`GithubLink.NotIdempotent`).
- The first send always happens, with the photo when the avatar is non-empty. The retry is always text only, so a repository without an avatar is sent as text twice when the first send fails.
- A failed send ends the run. The run does not go on to the next candidate.

## Model

| member | source | states |
|---|---|---|
| Text.Strip | trending_bot.py:104 | `strip(chars)`: never longer than its input, never starts or ends with a stripped character, only holds characters of the input, and leaves alone a string with nothing to strip |
| Text.StripIsInfix | trending_bot.py:104 | `strip(chars)` returns the infix of its input left once a prefix and a suffix made only of stripped characters are removed |
| Text.SplitPieces | trending_bot.py:96 | no piece of `s.split(sep)` contains `sep`, and every character of a piece comes from `s` |
| Text.JoinSplit | trending_bot.py:31 | joining the pieces of a split with the separator gives back the original line |
| Text.CleanLines | trending_bot.py:83 | `[x.strip() for x in lines if x.strip()]` keeps at most as many lines, each non-empty and already trimmed |
| Text.CleanLinesMembers | trending_bot.py:83 | a string survives cleaning exactly when it is non-empty and some line trims to it |
| Text.CleanLinesAppend | trending_bot.py:165 | cleaning keeps line order: it distributes over concatenation |
| Text.FirstWithPrefixIsFirst | trending_bot.py:169 | `next(ln for ln in lines if ln.startswith(k))` finds nothing exactly when no line starts with `k`, and otherwise returns the line at the first index that does |
| GithubLink.NonEmpty | trending_bot.py:97 | `[p for p in parts if p]` holds exactly the non-empty parts |
| GithubLink.Segments | trending_bot.py:96-97 | the URL's segments are non-empty, contain no `/`, and hold only characters of the URL |
| GithubLink.LinkPath | trending_bot.py:92-104 | the path after the host never starts or ends with `/` and holds only characters of the trimmed name and `/` |
| GithubLink.MakeGithubLink | trending_bot.py:91-104 | the link always starts with `https://github.com/`; its path never starts or ends with `/` and holds only characters of the name and `/` |
| GithubLink.LinkOneLine | trending_bot.py:91-104 | the link of a one-line name is one line |
| GithubLink.SchemeIsFirstSegment | trending_bot.py:95-103 | a URL always has at least one segment, its scheme, so the `len(seg) == 0` branch is unreachable |
| GithubLink.UrlKeepsLastTwoSegments | trending_bot.py:95-99 | any `http(s)://.../owner/repo[/]` becomes exactly `https://github.com/owner/repo` |
| GithubLink.PlainNameUnderHost | trending_bot.py:104 | a bare trimmed `owner/repo` is put under the host unchanged |
| GithubLink.BareNameUnderHost | trending_bot.py:104 | a bare trimmed name without `/` is put under the host unchanged |
| GithubLink.BlankNameGivesHost | trending_bot.py:92-94 | every empty or whitespace-only name gives the bare host |
| GithubLink.NotIdempotent | trending_bot.py:91-104 | applying the link function to its own output for a bare name `n` gives `https://github.com/github.com/n` |
| SeenStore.ReadSeen | trending_bot.py:80-83 | a missing file reads as no links; every link read is non-empty and trimmed |
| SeenStore.Appended | trending_bot.py:86-88 | the new text is one character longer than the old text and the link together, and ends with a newline; a missing file counts as empty |
| SeenStore.AppendKeepsText | trending_bot.py:87-88 | appending keeps the old text as a prefix and puts the link right after it, before the final newline |
| SeenStore.AppendThenRead | trending_bot.py:80-88 | if the file ends with a complete line, appending a one-line trimmed link makes the read list grow by exactly that link, at the end |
| SeenStore.UntrimmedLinkReadsBackTrimmed | trending_bot.py:80-88 | any one-line trimmed link followed by blanks (other than a newline) is stored as written but read back trimmed, so the raw link is never in the read list |
| SeenStore.SeenFile.Append | trending_bot.py:86-88 | the file's new text is the old text plus the link and a newline; for a storable link after a complete line the read list grows by that link |
| EnvFile.SplitAtFirstEquals | trending_bot.py:31 | `split("=", 1)`: the name part holds no `=`, and name, `=` and value give back the line |
| EnvFile.ParseEnvLine | trending_bot.py:25-33 | a line sets nothing exactly when, once trimmed, it is blank, starts with `#` or has no `=`; otherwise it sets an `=`-free trimmed name to a trimmed value |
| EnvFile.ParsedLineSplit | trending_bot.py:31-33 | a line that sets something sets the trimmed text before its first `=` to the trimmed text after it |
| EnvFile.ParseWrittenLine | trending_bot.py:25-33 | a line written as `name=value` reads back as that pair, even when the value holds more `=` |
| EnvFile.LastLineWins | trending_bot.py:24-34 | after loading, a name has the value of the last line that sets it; a name no line sets keeps its previous value or stays unset |
| EnvFile.LoadEnvFile | trending_bot.py:17-35 | a missing file leaves the environment unchanged; otherwise the result is the lines applied in order |
| TrendingPick.DisplayName | trending_bot.py:118 | the display name never starts or ends with `/` |
| TrendingPick.Offset | trending_bot.py:112 | the start offset lies between -1 and 15 |
| TrendingPick.ProbeIndex | trending_bot.py:115 | every probe, including the wrapped offset -1, indexes inside the list |
| TrendingPick.SelectFromIsFirstEligible | trending_bot.py:114-123 | the pick is the candidate at the first of the sixteen probes with a non-empty unseen link, and nothing is picked exactly when no probe finds one |
| TrendingPick.SelectionIsUnseen | trending_bot.py:108-123 | empty data gives nothing; a pick has a non-empty link not in `seen` and comes from a candidate of the data |
| TrendingPick.PickTrending | trending_bot.py:108-123 | the loop returns the selection, whose link is non-empty and unseen |
| Caption.ResponseLinesOneLine | trending_bot.py:165 | the answer's cleaned lines hold no line break |
| Caption.SectionShape | trending_bot.py:168-170 | each section starts with its key and is either an answer line or the key followed by a space |
| Caption.ReplaceLinkSection | trending_bot.py:172 | overwriting the fourth section with the locally built link section gives the caption's sections |
| Caption.DsToolIntro | trending_bot.py:126-173 | the model is asked exactly when the name is not blank, and the caption is the caption function of name, answer and channel |
| Caption.CaptionIsJoin | trending_bot.py:173 | unfolds the definition of the caption: for a non-blank name the caption is the four sections joined by newlines |
| Caption.BlankNameCaption | trending_bot.py:127-128 | unfolds the definition of the caption: a blank name gives the fixed four-key caption whatever the answer |
| Caption.FailedAnswerCaption | trending_bot.py:159-173 | with no answer, the first three sections are `key + " "` and the link section is still built |
| Caption.SectionsEndWithFooter | trending_bot.py:172-173 | the joined caption always ends with the link section: link key, link, channel tag |
| Caption.FooterLines | trending_bot.py:172 | the link section is three lines: the link key, the link and the channel tag |
| Caption.SectionsLayout | trending_bot.py:165-173 | one-line inputs give exactly six caption lines: three sections starting with their keys, then the link key, the link and the channel tag |
| Caption.CaptionLayout | trending_bot.py:126-173 | for a one-line non-blank name and channel id the caption is exactly six lines, in that order, with the canonical link on the fifth |
| Run.ConfigFromEnvFile | trending_bot.py:37-42 | after the `.env` lines are loaded, each of the three settings is the last value the lines give it, or else the earlier environment's value, or unset |
| Run.SettingFromEnvFile | trending_bot.py:37-42 | a setting read after loading `.env` is the last value the file gives it, else the previous environment's |
| Run.EffectsOfPick | trending_bot.py:205-213 | unfolds the definition of the trace: a run that picked `p` fetches and then posts `p` |
| Run.MissingSettingDoesNothing | trending_bot.py:196-198 | unfolds the definition of the trace: without all three settings the run has no effect and the seen file is unchanged |
| Run.NothingPostedWithoutPick | trending_bot.py:200-209 | unfolds the definition of the trace: with no feed, an empty feed or nothing to pick, the run only fetches |
| Run.PostSends | trending_bot.py:215-217 | posting sends once, or twice exactly when the first send failed; the second send has no photo and the same caption and chat |
| Run.AtMostOneRetry | trending_bot.py:215-217 | a run sends at most twice, and a second send follows a failed first one and carries no photo |
| Run.PostRecord | trending_bot.py:215-220 | posting records the link exactly when a send went through; the record is the last effect and names the pick's link |
| Run.RecordIffDelivered | trending_bot.py:215-220 | a run records exactly when a send went through; without a record the seen file is unchanged, and with one the file gains the picked link |
| Run.PostFileAfter | trending_bot.py:219-220 | after posting, the file gains the link exactly when one of the two sends went through |
| Run.RecordedLinkUnseen | trending_bot.py:205-206 | once a storable link is recorded after a complete line, no later selection picks it |
| Run.PostedLinkNotPickedAgain | trending_bot.py:205-220 | a link posted by one run is never picked by a later run reading the updated file, whatever the feed and the hour |
| Run.Publish | trending_bot.py:213-220 | the posting effects are the model request, the sends and the record; the file gains the link exactly when a send went through |
| Run.RunBot | trending_bot.py:195-223 | the run's trace is the trace function of settings, hour, world and file, and the seen file afterwards is the one that trace leaves |

## Left out

- HTTP, JSON and Telegram transport (`http_json_get`, `http_json_post`, `telegram_send`) are not modelled. Their results are inputs: the feed as `Option<seq<Candidate>>`, the model's answer as text, and each send's success as a boolean.
- The DeepSeek request payload (prompt, model name, sampling settings) and the exact Telegram endpoints and form fields are not modelled. A `Send` effect records whether a photo goes with the caption.
- `datetime.now()` is not modelled; the hour is a parameter in 0..23.
- The filesystem is not modelled. Each file is its text, or `None` when missing, and `.env` discovery next to the script is left to the caller.
- `print` output, including the `DEBUG` lines, is not modelled.
- A feed that is a non-empty JSON value but not a list is not modelled, and neither are items that are not dictionaries. Missing dictionary fields are read as `""`, and so are `None` values of `url`, `href` and `avatar`.
- TrendingPick.DisplayName: a JSON `null` `author` or `name` becomes the text `None` in `f"{author}/{name}"`, but the model reads it as `""`.
- Caption.DsToolIntro: a JSON `null` message content makes `text` equal `None`, and `text.splitlines()` then raises outside the `try`, so the real run crashes before any send. The model always has answer text, so it goes on with placeholder sections.
- Text.Trim: `str.strip()` removes all Unicode whitespace, but the model removes only the six ASCII whitespace characters.
- Text.Split: `str.splitlines()` is modelled as splitting on `\n` only. It ignores `\r\n`, `\r` and the other Unicode line breaks.
- EnvFile.LoadEnvFile: requires that no line sets an empty name, because `os.environ[""] = value` raises in the source and the model does not carry that exception.
- Run.PostedLinkNotPickedAgain: proved only for a link that is one trimmed non-empty line, appended to a file whose last line is complete. `SeenStore.UntrimmedLinkReadsBackTrimmed` shows why: the read side trims links but the write side does not.
- Caption.SectionsLayout and Caption.CaptionLayout: the six-line layout is stated only when the name and the channel id hold no line break.
- Run.RunBot: the module-level settings are a `Config` value read by `Run.LoadConfig`, and `main` is given that value rather than reading globals.
