/** `main` and the configuration it reads: one run of the bot, from the
    settings check to the record of the posted link. The outside world (the
    trending feed, the language model, Telegram) is a value handed in, and
    what the run does to it is returned as a trace of effects. */
module Run {

  import opened Options
  import opened Text
  import opened EnvFile
  import opened TrendingPick
  import opened SeenStore
  import opened Caption

  const BotTokenName: string := "TG_BOT_TOKEN"
  const ChannelIdName: string := "TG_CHANNEL_ID"
  const ApiKeyName: string := "DEEPSEEK_API_KEY"

  /** `BOT_TOKEN`, `CHANNEL_ID` and `DEEPSEEK_KEY`, each `None` when unset. */
  datatype Config = Config(botToken: Option<string>, channelId: Option<string>, apiKey: Option<string>)

  /** `os.getenv(name)`. */
  function GetEnv(env: map<string, string>, name: string): Option<string> {
    if name in env then Some(env[name]) else None
  }

  /** The three module-level settings, read from the environment. */
  function LoadConfig(env: map<string, string>): Config
  {
    Config(GetEnv(env, BotTokenName), GetEnv(env, ChannelIdName), GetEnv(env, ApiKeyName))
  }

  /** A setting counts as given when it is set and not empty (Python truth). */
  predicate Given(v: Option<string>) {
    v.Some? && v.value != []
  }

  /** The guard at the top of `main`. */
  predicate Complete(config: Config) {
    Given(config.botToken) && Given(config.channelId) && Given(config.apiKey)
  }

  /** A setting read after loading `.env` lines holds the last value those
      lines give it, and otherwise whatever the environment held before. */
  lemma SettingFromEnvFile(env: map<string, string>, lines: seq<string>, name: string)
    ensures GetEnv(ApplyEnvLines(env, lines), name)
            == match LastValue(lines, name)
               case Some(v) => Some(v)
               case None => GetEnv(env, name)
  {
    LastLineWins(env, lines, name);
  }

  /** A setting as the `.env` lines and the earlier environment decide it:
      the last value the lines give it, else the environment's. */
  function FileOrEnv(env: map<string, string>, lines: seq<string>, name: string): Option<string> {
    match LastValue(lines, name)
    case Some(v) => Some(v)
    case None => GetEnv(env, name)
  }

  /** The settings `main` sees after the `.env` lines were loaded: each is
      the last value the file gives it, else the earlier environment's. */
  lemma ConfigFromEnvFile(env: map<string, string>, lines: seq<string>)
    ensures LoadConfig(ApplyEnvLines(env, lines))
            == Config(FileOrEnv(env, lines, BotTokenName), FileOrEnv(env, lines, ChannelIdName),
                      FileOrEnv(env, lines, ApiKeyName))
  {
    SettingFromEnvFile(env, lines, BotTokenName);
    SettingFromEnvFile(env, lines, ChannelIdName);
    SettingFromEnvFile(env, lines, ApiKeyName);
  }

  /** What the outside world answers during one run: the trending feed
      (`None` when the request or its decoding failed), the language model's
      answer text (`""` on failure), and whether the first and the retried
      Telegram request are accepted. */
  datatype World = World(trending: Option<seq<Candidate>>, answer: string, firstSendOk: bool, retrySendOk: bool)

  /** What one run does to the outside world and to the seen file. A `Send`
      without a photo is a `sendMessage`, with one a `sendPhoto`. */
  datatype Effect =
    | FetchTrending
    | AskModel(apiKey: string, name: string)
    | Send(botToken: string, chat: string, caption: string, photo: Option<string>, delivered: bool)
    | Record(link: string)

  /** `photo or None`. */
  function PhotoArg(photo: string): Option<string> {
    if photo != [] then Some(photo) else None
  }

  /** What posting a pick needs: the settings, the repository name,
      whether the model is asked for a caption, the caption, the photo
      argument and the link to record. */
  datatype Post = Post(botToken: string, chat: string, apiKey: string, name: string, asked: bool,
                       caption: string, photo: Option<string>, link: string)

  /** The post for pick `p`: the caption is built by `ds_tool_intro`, which
      asks the model only for a non-blank name. */
  function PostOf(config: Config, world: World, p: Pick): Post
    requires Complete(config)
  {
    var chat := config.channelId.value;
    Post(config.botToken.value, chat, config.apiKey.value, p.name, Trim(p.name) != [],
         CaptionOf(p.name, world.answer, chat), PhotoArg(p.photo), p.link)
  }

  /** The model request, if any. */
  function AskEffects(post: Post): seq<Effect> {
    if post.asked then [AskModel(post.apiKey, post.name)] else []
  }

  /** The first send, and the text-only retry when it failed. */
  function SendEffects(post: Post, world: World): seq<Effect> {
    var first := Send(post.botToken, post.chat, post.caption, post.photo, world.firstSendOk);
    if world.firstSendOk then [first]
    else [first, Send(post.botToken, post.chat, post.caption, None, world.retrySendOk)]
  }

  /** The record of the link, once a send went through. */
  function RecordEffects(post: Post, world: World): seq<Effect> {
    if world.firstSendOk || world.retrySendOk then [Record(post.link)] else []
  }

  /** The effects of posting: the model request, the sends, the record. */
  function PostEffects(post: Post, world: World): seq<Effect> {
    AskEffects(post) + SendEffects(post, world) + RecordEffects(post, world)
  }

  /** What `main()` does at `hour`, as a trace, given the seen file's text. */
  function Effects(config: Config, hour: nat, world: World, file: Option<string>): seq<Effect>
    requires hour < 24
  {
    if !Complete(config) then []
    else if world.trending.None? || world.trending.value == [] then [FetchTrending]
    else match Selection(world.trending.value, ReadSeen(file), hour)
      case None => [FetchTrending]
      case Some(p) => [FetchTrending] + PostEffects(PostOf(config, world, p), world)
  }

  /** The trace of a run that picked `p`. */
  lemma EffectsOfPick(config: Config, hour: nat, world: World, file: Option<string>, p: Pick)
    requires hour < 24 && Complete(config)
    requires world.trending.Some? && world.trending.value != []
    requires Selection(world.trending.value, ReadSeen(file), hour) == Some(p)
    ensures Effects(config, hour, world, file) == [FetchTrending] + PostEffects(PostOf(config, world, p), world)
  {
  }

  /** The seen file after a run with `trace`: it changes only by the
      recorded link. */
  function FileAfter(trace: seq<Effect>, file: Option<string>): Option<string> {
    if trace != [] && trace[|trace| - 1].Record? then Some(Appended(file, trace[|trace| - 1].link)) else file
  }

  /** The sends of a trace, in order. */
  function Sends(trace: seq<Effect>): seq<Effect> {
    if trace == [] then []
    else (if trace[0].Send? then [trace[0]] else []) + Sends(trace[1..])
  }

  /** Collecting sends distributes over concatenation. */
  lemma {:induction false} SendsAppend(a: seq<Effect>, b: seq<Effect>)
    ensures Sends(a + b) == Sends(a) + Sends(b)
  {
    if a == [] {
      assert a + b == b;
    } else {
      assert (a + b)[0] == a[0];
      assert (a + b)[1..] == a[1..] + b;
      SendsAppend(a[1..], b);
    }
  }

  /** Some send in the trace went through. */
  predicate Delivered(trace: seq<Effect>) {
    exists i :: 0 <= i < |trace| && trace[i].Send? && trace[i].delivered
  }

  /** The trace records a link in the seen file. */
  predicate Recorded(trace: seq<Effect>) {
    exists i :: 0 <= i < |trace| && trace[i].Record?
  }

  /** Without all three settings the run does nothing: no request, no send,
      and the seen file is left as it was. */
  lemma MissingSettingDoesNothing(config: Config, hour: nat, world: World, file: Option<string>)
    requires hour < 24 && !Complete(config)
    ensures Effects(config, hour, world, file) == []
    ensures FileAfter(Effects(config, hour, world, file), file) == file
  {
  }

  /** Nothing is sent or recorded unless the feed gave a list and something
      not yet posted was picked from it. */
  lemma NothingPostedWithoutPick(config: Config, hour: nat, world: World, file: Option<string>)
    requires hour < 24
    requires world.trending.None? || world.trending.value == []
             || Selection(world.trending.value, ReadSeen(file), hour).None?
    ensures Effects(config, hour, world, file) == (if Complete(config) then [FetchTrending] else [])
  {
  }

  /** The sends of a post: one, or two when the first failed, the second
      without a photo; both carry the same caption to the same chat. */
  lemma PostSends(post: Post, world: World)
    ensures var s := Sends(PostEffects(post, world));
            && 1 <= |s| <= 2
            && s[0] == Send(post.botToken, post.chat, post.caption, post.photo, world.firstSendOk)
            && (|s| == 2 <==> !world.firstSendOk)
            && (|s| == 2 ==> s[1] == Send(post.botToken, post.chat, post.caption, None, world.retrySendOk))
  {
    var ask, sends, record := AskEffects(post), SendEffects(post, world), RecordEffects(post, world);
    SendsAppend(ask + sends, record);
    SendsAppend(ask, sends);
    assert Sends(ask) == [] && Sends(record) == [];
    if !world.firstSendOk {
      assert sends == [sends[0]] + [sends[1]];
      SendsAppend([sends[0]], [sends[1]]);
    }
  }

  /** A run sends at most twice; a second send happens only after the first
      failed, and it goes without a photo. */
  lemma AtMostOneRetry(config: Config, hour: nat, world: World, file: Option<string>)
    requires hour < 24
    ensures var s := Sends(Effects(config, hour, world, file));
            && |s| <= 2
            && (|s| == 2 ==> s[0].Send? && !s[0].delivered && s[1].Send? && s[1].photo.None?)
  {
    if Complete(config) && world.trending.Some? && world.trending.value != [] {
      var pick := Selection(world.trending.value, ReadSeen(file), hour);
      if pick.Some? {
        var post := PostOf(config, world, pick.value);
        SendsAppend([FetchTrending], PostEffects(post, world));
        PostSends(post, world);
      }
    }
  }

  /** Where the record of a post sits: it is the last effect, present
      exactly when some send went through, and it names the post's link. */
  lemma PostRecord(post: Post, world: World)
    ensures var e := PostEffects(post, world);
            && (Recorded(e) <==> Delivered(e))
            && (Recorded(e) ==> e[|e| - 1] == Record(post.link))
            && (forall i :: 0 <= i < |e| - 1 ==> !e[i].Record?)
  {
    var ask, sends, record := AskEffects(post), SendEffects(post, world), RecordEffects(post, world);
    var e := PostEffects(post, world);
    var n := |ask|;
    assert forall i :: 0 <= i < n ==> e[i].AskModel?;
    assert forall i :: n <= i < n + |sends| ==> e[i] == sends[i - n];
    if world.firstSendOk || world.retrySendOk {
      var k := if world.firstSendOk then n else n + 1;
      assert e[k].Send? && e[k].delivered;
      assert e[|e| - 1] == Record(post.link);
    } else {
      assert |e| == n + 2;
      assert forall i :: 0 <= i < |e| ==> !e[i].Record? && !(e[i].Send? && e[i].delivered);
    }
  }

  /** Prefixing an effect that is neither a send nor a record changes
      neither predicate. */
  lemma PrefixFetch(post: seq<Effect>)
    ensures Recorded([FetchTrending] + post) <==> Recorded(post)
    ensures Delivered([FetchTrending] + post) <==> Delivered(post)
  {
    var e := [FetchTrending] + post;
    assert forall i :: 1 <= i < |e| ==> e[i] == post[i - 1];
    if Recorded(e) {
      var i :| 0 <= i < |e| && e[i].Record?;
      assert post[i - 1].Record?;
    }
    if Delivered(e) {
      var i :| 0 <= i < |e| && e[i].Send? && e[i].delivered;
      assert post[i - 1].Send? && post[i - 1].delivered;
    }
    if Recorded(post) {
      var i :| 0 <= i < |post| && post[i].Record?;
      assert e[i + 1].Record?;
    }
    if Delivered(post) {
      var i :| 0 <= i < |post| && post[i].Send? && post[i].delivered;
      assert e[i + 1].Send? && e[i + 1].delivered;
    }
  }

  /** The seen file gains the picked link exactly when a send went through,
      and nothing else ever changes it. */
  lemma RecordIffDelivered(config: Config, hour: nat, world: World, file: Option<string>)
    requires hour < 24
    ensures var e := Effects(config, hour, world, file);
            && (Recorded(e) <==> Delivered(e))
            && (!Recorded(e) ==> FileAfter(e, file) == file)
            && (Recorded(e) ==> world.trending.Some?
                                && (exists p :: Selection(world.trending.value, ReadSeen(file), hour) == Some(p)
                                                && FileAfter(e, file) == Some(Appended(file, p.link))))
  {
    var e := Effects(config, hour, world, file);
    if !Complete(config) {
      MissingSettingDoesNothing(config, hour, world, file);
    } else if world.trending.None? || world.trending.value == []
              || Selection(world.trending.value, ReadSeen(file), hour).None? {
      NothingPostedWithoutPick(config, hour, world, file);
      assert e == [FetchTrending];
    } else {
      var p := Selection(world.trending.value, ReadSeen(file), hour).value;
      var post := PostOf(config, world, p);
      EffectsOfPick(config, hour, world, file, p);
      PostRecord(post, world);
      PrefixFetch(PostEffects(post, world));
      PostFileAfter(post, world, file);
      assert Recorded(e) <==> (world.firstSendOk || world.retrySendOk);
    }
  }

  /** A link recorded by a run is never picked again by a later run that
      reads the updated file, whatever the feed and the hour, provided the
      link is a single trimmed line and the file's last line was complete. */
  lemma PostedLinkNotPickedAgain(config: Config, hour: nat, world: World, file: Option<string>,
                                 data: seq<Candidate>, laterHour: nat)
    requires hour < 24 && laterHour < 24
    requires file.Some? ==> EndsLine(file.value)
    requires var e := Effects(config, hour, world, file);
             e != [] && e[|e| - 1].Record? && Storable(e[|e| - 1].link)
    ensures var e := Effects(config, hour, world, file);
            var later := Selection(data, ReadSeen(FileAfter(e, file)), laterHour);
            later.Some? ==> later.value.link != e[|e| - 1].link
  {
    RecordedLinkUnseen(Effects(config, hour, world, file), file, data, laterHour);
  }

  /** The same for any trace that ends by recording a link. */
  lemma RecordedLinkUnseen(e: seq<Effect>, file: Option<string>, data: seq<Candidate>, laterHour: nat)
    requires laterHour < 24
    requires file.Some? ==> EndsLine(file.value)
    requires e != [] && e[|e| - 1].Record? && Storable(e[|e| - 1].link)
    ensures var later := Selection(data, ReadSeen(FileAfter(e, file)), laterHour);
            later.Some? ==> later.value.link != e[|e| - 1].link
  {
    var link := e[|e| - 1].link;
    AppendThenRead(file, link);
    SelectionIsUnseen(data, ReadSeen(FileAfter(e, file)), laterHour);
  }

  /** The last effect of a posting run is its record exactly when a send
      went through, so that is when the seen file changes. */
  lemma PostFileAfter(post: Post, world: World, file: Option<string>)
    ensures FileAfter([FetchTrending] + PostEffects(post, world), file)
            == if world.firstSendOk || world.retrySendOk then Some(Appended(file, post.link)) else file
  {
    var e := [FetchTrending] + PostEffects(post, world);
    var sends := SendEffects(post, world);
    if world.firstSendOk || world.retrySendOk {
      assert e == [FetchTrending] + AskEffects(post) + sends + [Record(post.link)];
    } else {
      assert e == [FetchTrending] + AskEffects(post) + sends;
      assert e[|e| - 1] == sends[|sends| - 1];
    }
  }

  /** Posting a pick, from the model request to the record: the first
      send, the text-only retry when it failed, and the append of the link
      once either went through. */
  method Publish(post: Post, world: World, store: SeenFile) returns (effects: seq<Effect>)
    modifies store
    ensures effects == PostEffects(post, world)
    ensures store.file == if world.firstSendOk || world.retrySendOk
                          then Some(Appended(old(store.file), post.link)) else old(store.file)
  {
    effects := if post.asked then [AskModel(post.apiKey, post.name)] else [];
    var ok := world.firstSendOk;
    effects := effects + [Send(post.botToken, post.chat, post.caption, post.photo, ok)];
    if !ok {
      ok := world.retrySendOk;
      effects := effects + [Send(post.botToken, post.chat, post.caption, None, ok)];
    }
    assert effects == AskEffects(post) + SendEffects(post, world);
    if ok {
      store.Append(post.link);
      effects := effects + [Record(post.link)];
    }
  }

  /** `main()` at `hour`, with the outside world's answers passed in; the
      seen file is `store`. */
  method RunBot(config: Config, hour: nat, world: World, store: SeenFile) returns (trace: seq<Effect>)
    requires hour < 24
    modifies store
    ensures trace == Effects(config, hour, world, old(store.file))
    ensures store.file == FileAfter(trace, old(store.file))
  {
    trace := [];
    if !Complete(config) {
      MissingSettingDoesNothing(config, hour, world, old(store.file));
      return;
    }
    var token, chat, key := config.botToken.value, config.channelId.value, config.apiKey.value;
    trace := [FetchTrending];
    var data := world.trending;
    if data.None? || data.value == [] {
      NothingPostedWithoutPick(config, hour, world, old(store.file));
      return;
    }
    var seen := store.Seen();
    var pick := PickTrending(data.value, seen, hour);
    if pick.None? {
      NothingPostedWithoutPick(config, hour, world, old(store.file));
      return;
    }
    var p := pick.value;
    ghost var expected := Effects(config, hour, world, old(store.file));
    EffectsOfPick(config, hour, world, old(store.file), p);
    var caption, asked := DsToolIntro(p.name, world.answer, chat);
    var post := Post(token, chat, key, p.name, asked, caption, PhotoArg(p.photo), p.link);
    assert post == PostOf(config, world, p);
    assert expected == [FetchTrending] + PostEffects(post, world);
    PostFileAfter(post, world, old(store.file));
    var effects := Publish(post, world, store);
    trace := [FetchTrending] + effects;
  }
}
