/**
 * The `messageCreate` handler of `events/privIp.js`: for a message in a guild
 * whose config enables private-link blocking, find the first extracted link
 * the private-link classifier flags and carry out the configured action once.
 * The classifier (`utils/isPrivateLink`) is not part of this model and is a
 * parameter; what the handler does to the platform is returned as the list
 * of calls it makes, in order.
 */
module PrivIp {
  import opened Js
  import Configs
  import UrlScan

  /** The guild a message was posted in, with the ids in its channel cache. */
  datatype Guild = Guild(id: string, cachedChannels: set<string>)

  datatype Message = Message(
    authorIsBot: bool,
    authorId: string,
    guild: Option<Guild>,
    channelId: string,
    content: string)

  /** A call the handler makes: the config read, then the moderation calls. */
  datatype Effect =
    | LookupConfig(guildId: string)
    | DeleteMessage
    | WarnReply(userId: string)
    | LogSend(channelId: string, userId: string, sourceChannelId: string, link: string)

  /**
   * `guildConfig?.blockPrivateLinks` is truthy: a guild without a row, and a
   * row whose flag is `null` or `false`, leave the gate off.
   */
  predicate Enabled(cfg: Option<Configs.ConfigRow>): (r: bool)
    ensures cfg.None? ==> !r
    ensures cfg.Some? && cfg.value.blockPrivateLinks != Some(true) ==> !r
    ensures cfg.Some? && cfg.value.blockPrivateLinks == Some(true) ==> r
  {
    cfg.Some? && cfg.value.blockPrivateLinks == Some(true)
  }

  /** `guildConfig.blockPrivateLinksAction || 'warn'`: never empty, `warn` unless a non-empty action is stored. */
  function ActionOf(cfg: Configs.ConfigRow): (r: string)
    ensures r != ""
    ensures Truthy(cfg.blockPrivateLinksAction) ==> r == cfg.blockPrivateLinksAction.value
    ensures !Truthy(cfg.blockPrivateLinksAction) ==> r == "warn"
  {
    OrElse(cfg.blockPrivateLinksAction, "warn")
  }

  predicate Deletes(action: string) {
    action == "delete" || action == "delete_and_log"
  }

  /** The conditions under which the log embed is sent (the delete before it having succeeded). */
  predicate LogsTo(cfg: Configs.ConfigRow, g: Guild, deleteFails: bool) {
    ActionOf(cfg) == "delete_and_log" && Truthy(cfg.reportChannel) &&
    cfg.reportChannel.value in g.cachedChannels && !deleteFails
  }

  /** The log record for `url`. */
  function LogOf(cfg: Configs.ConfigRow, m: Message, url: string): Effect {
    LogSend(OrElse(cfg.reportChannel, ""), m.authorId, m.channelId, url)
  }

  /**
   * The calls made inside the `try` block for the flagged link `url`. A
   * failing delete throws, which the `catch` swallows, so nothing after it
   * runs; a failing reply or send has nothing after it to stop.
   */
  function Respond(cfg: Configs.ConfigRow, m: Message, g: Guild, url: string, deleteFails: bool): (r: seq<Effect>)
    ensures DeleteMessage in r <==> Deletes(ActionOf(cfg))
    ensures WarnReply(m.authorId) in r <==> ActionOf(cfg) == "warn"
    ensures LogOf(cfg, m, url) in r <==> LogsTo(cfg, g, deleteFails)
    ensures forall e :: e in r ==> e == DeleteMessage || e == WarnReply(m.authorId) || e == LogOf(cfg, m, url)
    ensures |r| <= 2 && (|r| == 2 ==> r == [DeleteMessage, LogOf(cfg, m, url)])
    ensures r == [] <==> !Deletes(ActionOf(cfg)) && ActionOf(cfg) != "warn"
  {
    var action := ActionOf(cfg);
    var deleted := if Deletes(action) then [DeleteMessage] else [];
    if Deletes(action) && deleteFails then deleted
    else
      var warned := if action == "warn" then [WarnReply(m.authorId)] else [];
      var logged := if LogsTo(cfg, g, deleteFails) then [LogOf(cfg, m, url)] else [];
      deleted + warned + logged
  }

  /**
   * `execute(message)`. Bots and messages outside a guild are ignored before
   * the config is read; a guild whose config is missing or does not enable
   * the gate gets nothing more; otherwise the first link in document order
   * that `isPrivateLink` flags, and only that one, is handled by `Respond`.
   */
  method Execute(m: Message, store: map<string, Configs.ConfigRow>, isPrivateLink: string -> bool, deleteFails: bool)
    returns (effects: seq<Effect>)
    ensures m.authorIsBot || m.guild.None? ==> effects == []
    ensures !m.authorIsBot && m.guild.Some? ==> effects != [] && effects[0] == LookupConfig(m.guild.value.id)
    ensures !m.authorIsBot && m.guild.Some? && !Enabled(Configs.Lookup(store, m.guild.value.id)) ==>
      effects == [LookupConfig(m.guild.value.id)]
    ensures (forall k :: 0 <= k < |UrlScan.Urls(m.content)| ==> !isPrivateLink(UrlScan.Urls(m.content)[k])) ==>
      |effects| <= 1
    ensures !m.authorIsBot && m.guild.Some? && Enabled(Configs.Lookup(store, m.guild.value.id)) ==>
      var urls := UrlScan.Urls(m.content);
      forall k :: 0 <= k < |urls| && isPrivateLink(urls[k]) && (forall j :: 0 <= j < k ==> !isPrivateLink(urls[j])) ==>
        effects == [LookupConfig(m.guild.value.id)] +
          Respond(store[m.guild.value.id], m, m.guild.value, urls[k], deleteFails)
  {
    if m.authorIsBot || m.guild.None? {
      return [];
    }
    var g := m.guild.value;
    effects := [LookupConfig(g.id)];
    var cfg := Configs.Lookup(store, g.id);
    if !Enabled(cfg) {
      return;
    }
    var row := cfg.value;
    var urls := UrlScan.Urls(m.content);
    for i := 0 to |urls|
      invariant forall j :: 0 <= j < i ==> !isPrivateLink(urls[j])
      invariant effects == [LookupConfig(g.id)]
    {
      if isPrivateLink(urls[i]) {
        var acts := Act(row, m, g, urls[i], deleteFails);
        effects := effects + acts;
        break;
      }
    }
  }

  /** The body of the `try` block for the flagged link `url`. */
  method Act(row: Configs.ConfigRow, m: Message, g: Guild, url: string, deleteFails: bool)
    returns (acts: seq<Effect>)
    ensures acts == Respond(row, m, g, url, deleteFails)
  {
    var action := OrElse(row.blockPrivateLinksAction, "warn");
    acts := [];
    if action == "delete" || action == "delete_and_log" {
      acts := acts + [DeleteMessage];
      if deleteFails {
        return;
      }
    }
    if action == "warn" {
      acts := acts + [WarnReply(m.authorId)];
    }
    if action == "delete_and_log" && Truthy(row.reportChannel) {
      if row.reportChannel.value in g.cachedChannels {
        acts := acts + [LogSend(row.reportChannel.value, m.authorId, m.channelId, url)];
      }
    }
  }

  /**
   * The action value `block-ip-mode` offers for "Delete + Log", `'delete-log'`,
   * is not one the gate knows: read as the gate's action it yields no call.
   */
  lemma DeleteLogSpellingDoesNothing(cfg: Configs.ConfigRow, m: Message, g: Guild, url: string, deleteFails: bool)
    requires cfg.blockPrivateLinksAction == Some("delete-log")
    ensures Respond(cfg, m, g, url, deleteFails) == []
  {
  }
}
