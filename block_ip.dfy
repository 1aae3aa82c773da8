/**
 * The `block-ip-mode` command of `slashCommands/info/blockip.js`: who may run
 * it, the mode write made by the enable/disable buttons, and the two advanced
 * settings (custom CIDR ranges, restricted channels). The config row read
 * when the command starts is a snapshot the later steps keep using; the table
 * itself is the shared `Configs.ConfigTable`.
 */
module BlockIp {
  import opened Js
  import Json
  import Configs
  import PrivIp

  /** `Array.isArray(config?.adminUserIds) ? … : JSON.parse(config?.adminUserIds || '[]')`; `None` when the parse throws. */
  function AdminIds(config: Option<Configs.ConfigRow>): (r: Option<seq<string>>)
    ensures config.Some? && config.value.adminUserIds.Native? ==> r == Some(config.value.adminUserIds.items)
    ensures config.None? || !Configs.ListTruthy(config.value.adminUserIds) ==> r == Some([])
    ensures config.Some? && config.value.adminUserIds.Text? && config.value.adminUserIds.raw != "" ==>
      r == Json.Parse(config.value.adminUserIds.raw)
  {
    if config.Some? && config.value.adminUserIds.Native? then
      Some(config.value.adminUserIds.items)
    else
      var text := if config.Some? then Configs.ListOrEmpty(config.value.adminUserIds) else Configs.Text("[]");
      assert text.Text?;
      var r := Json.Parse(text.raw);
      assert text.raw == "[]" ==> r == Some([]) by {
        if text.raw == "[]" {
          assert Json.SkipSpace("[]") == "[]";
          assert Json.SkipSpace("]") == "]";
          assert Json.SkipSpace("") == "";
        }
      }
      r
  }

  /** The invoking member: the user id and the roles in the member's cache. */
  datatype Member = Member(userId: string, roles: set<string>)

  /**
   * Owner, holder of the configured admin role, or listed admin user. The
   * role test needs a truthy role id, so an empty stored role grants nothing.
   */
  predicate Authorized(ownerId: string, member: Member, config: Option<Configs.ConfigRow>, ids: seq<string>): (r: bool)
    ensures member.userId == ownerId ==> r
    ensures member.userId in ids ==> r
    ensures config.Some? && Truthy(config.value.adminRoleId) && config.value.adminRoleId.value in member.roles ==> r
    ensures config.None? || !Truthy(config.value.adminRoleId) ==>
      (r <==> member.userId == ownerId || member.userId in ids)
  {
    member.userId == ownerId ||
    (config.Some? && Truthy(config.value.adminRoleId) && config.value.adminRoleId.value in member.roles) ||
    member.userId in ids
  }

  datatype Start = ParseThrew | NotAuthorized | ShowActions(ids: seq<string>)

  /**
   * The start of `run`: the admin list is parsed before anything is checked,
   * so a stored list that does not parse fails the command even for the
   * guild owner; otherwise an unauthorized member is refused and an
   * authorized one is shown the action menu.
   */
  function StartCommand(ownerId: string, member: Member, config: Option<Configs.ConfigRow>): (r: Start)
    ensures r == ParseThrew <==> AdminIds(config).None?
    ensures r == NotAuthorized <==>
      AdminIds(config).Some? && !Authorized(ownerId, member, config, AdminIds(config).value)
    ensures r.ShowActions? <==>
      AdminIds(config).Some? && Authorized(ownerId, member, config, AdminIds(config).value)
    ensures r.ShowActions? ==> r.ids == AdminIds(config).value
  {
    match AdminIds(config)
    case None => ParseThrew
    case Some(ids) => if Authorized(ownerId, member, config, ids) then ShowActions(ids) else NotAuthorized
  }

  /** A guild with no row, or a row without admin data, admits exactly its owner. */
  lemma NoAdminsOnlyOwner(ownerId: string, member: Member, config: Option<Configs.ConfigRow>)
    requires config.None? ||
      (!Configs.ListTruthy(config.value.adminUserIds) && !Truthy(config.value.adminRoleId))
    ensures StartCommand(ownerId, member, config).ShowActions? <==> member.userId == ownerId
  {
    assert AdminIds(config) == Some([]);
  }

  /** The values of the action menu, in order. */
  const ActionValues: seq<string> := ["warn", "delete", "delete-log"]

  /**
   * The gate knows `warn`, `delete` and `delete_and_log`; the menu's third
   * value is spelled `delete-log`, which the gate treats as no action.
   */
  lemma ActionValuesAgainstGate()
    ensures forall a :: a in ActionValues ==> (PrivIp.Deletes(a) || a == "warn" <==> a != "delete-log")
  {
  }

  /** Which button was pressed: only the exact id `enable_blocking` enables. */
  datatype Press = OpenAdvanced | WriteMode(enabled: bool)

  function Classify(customId: string): (p: Press)
    ensures p == OpenAdvanced <==> customId == "advanced_config"
    ensures p.WriteMode? ==> (p.enabled <==> customId == "enable_blocking")
  {
    if customId == "advanced_config" then OpenAdvanced
    else WriteMode(customId == "enable_blocking")
  }

  /**
   * The button collector filters on the user only, so a later select-menu
   * interaction of the same user (such as `channel_select`) also reaches it.
   * Its handler classifies such an id as "disable"; the write happens when
   * that handler's `update` is the response the platform accepts.
   */
  lemma ChannelSelectWritesDisabled()
    ensures Classify("channel_select") == WriteMode(false)
    ensures Classify("advanced_option_select") == WriteMode(false)
  {
  }

  /** `x || null` on a text column. */
  function OrNull(x: Option<string>): (r: Option<string>)
    ensures Truthy(x) ==> r == x
    ensures !Truthy(x) ==> r.None?
  {
    if Truthy(x) then x else None
  }

  /**
   * The `values` object of the mode write: the snapshot's settings carried
   * over (each falsy one replaced by its default), the parsed admin list
   * written back as JSON text, the mode and action set, and no value for the
   * gate's own columns.
   */
  function InsertRow(config: Option<Configs.ConfigRow>, guildId: string, interactionId: string,
                     ids: seq<string>, enabled: bool, action: string): (r: Configs.ConfigRow)
    ensures r.guildId == guildId && r.blockPrivateIPs == Some(enabled) && r.blockAction == Some(action)
    ensures r.blockPrivateLinks.None? && r.blockPrivateLinksAction.None?
    ensures r.adminUserIds == Configs.Text(Json.Stringify(ids))
    ensures config.Some? && config.value.id != "" ==> r.id == config.value.id
    ensures config.None? || config.value.id == "" ==> r.id == interactionId
    ensures config.None? ==>
      r.customBlockedRanges == Configs.Text("[]") && r.allowedChannels == Configs.Text("[]") &&
      r.reportChannel.None? && r.adminRoleId.None? && r.strictMode == Some(false)
    ensures config.Some? ==>
      r.customBlockedRanges == Configs.ListOrEmpty(config.value.customBlockedRanges) &&
      r.allowedChannels == Configs.ListOrEmpty(config.value.allowedChannels) &&
      r.reportChannel == OrNull(config.value.reportChannel) &&
      r.adminRoleId == OrNull(config.value.adminRoleId) &&
      r.strictMode == Some(config.value.strictMode == Some(true))
  {
    match config
    case None =>
      Configs.ConfigRow(
        id := interactionId, guildId := guildId,
        reportChannel := None, strictMode := Some(false), adminRoleId := None,
        adminUserIds := Configs.Text(Json.Stringify(ids)),
        blockPrivateIPs := Some(enabled), blockAction := Some(action),
        customBlockedRanges := Configs.Text("[]"), allowedChannels := Configs.Text("[]"),
        blockPrivateLinks := None, blockPrivateLinksAction := None)
    case Some(c) =>
      Configs.ConfigRow(
        id := if c.id != "" then c.id else interactionId, guildId := guildId,
        reportChannel := OrNull(c.reportChannel), strictMode := Some(c.strictMode == Some(true)),
        adminRoleId := OrNull(c.adminRoleId),
        adminUserIds := Configs.Text(Json.Stringify(ids)),
        blockPrivateIPs := Some(enabled), blockAction := Some(action),
        customBlockedRanges := Configs.ListOrEmpty(c.customBlockedRanges),
        allowedChannels := Configs.ListOrEmpty(c.allowedChannels),
        blockPrivateLinks := None, blockPrivateLinksAction := None)
  }

  /** The `set` object of the mode write: the mode and the action, nothing else. */
  function ModePatch(enabled: bool, action: string): (patch: Configs.ConfigRow -> Configs.ConfigRow)
    ensures forall r :: patch(r) == r.(blockPrivateIPs := Some(enabled), blockAction := Some(action))
  {
    (r: Configs.ConfigRow) => r.(blockPrivateIPs := Some(enabled), blockAction := Some(action))
  }

  /** The table after the mode write of `guildId`. */
  function AfterModeWrite(rows: map<string, Configs.ConfigRow>, config: Option<Configs.ConfigRow>,
                          guildId: string, interactionId: string, ids: seq<string>,
                          enabled: bool, action: string): map<string, Configs.ConfigRow>
  {
    if guildId in rows then rows[guildId := ModePatch(enabled, action)(rows[guildId])]
    else rows[guildId := InsertRow(config, guildId, interactionId, ids, enabled, action)]
  }

  /**
   * The mode write never turns the message gate on or off: it writes
   * `blockPrivateIPs` and `blockAction`, while the gate reads
   * `blockPrivateLinks` and `blockPrivateLinksAction`, and a freshly inserted
   * row leaves those unset.
   */
  lemma ModeWriteLeavesGate(rows: map<string, Configs.ConfigRow>, config: Option<Configs.ConfigRow>,
                            guildId: string, interactionId: string, ids: seq<string>,
                            enabled: bool, action: string, g: string)
    ensures var after := AfterModeWrite(rows, config, guildId, interactionId, ids, enabled, action);
      PrivIp.Enabled(Configs.Lookup(after, g)) == PrivIp.Enabled(Configs.Lookup(rows, g)) &&
      (g in rows ==> after[g].blockPrivateLinksAction == rows[g].blockPrivateLinksAction &&
                     after[g].reportChannel == rows[g].reportChannel)
  {
    var after := AfterModeWrite(rows, config, guildId, interactionId, ids, enabled, action);
    if g == guildId && guildId !in rows {
      assert after[g].blockPrivateLinks.None?;
    }
  }

  /** The admin list written by an insert reads back, on the next run, as the same list. */
  lemma InsertedAdminsReadBack(config: Option<Configs.ConfigRow>, guildId: string, interactionId: string,
                               ids: seq<string>, enabled: bool, action: string)
    ensures AdminIds(Some(InsertRow(config, guildId, interactionId, ids, enabled, action))) == Some(ids)
  {
    var r := InsertRow(config, guildId, interactionId, ids, enabled, action);
    assert Json.Stringify(ids) != "" by { assert Json.Stringify(ids)[0] == '['; }
    Json.ParseStringify(ids);
  }

  /** Text of a CIDR reply: split on every comma, each piece trimmed. */
  function ParseRanges(content: string): (r: seq<string>)
    ensures |r| == Count(content, ',') + 1
    ensures forall k :: 0 <= k < |r| ==> r[k] == Trim(Split(content, ',')[k])
  {
    var pieces := Split(content, ',');
    seq(|pieces|, k requires 0 <= k < |pieces| => Trim(pieces[k]))
  }

  /** Every stored range is free of commas and of surrounding whitespace. */
  lemma RangesClean(content: string, k: nat)
    requires k < |ParseRanges(content)|
    ensures var x := ParseRanges(content)[k];
      ',' !in x && Trim(x) == x
  {
    var piece := Split(content, ',')[k];
    var a, b := TrimIsInnerSlice(piece);
    TrimIdempotent(piece);
  }

  /** An empty or blank reply stores one empty range, not an empty list. */
  lemma BlankReplyStoresEmptyRange()
    ensures ParseRanges("") == [""]
    ensures ParseRanges(" , ") == ["", ""]
  {
    assert " , " == " " + [','] + " ";
    SplitPrefix(" ", " ", ',');
    SplitPiece(" ", ',');
    assert Trim(" ") == "";
  }

  /** The ranges written to `customBlockedRanges` read back as the same list. */
  lemma RangesReadBack(content: string)
    ensures Json.Parse(Json.Stringify(ParseRanges(content))) == Some(ParseRanges(content))
  {
    Json.ParseStringify(ParseRanges(content));
  }

  datatype ChannelKind = GuildText | OtherChannel

  /** A channel of the guild's channel cache, in cache order. */
  datatype Channel = Channel(id: string, name: string, kind: ChannelKind)

  datatype MenuOption = MenuOption(caption: string, value: string)

  /** `.filter(c => c.type === ChannelType.GuildText)`. */
  function TextChannels(cs: seq<Channel>): (r: seq<Channel>)
    ensures |r| <= |cs|
    ensures forall c :: c in r ==> c in cs && c.kind == GuildText
  {
    if cs == [] then []
    else if cs[0].kind == GuildText then [cs[0]] + TextChannels(cs[1..])
    else TextChannels(cs[1..])
  }

  /** The filter keeps every text channel: nothing else is dropped. */
  lemma {:induction false} TextChannelsComplete(cs: seq<Channel>, c: Channel)
    requires c in cs && c.kind == GuildText
    ensures c in TextChannels(cs)
  {
    if cs[0] != c {
      assert c in cs[1..];
      TextChannelsComplete(cs[1..], c);
    }
  }

  /** The filter keeps the cache order: it is the list with the other channels removed. */
  lemma {:induction false} TextChannelsOrder(a: seq<Channel>, b: seq<Channel>)
    ensures TextChannels(a + b) == TextChannels(a) + TextChannels(b)
  {
    if a == [] {
      assert a + b == b;
    } else {
      assert (a + b)[0] == a[0];
      assert (a + b)[1..] == a[1..] + b;
      TextChannelsOrder(a[1..], b);
      if a[0].kind == GuildText {
        assert [a[0]] + (TextChannels(a[1..]) + TextChannels(b)) ==
          ([a[0]] + TextChannels(a[1..])) + TextChannels(b);
      }
    }
  }

  const MaxOptions: nat := 25

  /** The channel menu's options: the first 25 text channels, captioned (`label`) by name, valued by id. */
  function ChannelOptions(cs: seq<Channel>): (r: seq<MenuOption>)
    ensures var t := TextChannels(cs);
      |r| == (if |t| < MaxOptions then |t| else MaxOptions) &&
      forall k :: 0 <= k < |r| ==> r[k] == MenuOption(t[k].name, t[k].id)
  {
    var t := TextChannels(cs);
    var n := if |t| < MaxOptions then |t| else MaxOptions;
    seq(n, k requires 0 <= k < n => MenuOption(t[k].name, t[k].id))
  }

  /**
   * Each step of the command that writes the table. A session exists only
   * for a member `StartCommand` let through on the guild's row as the table
   * held it when the command started, with the admin list it parsed, and an
   * action picked from the menu.
   */
  class Session {
    const config: Option<Configs.ConfigRow>
    const guildId: string
    const interactionId: string
    const ids: seq<string>
    const action: string
    ghost const ownerId: string
    ghost const member: Member

    /** The session was opened by an admitted member with one of the menu's actions. */
    ghost predicate Admitted() {
      StartCommand(ownerId, member, config) == ShowActions(ids) && action in ActionValues
    }

    /** The state captured once the member has picked an action. */
    constructor (table: Configs.ConfigTable, config: Option<Configs.ConfigRow>, guildId: string,
                 interactionId: string, ghost ownerId: string, ghost member: Member,
                 ids: seq<string>, action: string)
      requires config == Configs.Lookup(table.rows, guildId)
      requires StartCommand(ownerId, member, config) == ShowActions(ids)
      requires action in ActionValues
      ensures this.config == config && this.guildId == guildId && this.interactionId == interactionId
      ensures this.ids == ids && this.action == action
      ensures this.ownerId == ownerId && this.member == member && Admitted()
      ensures AdminIds(config) == Some(ids) && Authorized(ownerId, member, config, ids)
      ensures config.Some? <==> guildId in table.rows
    {
      this.config := config;
      this.guildId := guildId;
      this.interactionId := interactionId;
      this.ownerId := ownerId;
      this.member := member;
      this.ids := ids;
      this.action := action;
    }

    /**
     * A press on the button collector: `advanced_config` only opens the
     * advanced menu; any other id upserts the mode, inserting `InsertRow` for
     * a guild without a row and otherwise changing just the mode and action.
     */
    method PressButton(table: Configs.ConfigTable, customId: string) returns (p: Press)
      requires table.Valid() && Admitted()
      modifies table
      ensures table.Valid()
      ensures p == Classify(customId)
      ensures p == OpenAdvanced ==> table.rows == old(table.rows)
      ensures p.WriteMode? ==>
        table.rows == AfterModeWrite(old(table.rows), config, guildId, interactionId, ids, p.enabled, action)
      ensures p.WriteMode? ==>
        guildId in table.rows && table.rows[guildId].blockPrivateIPs == Some(p.enabled) &&
        table.rows[guildId].blockAction == Some(action) && action in ActionValues
    {
      if customId == "advanced_config" {
        return OpenAdvanced;
      }
      var enabled := customId == "enable_blocking";
      var row := InsertRow(config, guildId, interactionId, ids, enabled, action);
      table.Upsert(row, ModePatch(enabled, action));
      p := WriteMode(enabled);
    }

    /**
     * The reply to the CIDR prompt: the ranges replace the stored ones, if
     * the guild has a row. The prompt is sent only when the advanced
     * collector's `update` of the `advanced_option_select` pick is accepted.
     */
    method ReplyRanges(table: Configs.ConfigTable, content: string)
      requires table.Valid() && Admitted()
      modifies table
      ensures table.Valid()
      ensures guildId in old(table.rows) ==> table.rows == old(table.rows)[guildId :=
        old(table.rows)[guildId].(customBlockedRanges := Configs.Text(Json.Stringify(ParseRanges(content))))]
      ensures guildId !in old(table.rows) ==> table.rows == old(table.rows)
    {
      var ranges := ParseRanges(content);
      table.UpdateWhere(guildId, (r: Configs.ConfigRow) =>
        r.(customBlockedRanges := Configs.Text(Json.Stringify(ranges))));
    }

    /**
     * The channel selection: the chosen ids replace the stored list, if the
     * guild has a row, when the advanced collector's `update` of the
     * `channel_select` pick is accepted.
     */
    method SelectChannels(table: Configs.ConfigTable, values: seq<string>)
      requires table.Valid() && Admitted()
      modifies table
      ensures table.Valid()
      ensures guildId in old(table.rows) ==> table.rows == old(table.rows)[guildId :=
        old(table.rows)[guildId].(allowedChannels := Configs.Text(Json.Stringify(values)))]
      ensures guildId !in old(table.rows) ==> table.rows == old(table.rows)
    {
      table.UpdateWhere(guildId, (r: Configs.ConfigRow) =>
        r.(allowedChannels := Configs.Text(Json.Stringify(values))));
    }
  }

  /**
   * `allowedChannels` is written but never read by the gate: whatever list a
   * row holds, the gate's decisions for it are the same.
   */
  lemma GateIgnoresAllowedChannels(cfg: Configs.ConfigRow, f: Configs.ListField, m: PrivIp.Message,
                                   g: PrivIp.Guild, url: string, deleteFails: bool)
    ensures PrivIp.Enabled(Some(cfg.(allowedChannels := f))) == PrivIp.Enabled(Some(cfg))
    ensures PrivIp.Respond(cfg.(allowedChannels := f), m, g, url, deleteFails) ==
      PrivIp.Respond(cfg, m, g, url, deleteFails)
  {
  }
}
