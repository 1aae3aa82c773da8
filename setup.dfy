/**
 * The `setup` command of `slashCommands/info/setup.js`: the guild owner opens
 * a panel of three menus (admin role, admin users, report channel), and every
 * pick is written at once by an upsert of the guild's row. The command's local
 * `config` object and `adminUserIds` variable, which the menus update, are the
 * fields of a `Session`.
 */
module Setup {
  import opened Js
  import Json
  import Configs
  import BlockIp

  /** `String(array)`: the items joined with commas, `""` for an empty array. */
  function ArrayText(items: seq<string>): (r: string)
    ensures r == "" <==> items == [] || items == [""]
  {
    if items == [] then "" else Join(items, ',')
  }

  /**
   * `JSON.parse(config.adminUserIds || '[]')`, `None` when it throws. Unlike
   * `block-ip-mode`, the command does not test for an array first, so a list
   * the database hands back as an array is parsed through its string form.
   */
  function SetupIds(f: Configs.ListField): (r: Option<seq<string>>)
    ensures !Configs.ListTruthy(f) ==> r == Some([])
    ensures f.Text? && f.raw != "" ==> r == Json.Parse(f.raw)
    ensures f.Native? ==> r == Json.Parse(ArrayText(f.items))
  {
    match f
    case Null => EmptyListParses(); Some([])
    case Native(items) => Json.Parse(ArrayText(items))
    case Text(raw) => if raw == "" then EmptyListParses(); Some([]) else Json.Parse(raw)
  }

  lemma EmptyListParses()
    ensures Json.Parse("[]") == Some([])
  {
    Json.ParseStringify([]);
    assert Json.Stringify([]) == "[]";
  }

  /**
   * A list held as a native array breaks `setup` and not `block-ip-mode`: an
   * empty array turns into the empty string and a list of several ids into
   * bare comma-separated digits, neither of which parses.
   */
  lemma NativeListsDiverge()
    ensures SetupIds(Configs.Native([])) == None
    ensures SetupIds(Configs.Native(["1", "2"])) == None
    ensures BlockIp.AdminIds(Some(Configs.ConfigRow(
      id := "", guildId := "g", reportChannel := None, strictMode := None, adminRoleId := None,
      adminUserIds := Configs.Native(["1", "2"]), blockPrivateIPs := None, blockAction := None,
      customBlockedRanges := Configs.Null, allowedChannels := Configs.Null,
      blockPrivateLinks := None, blockPrivateLinksAction := None))) == Some(["1", "2"])
  {
    assert Json.SkipSpace("") == "";
    assert ArrayText(["1", "2"]) == "1,2";
    assert Json.SkipSpace("1,2") == "1,2";
  }

  datatype Opening =
    | NotOwner
    | SetupThrew
    | Opened(adminRoleId: Option<string>, adminUserIds: seq<string>, reportChannel: Option<string>)

  /**
   * The start of `run`. Anyone but the guild owner is refused before the
   * table is read; a guild without a row starts from no role, no admins and
   * no report channel; a stored admin list that does not parse fails the
   * command.
   */
  function Open(userId: string, ownerId: string, existing: Option<Configs.ConfigRow>): (r: Opening)
    ensures r == NotOwner <==> userId != ownerId
    ensures userId == ownerId && existing.None? ==> r == Opened(None, [], None)
    ensures r == SetupThrew <==> userId == ownerId && existing.Some? && SetupIds(existing.value.adminUserIds).None?
    ensures r.Opened? && existing.Some? ==>
      r.adminRoleId == existing.value.adminRoleId && r.reportChannel == existing.value.reportChannel &&
      SetupIds(existing.value.adminUserIds) == Some(r.adminUserIds)
  {
    if userId != ownerId then NotOwner
    else
      var f := if existing.Some? then existing.value.adminUserIds else Configs.Text("[]");
      match SetupIds(f)
      case None => SetupThrew
      case Some(ids) =>
        if existing.Some? then Opened(existing.value.adminRoleId, ids, existing.value.reportChannel)
        else Opened(None, ids, None)
  }

  /** `existing[0]?.id || randomUUID()`. */
  function UpsertId(existing: Option<Configs.ConfigRow>, uuid: string): (id: string)
    ensures existing.Some? && existing.value.id != "" ==> id == existing.value.id
    ensures existing.None? || existing.value.id == "" ==> id == uuid
  {
    if existing.Some? && existing.value.id != "" then existing.value.id else uuid
  }

  /** The fields a menu pick supplies; absent ones are `undefined`. */
  datatype Partial = Partial(adminRoleId: Option<string>, adminUserIds: Option<seq<string>>,
                             reportChannel: Option<string>)

  /** The three values of the write: `partialFields.x ?? current x`. */
  function Merge(p: Partial, roleId: Option<string>, ids: seq<string>, channel: Option<string>):
    (r: (Option<string>, seq<string>, Option<string>))
    ensures p.adminRoleId.Some? ==> r.0 == p.adminRoleId
    ensures p.adminRoleId.None? ==> r.0 == roleId
    ensures r.1 == (if p.adminUserIds.Some? then p.adminUserIds.value else ids)
    ensures p.reportChannel.Some? ==> r.2 == p.reportChannel
    ensures p.reportChannel.None? ==> r.2 == channel
  {
    (Coalesce(p.adminRoleId, roleId),
     if p.adminUserIds.Some? then p.adminUserIds.value else ids,
     Coalesce(p.reportChannel, channel))
  }

  /** The `values` object: the id and guild, the three setup columns, and nothing for the rest. */
  function SetupRow(id: string, guildId: string, roleId: Option<string>, ids: seq<string>,
                    channel: Option<string>): Configs.ConfigRow
  {
    Configs.ConfigRow(
      id := id, guildId := guildId, reportChannel := channel, strictMode := None, adminRoleId := roleId,
      adminUserIds := Configs.Text(Json.Stringify(ids)), blockPrivateIPs := None, blockAction := None,
      customBlockedRanges := Configs.Null, allowedChannels := Configs.Null,
      blockPrivateLinks := None, blockPrivateLinksAction := None)
  }

  /** The `set` object: the same three columns as the insert. */
  function SetupPatch(roleId: Option<string>, ids: seq<string>, channel: Option<string>):
    Configs.ConfigRow -> Configs.ConfigRow
  {
    (r: Configs.ConfigRow) =>
      r.(adminRoleId := roleId, adminUserIds := Configs.Text(Json.Stringify(ids)), reportChannel := channel)
  }

  /** The table after `upsertConfig`. */
  function AfterSetupWrite(rows: map<string, Configs.ConfigRow>, existing: Option<Configs.ConfigRow>,
                           guildId: string, uuid: string, roleId: Option<string>, ids: seq<string>,
                           channel: Option<string>): map<string, Configs.ConfigRow>
  {
    if guildId in rows then rows[guildId := SetupPatch(roleId, ids, channel)(rows[guildId])]
    else rows[guildId := SetupRow(UpsertId(existing, uuid), guildId, roleId, ids, channel)]
  }

  /**
   * Insert and update write the same three values, so whichever branch the
   * upsert takes the guild's row holds exactly them afterwards; the update
   * keeps the row's id and every other column, and no other guild changes.
   */
  lemma SetupWriteStores(rows: map<string, Configs.ConfigRow>, existing: Option<Configs.ConfigRow>,
                         guildId: string, uuid: string, roleId: Option<string>, ids: seq<string>,
                         channel: Option<string>)
    requires Configs.Keyed(rows)
    ensures var after := AfterSetupWrite(rows, existing, guildId, uuid, roleId, ids, channel);
      guildId in after && after[guildId].guildId == guildId &&
      after[guildId].adminRoleId == roleId && after[guildId].reportChannel == channel &&
      after[guildId].adminUserIds == Configs.Text(Json.Stringify(ids)) &&
      (guildId in rows ==> after[guildId] == rows[guildId].(adminRoleId := roleId,
         adminUserIds := Configs.Text(Json.Stringify(ids)), reportChannel := channel)) &&
      (guildId !in rows ==> after[guildId].id == UpsertId(existing, uuid)) &&
      (forall g :: g != guildId ==> (g in after <==> g in rows) && (g in rows ==> after[g] == rows[g]))
  {
    var after := AfterSetupWrite(rows, existing, guildId, uuid, roleId, ids, channel);
    if guildId in rows {
      assert after[guildId] == SetupPatch(roleId, ids, channel)(rows[guildId]);
    }
  }

  /** The admin list `setup` writes is read back as the same list, by `setup` and by `block-ip-mode`. */
  lemma SetupAdminsReadBack(row: Configs.ConfigRow, ids: seq<string>)
    requires row.adminUserIds == Configs.Text(Json.Stringify(ids))
    ensures SetupIds(row.adminUserIds) == Some(ids)
    ensures BlockIp.AdminIds(Some(row)) == Some(ids)
  {
    assert Json.Stringify(ids)[0] == '[';
    Json.ParseStringify(ids);
  }

  /** One open setup panel. */
  class Session {
    const guildId: string
    const existing: Option<Configs.ConfigRow>
    var adminRoleId: Option<string>
    var adminUserIds: seq<string>
    var reportChannel: Option<string>

    /**
     * The panel `Open` gave the guild's owner, from the guild's row as the
     * table held it when the command started.
     */
    constructor (table: Configs.ConfigTable, guildId: string, existing: Option<Configs.ConfigRow>,
                 ghost userId: string, ghost ownerId: string, o: Opening)
      requires existing == Configs.Lookup(table.rows, guildId)
      requires o == Open(userId, ownerId, existing) && o.Opened?
      ensures userId == ownerId
      ensures this.guildId == guildId && this.existing == existing
      ensures guildId in table.rows ==>
        adminRoleId == table.rows[guildId].adminRoleId && reportChannel == table.rows[guildId].reportChannel &&
        SetupIds(table.rows[guildId].adminUserIds) == Some(adminUserIds)
      ensures guildId !in table.rows ==> adminRoleId.None? && adminUserIds == [] && reportChannel.None?
      ensures adminRoleId == o.adminRoleId && adminUserIds == o.adminUserIds && reportChannel == o.reportChannel
    {
      this.guildId := guildId;
      this.existing := existing;
      adminRoleId := o.adminRoleId;
      adminUserIds := o.adminUserIds;
      reportChannel := o.reportChannel;
    }

    /** `upsertConfig(p)`: the merged values upserted under `UpsertId`. */
    method Upsert(table: Configs.ConfigTable, p: Partial, uuid: string)
      requires table.Valid()
      modifies table
      ensures table.Valid()
      ensures var (r, i, c) := Merge(p, adminRoleId, adminUserIds, reportChannel);
        table.rows == AfterSetupWrite(old(table.rows), existing, guildId, uuid, r, i, c)
    {
      var (r, i, c) := Merge(p, adminRoleId, adminUserIds, reportChannel);
      table.Upsert(SetupRow(UpsertId(existing, uuid), guildId, r, i, c), SetupPatch(r, i, c));
    }

    /** The stored row holds what the panel shows. */
    ghost predicate Mirrored(rows: map<string, Configs.ConfigRow>)
      reads this
    {
      guildId in rows && rows[guildId].adminRoleId == adminRoleId &&
      rows[guildId].reportChannel == reportChannel &&
      rows[guildId].adminUserIds == Configs.Text(Json.Stringify(adminUserIds))
    }

    /** The role menu (one value): the role becomes the admin role, here and in the table. */
    method RoleSelected(table: Configs.ConfigTable, values: seq<string>, uuid: string)
      requires table.Valid() && |values| >= 1
      modifies this, table
      ensures table.Valid() && Mirrored(table.rows)
      ensures adminRoleId == Some(values[0])
      ensures adminUserIds == old(adminUserIds) && reportChannel == old(reportChannel)
      ensures table.rows == AfterSetupWrite(old(table.rows), existing, guildId, uuid,
        adminRoleId, adminUserIds, reportChannel)
    {
      adminRoleId := Some(values[0]);
      Upsert(table, Partial(Some(values[0]), None, None), uuid);
      SetupWriteStores(old(table.rows), existing, guildId, uuid, adminRoleId, adminUserIds, reportChannel);
    }

    /** The user menu (zero to 25 values): the picked users replace the admin list. */
    method UsersSelected(table: Configs.ConfigTable, values: seq<string>, uuid: string)
      requires table.Valid()
      modifies this, table
      ensures table.Valid() && Mirrored(table.rows)
      ensures adminUserIds == values
      ensures adminRoleId == old(adminRoleId) && reportChannel == old(reportChannel)
      ensures table.rows == AfterSetupWrite(old(table.rows), existing, guildId, uuid,
        adminRoleId, adminUserIds, reportChannel)
    {
      adminUserIds := values;
      Upsert(table, Partial(None, Some(values), None), uuid);
      SetupWriteStores(old(table.rows), existing, guildId, uuid, adminRoleId, adminUserIds, reportChannel);
    }

    /** The channel menu (one value): the channel becomes the report channel. */
    method ChannelSelected(table: Configs.ConfigTable, values: seq<string>, uuid: string)
      requires table.Valid() && |values| >= 1
      modifies this, table
      ensures table.Valid() && Mirrored(table.rows)
      ensures reportChannel == Some(values[0])
      ensures adminRoleId == old(adminRoleId) && adminUserIds == old(adminUserIds)
      ensures table.rows == AfterSetupWrite(old(table.rows), existing, guildId, uuid,
        adminRoleId, adminUserIds, reportChannel)
    {
      reportChannel := Some(values[0]);
      Upsert(table, Partial(None, None, Some(values[0])), uuid);
      SetupWriteStores(old(table.rows), existing, guildId, uuid, adminRoleId, adminUserIds, reportChannel);
    }
  }
}
