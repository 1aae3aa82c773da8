/**
 * The `configs` table every command reads and writes: one row per guild,
 * keyed by `guildId` (the table's unique column and the target of every
 * upsert). The row carries every column any of the modelled files touches,
 * including the two differently named pairs that the message gate reads
 * (`blockPrivateLinks`, `blockPrivateLinksAction`) and that the
 * `block-ip-mode` command writes (`blockPrivateIPs`, `blockAction`).
 */
module Configs {
  import opened Js

  /**
   * A column that holds a list of ids or strings: `Native` when the database
   * hands back a JavaScript array (a `json` column), `Text` when it hands back
   * the string the bot stored with `JSON.stringify`.
   */
  datatype ListField = Null | Native(items: seq<string>) | Text(raw: string)

  datatype ConfigRow = ConfigRow(
    id: string,
    guildId: string,
    reportChannel: Option<string>,
    strictMode: Option<bool>,
    adminRoleId: Option<string>,
    adminUserIds: ListField,
    blockPrivateIPs: Option<bool>,
    blockAction: Option<string>,
    customBlockedRanges: ListField,
    allowedChannels: ListField,
    blockPrivateLinks: Option<bool>,
    blockPrivateLinksAction: Option<string>)

  /** A list column is truthy unless it is null or the empty string. */
  predicate ListTruthy(f: ListField) {
    !f.Null? && f != Text("")
  }

  /** `field || '[]'`. */
  function ListOrEmpty(f: ListField): (r: ListField)
    ensures ListTruthy(f) ==> r == f
    ensures !ListTruthy(f) ==> r == Text("[]")
  {
    if ListTruthy(f) then f else Text("[]")
  }

  /** Every row is stored under its own guild id. */
  ghost predicate Keyed(rows: map<string, ConfigRow>) {
    forall g :: g in rows ==> rows[g].guildId == g
  }

  /** `select().from(configs).where(eq(configs.guildId, g))`, first row. */
  function Lookup(rows: map<string, ConfigRow>, g: string): (r: Option<ConfigRow>)
    ensures r.Some? <==> g in rows
    ensures r.Some? ==> r.value == rows[g]
  {
    if g in rows then Some(rows[g]) else None
  }

  /** The table itself, changed in place by the commands. */
  class ConfigTable {
    var rows: map<string, ConfigRow>

    ghost predicate Valid()
      reads this
    {
      Keyed(rows)
    }

    constructor (initial: map<string, ConfigRow>)
      requires Keyed(initial)
      ensures Valid() && rows == initial
    {
      rows := initial;
    }

    /**
     * `insert(configs).values(row).onConflictDoUpdate({ target: guildId, set })`:
     * a guild without a row gets `row`; a guild with one gets `patch` (the `set` object) applied to
     * its stored row. No other guild's row changes.
     */
    method Upsert(row: ConfigRow, patch: ConfigRow -> ConfigRow)
      requires Valid()
      requires forall r :: patch(r).guildId == r.guildId
      modifies this
      ensures Valid()
      ensures row.guildId !in old(rows) ==> rows == old(rows)[row.guildId := row]
      ensures row.guildId in old(rows) ==> rows == old(rows)[row.guildId := patch(old(rows)[row.guildId])]
    {
      var g := row.guildId;
      if g in rows {
        rows := rows[g := patch(rows[g])];
      } else {
        rows := rows[g := row];
      }
    }

    /**
     * `update(configs).set(...).where(eq(configs.guildId, g))`: changes the
     * guild's row if there is one and does nothing otherwise.
     */
    method UpdateWhere(g: string, patch: ConfigRow -> ConfigRow)
      requires Valid()
      requires forall r :: patch(r).guildId == r.guildId
      modifies this
      ensures Valid()
      ensures g in old(rows) ==> rows == old(rows)[g := patch(old(rows)[g])]
      ensures g !in old(rows) ==> rows == old(rows)
    {
      if g in rows {
        rows := rows[g := patch(rows[g])];
      }
    }
  }
}
