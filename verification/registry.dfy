/** The `global_chat_settings` table (cogs/global.py): one row per guild,
    naming the guild's relay channel, the webhook that posts into it, and an
    enabled flag. `guild_id` is the primary key, so the table is a map. The
    source stores ids as decimal text and turns them back into integers with
    `int(...)`; `Text.DecimalRoundTrip` shows that nothing is lost by keeping
    them as numbers here. */
module Registry {

  import opened Common

  datatype Subscription = Subscription(channel: ChannelId, webhook: string, enabled: bool)

  type Table = map<GuildId, Subscription>

  /** One row of `SELECT guild_id, channel_id, webhook_url ... WHERE enabled = 1`. */
  datatype Row = Row(guild: GuildId, channel: ChannelId, webhook: string)

  /** `INSERT OR REPLACE ... VALUES (guild, channel, url, 1)`: the guild's row
      is replaced whatever it held before, and no other row moves. */
  function Upsert(t: Table, g: GuildId, ch: ChannelId, url: string): (r: Table)
    ensures r.Keys == t.Keys + {g}
    ensures r[g] == Subscription(ch, url, true)
    ensures forall h :: h in t && h != g ==> h in r && r[h] == t[h]
  {
    t[g := Subscription(ch, url, true)]
  }

  /** `DELETE FROM global_chat_settings WHERE channel_id = ?`: every row
      naming the channel goes, whichever guild owns it. */
  function DeleteByChannel(t: Table, ch: ChannelId): (r: Table)
    ensures forall g :: g in r <==> g in t && t[g].channel != ch
    ensures forall g :: g in r ==> r[g] == t[g]
  {
    map g | g in t && t[g].channel != ch :: t[g]
  }

  /** Deleting the rows of a channel twice is the same as deleting them once. */
  lemma DeleteByChannelIdempotent(t: Table, ch: ChannelId)
    ensures DeleteByChannel(DeleteByChannel(t, ch), ch) == DeleteByChannel(t, ch)
  {
  }

  /** Whether the row keyed `(guild, channel)` exists, enabled or not. */
  predicate HasKey(t: Table, g: GuildId, ch: ChannelId) {
    g in t && t[g].channel == ch
  }

  /** `DELETE ... WHERE guild_id = ? AND channel_id = ?` together with
      `cursor.rowcount > 0`. */
  function DeleteByKey(t: Table, g: GuildId, ch: ChannelId): (r: (Table, bool))
    ensures r.1 <==> HasKey(t, g, ch)
    ensures r.0.Keys == if r.1 then t.Keys - {g} else t.Keys
    ensures forall h :: h in r.0 ==> r.0[h] == t[h]
  {
    if HasKey(t, g, ch) then (t - {g}, true) else (t, false)
  }

  /** `SELECT webhook_url ... WHERE guild_id = ? AND channel_id = ?`. */
  function LookupWebhook(t: Table, g: GuildId, ch: ChannelId): (r: Option<string>)
    ensures r.Some? <==> HasKey(t, g, ch)
    ensures r.Some? ==> r.value == t[g].webhook
  {
    if HasKey(t, g, ch) then Some(t[g].webhook) else None
  }

  /** The relay-channel test of `on_message_global`: a row for the guild
      naming this channel with `enabled = 1`. */
  predicate IsRelayChannel(t: Table, g: GuildId, ch: ChannelId) {
    HasKey(t, g, ch) && t[g].enabled
  }

  function EnabledGuilds(t: Table): set<GuildId> {
    set g | g in t && t[g].enabled
  }

  /** `order` lists every enabled row exactly once: the order in which the
      unordered `SELECT` happens to return them. */
  predicate IsSnapshotOrder(t: Table, order: seq<GuildId>) {
    && (forall i :: 0 <= i < |order| ==> order[i] in t && t[order[i]].enabled)
    && (forall g :: g in t && t[g].enabled ==> g in order)
    && (forall i, j :: 0 <= i < j < |order| ==> order[i] != order[j])
  }

  /** The rows read at the start of a broadcast, in `order`. */
  function Snapshot(t: Table, order: seq<GuildId>): (rows: seq<Row>)
    requires forall i :: 0 <= i < |order| ==> order[i] in t
    ensures |rows| == |order|
    ensures forall i :: 0 <= i < |order| ==>
      rows[i] == Row(order[i], t[order[i]].channel, t[order[i]].webhook)
  {
    seq(|order|, i requires 0 <= i < |order| => Row(order[i], t[order[i]].channel, t[order[i]].webhook))
  }

  /** The snapshot holds at most one row per guild, and a row for exactly the
      enabled guilds. */
  lemma SnapshotCoversEnabled(t: Table, order: seq<GuildId>)
    requires IsSnapshotOrder(t, order)
    ensures forall g :: g in EnabledGuilds(t) <==> exists i :: 0 <= i < |order| && Snapshot(t, order)[i].guild == g
    ensures forall i, j :: 0 <= i < j < |order| ==> Snapshot(t, order)[i].guild != Snapshot(t, order)[j].guild
  {
    var rows := Snapshot(t, order);
    forall g | g in EnabledGuilds(t)
      ensures exists i :: 0 <= i < |order| && rows[i].guild == g
    {
      var i :| 0 <= i < |order| && order[i] == g;
      assert rows[i].guild == g;
    }
  }
}
