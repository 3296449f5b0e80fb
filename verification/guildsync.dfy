/** The `bot_joined_guilds` table (main.py): which guilds the bot is in. It is
    reconciled with the live guild list when the bot becomes ready, kept up
    to date by the guild join and remove events, and read by the web API.
    Timestamps are opaque text supplied by the caller. */
module GuildSync {

  datatype JoinedRow = JoinedRow(joined: int, timestamp: string)

  type JoinedTable = map<string, JoinedRow>

  /** What the reconciliation produces: a row for exactly the current guilds;
      rows already stored are kept as they are, missing ones are added with
      `joined = 1`. */
  function Reconciled(t: JoinedTable, current: set<string>, stamp: string): (r: JoinedTable)
    ensures r.Keys == current
  {
    map g | g in current :: if g in t then t[g] else JoinedRow(1, stamp)
  }

  /** `sync_guilds_with_db`: read the stored ids, insert every current guild
      that is missing, then delete every stored guild that is not current. */
  method SyncGuilds(t: JoinedTable, current: set<string>, stamp: string) returns (r: JoinedTable)
    ensures r.Keys == current
    ensures forall g :: g in current && g !in t ==> r[g] == JoinedRow(1, stamp)
    ensures forall g :: g in current && g in t ==> r[g] == t[g]
    ensures r == Reconciled(t, current, stamp)
  {
    var stored := t.Keys;
    r := t;
    var toAdd := current;
    while toAdd != {}
      invariant toAdd <= current
      invariant r.Keys == stored + (current - toAdd)
      invariant forall g :: g in r && g in stored ==> r[g] == t[g]
      invariant forall g :: g in r && g !in stored ==> r[g] == JoinedRow(1, stamp)
      decreases toAdd
    {
      var g :| g in toAdd;
      if g !in stored {
        r := r[g := JoinedRow(1, stamp)];
      }
      toAdd := toAdd - {g};
    }
    var toCheck := stored;
    while toCheck != {}
      invariant toCheck <= stored
      invariant r.Keys == current + (toCheck - current)
      invariant forall g :: g in r && g in stored ==> r[g] == t[g]
      invariant forall g :: g in r && g !in stored ==> r[g] == JoinedRow(1, stamp)
      decreases toCheck
    {
      var g :| g in toCheck;
      if g !in current {
        r := r - {g};
      }
      toCheck := toCheck - {g};
    }
  }

  /** Reconciling twice is the same as reconciling once. */
  lemma ReconcileIdempotent(t: JoinedTable, current: set<string>, stamp: string, stamp': string)
    ensures Reconciled(Reconciled(t, current, stamp), current, stamp') == Reconciled(t, current, stamp)
  {
  }

  /** `on_guild_join`: upsert the guild with `joined = 1`. */
  function OnGuildJoin(t: JoinedTable, g: string, stamp: string): (r: JoinedTable)
    ensures r.Keys == t.Keys + {g} && r[g].joined == 1
    ensures forall h :: h in t && h != g ==> r[h] == t[h]
  {
    t[g := JoinedRow(1, stamp)]
  }

  /** `on_guild_remove`: delete the guild's row. */
  function OnGuildRemove(t: JoinedTable, g: string): (r: JoinedTable)
    ensures r.Keys == t.Keys - {g}
    ensures forall h :: h in r ==> r[h] == t[h]
  {
    t - {g}
  }

  /** Removing twice is the same as removing once. */
  lemma RemoveTwice(t: JoinedTable, g: string)
    ensures OnGuildRemove(OnGuildRemove(t, g), g) == OnGuildRemove(t, g)
  {
  }

  /** The API's list: the guild ids whose `joined` flag is 1. */
  function JoinedGuilds(t: JoinedTable): (r: set<string>)
    ensures forall g :: g in r <==> g in t && t[g].joined == 1
  {
    set g | g in t && t[g].joined == 1
  }

  /** Once reconciled, and as long as every stored row says `joined = 1` (the
      only value this bot writes), the API lists exactly the current guilds. */
  lemma JoinedAfterSync(t: JoinedTable, current: set<string>, stamp: string)
    requires forall g :: g in t ==> t[g].joined == 1
    ensures JoinedGuilds(Reconciled(t, current, stamp)) == current
  {
  }

  /** A row kept by reconciliation keeps its flag: a stored `joined = 0` for a
      current guild survives, and the API leaves that guild out. */
  lemma StaleFlagSurvives(stamp: string)
    ensures var t := map["1" := JoinedRow(0, "earlier")];
      "1" !in JoinedGuilds(Reconciled(t, {"1"}, stamp))
  {
    var r := Reconciled(map["1" := JoinedRow(0, "earlier")], {"1"}, stamp);
    assert r["1"].joined == 0;
  }
}
