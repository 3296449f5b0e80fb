/** The `setup` command (cogs/setup.py): create the invoking guild's settings
    row with defaults, but only when the guild has none. */
module Setup {

  import opened Common
  import opened ServerSettings

  /** The row `setup` inserts: prefix "z!", empty strings, flags 0, lists "[]". */
  const SetupRow := StoredRow("z!", "", 0, "", Some("[]"), 0, "", Some("[]"))

  datatype SetupResult = SetupResult(created: bool, table: SettingsTable)

  /** Setup for the guild keyed `key`: `created` is false and nothing is
      written when a row exists; otherwise exactly that one row is added. */
  function SetupServer(t: SettingsTable, key: string): (r: SetupResult)
    ensures r.created <==> key !in t
    ensures !r.created ==> r.table == t
    ensures r.created ==> r.table.Keys == t.Keys + {key} && r.table[key] == SetupRow
    ensures forall k :: k in t ==> k in r.table && r.table[k] == t[k]
  {
    if key in t then SetupResult(false, t)
    else SetupResult(true, t[key := SetupRow])
  }

  /** Running setup a second time reports that settings exist and changes
      nothing. */
  lemma SetupIdempotent(t: SettingsTable, key: string)
    ensures var r := SetupServer(t, key);
      SetupServer(r.table, key) == SetupResult(false, r.table)
  {
  }

  /** Setup touches only the invoking guild's row. */
  lemma SetupIsLocal(t: SettingsTable, key: string, other: string)
    requires other != key
    ensures other in SetupServer(t, key).table <==> other in t
    ensures other in t ==> SetupServer(t, key).table[other] == t[other]
  {
  }

  /** The row `setup` writes is the encoder's own spelling of the record with
      prefix "z!" and everything else empty or off, so it reads back as that
      record (not as the "!" record a read falls back to when no row exists). */
  lemma SetupRowDecodes()
    ensures SetupRow == EncodeRow(Defaults.(prefix := "z!"))
    ensures DecodeRow(SetupRow) == Some(Defaults.(prefix := "z!"))
  {
    DecodeEncode(Defaults.(prefix := "z!"));
  }
}
