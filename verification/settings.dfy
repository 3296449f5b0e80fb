/** The `server_settings` table (main.py): one row per guild key, flags kept
    as integers and the two lists kept as JSON text. Reading decodes a row
    (or falls back to the default record when there is none); an update reads,
    merges the request's keys over what it read, encodes and replaces the
    row. */
module ServerSettings {

  import opened Common
  import JsonList

  /** The decoded record handed to the rest of the bot and to the web API. */
  datatype Settings = Settings(
    prefix: string,
    welcomeMessage: string,
    enableFunCommands: bool,
    muteRoleId: string,
    bannedWords: seq<string>,
    enableAntiSpam: bool,
    logChannelId: string,
    logTypes: seq<string>)

  /** A stored row. The list columns may be NULL. */
  datatype StoredRow = StoredRow(
    prefix: string,
    welcomeMessage: string,
    enableFunCommands: int,
    muteRoleId: string,
    bannedWords: Option<string>,
    enableAntiSpam: int,
    logChannelId: string,
    logTypes: Option<string>)

  type SettingsTable = map<string, StoredRow>

  /** What a read returns when the guild has no row. */
  const Defaults := Settings("!", "", false, "", [], false, "", [])

  /** A list column: NULL or the empty text reads as the empty list; any
      other text goes through `json.loads`, `None` standing for its error. */
  function DecodeListColumn(col: Option<string>): (r: Option<seq<string>>)
    ensures (col.None? || col.value == "") ==> r == Some([])
  {
    match col
    case None => Some([])
    case Some(text) => if text == "" then Some([]) else JsonList.Decode(text)
  }

  /** Decoding one stored row; `None` when a list column is not valid JSON. */
  function DecodeRow(row: StoredRow): (r: Option<Settings>)
    ensures r.Some? <==> DecodeListColumn(row.bannedWords).Some? && DecodeListColumn(row.logTypes).Some?
    ensures r.Some? ==>
      && r.value.prefix == row.prefix
      && r.value.welcomeMessage == row.welcomeMessage
      && r.value.muteRoleId == row.muteRoleId
      && r.value.logChannelId == row.logChannelId
      && (r.value.enableFunCommands <==> row.enableFunCommands != 0)
      && (r.value.enableAntiSpam <==> row.enableAntiSpam != 0)
  {
    match (DecodeListColumn(row.bannedWords), DecodeListColumn(row.logTypes))
    case (Some(bw), Some(lt)) =>
      Some(Settings(row.prefix, row.welcomeMessage, row.enableFunCommands != 0, row.muteRoleId,
                    bw, row.enableAntiSpam != 0, row.logChannelId, lt))
    case _ => None
  }

  /** Reading a guild's settings. */
  function ReadSettings(t: SettingsTable, key: string): (r: Option<Settings>)
    ensures key !in t ==> r == Some(Defaults)
  {
    if key in t then DecodeRow(t[key]) else Some(Defaults)
  }

  /** Encoding a record for storage: flags become 0 or 1, lists JSON text. */
  function EncodeRow(s: Settings): (row: StoredRow)
    ensures row.enableFunCommands in {0, 1} && (row.enableFunCommands == 1 <==> s.enableFunCommands)
    ensures row.enableAntiSpam in {0, 1} && (row.enableAntiSpam == 1 <==> s.enableAntiSpam)
    ensures row.bannedWords.Some? && row.logTypes.Some?
  {
    StoredRow(s.prefix, s.welcomeMessage, if s.enableFunCommands then 1 else 0, s.muteRoleId,
              Some(JsonList.Encode(s.bannedWords)), if s.enableAntiSpam then 1 else 0,
              s.logChannelId, Some(JsonList.Encode(s.logTypes)))
  }

  /** Reading back an encoded record gives the record: strings, flags and
      lists all round-trip. */
  lemma DecodeEncode(s: Settings)
    ensures DecodeRow(EncodeRow(s)) == Some(s)
  {
    JsonList.RoundTrip(s.bannedWords);
    JsonList.RoundTrip(s.logTypes);
    JsonList.EncodeNonEmpty(s.bannedWords);
    JsonList.EncodeNonEmpty(s.logTypes);
  }

  /** The keys an update request carries; an absent key is `None`. Keys the
      table has no column for are dropped when the row is written, so they
      are not represented. */
  datatype Update = Update(
    prefix: Option<string>,
    welcomeMessage: Option<string>,
    enableFunCommands: Option<bool>,
    muteRoleId: Option<string>,
    bannedWords: Option<seq<string>>,
    enableAntiSpam: Option<bool>,
    logChannelId: Option<string>,
    logTypes: Option<seq<string>>)

  const NoChange := Update(None, None, None, None, None, None, None, None)

  function Pick<T>(o: Option<T>, current: T): T {
    if o.Some? then o.value else current
  }

  /** Request keys overwrite; absent keys keep the value read. */
  function Merge(s: Settings, u: Update): (r: Settings)
    ensures r.prefix == (if u.prefix.Some? then u.prefix.value else s.prefix)
    ensures r.welcomeMessage == (if u.welcomeMessage.Some? then u.welcomeMessage.value else s.welcomeMessage)
    ensures r.enableFunCommands == (if u.enableFunCommands.Some? then u.enableFunCommands.value else s.enableFunCommands)
    ensures r.muteRoleId == (if u.muteRoleId.Some? then u.muteRoleId.value else s.muteRoleId)
    ensures r.bannedWords == (if u.bannedWords.Some? then u.bannedWords.value else s.bannedWords)
    ensures r.enableAntiSpam == (if u.enableAntiSpam.Some? then u.enableAntiSpam.value else s.enableAntiSpam)
    ensures r.logChannelId == (if u.logChannelId.Some? then u.logChannelId.value else s.logChannelId)
    ensures r.logTypes == (if u.logTypes.Some? then u.logTypes.value else s.logTypes)
  {
    Settings(
      Pick(u.prefix, s.prefix),
      Pick(u.welcomeMessage, s.welcomeMessage),
      Pick(u.enableFunCommands, s.enableFunCommands),
      Pick(u.muteRoleId, s.muteRoleId),
      Pick(u.bannedWords, s.bannedWords),
      Pick(u.enableAntiSpam, s.enableAntiSpam),
      Pick(u.logChannelId, s.logChannelId),
      Pick(u.logTypes, s.logTypes))
  }

  /** An empty request keeps everything; applying a request twice is the same
      as applying it once; a request naming every key decides the whole
      record regardless of what was stored. */
  lemma MergeLaws(s: Settings, s': Settings, u: Update)
    ensures Merge(s, NoChange) == s
    ensures Merge(Merge(s, u), u) == Merge(s, u)
    ensures (u.prefix.Some? && u.welcomeMessage.Some? && u.enableFunCommands.Some? && u.muteRoleId.Some?
             && u.bannedWords.Some? && u.enableAntiSpam.Some? && u.logChannelId.Some? && u.logTypes.Some?)
            ==> Merge(s, u) == Merge(s', u)
  {
  }

  /** A request naming only the prefix changes only the prefix. */
  lemma PrefixOnlyUpdate(s: Settings, p: string)
    ensures Merge(s, NoChange.(prefix := Some(p))) == s.(prefix := p)
  {
  }

  /** The update: read (default record when absent), merge, encode, replace.
      `None` when the stored row cannot be decoded: the request fails and
      nothing is written. */
  function UpdateSettings(t: SettingsTable, key: string, u: Update): (r: Option<SettingsTable>)
    ensures r.None? <==> ReadSettings(t, key).None?
    ensures r.Some? ==>
      && r.value.Keys == t.Keys + {key}
      && (forall k :: k in t && k != key ==> r.value[k] == t[k])
  {
    match ReadSettings(t, key)
    case None => None
    case Some(s) => Some(t[key := EncodeRow(Merge(s, u))])
  }

  /** Reading after an update returns the merge of what was there (or of the
      default record) with the request. */
  lemma ReadAfterUpdate(t: SettingsTable, key: string, u: Update)
    requires UpdateSettings(t, key, u).Some?
    ensures ReadSettings(UpdateSettings(t, key, u).value, key) == Some(Merge(ReadSettings(t, key).value, u))
    ensures key !in t ==> ReadSettings(UpdateSettings(t, key, u).value, key) == Some(Merge(Defaults, u))
  {
    DecodeEncode(Merge(ReadSettings(t, key).value, u));
  }

  /** Other guilds read the same before and after an update. */
  lemma UpdateIsLocal(t: SettingsTable, key: string, other: string, u: Update)
    requires UpdateSettings(t, key, u).Some?
    requires other != key
    ensures ReadSettings(UpdateSettings(t, key, u).value, other) == ReadSettings(t, other)
  {
  }
}
