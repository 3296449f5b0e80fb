/** The payload built by `send_global_chat` (cogs/global.py) before the
    fan-out: the embed body, the author line, the avatar and the footer. The
    embed colour and its wall-clock timestamp are left out. */
module Projection {

  import opened Common
  import Text

  /** Longest embed description the platform displays. */
  const BodyLimit: nat := 2048
  const Marker: string := "..."

  datatype Author = Author(
    id: UserId,
    displayName: string,
    isBot: bool,
    avatarUrl: Option<string>,   // custom avatar, when the user set one
    defaultAvatarUrl: string)    // the platform's default avatar

  datatype Payload = Payload(
    description: string,
    username: string,
    avatarUrl: string,
    authorLine: string,
    footer: string)

  /** Body truncation: a body within the limit is kept as it is; a longer one
      keeps its first `BodyLimit - |Marker|` characters and ends in the marker,
      for exactly `BodyLimit` characters. */
  function Truncate(content: string): (r: string)
    ensures |r| <= BodyLimit
    ensures |content| <= BodyLimit ==> r == content
    ensures |content| > BodyLimit ==>
      && |r| == BodyLimit
      && r[..BodyLimit - |Marker|] == content[..BodyLimit - |Marker|]
      && r[BodyLimit - |Marker|..] == Marker
  {
    if |content| > 2048 then content[..2045] + "..." else content
  }

  /** The avatar shown for the author: the custom one when present, else the
      default one. */
  function AvatarOf(a: Author): string {
    match a.avatarUrl
    case Some(url) => url
    case None => a.defaultAvatarUrl
  }

  /** The payload for a message by `a` with body `content`, posted in the
      guild `guildId` named `guildName`. */
  function Project(a: Author, content: string, guildId: GuildId, guildName: string): (p: Payload)
    ensures |p.description| <= BodyLimit
    ensures p.description == Truncate(content)
    ensures p.description == content <==> |content| <= BodyLimit
    ensures p.avatarUrl in {a.defaultAvatarUrl} + (if a.avatarUrl.Some? then {a.avatarUrl.value} else {})
    ensures a.avatarUrl.Some? ==> p.avatarUrl == a.avatarUrl.value
    ensures |a.defaultAvatarUrl| > 0 && (a.avatarUrl.Some? ==> |a.avatarUrl.value| > 0) ==> |p.avatarUrl| > 0
    ensures p.username == a.displayName
    ensures |p.authorLine| > |a.displayName| + 3
    ensures p.authorLine[..|a.displayName| + 2] == a.displayName + " (" && p.authorLine[|p.authorLine| - 1] == ')'
    ensures Text.ParseDecimal(p.authorLine[|a.displayName| + 2..|p.authorLine| - 1]) == Some(a.id)
    ensures |p.footer| > |guildName| + 12
    ensures p.footer[..|guildName| + 11] == "From " + guildName + " (ID: " && p.footer[|p.footer| - 1] == ')'
    ensures Text.ParseDecimal(p.footer[|guildName| + 11..|p.footer| - 1]) == Some(guildId)
  {
    Text.DecimalRoundTrip(a.id);
    Text.DecimalRoundTrip(guildId);
    var footer := "From " + guildName + " (ID: " + Text.Decimal(guildId) + ")";
    assert footer[|guildName| + 11..|footer| - 1] == Text.Decimal(guildId);
    var line := a.displayName + " (" + Text.Decimal(a.id) + ")";
    assert line[|a.displayName| + 2..|line| - 1] == Text.Decimal(a.id);
    Payload(
      Truncate(content),
      a.displayName,
      AvatarOf(a),
      line,
      "From " + guildName + " (ID: " + Text.Decimal(guildId) + ")")
  }
}
