/** The welcome message of `on_member_join` (main.py): the guild's settings
    are read, the template's `{user}` placeholders are replaced by the new
    member's mention and then its `{guild}` placeholders by the guild's name,
    and the text goes to the system channel when the bot may write there,
    else to the configured log channel. Whether the send itself succeeds is
    not observable beyond a log line. */
module Welcome {

  import opened Common
  import opened ServerSettings
  import Text

  /** What resolving the configured log channel gives: a text channel the
      bot may write to, or not (missing, another kind of channel, no
      permission, or an id that is not a number). */
  datatype LogChannelStatus = LogChannelUsable | LogChannelUnusable

  datatype Target = SystemChannel | LogChannel

  datatype Greeting = NoGreeting | SendGreeting(target: Target, text: string)

  const UserPlaceholder := "{user}"
  const GuildPlaceholder := "{guild}"

  /** `template.replace('{user}', mention).replace('{guild}', guildName)`:
      two rounds of split-and-join, so the text between placeholders is kept
      verbatim. */
  function WelcomeText(template: string, mention: string, guildName: string): (r: string)
    ensures r == Text.Join(Text.Split(Text.Join(Text.Split(template, UserPlaceholder), mention), GuildPlaceholder), guildName)
  {
    Text.ReplaceIsJoinOfSplit(template, UserPlaceholder, mention);
    Text.ReplaceIsJoinOfSplit(Text.ReplaceAll(template, UserPlaceholder, mention), GuildPlaceholder, guildName);
    Text.ReplaceAll(Text.ReplaceAll(template, UserPlaceholder, mention), GuildPlaceholder, guildName)
  }

  /** A template without placeholders is sent as written. */
  lemma PlainTemplateUnchanged(template: string, mention: string, guildName: string)
    requires !Text.Occurs(template, UserPlaceholder) && !Text.Occurs(template, GuildPlaceholder)
    ensures WelcomeText(template, mention, guildName) == template
  {
    Text.ReplaceAbsent(template, UserPlaceholder, mention);
    Text.ReplaceAbsent(template, GuildPlaceholder, guildName);
  }

  /** The handler for a member joining the guild keyed `key`. */
  function OnMemberJoin(t: SettingsTable, key: string, isBot: bool, mention: string, guildName: string,
                        systemChannelWritable: bool, logChannel: LogChannelStatus): (r: Greeting)
    ensures isBot ==> r == NoGreeting
    ensures ReadSettings(t, key).None? ==> r == NoGreeting
    ensures r.SendGreeting? ==>
      && ReadSettings(t, key).Some?
      && var s := ReadSettings(t, key).value;
      && s.welcomeMessage != ""
      && r.text == WelcomeText(s.welcomeMessage, mention, guildName)
      && (r.target == SystemChannel <==> systemChannelWritable)
      && (r.target == LogChannel ==> s.logChannelId != "" && logChannel == LogChannelUsable)
    ensures !isBot && ReadSettings(t, key).Some? && ReadSettings(t, key).value.welcomeMessage != "" ==>
      (r.NoGreeting? <==> !systemChannelWritable && (ReadSettings(t, key).value.logChannelId == "" || logChannel == LogChannelUnusable))
    ensures key !in t ==> r == NoGreeting
  {
    if isBot then NoGreeting
    else match ReadSettings(t, key)
      case None => NoGreeting   // json.loads raised: the handler stops
      case Some(s) =>
        if s.welcomeMessage == "" then NoGreeting
        else
          var text := WelcomeText(s.welcomeMessage, mention, guildName);
          if systemChannelWritable then SendGreeting(SystemChannel, text)
          else if s.logChannelId != "" && logChannel == LogChannelUsable then SendGreeting(LogChannel, text)
          else
            assert s.logChannelId == "" || logChannel == LogChannelUnusable;
            NoGreeting
  }
}
