/** Member verification (verify.py): an administrator maps the guild to a
    role, a member asks for a five-character code, and submitting the code
    (normalised) grants the role and consumes the pending entry. The role map
    is a map keyed by the guild's decimal id; the pending codes live in a map
    keyed by user. Randomness, the captcha image and the platform's calls are
    inputs. */
module Verification {

  import opened Common
  import Text

  /** `roles.json`: guild id (as text) to verification role. */
  type RoleMap = map<string, RoleId>

  datatype CodeEntry = CodeEntry(code: string, guild: GuildId, role: RoleId)

  /** `verify_codes`: the pending code of each user. */
  type CodeStore = map<UserId, CodeEntry>

  function GuildKey(g: GuildId): string {
    Text.Decimal(g)
  }

  // ---------------------------------------------------------------------------
  // /verify [role]
  // ---------------------------------------------------------------------------

  datatype VerifyReply = RoleConfigured(role: RoleId) | RoleNotConfigured | PanelPosted(role: RoleId)

  datatype VerifyResult = VerifyResult(roles: RoleMap, reply: VerifyReply)

  /** With a role, the guild's entry is set to it; without one, the panel is
      posted when an entry exists and an error is reported when none does. */
  function VerifyCommand(roles: RoleMap, g: GuildId, role: Option<RoleId>): (r: VerifyResult)
    ensures role.Some? ==> r.roles.Keys == roles.Keys + {GuildKey(g)} && r.roles[GuildKey(g)] == role.value
    ensures role.None? ==> r.roles == roles
    ensures role.None? ==> (r.reply == RoleNotConfigured <==> GuildKey(g) !in roles)
    ensures r.reply.PanelPosted? ==> GuildKey(g) in roles && r.reply.role == roles[GuildKey(g)]
    ensures forall k :: k in roles && k != GuildKey(g) ==> k in r.roles && r.roles[k] == roles[k]
  {
    var key := GuildKey(g);
    match role
    case Some(id) => VerifyResult(roles[key := id], RoleConfigured(id))
    case None =>
      if key in roles then VerifyResult(roles, PanelPosted(roles[key]))
      else VerifyResult(roles, RoleNotConfigured)
  }

  // ---------------------------------------------------------------------------
  // Issuing a code (the "verify" button).
  // ---------------------------------------------------------------------------

  const AlphabetSize: nat := 36
  const CodeLength: nat := 5

  predicate IsCode(s: string) {
    |s| == CodeLength && forall i :: 0 <= i < |s| ==> Text.IsUpperAlnum(s[i])
  }

  /** `string.ascii_uppercase + string.digits`, position by position: the 26
      capital letters in order, then the 10 digits in order. */
  function AlphabetChar(k: nat): (c: char)
    requires k < AlphabetSize
    ensures k < 26 <==> 'A' <= c <= 'Z'
    ensures k >= 26 <==> Text.IsDigit(c)
    ensures Text.IsUpperAlnum(c)
  {
    if k < 26 then ('A' as int + k) as char else ('0' as int + (k - 26)) as char
  }

  /** `random.choices(ascii_uppercase + digits, k=5)`: `picks` are the five
      positions drawn. */
  function GenerateCode(picks: seq<nat>): (code: string)
    requires |picks| == CodeLength
    requires forall i :: 0 <= i < |picks| ==> picks[i] < AlphabetSize
    ensures IsCode(code)
    ensures forall i :: 0 <= i < CodeLength ==> code[i] == AlphabetChar(picks[i])
  {
    seq(CodeLength, i requires 0 <= i < CodeLength => AlphabetChar(picks[i]))
  }

  datatype StartReply = NoRoleConfigured | RoleNotFound | CodeIssued(code: string)

  datatype StartResult = StartResult(store: CodeStore, reply: StartReply)

  /** A member of guild `g` presses the verify button; `guildRoles` are the
      roles the guild has. A code is issued only when the guild has a mapped
      role and that role still exists; issuing replaces the user's earlier
      pending code. */
  function StartVerification(store: CodeStore, roles: RoleMap, g: GuildId, user: UserId,
                             guildRoles: set<RoleId>, picks: seq<nat>): (r: StartResult)
    requires |picks| == CodeLength
    requires forall i :: 0 <= i < |picks| ==> picks[i] < AlphabetSize
    ensures GuildKey(g) !in roles ==> r == StartResult(store, NoRoleConfigured)
    ensures GuildKey(g) in roles && roles[GuildKey(g)] !in guildRoles ==> r == StartResult(store, RoleNotFound)
    ensures r.reply.CodeIssued? <==> GuildKey(g) in roles && roles[GuildKey(g)] in guildRoles
    ensures r.reply.CodeIssued? ==>
      && IsCode(r.reply.code)
      && r.store.Keys == store.Keys + {user}
      && r.store[user] == CodeEntry(r.reply.code, g, roles[GuildKey(g)])
      && (forall u :: u in store && u != user ==> r.store[u] == store[u])
  {
    var key := GuildKey(g);
    if key !in roles then StartResult(store, NoRoleConfigured)
    else if roles[key] !in guildRoles then StartResult(store, RoleNotFound)
    else
      var code := GenerateCode(picks);
      StartResult(store[user := CodeEntry(code, g, roles[key])], CodeIssued(code))
  }

  // ---------------------------------------------------------------------------
  // Submitting a code (the modal).
  // ---------------------------------------------------------------------------

  /** `value.strip().upper()`: blank input normalises to the empty text, and
      a well-formed code keeps its spelling once its padding is gone. */
  function Normalize(raw: string): (r: string)
    ensures r == "" <==> Text.AllSpace(raw)
    ensures IsCode(Text.Strip(raw)) ==> r == Text.Strip(raw)
  {
    Text.Upper(Text.Strip(raw))
  }

  /** What the platform knows of a guild the bot is in. */
  datatype GuildView = GuildView(members: set<UserId>, roles: set<RoleId>)

  /** Whether `member.add_roles` succeeded or raised. */
  datatype GrantOutcome = Granted | GrantFailed

  /** Whether `member.timeout` succeeded, raised Forbidden, or raised
      something else. */
  datatype TimeoutOutcome = TimedOut | TimeoutForbidden | TimeoutFailed

  /** `Crashed`: an exception left the handler and the member got no reply. */
  datatype SubmitReply =
    | NoPendingCode
    | Verified
    | GuildOrRoleProblem
    | WrongCodeTimedOut
    | WrongCode
    | MemberUnavailable
    | Crashed

  datatype SubmitResult = SubmitResult(store: CodeStore, reply: SubmitReply)

  /** The reply to a submission once the guild lookup is done; `member` says
      whether the user could be found in the guild (false when the guild
      itself is gone). */
  function Judge(store: CodeStore, user: UserId, raw: string, e: CodeEntry, member: bool, roleExists: bool,
                 grant: GrantOutcome, timeout: TimeoutOutcome): SubmitResult
  {
    if Normalize(raw) == e.code then
      if member && roleExists then
        if grant == Granted then SubmitResult(store - {user}, Verified)
        else SubmitResult(store, Crashed)          // add_roles raised: the entry stays
      else SubmitResult(store, GuildOrRoleProblem)
    else if member then
      match timeout
      case TimedOut => SubmitResult(store, WrongCodeTimedOut)
      case TimeoutForbidden => SubmitResult(store, WrongCode)
      case TimeoutFailed => SubmitResult(store, Crashed)
    else SubmitResult(store, MemberUnavailable)
  }

  /** `CodeModal.on_submit` as written: the member is looked up on the guild
      before the guild is checked, so a guild the bot no longer sees raises
      before any reply is sent. */
  function SubmitAsWritten(store: CodeStore, user: UserId, raw: string, guilds: map<GuildId, GuildView>,
                           grant: GrantOutcome, timeout: TimeoutOutcome): (r: SubmitResult)
    ensures r.store == store || (r.store == store - {user} && r.reply == Verified)
    ensures r.reply == Verified ==> r.store == store - {user}
    ensures user in store && store[user].guild !in guilds ==> r == SubmitResult(store, Crashed)
  {
    if user !in store then SubmitResult(store, NoPendingCode)
    else
      var e := store[user];
      if e.guild !in guilds then SubmitResult(store, Crashed)   // None.get_member(...)
      else Judge(store, user, raw, e, user in guilds[e.guild].members, e.role in guilds[e.guild].roles, grant, timeout)
  }

  /** The discrepancy: the pending code is right, but the guild is gone, and
      the member gets no reply at all instead of the "server or role
      problem" message the handler has for exactly this case. */
  lemma GuildGoneCrashesAsWritten()
    ensures SubmitAsWritten(map[7 := CodeEntry("AB12C", 9, 5)], 7, "AB12C", map[], Granted, TimedOut).reply == Crashed
  {
  }

  /** `CodeModal.on_submit` as evidently intended: a missing guild counts as a
      missing member, so the handler's own checks answer. */
  function Submit(store: CodeStore, user: UserId, raw: string, guilds: map<GuildId, GuildView>,
                  grant: GrantOutcome, timeout: TimeoutOutcome): (r: SubmitResult)
    ensures user !in store ==> r == SubmitResult(store, NoPendingCode)
    ensures r.store == store || (r.store == store - {user} && r.reply == Verified)
    ensures r.reply == Verified ==> r.store == store - {user}
    ensures r.reply == Verified <==>
      && user in store
      && Normalize(raw) == store[user].code
      && store[user].guild in guilds
      && user in guilds[store[user].guild].members
      && store[user].role in guilds[store[user].guild].roles
      && grant == Granted
    ensures user in store && Normalize(raw) != store[user].code ==> r.store == store
    ensures r.reply == Crashed ==> grant == GrantFailed || timeout == TimeoutFailed
    ensures user in store && store[user].guild !in guilds ==>
      && r.store == store
      && r.reply == (if Normalize(raw) == store[user].code then GuildOrRoleProblem else MemberUnavailable)
  {
    if user !in store then SubmitResult(store, NoPendingCode)
    else
      var e := store[user];
      var member := e.guild in guilds && user in guilds[e.guild].members;
      var roleExists := e.guild in guilds && e.role in guilds[e.guild].roles;
      Judge(store, user, raw, e, member, roleExists, grant, timeout)
  }

  /** Where the guild is still there, the corrected handler and the handler as
      written agree. */
  lemma SubmitAgreesWhenGuildPresent(store: CodeStore, user: UserId, raw: string, guilds: map<GuildId, GuildView>,
                                     grant: GrantOutcome, timeout: TimeoutOutcome)
    requires user in store ==> store[user].guild in guilds
    ensures Submit(store, user, raw, guilds, grant, timeout) == SubmitAsWritten(store, user, raw, guilds, grant, timeout)
  {
  }

  // ---------------------------------------------------------------------------
  // The "enter code" button.
  // ---------------------------------------------------------------------------

  datatype ButtonReply = ModalOpened | NotYourButton

  /** Only the user the button was made for may open the code modal. */
  function PressCodeButton(owner: UserId, clicker: UserId): (r: ButtonReply)
    ensures r == ModalOpened <==> clicker == owner
  {
    if clicker != owner then NotYourButton else ModalOpened
  }

  /** Submitting through the button: a clicker can consume no pending entry
      but their own. */
  lemma OnlyOwnEntryConsumed(store: CodeStore, owner: UserId, clicker: UserId, raw: string,
                             guilds: map<GuildId, GuildView>, grant: GrantOutcome, timeout: TimeoutOutcome)
    requires PressCodeButton(owner, clicker) == ModalOpened
    ensures var r := Submit(store, owner, raw, guilds, grant, timeout);
      forall u :: u in store && u != clicker ==> u in r.store && r.store[u] == store[u]
  {
  }

  /** A code typed back in lower case and with surrounding whitespace
      normalises to the code. */
  lemma NormalizePadded(code: string, pre: string, post: string)
    requires IsCode(code)
    requires Text.AllSpace(pre) && Text.AllSpace(post)
    ensures Normalize(pre + Text.Lower(code) + post) == code
  {
    var typed := Text.Lower(code);
    assert !Text.IsSpace(typed[0]) && !Text.IsSpace(typed[|typed| - 1]);
    Text.StripPadded(pre, typed, post);
    Text.UpperOfLower(code);
  }

  /** Issue then submit: typing the issued code back, in lower case and with
      surrounding whitespace, verifies the member and clears the entry. */
  lemma IssueThenSubmit(store: CodeStore, roles: RoleMap, g: GuildId, user: UserId, guild: GuildView,
                        picks: seq<nat>, pre: string, post: string)
    requires |picks| == CodeLength
    requires forall i :: 0 <= i < |picks| ==> picks[i] < AlphabetSize
    requires GuildKey(g) in roles && roles[GuildKey(g)] in guild.roles
    requires user in guild.members
    requires Text.AllSpace(pre) && Text.AllSpace(post)
    ensures var s := StartVerification(store, roles, g, user, guild.roles, picks);
      var r := Submit(s.store, user, pre + Text.Lower(s.reply.code) + post, map[g := guild], Granted, TimedOut);
      r == SubmitResult(store - {user}, Verified)
  {
    var s := StartVerification(store, roles, g, user, guild.roles, picks);
    NormalizePadded(s.reply.code, pre, post);
    assert s.store - {user} == store - {user};
  }
}
