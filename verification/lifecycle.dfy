/** The `globalchat` join and leave commands (cogs/global.py). Both are
    two-step operations around the registry; every platform call is an input:
    whether the webhook could be created, whether the database write went
    through, and whether each edit of the command's status message succeeded
    (an edit that fails raises out of the handler). */
module Lifecycle {

  import opened Common
  import opened Registry

  datatype WebhookCreation = Created(url: string) | CreateForbidden | CreateFailed

  datatype JoinReply = Joined | NoWebhookPermission | WebhookCreateError | JoinError

  /** `deleted` names the webhook the command tried to delete, if any. */
  datatype JoinResult = JoinResult(registry: Table, reply: JoinReply, deleted: Option<string>)

  /** Join exactly as the handler is written. After a successful upsert the
      success edit sits in the same `try` as the upsert, so when that edit
      fails the `except` branch reports an error and deletes the webhook the
      new row points at; and when the error edit itself fails, the exception
      leaves the `except` branch before the webhook delete is reached. */
  function JoinAsWritten(t: Table, g: GuildId, ch: ChannelId, create: WebhookCreation,
                         upsertOk: bool, confirmEditOk: bool, reportEditOk: bool): (r: JoinResult)
    ensures !create.Created? ==> r.registry == t && r.deleted == None && r.reply != Joined
    ensures create.Created? && upsertOk ==> r.registry == Upsert(t, g, ch, create.url)
    ensures create.Created? && !upsertOk ==> r.registry == t && r.reply == JoinError
    ensures r.deleted.Some? ==> create.Created? && r.deleted.value == create.url && reportEditOk
    ensures create.Created? && !(upsertOk && confirmEditOk) ==> (r.deleted.Some? <==> reportEditOk)
    ensures r.reply == Joined <==> create.Created? && upsertOk && confirmEditOk
    ensures r.reply == Joined ==> r.deleted == None
  {
    match create
    case CreateForbidden => JoinResult(t, NoWebhookPermission, None)
    case CreateFailed => JoinResult(t, WebhookCreateError, None)
    case Created(url) =>
      var t' := if upsertOk then Upsert(t, g, ch, url) else t;
      if upsertOk && confirmEditOk then JoinResult(t', Joined, None)
      else JoinResult(t', JoinError, if reportEditOk then Some(url) else None)
  }

  /** The discrepancy: the row is written, the success edit fails, the error
      edit succeeds, and the webhook the new row points at is deleted. The
      registry now names a dead endpoint (until a broadcast prunes it). */
  lemma OrphanedRowAsWritten()
    ensures var r := JoinAsWritten(map[], 1, 10, Created("W"), true, false, true);
      && 1 in r.registry && r.registry[1].webhook == "W"
      && r.deleted == Some("W")
  {
  }

  /** Join as evidently intended: the compensating delete runs exactly when
      the registry write failed, whatever happens to the status message. */
  function Join(t: Table, g: GuildId, ch: ChannelId, create: WebhookCreation, upsertOk: bool): (r: JoinResult)
    ensures !create.Created? ==> r.registry == t && r.deleted == None && r.reply != Joined
    ensures create.Created? && !upsertOk ==> r.registry == t && r.reply == JoinError && r.deleted == Some(create.url)
    ensures r.reply == Joined <==> create.Created? && upsertOk
    ensures r.reply == Joined ==>
      && r.registry == Upsert(t, g, ch, create.url)
      && r.deleted == None
  {
    match create
    case CreateForbidden => JoinResult(t, NoWebhookPermission, None)
    case CreateFailed => JoinResult(t, WebhookCreateError, None)
    case Created(url) =>
      if upsertOk then JoinResult(Upsert(t, g, ch, url), Joined, None)
      else JoinResult(t, JoinError, Some(url))
  }

  /** No orphaned row: whenever the registry holds the freshly created
      webhook, that webhook was not deleted; and whenever the write failed,
      the fresh webhook is torn down. */
  lemma JoinNoOrphans(t: Table, g: GuildId, ch: ChannelId, create: WebhookCreation, upsertOk: bool)
    requires create.Created?
    requires forall h :: h in t ==> t[h].webhook != create.url
    ensures var r := Join(t, g, ch, create, upsertOk);
      (exists h :: h in r.registry && r.registry[h].webhook == create.url) <==> r.deleted == None
  {
    var r := Join(t, g, ch, create, upsertOk);
    if upsertOk {
      assert g in r.registry && r.registry[g].webhook == create.url;
    }
  }

  /** When both status edits go through, the handler as written and the
      intended join agree. */
  lemma JoinAgreesWhenEditsSucceed(t: Table, g: GuildId, ch: ChannelId, create: WebhookCreation, upsertOk: bool)
    ensures JoinAsWritten(t, g, ch, create, upsertOk, true, true) == Join(t, g, ch, create, upsertOk)
  {
  }

  datatype WebhookDeletion = Deleted | AlreadyGone | DeleteForbidden | DeleteFailed

  datatype LeaveReply = Left | NotSubscribed | LeaveError

  datatype LeaveResult = LeaveResult(registry: Table, reply: LeaveReply, deleted: Option<string>)

  /** Leave: look up the webhook for (guild, channel), delete the row, and
      when a row went, delete its webhook. Every outcome of that webhook
      delete, "already gone" included, still reports success. */
  function Leave(t: Table, g: GuildId, ch: ChannelId, storeOk: bool, deletion: WebhookDeletion): (r: LeaveResult)
    ensures !storeOk ==> r == LeaveResult(t, LeaveError, None)
    ensures storeOk && !HasKey(t, g, ch) ==> r == LeaveResult(t, NotSubscribed, None)
    ensures storeOk && HasKey(t, g, ch) ==>
      && r.reply == Left
      && r.registry.Keys == t.Keys - {g}
      && (forall h :: h in r.registry ==> r.registry[h] == t[h])
      && (r.deleted.Some? <==> t[g].webhook != "")
      && (r.deleted.Some? ==> r.deleted.value == t[g].webhook)
  {
    var url := LookupWebhook(t, g, ch);
    if !storeOk then LeaveResult(t, LeaveError, None)
    else
      var (t', removed) := DeleteByKey(t, g, ch);
      if !removed then LeaveResult(t, NotSubscribed, None)
      else
        // Deleted, AlreadyGone, DeleteForbidden and DeleteFailed are all
        // caught and logged; none of them changes the reply.
        LeaveResult(t', Left, if url.Some? && url.value != "" then url else None)
  }

  /** The reply and the registry after leave do not depend on what the
      webhook delete answered. */
  lemma LeaveIgnoresDeletion(t: Table, g: GuildId, ch: ChannelId, storeOk: bool, d1: WebhookDeletion, d2: WebhookDeletion)
    ensures Leave(t, g, ch, storeOk, d1) == Leave(t, g, ch, storeOk, d2)
  {
  }

  /** Leaving twice: the second leave finds nothing and reports so. */
  lemma LeaveTwice(t: Table, g: GuildId, ch: ChannelId, d: WebhookDeletion)
    ensures var r1 := Leave(t, g, ch, true, d);
      Leave(r1.registry, g, ch, true, d) == LeaveResult(r1.registry, NotSubscribed, None)
  {
  }

  /** Join then leave from the same channel: the guild's row is gone (any
      earlier row of the guild included) and the fresh webhook is deleted. */
  lemma JoinThenLeave(t: Table, g: GuildId, ch: ChannelId, url: string, d: WebhookDeletion)
    requires url != ""
    ensures var j := Join(t, g, ch, Created(url), true);
      var l := Leave(j.registry, g, ch, true, d);
      && l.reply == Left
      && l.registry == t - {g}
      && l.deleted == Some(url)
  {
  }
}
