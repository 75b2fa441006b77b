/** Properties that hold across all handlers: where an actor may come from,
    when an event is dropped, and what reaches the log channel. */
module Properties {
  import opened Wrappers
  import opened Domain
  import opened Notifications
  import AuditLog
  import Logger
  import opened Handlers

  /** The audit action a handler queries for this event, if it queries one. */
  function QueriedAction(e: Event): Option<AuditLog.ActionKind>
  {
    match e
    case MemberJoin(m) => if m.user.bot then Some(AuditLog.BotAdd) else None
    case MemberRemove(_) => Some(AuditLog.Kick)
    case MemberBan(_, _) => Some(AuditLog.Ban)
    case MemberUnban(_, _) => Some(AuditLog.Unban)
    case MemberUpdate(_, _) => None
    case ChannelCreate(_) => Some(AuditLog.ChannelCreate)
    case ChannelDelete(_) => Some(AuditLog.ChannelDelete)
    case RoleCreate(_) => Some(AuditLog.RoleCreate)
    case RoleDelete(_) => Some(AuditLog.RoleDelete)
    case InviteCreate(_) => Some(AuditLog.InviteCreate)
    case InviteDelete(_) => Some(AuditLog.InviteDelete)
    case MessageDelete(_) => None
    case MessageEdit(_, _) => None
  }

  /** The events whose report exists only when the audit trail explains them. */
  predicate NeedsAuditEntry(e: Event)
  {
    || e.MemberBan? || e.MemberUnban?
    || e.ChannelCreate? || e.ChannelDelete?
    || e.RoleCreate? || e.RoleDelete?
    || e.InviteCreate? || e.InviteDelete?
  }

  /** Every actor a report credits is the user of the newest audit entry of the
      kind the handler queried, read from a readable log; events that query
      nothing credit no one. */
  lemma ActorIsNewestEntryUser(e: Event, log: AuditLog.Access)
    ensures forall n :: n in Handle(e, log) && n.actor.Some? ==>
      && QueriedAction(e).Some?
      && log.Readable?
      && exists i :: AuditLog.IsNewest(log.trail, QueriedAction(e).value, i) && log.trail[i].user == n.actor
  {
  }

  /** When the audit log cannot be read, every event whose handler queries it is
      dropped, departures and bot arrivals included. */
  lemma UnreadableLogSilencesQueriedEvents(e: Event)
    requires QueriedAction(e).Some?
    ensures Handle(e, AuditLog.Unreadable) == []
  {
  }

  /** With no audit entry of the queried kind, ban, unban, channel, role and
      invite events are dropped: nothing is reported, not even without an actor. */
  lemma SilentWithoutAuditEntry(e: Event, log: AuditLog.Access)
    requires NeedsAuditEntry(e)
    requires log.Readable? ==> AuditLog.Newest(log.trail, QueriedAction(e).value).None?
    ensures Handle(e, log) == []
  {
  }

  /** An unrelated kick is never attributed to a departure: when the newest
      kick entry targets someone else, the member is reported as having left,
      with no actor. */
  lemma UnrelatedKickIsNotAttributed(m: Member, log: AuditLog.Access, other: Id)
    requires other != m.user.id
    requires log.Readable?
    requires AuditLog.Newest(log.trail, AuditLog.Kick).Some?
    requires AuditLog.Newest(log.trail, AuditLog.Kick).value.target == Some(other)
    ensures Reports(Handle(MemberRemove(m), log), MemberLeft, None, Some(UserTarget(m.user)), Some(m.guild))
  {
  }

  /** Messages written by bots never reach the log channel. */
  lemma BotMessagesNeverPosted(e: Event, log: AuditLog.Access, env: Logger.Env)
    requires e.MessageDelete? ==> e.message.author.bot
    requires e.MessageEdit? ==> e.beforeMessage.author.bot
    requires e.MessageDelete? || e.MessageEdit?
    ensures Process(e, log, env) == []
  {
  }

  /** What reaches the log channel agrees with the handler's decision: a posted
      embed shows "Action By" only for events that queried the audit trail,
      and an invite event's embed never shows "Target". */
  lemma PostedFieldsFollowDecision(e: Event, log: AuditLog.Access, env: Logger.Env)
    ensures forall d :: d in Process(e, log, env) && QueriedAction(e).None? ==>
      Logger.FieldValue(d.embed.fields, Logger.ActionByName).None?
    ensures forall d :: d in Process(e, log, env) && (e.InviteCreate? || e.InviteDelete?) ==>
      Logger.FieldValue(d.embed.fields, Logger.TargetName).None?
  {
  }
}
