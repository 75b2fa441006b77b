/** The event handlers of the bot. Each handler is a pure function of the event
    and of the guild's audit log to the notifications it hands to `log_event`,
    in order. A handler whose body raises stops there; the exception is printed
    and swallowed, so it contributes no further notification. */
module Handlers {
  import opened Wrappers
  import opened Domain
  import opened Notifications
  import AuditLog
  import Logger

  type AuditEntry = AuditLog.AuditEntry

  /** The gateway callbacks the bot registers. */
  datatype Event =
    | MemberJoin(member: Member)
    | MemberRemove(member: Member)
    | MemberBan(guild: Guild, user: Principal)
    | MemberUnban(guild: Guild, user: Principal)
    | MemberUpdate(beforeMember: Member, afterMember: Member)
    | ChannelCreate(channel: GuildChannel)
    | ChannelDelete(channel: GuildChannel)
    | RoleCreate(role: Role)
    | RoleDelete(role: Role)
    | InviteCreate(invite: Invite)
    | InviteDelete(invite: Invite)
    | MessageDelete(message: Message)
    | MessageEdit(beforeMessage: Message, afterMessage: Message)

  /** `r` is exactly one notification of category `cat` with the given actor,
      target and footer guild. */
  predicate Reports(r: seq<Notification>, cat: Category, actor: Option<Principal>, target: Option<Target>, guild: Option<Guild>)
  {
    && |r| == 1
    && r[0].category == cat
    && r[0].actor == actor
    && r[0].target == target
    && r[0].guild == guild
  }

  /** The rule shared by every handler that reports only what the audit log
      explains: nothing when the log cannot be read or holds no entry of the
      kind; otherwise one report crediting the newest entry's user. */
  predicate ReportsNewest(r: seq<Notification>, log: AuditLog.Access, action: AuditLog.ActionKind,
                          cat: Category, target: Option<Target>, guild: Guild)
  {
    if log.Readable? && AuditLog.Newest(log.trail, action).Some?
    then Reports(r, cat, AuditLog.Newest(log.trail, action).value.user, target, Some(guild))
    else r == []
  }

  /** `part` occurs in `text` starting at position `k`. */
  predicate OccursAt(text: string, part: string, k: nat)
  {
    k + |part| <= |text| && text[k..k + |part|] == part
  }

  /** `part` occurs somewhere in `text`, verbatim. */
  predicate Quotes(text: string, part: string)
  {
    exists k: nat | k <= |text| :: OccursAt(text, part, k)
  }

  /** The loop body of a handler that does not return after logging: one
      notification per entry the query yields. */
  function PerEntry(entries: seq<AuditEntry>, cat: Category, description: string, guild: Guild, target: Option<Target>): seq<Notification>
  {
    seq(|entries|, i requires 0 <= i < |entries| => Notification(cat, description, Some(guild), entries[i].user, target))
  }

  /** A member joins. A human is reported as a plain join with no actor, without
      looking at the audit log. A bot whose newest bot-add entry exists is
      reported as added by that entry's user; a bot with no such entry falls
      through to the plain join; when the log cannot be read nothing is
      reported. */
  function OnMemberJoin(member: Member, log: AuditLog.Access): (r: seq<Notification>)
    ensures !member.user.bot ==> Reports(r, MemberJoined, None, Some(UserTarget(member.user)), Some(member.guild))
    ensures member.user.bot && log.Unreadable? ==> r == []
    ensures member.user.bot && log.Readable? ==>
      var added := AuditLog.Newest(log.trail, AuditLog.BotAdd);
      if added.Some?
      then Reports(r, BotAdded, added.value.user, Some(UserTarget(member.user)), Some(member.guild))
      else Reports(r, MemberJoined, None, Some(UserTarget(member.user)), Some(member.guild))
  {
    var fetched := if member.user.bot then AuditLog.Fetch(log, AuditLog.BotAdd) else Some([]);
    if fetched.None? then []
    else if |fetched.value| > 0 then
      [Notification(BotAdded, member.user.mention + " added to server.", Some(member.guild),
                    fetched.value[0].user, Some(UserTarget(member.user)))]
    else
      [Notification(MemberJoined, member.user.display + " joined the server.", Some(member.guild),
                    None, Some(UserTarget(member.user)))]
  }

  /** A member leaves. It is a kick, credited to the entry's user, exactly when
      the newest kick entry targets this member's id; otherwise it is a plain
      departure with no actor. An unreadable log, a kick entry with no target
      (reading its id raises) and a matching kick entry with no user (reading
      its mention raises) report nothing. */
  function OnMemberRemove(member: Member, log: AuditLog.Access): (r: seq<Notification>)
    ensures log.Unreadable? ==> r == []
    ensures log.Readable? ==>
      var kick := AuditLog.Newest(log.trail, AuditLog.Kick);
      r == [] <==> kick.Some? && (kick.value.target.None? || (kick.value.target == Some(member.user.id) && kick.value.user.None?))
    ensures log.Readable? && r != [] ==>
      var kick := AuditLog.Newest(log.trail, AuditLog.Kick);
      if kick.Some? && kick.value.target == Some(member.user.id)
      then Reports(r, MemberKicked, kick.value.user, Some(UserTarget(member.user)), Some(member.guild))
      else Reports(r, MemberLeft, None, Some(UserTarget(member.user)), Some(member.guild))
  {
    var fetched := AuditLog.Fetch(log, AuditLog.Kick);
    if fetched.None? then []
    else
      var entries := fetched.value;
      if |entries| > 0 && entries[0].target.None? then []
      else if |entries| > 0 && entries[0].target.value == member.user.id then
        if entries[0].user.None? then []
        else
          [Notification(MemberKicked, member.user.display + " was kicked by " + entries[0].user.value.mention + ".",
                        Some(member.guild), entries[0].user, Some(UserTarget(member.user)))]
      else
        [Notification(MemberLeft, member.user.display + " left the server.", Some(member.guild),
                      None, Some(UserTarget(member.user)))]
  }

  /** A user is banned: reported, credited to the newest ban entry's user and
      naming the user, only when such an entry exists. */
  function OnMemberBan(guild: Guild, user: Principal, log: AuditLog.Access): (r: seq<Notification>)
    ensures ReportsNewest(r, log, AuditLog.Ban, MemberBanned, Some(UserTarget(user)), guild)
  {
    var fetched := AuditLog.Fetch(log, AuditLog.Ban);
    if fetched.Some? && |fetched.value| > 0 then
      [Notification(MemberBanned, user.display + " was banned.", Some(guild),
                    fetched.value[0].user, Some(UserTarget(user)))]
    else []
  }

  /** A user is unbanned: reported, credited to the newest unban entry's user
      and naming the user, only when such an entry exists. */
  function OnMemberUnban(guild: Guild, user: Principal, log: AuditLog.Access): (r: seq<Notification>)
    ensures ReportsNewest(r, log, AuditLog.Unban, MemberUnbanned, Some(UserTarget(user)), guild)
  {
    var fetched := AuditLog.Fetch(log, AuditLog.Unban);
    if fetched.Some? && |fetched.value| > 0 then
      [Notification(MemberUnbanned, user.display + " was unbanned.", Some(guild),
                    fetched.value[0].user, Some(UserTarget(user)))]
    else []
  }

  /** A member changes. Only a change of the timeout value is reported: as
      applied when a timeout value is now set, as removed when it is now unset;
      never with an actor, always naming the updated member. */
  function OnMemberUpdate(before: Member, after: Member): (r: seq<Notification>)
    ensures r == [] <==> before.timeoutUntil == after.timeoutUntil
    ensures r != [] && after.timeoutUntil.Some? ==>
      && Reports(r, TimeoutApplied, None, Some(UserTarget(after.user)), Some(after.guild))
      && Quotes(r[0].description, after.timeoutUntil.value.text)
    ensures r != [] && after.timeoutUntil.None? ==>
      Reports(r, TimeoutRemoved, None, Some(UserTarget(after.user)), Some(after.guild))
  {
    if before.timeoutUntil == after.timeoutUntil then []
    else if after.timeoutUntil.Some? then
      var prefix := after.user.display + " muted until ";
      var description := prefix + after.timeoutUntil.value.text + ".";
      assert OccursAt(description, after.timeoutUntil.value.text, |prefix|);
      [Notification(TimeoutApplied, description, Some(after.guild), None, Some(UserTarget(after.user)))]
    else
      [Notification(TimeoutRemoved, "Timeout removed for " + after.user.display + ".", Some(after.guild),
                    None, Some(UserTarget(after.user)))]
  }

  /** A channel is created: reported, credited to the newest channel-create
      entry's user and naming the channel, only when such an entry exists. */
  function OnChannelCreate(channel: GuildChannel, log: AuditLog.Access): (r: seq<Notification>)
    ensures ReportsNewest(r, log, AuditLog.ChannelCreate, ChannelCreated, Some(ChannelTarget(channel)), channel.guild)
  {
    var fetched := AuditLog.Fetch(log, AuditLog.ChannelCreate);
    if fetched.None? then []
    else PerEntry(fetched.value, ChannelCreated, channel.mention + " created.", channel.guild, Some(ChannelTarget(channel)))
  }

  /** A channel is deleted: reported, credited to the newest channel-delete
      entry's user and naming the channel, only when such an entry exists. */
  function OnChannelDelete(channel: GuildChannel, log: AuditLog.Access): (r: seq<Notification>)
    ensures ReportsNewest(r, log, AuditLog.ChannelDelete, ChannelDeleted, Some(ChannelTarget(channel)), channel.guild)
  {
    var fetched := AuditLog.Fetch(log, AuditLog.ChannelDelete);
    if fetched.None? then []
    else PerEntry(fetched.value, ChannelDeleted, channel.name + " deleted.", channel.guild, Some(ChannelTarget(channel)))
  }

  /** A role is created: reported, credited to the newest role-create entry's
      user and naming the role, only when such an entry exists. */
  function OnRoleCreate(role: Role, log: AuditLog.Access): (r: seq<Notification>)
    ensures ReportsNewest(r, log, AuditLog.RoleCreate, RoleCreated, Some(RoleTarget(role)), role.guild)
  {
    var fetched := AuditLog.Fetch(log, AuditLog.RoleCreate);
    if fetched.None? then []
    else PerEntry(fetched.value, RoleCreated, "Role `" + role.name + "` created.", role.guild, Some(RoleTarget(role)))
  }

  /** A role is deleted: reported, credited to the newest role-delete entry's
      user and naming the role, only when such an entry exists. */
  function OnRoleDelete(role: Role, log: AuditLog.Access): (r: seq<Notification>)
    ensures ReportsNewest(r, log, AuditLog.RoleDelete, RoleDeleted, Some(RoleTarget(role)), role.guild)
  {
    var fetched := AuditLog.Fetch(log, AuditLog.RoleDelete);
    if fetched.None? then []
    else PerEntry(fetched.value, RoleDeleted, "Role `" + role.name + "` deleted.", role.guild, Some(RoleTarget(role)))
  }

  /** An invite is created: reported, credited to the newest invite-create
      entry's user and with no target, only when such an entry exists; the
      description quotes the invite code. */
  function OnInviteCreate(invite: Invite, log: AuditLog.Access): (r: seq<Notification>)
    ensures ReportsNewest(r, log, AuditLog.InviteCreate, InviteCreated, None, invite.guild)
    ensures r != [] ==> Quotes(r[0].description, invite.code)
  {
    var description := "Invite `" + invite.code + "` created.";
    assert OccursAt(description, invite.code, |"Invite `"|);
    var fetched := AuditLog.Fetch(log, AuditLog.InviteCreate);
    if fetched.None? then []
    else PerEntry(fetched.value, InviteCreated, description, invite.guild, None)
  }

  /** An invite is deleted: reported, credited to the newest invite-delete
      entry's user and with no target, only when such an entry exists; the
      description quotes the invite code. */
  function OnInviteDelete(invite: Invite, log: AuditLog.Access): (r: seq<Notification>)
    ensures ReportsNewest(r, log, AuditLog.InviteDelete, InviteDeleted, None, invite.guild)
    ensures r != [] ==> Quotes(r[0].description, invite.code)
  {
    var description := "Invite `" + invite.code + "` deleted.";
    assert OccursAt(description, invite.code, |"Invite `"|);
    var fetched := AuditLog.Fetch(log, AuditLog.InviteDelete);
    if fetched.None? then []
    else PerEntry(fetched.value, InviteDeleted, description, invite.guild, None)
  }

  /** A message is deleted: a message by a bot is never reported; any other is
      reported once, naming its author and quoting its content verbatim. */
  function OnMessageDelete(message: Message): (r: seq<Notification>)
    ensures r == [] <==> message.author.bot
    ensures r != [] ==>
      && Reports(r, MessageDeleted, None, Some(UserTarget(message.author)), message.guild)
      && Quotes(r[0].description, message.content)
  {
    if message.author.bot then []
    else
      var prefix := "From " + message.author.mention + " in " + message.channelMention + ":\n```";
      var description := prefix + message.content + "```";
      assert OccursAt(description, message.content, |prefix|);
      [Notification(MessageDeleted, description, message.guild, None, Some(UserTarget(message.author)))]
  }

  /** A message is edited: nothing is reported when its author is a bot or its
      content is unchanged; otherwise one report names the author, quotes the
      old content and ends with the new content, verbatim. */
  function OnMessageEdit(before: Message, after: Message): (r: seq<Notification>)
    ensures r == [] <==> before.author.bot || before.content == after.content
    ensures r != [] ==>
      && Reports(r, MessageEdited, None, Some(UserTarget(before.author)), before.guild)
      && Quotes(r[0].description, before.content)
      && |after.content| <= |r[0].description|
      && r[0].description[|r[0].description| - |after.content|..] == after.content
  {
    if before.author.bot || before.content == after.content then []
    else
      var prefix := "In " + before.channelMention + "\n**Before:** ";
      var description := prefix + before.content + "\n**After:** " + after.content;
      assert OccursAt(description, before.content, |prefix|);
      [Notification(MessageEdited, description, before.guild, None, Some(UserTarget(before.author)))]
  }

  /** The handler registered for each callback. */
  function Handle(e: Event, log: AuditLog.Access): (r: seq<Notification>)
    ensures |r| <= 1
  {
    match e
    case MemberJoin(m) => OnMemberJoin(m, log)
    case MemberRemove(m) => OnMemberRemove(m, log)
    case MemberBan(g, u) => OnMemberBan(g, u, log)
    case MemberUnban(g, u) => OnMemberUnban(g, u, log)
    case MemberUpdate(b, a) => OnMemberUpdate(b, a)
    case ChannelCreate(c) => OnChannelCreate(c, log)
    case ChannelDelete(c) => OnChannelDelete(c, log)
    case RoleCreate(r) => OnRoleCreate(r, log)
    case RoleDelete(r) => OnRoleDelete(r, log)
    case InviteCreate(i) => OnInviteCreate(i, log)
    case InviteDelete(i) => OnInviteDelete(i, log)
    case MessageDelete(m) => OnMessageDelete(m)
    case MessageEdit(b, a) => OnMessageEdit(b, a)
  }

  /** One event from callback to log channel: at most one message is posted. */
  function Process(e: Event, log: AuditLog.Access, env: Logger.Env): (r: seq<Logger.Delivery>)
    ensures |r| <= 1
    ensures forall i :: 0 <= i < |r| ==> r[i].channel == Logger.LogChannelId
    ensures Logger.LogChannelId !in env.cachedChannels ==> r == []
  {
    Logger.Deliver(Handle(e, log), env)
  }
}
