# Discord log bot: event classification and log composition

This project models the decision logic of a Discord moderation log bot (`bot.py`).
The bot listens for guild lifecycle events: members joining, leaving, being kicked,
banned, unbanned or timed out; channels, roles and invites being created or
deleted; messages being deleted or edited. For most events it asks the guild's
audit log for the single newest entry of the matching action kind, to learn who
did it. It then posts at most one embed to a fixed log channel through
`log_event`.

The audit log is an input, `AuditLog.Access`. It is either readable, with the
guild's audit trail newest entry first, or unreadable. It is unreadable when the
bot lacks the permission or the request fails; iterating over a query then
raises. `AuditLog.Query` is what `guild.audit_logs(limit=..., action=...)` yields.
`AuditLog.Fetch` is what the handlers' `async for` loops see.
`AuditLog.Newest` is the reference meaning of "the newest entry of a kind".
`AuditLog.OneEntryQueryIsNewest` proves that the one-entry query the bot makes
yields exactly that entry, or nothing.

Given the event and the audit log, every handler is a pure function. It returns the
sequence of `log_event` calls it makes, as `Notification` values: category,
description, footer guild, optional actor, optional target. `Logger.LogEvent`
turns one call into the message actually posted, or into nothing. It depends on
the channel cache, the clock and whether the send succeeds, which are all inputs
(`Logger.Env`).

Modules:
- `Wrappers`: `Option`.
- `Domain`: the gateway objects, reduced to ids, names, mentions, the bot flag,
  message content and the timeout value.
- `AuditLog`: audit entries, the query and the newest-entry reference.
- `Notifications`: categories, their titles and colours, and the `Notification`
  record.
- `Logger`: `log_event`, embed fields, footer, delivery.
- `Handlers`: one function per `on_*` callback, the dispatch `Handle`, and
  `Process` (handler followed by delivery).
- `Properties`: lemmas that hold across all handlers.

Behaviour of the code that the model follows, where a prose description of the
bot could suggest otherwise:
- When the audit log cannot be read, every handler that queries it raises and
  reports nothing. That includes a departing member, who is then reported
  neither as kicked nor as having left, and a joining bot. A joining human is
  unaffected, because no query is made.
- A joining bot with no bot-add entry in the audit log is reported as an
  ordinary "Member Joined". The query loop yields nothing and execution falls
  through to the generic join.
- A ban, unban, channel, role or invite event whose audit query is empty is
  dropped without any report. The report is not sent with the actor left out.
- The timeout rule compares the raw `communication_disabled_until` values. Any
  change is reported. It is "Timeout Applied" whenever the new value is set,
  including when one timeout replaces another. It is "Timeout Removed" whenever
  the new value is unset. Nothing checks whether the member is actually
  restricted at that moment.
- An audit entry's user may be absent. `log_event` then omits the "Action By"
  field, because of its `if actor:` test. In `on_member_remove`, a matching kick
  entry with no user makes `entry.user.mention` raise, so nothing is reported.
  The same holds for a kick entry with no target, because `entry.target.id`
  raises.
- A message with no guild (a direct message) makes `guild.name` raise inside
  `log_event` after the channel lookup, so nothing is posted.
- The channel, role and invite handlers have no `return` after logging. They
  are modelled as one report per entry the query yields, and the query's limit
  of one keeps that at most one.

## Model

| member | source | states |
|---|---|---|
| AuditLog.Query | bot.py:96-98 | The query yields at most `limit` entries, all of the requested kind and all from the trail. When it yields fewer than `limit`, it has missed no entry of that kind. |
| AuditLog.Newest | bot.py:123-132 | The newest entry of a kind is absent exactly when the trail holds no entry of that kind. Otherwise it is an entry of that kind with no entry of that kind before it in the trail. |
| AuditLog.OneEntryQueryIsNewest | bot.py:69-71 | A query with limit one yields exactly the newest entry of that kind, or nothing when there is none. |
| AuditLog.Fetch | bot.py:140-142 | The handlers' one-entry query fails exactly when the log is unreadable. Otherwise it yields the newest entry of the kind, or nothing. |
| Notifications.ColorOf | bot.py:75-323 | Red is used exactly for bans and deletions: member banned, channel, role, invite and message deleted. Green is used exactly for member joined, member unbanned, timeout removed, channel created and role created. |
| Notifications.TitleInjective | bot.py:73-321 | Distinct report categories have distinct embed titles. |
| Logger.Fields | bot.py:44-47 | The embed has the "Action By" field iff there is an actor, with the actor's `str` as its value. It has the "Target" field iff there is a target, with the target's `str` as its value. Action By comes before Target. No field is inline. |
| Logger.LogEvent | bot.py:27-51 | A message is posted iff the log channel is cached, the event has a guild and the send succeeds. It goes to the configured channel. Its title and colour follow the category, and it keeps the description. Its timestamp is the current time. Its fields are exactly those of `Logger.Fields`: Action By before Target, none inline. They read back the actor and target. Its footer reads back the guild name. |
| Logger.Deliver | bot.py:35-51 | A handler's `log_event` calls post at most one message each. Each posted message is the rendering of one of the calls. Nothing is posted when the channel is not cached or the send fails. Every call is posted when all have a guild and the channel is reachable. |
| Handlers.OnMemberJoin | bot.py:65-89 | A human gives exactly one "Member Joined" report with no actor. A bot with a newest bot-add entry gives exactly one "Bot Added" report with that entry's user as actor. A bot with no such entry also gives "Member Joined" with no actor. A bot with an unreadable log gives nothing. The target is always the member. |
| Handlers.OnMemberRemove | bot.py:92-117 | With an unreadable log nothing is reported. With a readable log, nothing is reported exactly when the newest kick entry exists and either has no target, or targets this member and has no user. Otherwise "Member Kicked" with the entry's user is reported iff the newest kick entry's target id equals the member's id. Any other departure is "Member Left" with no actor. |
| Handlers.OnMemberBan | bot.py:120-134 | Exactly one "Member Banned" report, with the newest ban entry's user as actor and the banned user as target, when such an entry exists. Otherwise, or when the log is unreadable, nothing. |
| Handlers.OnMemberUnban | bot.py:137-153 | Exactly one "Member Unbanned" report, with the newest unban entry's user as actor and the user as target, when such an entry exists. Otherwise, or when the log is unreadable, nothing. |
| Handlers.OnMemberUpdate | bot.py:156-180 | Nothing is reported iff the timeout value did not change. On a change the report is "Timeout Applied" when a value is now set, quoting that value. It is "Timeout Removed" when no value is set. Neither has an actor, and both target the updated member. |
| Handlers.OnChannelCreate | bot.py:186-201 | Exactly one "Channel Created" report, with the newest channel-create entry's user as actor and the channel as target, when such an entry exists. Otherwise, or when the log is unreadable, nothing. |
| Handlers.OnChannelDelete | bot.py:204-219 | Exactly one "Channel Deleted" report, with the newest channel-delete entry's user as actor and the channel as target, when such an entry exists. Otherwise, or when the log is unreadable, nothing. |
| Handlers.OnRoleCreate | bot.py:225-240 | Exactly one "Role Created" report, with the newest role-create entry's user as actor and the role as target, when such an entry exists. Otherwise, or when the log is unreadable, nothing. |
| Handlers.OnRoleDelete | bot.py:243-258 | Exactly one "Role Deleted" report, with the newest role-delete entry's user as actor and the role as target, when such an entry exists. Otherwise, or when the log is unreadable, nothing. |
| Handlers.OnInviteCreate | bot.py:264-278 | Exactly one "Invite Created" report when a newest invite-create entry exists. It credits that entry's user, has no target and quotes the invite code. Otherwise, or when the log is unreadable, nothing. |
| Handlers.OnInviteDelete | bot.py:281-295 | Exactly one "Invite Deleted" report when a newest invite-delete entry exists. It credits that entry's user, has no target and quotes the invite code. Otherwise, or when the log is unreadable, nothing. |
| Handlers.OnMessageDelete | bot.py:301-313 | Nothing is reported iff the author is a bot. Otherwise there is one "Message Deleted" report with no actor, the author as target, and the content quoted verbatim. |
| Handlers.OnMessageEdit | bot.py:316-328 | Nothing is reported iff the author is a bot or the content is unchanged. Otherwise there is one "Message Edited" report with no actor and the author as target. Its description quotes the old content and ends with the new content, both verbatim. |
| Handlers.Handle | bot.py:65-328 | Whatever the event, its handler makes at most one `log_event` call. |
| Handlers.Process | bot.py:27-328 | Whatever the event, at most one message reaches the log channel, and none when the log channel is not cached. |
| Properties.ActorIsNewestEntryUser | bot.py:96-108 | Every actor a report credits is the user of the newest audit entry, in a readable log, of the kind its handler queried. Events that query nothing credit no actor. |
| Properties.SilentWithoutAuditEntry | bot.py:123-132 | A ban, unban, channel, role or invite event is reported by nothing when the log is unreadable or holds no entry of its kind. When the trail holds no entry of its kind, the event is not reported with the actor left out. |
| Properties.UnreadableLogSilencesQueriedEvents | bot.py:94-117 | When the audit log cannot be read, every event whose handler queries it gives no report. |
| Properties.UnrelatedKickIsNotAttributed | bot.py:99-115 | When the newest kick entry targets another user, the departure is reported as "Member Left", with no actor. |
| Properties.BotMessagesNeverPosted | bot.py:302-326 | Delete and edit events of bot-authored messages never post anything. |
| Properties.PostedFieldsFollowDecision | bot.py:44-47 | A posted embed shows "Action By" only for events that queried the audit log. An invite event's embed never shows "Target". |

## Left out

- The keep-alive HTTP server and process start-up (bot.py:334-355): network I/O and the event loop.
- Token and environment loading, and bot and intents construction (bot.py:12-21): configuration only.
- `on_ready` (bot.py:57-59): it only prints to the console.
- The console output of every caught exception: a failure is modelled as "no further report".
- Concurrency between handlers that are in flight at the same time: each handler is modelled on its own.
- The gateway's dispatch loop that calls the handlers belongs to the chat library and is not part of this model.
- How the chat library renders `str(x)` and `x.mention`: both are opaque strings carried by the objects.
- Colours are an enumeration, not the library's numeric colour values.
- Timestamps are opaque values, and the clock is an input.
- Embed size limits and permission errors that make `channel.send` fail are folded into the `sendSucceeds` input.
- Handlers.OnMemberJoin: the description text is not stated in the contract; only category, actor, target and guild are. The same holds for the other handlers, except where a contract says the description quotes content, a code or a timeout value.
- The guild of an invite is taken to be present. An invite whose guild the library cannot resolve would make `invite.guild.audit_logs` raise; that case is not modelled.
