/** What a handler decides to report: the arguments of one `log_event` call.
    The title and colour of a report are fixed by its category. */
module Notifications {
  import opened Wrappers
  import opened Domain

  datatype Category =
    | BotAdded | MemberJoined | MemberKicked | MemberLeft
    | MemberBanned | MemberUnbanned
    | TimeoutApplied | TimeoutRemoved
    | ChannelCreated | ChannelDeleted
    | RoleCreated | RoleDeleted
    | InviteCreated | InviteDeleted
    | MessageDeleted | MessageEdited

  /** The library colours the bot uses. */
  datatype Color = Blurple | Green | Orange | Yellow | Red | Purple | Blue

  /** One `log_event` call: category (title and colour), description, the guild
      named in the footer (None when the event has no guild), and the optional
      actor and target. */
  datatype Notification = Notification(
    category: Category,
    description: string,
    guild: Option<Guild>,
    actor: Option<Principal>,
    target: Option<Target>)

  /** The embed title of each category. */
  function Title(c: Category): string
  {
    match c
    case BotAdded => "\U{1F916} Bot Added"
    case MemberJoined => "\U{1F4E5} Member Joined"
    case MemberKicked => "\U{1F462} Member Kicked"
    case MemberLeft => "\U{1F4E4} Member Left"
    case MemberBanned => "\U{26D4} Member Banned"
    case MemberUnbanned => "\U{2705} Member Unbanned"
    case TimeoutApplied => "\U{1F507} Timeout Applied"
    case TimeoutRemoved => "\U{1F50A} Timeout Removed"
    case ChannelCreated => "\U{1F4CC} Channel Created"
    case ChannelDeleted => "\U{274C} Channel Deleted"
    case RoleCreated => "\U{1F195} Role Created"
    case RoleDeleted => "\U{274C} Role Deleted"
    case InviteCreated => "\U{1F517} Invite Created"
    case InviteDeleted => "\U{274C} Invite Deleted"
    case MessageDeleted => "\U{1F5D1}\U{FE0F} Message Deleted"
    case MessageEdited => "\U{270F}\U{FE0F} Message Edited"
  }

  /** The embed colour of each category: red marks exactly the bans and the
      deletions, green exactly plain member joins, unbans, removed timeouts, and
      channel and role creations. */
  function ColorOf(c: Category): (r: Color)
    ensures r == Red <==> c in {MemberBanned, ChannelDeleted, RoleDeleted, InviteDeleted, MessageDeleted}
    ensures r == Green <==> c in {MemberJoined, MemberUnbanned, TimeoutRemoved, ChannelCreated, RoleCreated}
  {
    match c
    case BotAdded => Blurple
    case MemberJoined => Green
    case MemberKicked => Orange
    case MemberLeft => Yellow
    case MemberBanned => Red
    case MemberUnbanned => Green
    case TimeoutApplied => Purple
    case TimeoutRemoved => Green
    case ChannelCreated => Green
    case ChannelDeleted => Red
    case RoleCreated => Green
    case RoleDeleted => Red
    case InviteCreated => Blue
    case InviteDeleted => Red
    case MessageDeleted => Red
    case MessageEdited => Orange
  }

  /** A title names its category: no two categories share a title, so a reader
      of the log channel can tell every kind of report apart. */
  lemma TitleInjective(a: Category, b: Category)
    requires Title(a) == Title(b)
    ensures a == b
  {
  }
}
