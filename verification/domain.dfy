/** The gateway objects the handlers read, reduced to the attributes the bot uses.
    Renderings that the chat library computes (`str(x)`, `x.mention`) are kept
    as opaque strings carried by the objects themselves. */
module Domain {
  import opened Wrappers

  /** A snowflake identifier. */
  type Id = nat

  /** An instant as the library reports it: compared by value, rendered by `text`. */
  datatype Instant = Instant(text: string)

  /** A user account; `display` is what `str(user)` renders and `mention` the ping form. */
  datatype Principal = Principal(id: Id, display: string, mention: string, bot: bool)

  datatype Guild = Guild(id: Id, name: string)

  /** A guild member. `timeoutUntil` is the `communication_disabled_until` attribute,
      None when it is unset (and when the library has no such attribute at all,
      since the bot reads it through `getattr(..., None)`). */
  datatype Member = Member(user: Principal, guild: Guild, timeoutUntil: Option<Instant>)

  datatype GuildChannel = GuildChannel(id: Id, name: string, mention: string, guild: Guild)

  datatype Role = Role(id: Id, name: string, guild: Guild)

  datatype Invite = Invite(code: string, guild: Guild)

  /** A message; `guild` is None for a direct message. */
  datatype Message = Message(author: Principal, channelMention: string, guild: Option<Guild>, content: string)

  /** The object a notification names as its target. */
  datatype Target =
    | UserTarget(user: Principal)
    | ChannelTarget(channel: GuildChannel)
    | RoleTarget(role: Role)

  /** `str(target)`: a user renders as its display name, a channel or role as its name. */
  function TargetText(t: Target): string
  {
    match t
    case UserTarget(u) => u.display
    case ChannelTarget(c) => c.name
    case RoleTarget(r) => r.name
  }
}
