/** `log_event`: turns one notification into an embed and sends it to the log
    channel, swallowing every failure. The wall clock, the client's channel
    cache and the outcome of the send are inputs. */
module Logger {
  import opened Wrappers
  import opened Domain
  import opened Notifications

  /** The configured log channel. */
  const LogChannelId: Id := 1417049521845698580

  const ActionByName: string := "\U{1F464} Action By"
  const TargetName: string := "\U{1F3AF} Target"
  const FooterPrefix: string := "Server: "

  datatype Field = Field(name: string, value: string, inline: bool)

  datatype Embed = Embed(
    title: string,
    description: string,
    color: Color,
    timestamp: Instant,
    fields: seq<Field>,
    footer: string)

  /** A message posted to a channel. */
  datatype Delivery = Delivery(channel: Id, embed: Embed)

  /** What `log_event` depends on besides its arguments: the ids of the channels
      the client has cached, the current time, and whether the send goes through. */
  datatype Env = Env(cachedChannels: set<Id>, now: Instant, sendSucceeds: bool)

  /** The value of the first field called `name`, if there is one. */
  function FieldValue(fields: seq<Field>, name: string): Option<string>
  {
    if |fields| == 0 then None
    else if fields[0].name == name then Some(fields[0].value)
    else FieldValue(fields[1..], name)
  }

  /** The guild name a footer was written for, if it has the footer's shape. */
  function FooterGuild(footer: string): Option<string>
  {
    if |FooterPrefix| <= |footer| && footer[..|FooterPrefix|] == FooterPrefix
    then Some(footer[|FooterPrefix|..])
    else None
  }

  /** The fields of an embed: "Action By" when there is an actor, then "Target"
      when there is a target, both rendered with `str`. */
  function Fields(actor: Option<Principal>, target: Option<Target>): (r: seq<Field>)
    ensures |r| == (if actor.Some? then 1 else 0) + (if target.Some? then 1 else 0)
    ensures FieldValue(r, ActionByName) == (if actor.Some? then Some(actor.value.display) else None)
    ensures FieldValue(r, TargetName) == (if target.Some? then Some(TargetText(target.value)) else None)
    ensures actor.Some? && target.Some? ==> r[0].name == ActionByName && r[1].name == TargetName
    ensures forall i :: 0 <= i < |r| ==> !r[i].inline
  {
    (if actor.Some? then [Field(ActionByName, actor.value.display, false)] else [])
    + (if target.Some? then [Field(TargetName, TargetText(target.value), false)] else [])
  }

  /** One `log_event` call. Nothing is posted when the log channel is not in the
      cache, when there is no guild to name in the footer (reading its name
      fails and the failure is swallowed), or when the send fails. */
  function LogEvent(n: Notification, env: Env): (r: Option<Delivery>)
    ensures r.Some? <==> LogChannelId in env.cachedChannels && n.guild.Some? && env.sendSucceeds
    ensures r.Some? ==> r.value.channel == LogChannelId
    ensures r.Some? ==>
      var e := r.value.embed;
      && e.title == Title(n.category)
      && e.description == n.description
      && e.color == ColorOf(n.category)
      && e.timestamp == env.now
      && e.fields == Fields(n.actor, n.target)
      && FieldValue(e.fields, ActionByName) == (if n.actor.Some? then Some(n.actor.value.display) else None)
      && FieldValue(e.fields, TargetName) == (if n.target.Some? then Some(TargetText(n.target.value)) else None)
      && FooterGuild(e.footer) == Some(n.guild.value.name)
  {
    if LogChannelId !in env.cachedChannels then None
    else if n.guild.None? then None
    else
      var embed := Embed(
        Title(n.category), n.description, ColorOf(n.category), env.now,
        Fields(n.actor, n.target), FooterPrefix + n.guild.value.name);
      assert embed.footer[..|FooterPrefix|] == FooterPrefix;
      assert embed.footer[|FooterPrefix|..] == n.guild.value.name;
      if env.sendSucceeds then Some(Delivery(LogChannelId, embed)) else None
  }

  /** Every `log_event` call of one handler run, in order; each posts at most one message. */
  function Deliver(ns: seq<Notification>, env: Env): (r: seq<Delivery>)
    ensures |r| <= |ns|
    ensures forall i :: 0 <= i < |r| ==> r[i].channel == LogChannelId
    ensures forall i :: 0 <= i < |r| ==> exists j :: 0 <= j < |ns| && LogEvent(ns[j], env) == Some(r[i])
    ensures LogChannelId !in env.cachedChannels || !env.sendSucceeds ==> r == []
    ensures (forall i :: 0 <= i < |ns| ==> ns[i].guild.Some?) && LogChannelId in env.cachedChannels && env.sendSucceeds
            ==> |r| == |ns|
  {
    if |ns| == 0 then []
    else
      var first := LogEvent(ns[0], env);
      (if first.Some? then [first.value] else []) + Deliver(ns[1..], env)
  }
}
