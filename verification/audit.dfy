/** The guild audit log as the handlers query it. The log is the guild's full
    trail, newest entry first; a query filters it by action kind and keeps at
    most `limit` entries, the way `guild.audit_logs(limit=..., action=...)` does. */
module AuditLog {
  import opened Wrappers
  import opened Domain

  /** The action kinds the bot filters on, plus every other kind the trail holds. */
  datatype ActionKind =
    | BotAdd | Kick | Ban | Unban
    | ChannelCreate | ChannelDelete
    | RoleCreate | RoleDelete
    | InviteCreate | InviteDelete
    | OtherAction

  /** One audit entry: who acted (None when the library cannot resolve the user)
      and the id of what was acted on (None when the entry has no target). */
  datatype AuditEntry = AuditEntry(action: ActionKind, user: Option<Principal>, target: Option<Id>)

  /** The audit log as a handler finds it: readable, with its trail newest
      first, or unreadable (the bot lacks the permission, or the request fails),
      in which case iterating over a query raises. */
  datatype Access = Readable(trail: seq<AuditEntry>) | Unreadable

  /** Every handler asks for one entry only. */
  const Limit: nat := 1

  /** Entry `i` is the newest entry of kind `action`. */
  ghost predicate IsNewest(trail: seq<AuditEntry>, action: ActionKind, i: int)
  {
    && 0 <= i < |trail|
    && trail[i].action == action
    && forall j :: 0 <= j < i ==> trail[j].action != action
  }

  /** The entries a query yields: the first `limit` entries of kind `action`,
      newest first. Fewer than `limit` only when the trail holds no more. */
  function Query(trail: seq<AuditEntry>, action: ActionKind, limit: nat): (r: seq<AuditEntry>)
    ensures |r| <= limit
    ensures forall i :: 0 <= i < |r| ==> r[i].action == action && r[i] in trail
    ensures |r| < limit ==> forall i :: 0 <= i < |trail| && trail[i].action == action ==> trail[i] in r
    decreases |trail|
  {
    if limit == 0 || |trail| == 0 then []
    else if trail[0].action == action then [trail[0]] + Query(trail[1..], action, limit - 1)
    else Query(trail[1..], action, limit)
  }

  /** The newest entry of kind `action`, if the trail holds one. */
  function Newest(trail: seq<AuditEntry>, action: ActionKind): (r: Option<AuditEntry>)
    ensures r.None? <==> forall i :: 0 <= i < |trail| ==> trail[i].action != action
    ensures r.Some? ==> exists i :: IsNewest(trail, action, i) && trail[i] == r.value
    decreases |trail|
  {
    if |trail| == 0 then None
    else if trail[0].action == action then
      assert IsNewest(trail, action, 0);
      Some(trail[0])
    else
      var rest := Newest(trail[1..], action);
      NewestSkipsOlderKinds(trail, action, rest);
      rest
  }

  /** An entry newest in the tail is newest in the whole trail when the head is of another kind. */
  lemma NewestSkipsOlderKinds(trail: seq<AuditEntry>, action: ActionKind, rest: Option<AuditEntry>)
    requires |trail| > 0 && trail[0].action != action
    requires rest.Some? ==> exists i :: IsNewest(trail[1..], action, i) && trail[1..][i] == rest.value
    ensures rest.Some? ==> exists i :: IsNewest(trail, action, i) && trail[i] == rest.value
  {
    if rest.Some? {
      var i :| IsNewest(trail[1..], action, i) && trail[1..][i] == rest.value;
      assert IsNewest(trail, action, i + 1);
    }
  }

  /** A one-entry query yields exactly the newest entry of that kind, or nothing. */
  lemma {:induction false} OneEntryQueryIsNewest(trail: seq<AuditEntry>, action: ActionKind)
    ensures Query(trail, action, 1) == (if Newest(trail, action).Some? then [Newest(trail, action).value] else [])
    decreases |trail|
  {
    if |trail| > 0 && trail[0].action != action {
      OneEntryQueryIsNewest(trail[1..], action);
    }
  }

  /** What `async for entry in guild.audit_logs(limit=1, action=action)` sees:
      None when the log cannot be read (iterating raises), otherwise the yielded
      entries, which are the newest entry of that kind or nothing. */
  function Fetch(log: Access, action: ActionKind): (r: Option<seq<AuditEntry>>)
    ensures r.None? <==> log.Unreadable?
    ensures r.Some? ==>
      r.value == (if Newest(log.trail, action).Some? then [Newest(log.trail, action).value] else [])
  {
    if log.Unreadable? then None
    else
      OneEntryQueryIsNewest(log.trail, action);
      Some(Query(log.trail, action, Limit))
  }
}
