/** A node's status as shown to users: the administrator's state over heartbeat freshness. */
module Nodes {
  import opened Wrappers

  datatype AdminState = Active | Maintenance | Disabled

  datatype Status = Online | Offline | Warning | InMaintenance | IsDisabled

  /** `agentActive` is None for a node without an agent. Times share one unit with `threshold`. */
  function EffectiveStatus(admin: AdminState, lastSeen: Option<int>, agentActive: Option<bool>, threshold: int, now: int): Status {
    if admin == Disabled then IsDisabled
    else if admin == Maintenance then InMaintenance
    else if lastSeen.None? then Offline
    else if now - lastSeen.value > threshold then Offline
    else if 2 * (now - lastSeen.value) > threshold then Warning
    else if agentActive == Some(false) then Warning
    else Online
  }

  predicate IsSchedulable(admin: AdminState, lastSeen: Option<int>, agentActive: Option<bool>, threshold: int, now: int) {
    EffectiveStatus(admin, lastSeen, agentActive, threshold, now) == Online && admin == Active
  }

  /** Each status, in terms of the fields. */
  lemma {:induction false} StatusExactly(admin: AdminState, lastSeen: Option<int>, agentActive: Option<bool>, threshold: int, now: int)
    ensures var status := EffectiveStatus(admin, lastSeen, agentActive, threshold, now);
      var late := lastSeen.None? || now - lastSeen.value > threshold;
      var aging := lastSeen.Some? && now - lastSeen.value > threshold - (now - lastSeen.value);
      && (status == IsDisabled <==> admin == Disabled)
      && (status == InMaintenance <==> admin == Maintenance)
      && (status == Offline <==> admin == Active && late)
      && (status == Warning <==> admin == Active && !late && (aging || agentActive == Some(false)))
      && (status == Online <==> admin == Active && !late && !aging && agentActive != Some(false))
  {
  }
}
