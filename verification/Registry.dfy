/** The session registry as a map from id to expiry instant. */
module Registry {
  import opened Bindings
  import opened Teardown

  type Sessions = map<SessionId, int>

  datatype Lookup = Found | NotFound | PastExpiry

  function Get(sessions: Sessions, id: SessionId, now: int): Lookup {
    if id !in sessions then NotFound else if now > sessions[id] then PastExpiry else Found
  }

  /** What ActiveCount counts. */
  function Active(sessions: Sessions, now: int): set<SessionId> {
    set s | s in sessions && sessions[s] > now
  }

  /** What the reaper removes. */
  function Expired(sessions: Sessions, at: int): set<SessionId> {
    set s | s in sessions && at > sessions[s]
  }

  /** A walk over a map: every key once, in any order. */
  ghost predicate Enumerates(order: seq<SessionId>, ids: set<SessionId>) {
    Distinct(order) && forall s :: s in order <==> s in ids
  }
}
