/** The end of a connection: it leaves the registry if it is still the registered one, and its user leaves the presence
    index in any case. */
module Unregister {
  import opened Wrappers
  import opened RedisGeo
  import GeoStore
  import H = Hub

  datatype State = State(conns: map<string, H.Conn>, geo: GeoSet, details: DetailKeys)

  function After(s: State, conn: H.Conn, fault: GeoStore.Fault): State {
    State(H.Unregistered(s.conns, conn), GeoStore.RemoveGeo(s.geo, conn.user, fault),
          GeoStore.RemoveDetails(s.details, conn.user, fault))
  }

  /** Somebody with a registered connection whom others can find. */
  predicate OnlineAndFound(s: State, u: string, now: int) {
    u in s.conns && u in GeoStore.Directory(s.geo, s.details, now)
  }

  /** Unregister leaves a registered user discoverable if and only if it is not the user's own connection that ends; or
      it is an old one, and the index did not take the removal. Nobody becomes registered or discoverable by it. */
  lemma WhoStaysFound(s: State, conn: H.Conn, fault: GeoStore.Fault, u: string, now: int)
    ensures OnlineAndFound(After(s, conn, fault), u, now)
            <==> OnlineAndFound(s, u, now) && (u != conn.user || (s.conns[u] != conn && fault.FirstFails?))
  {
    var t := After(s, conn, fault);
    assert u in GeoStore.Directory(t.geo, t.details, now)
      <==> u in GeoStore.Directory(s.geo, s.details, now) && (u != conn.user || fault.FirstFails?);
  }

  /** It takes the position and the detail of the user whose connection ends, up to the command that failed, and leaves
      the entries of everybody else. */
  lemma TakesOwnEntry(s: State, conn: H.Conn, fault: GeoStore.Fault, u: string)
    ensures var t := After(s, conn, fault);
            && (u in t.geo <==> u in s.geo && (u != conn.user || fault.FirstFails?))
            && (u in t.details <==> u in s.details && (u != conn.user || fault.FirstFails? || fault.SecondFails?))
            && (u in t.geo ==> t.geo[u] == s.geo[u]) && (u in t.details ==> t.details[u] == s.details[u])
  {
  }

  /** So a late Unregister of a replaced connection hides a user who is still connected: the new connection stays
      registered, but the user is no longer found, and heartbeats, which renew only what is stored, do not change that. */
  lemma LateUnregisterHidesConnected(position: GeoPosition, detail: Detail, now: int, ttl: Ttl)
    ensures var current, stale := H.Conn("u", 1), H.Conn("u", 0);
            var s := State(map["u" := current], map["u" := position], map["u" := Stored(detail, now + ttl)]);
            var t := After(s, stale, GeoStore.NoFault);
            && OnlineAndFound(s, "u", now) && t.conns == s.conns && !OnlineAndFound(t, "u", now)
            && GeoStore.TouchAnswer(t.geo, t.details, "u", now, GeoStore.NoFault) == Ok(None)
            && GeoStore.TouchDetails(t.geo, t.details, "u", now, ttl, GeoStore.NoFault) == t.details
  {
    var s := State(map["u" := H.Conn("u", 1)], map["u" := position], map["u" := Stored(detail, now + ttl)]);
    assert "u" in GeoStore.Directory(s.geo, s.details, now);
    WhoStaysFound(s, H.Conn("u", 0), GeoStore.NoFault, "u", now);
  }
}
