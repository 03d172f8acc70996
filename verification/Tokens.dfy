/** The refresh-token table and the flows that change it. Every flow is one atomic step; each database statement in it
    may work, fail, or take effect without being acknowledged. */
module Tokens {
  import opened Wrappers

  datatype RefreshToken = RefreshToken(
    id: string, user: string, device: string, hash: string, issuedAt: int, expiresAt: int,
    revokedAt: Option<int>, replacedBy: Option<string>)

  /** Rows in the order they were inserted; no flow deletes one. */
  type Table = seq<RefreshToken>

  datatype Fault = Works | Fails | Unacknowledged

  datatype AuthError = InvalidInput | InvalidToken | TokenReused | TokenRevoked | TokenExpired | Unavailable

  // ----- the statements -----

  predicate Clashes(rows: Table, id: string, hash: string) {
    exists k :: 0 <= k < |rows| && (rows[k].id == id || rows[k].hash == hash)
  }

  function Find(rows: Table, hash: string): (r: Option<nat>)
    ensures r.Some? ==> r.value < |rows| && rows[r.value].hash == hash
    ensures r.None? ==> forall k :: 0 <= k < |rows| ==> rows[k].hash != hash
  {
    if rows == [] then None
    else if rows[|rows| - 1].hash == hash then Some(|rows| - 1)
    else Find(rows[..|rows| - 1], hash)
  }

  function RevokedRow(rt: RefreshToken, at: int): RefreshToken {
    if rt.revokedAt.None? then rt.(revokedAt := Some(at)) else rt
  }

  function Revoke(rows: Table, id: string, at: int): Table {
    seq(|rows|, k requires 0 <= k < |rows| => if rows[k].id == id then RevokedRow(rows[k], at) else rows[k])
  }

  function RevokeAllForUser(rows: Table, user: string, at: int): Table {
    seq(|rows|, k requires 0 <= k < |rows| => if rows[k].user == user then RevokedRow(rows[k], at) else rows[k])
  }

  function MarkReplaced(rows: Table, oldId: string, newId: string, at: int): Table {
    seq(|rows|, k requires 0 <= k < |rows| =>
          if rows[k].id == oldId then rows[k].(replacedBy := Some(newId), revokedAt := Some(at)) else rows[k])
  }

  class TokenRepo {
    var rows: Table

    constructor ()
      ensures rows == []
    {
      rows := [];
    }

    /** The primary key and UNIQUE(token_hash) refuse a row whose id or hash is taken. */
    method Store(rt: RefreshToken, fault: Fault) returns (ok: bool)
      modifies this
      ensures rows == if fault.Fails? || Clashes(old(rows), rt.id, rt.hash) then old(rows)
                      else old(rows) + [rt.(revokedAt := None, replacedBy := None)]
      ensures ok <==> fault.Works? && !Clashes(old(rows), rt.id, rt.hash)
    {
      if fault.Fails? || Clashes(rows, rt.id, rt.hash) {
        return false;
      }
      rows := rows + [rt.(revokedAt := None, replacedBy := None)];
      ok := fault.Works?;
    }

    method GetByHash(hash: string, fault: Fault) returns (r: Result<RefreshToken, AuthError>)
      ensures r == if !fault.Works? then Err(Unavailable)
                   else if Find(rows, hash).None? then Err(InvalidToken)
                   else Ok(rows[Find(rows, hash).value])
    {
      if !fault.Works? {
        return Err(Unavailable);
      }
      var at := Find(rows, hash);
      if at.None? {
        return Err(InvalidToken);
      }
      r := Ok(rows[at.value]);
    }

    /** The row with the id, if it is not revoked yet, is revoked now; every other row stays as it is. */
    method RevokeOne(id: string, at: int, fault: Fault) returns (ok: bool)
      modifies this
      ensures |rows| == |old(rows)| && ok == fault.Works?
      ensures forall k :: 0 <= k < |rows| ==>
                rows[k] == if !fault.Fails? && old(rows)[k].id == id && old(rows)[k].revokedAt.None?
                           then old(rows)[k].(revokedAt := Some(at)) else old(rows)[k]
    {
      if !fault.Fails? {
        rows := Revoke(rows, id, at);
      }
      ok := fault.Works?;
    }

    /** The row with the old id gets its successor and is revoked now; every other row stays as it is. */
    method LinkReplaced(oldId: string, newId: string, at: int, fault: Fault) returns (ok: bool)
      modifies this
      ensures |rows| == |old(rows)| && ok == fault.Works?
      ensures forall k :: 0 <= k < |rows| ==>
                rows[k] == if !fault.Fails? && old(rows)[k].id == oldId
                           then old(rows)[k].(replacedBy := Some(newId), revokedAt := Some(at)) else old(rows)[k]
    {
      if !fault.Fails? {
        rows := MarkReplaced(rows, oldId, newId, at);
      }
      ok := fault.Works?;
    }

    /** Every row of the user that is not revoked yet is revoked now; every other row stays as it is. */
    method RevokeAll(user: string, at: int, fault: Fault) returns (ok: bool)
      modifies this
      ensures |rows| == |old(rows)| && ok == fault.Works?
      ensures forall k :: 0 <= k < |rows| ==>
                rows[k] == if !fault.Fails? && old(rows)[k].user == user && old(rows)[k].revokedAt.None?
                           then old(rows)[k].(revokedAt := Some(at)) else old(rows)[k]
    {
      if !fault.Fails? {
        rows := RevokeAllForUser(rows, user, at);
      }
      ok := fault.Works?;
    }
  }

  // ----- the flows, by their net effect on the table and by their answer -----

  /** How long tokens live, and the digest of a plaintext. */
  datatype Config = Config(ttl: int, hash: string -> string)

  /** What a flow draws while issuing, and what goes wrong around it: signing, generating, storing. */
  datatype Draw = Draw(id: string, plain: string, minted: bool, store: Fault)

  datatype Op =
    | Session(user: string, device: string, deviceOk: bool, draw: Draw, now: int)
    | Refresh(plain: string, draw: Draw, get: Fault, revokeAll: Fault, mark: Fault, now: int)
    | Logout(plain: string, get: Fault, revoke: Fault, now: int)
    | LogoutAll(user: string, revokeAll: Fault, now: int)

  datatype Response = Issued(plain: string) | LoggedOut | Failed(error: AuthError)

  datatype Effect =
    | Nothing
    | Adds(row: RefreshToken)
    | Rotates(oldId: string, row: RefreshToken, at: int)
    | RevokesOne(id: string, at: int)
    | RevokesAll(user: string, at: int)

  function After(rows: Table, e: Effect): Table {
    match e
    case Nothing => rows
    case Adds(row) => rows + [row]
    case Rotates(oldId, row, at) => MarkReplaced(rows + [row], oldId, row.id, at)
    case RevokesOne(id, at) => Revoke(rows, id, at)
    case RevokesAll(user, at) => RevokeAllForUser(rows, user, at)
  }

  function NewRow(c: Config, user: string, device: string, draw: Draw, now: int): RefreshToken {
    RefreshToken(draw.id, user, device, c.hash(draw.plain), now, now + c.ttl, None, None)
  }

  /** Whether issuing leaves a row behind, and whether the caller learns of it. */
  predicate Stores(c: Config, rows: Table, draw: Draw) {
    draw.minted && !draw.store.Fails? && !Clashes(rows, draw.id, c.hash(draw.plain))
  }

  predicate Issues(c: Config, rows: Table, draw: Draw) {
    Stores(c, rows, draw) && draw.store.Works?
  }

  function EffectOf(c: Config, rows: Table, op: Op): Effect {
    match op
    case Session(user, device, deviceOk, draw, now) =>
      if deviceOk && Stores(c, rows, draw) then Adds(NewRow(c, user, device, draw, now)) else Nothing
    case Refresh(plain, draw, get, revokeAll, mark, now) =>
      var at := Find(rows, c.hash(plain));
      if plain == "" || !get.Works? || at.None? then Nothing
      else
        var rt := rows[at.value];
        if rt.replacedBy.Some? then (if revokeAll.Fails? then Nothing else RevokesAll(rt.user, now))
        else if rt.revokedAt.Some? || rt.expiresAt <= now || !Stores(c, rows, draw) then Nothing
        else if mark.Fails? || !Issues(c, rows, draw) then Adds(NewRow(c, rt.user, rt.device, draw, now))
        else Rotates(rt.id, NewRow(c, rt.user, rt.device, draw, now), now)
    case Logout(plain, get, revoke, now) =>
      var at := Find(rows, c.hash(plain));
      if plain == "" || !get.Works? || at.None? || revoke.Fails? then Nothing
      else RevokesOne(rows[at.value].id, now)
    case LogoutAll(user, revokeAll, now) =>
      if user == "" || revokeAll.Fails? then Nothing else RevokesAll(user, now)
  }

  function Respond(c: Config, rows: Table, op: Op): Response {
    match op
    case Session(_, _, deviceOk, draw, _) =>
      if deviceOk && Issues(c, rows, draw) then Issued(draw.plain) else Failed(Unavailable)
    case Refresh(plain, draw, get, revokeAll, mark, now) =>
      var at := Find(rows, c.hash(plain));
      if plain == "" then Failed(InvalidInput)
      else if !get.Works? then Failed(Unavailable)
      else if at.None? then Failed(InvalidToken)
      else
        var rt := rows[at.value];
        if rt.replacedBy.Some? then Failed(if revokeAll.Works? then TokenReused else Unavailable)
        else if rt.revokedAt.Some? then Failed(TokenRevoked)
        else if rt.expiresAt <= now then Failed(TokenExpired)
        else if Issues(c, rows, draw) && mark.Works? then Issued(draw.plain)
        else Failed(Unavailable)
    case Logout(plain, get, revoke, _) =>
      if plain == "" then Failed(InvalidInput)
      else if !get.Works? then Failed(Unavailable)
      else if Find(rows, c.hash(plain)).None? || revoke.Works? then LoggedOut
      else Failed(Unavailable)
    case LogoutAll(user, revokeAll, _) =>
      if user == "" then Failed(InvalidInput)
      else if revokeAll.Works? then LoggedOut
      else Failed(Unavailable)
  }

  class AuthService {
    const repo: TokenRepo
    const c: Config

    constructor (repo: TokenRepo, c: Config)
      ensures this.repo == repo && this.c == c
    {
      this.repo, this.c := repo, c;
    }

    method IssueTokens(user: string, device: string, draw: Draw, now: int) returns (r: Response)
      modifies repo
      ensures repo.rows == if Stores(c, old(repo.rows), draw)
                           then old(repo.rows) + [NewRow(c, user, device, draw, now)] else old(repo.rows)
      ensures r == if Issues(c, old(repo.rows), draw) then Issued(draw.plain) else Failed(Unavailable)
    {
      if !draw.minted {
        return Failed(Unavailable);
      }
      var rt := RefreshToken(draw.id, user, device, c.hash(draw.plain), now, now + c.ttl, None, None);
      var ok := repo.Store(rt, draw.store);
      r := if ok then Issued(draw.plain) else Failed(Unavailable);
    }

    /** The tail of sign-up and of both logins. */
    method IssueSession(user: string, device: string, deviceOk: bool, draw: Draw, now: int) returns (r: Response)
      modifies repo
      ensures repo.rows == After(old(repo.rows), EffectOf(c, old(repo.rows), Session(user, device, deviceOk, draw, now)))
      ensures r == Respond(c, old(repo.rows), Session(user, device, deviceOk, draw, now))
    {
      if !deviceOk {
        return Failed(Unavailable);
      }
      r := IssueTokens(user, device, draw, now);
    }

    method RefreshSession(plain: string, draw: Draw, get: Fault, revokeAll: Fault, mark: Fault, now: int)
      returns (r: Response)
      modifies repo
      ensures var op := Refresh(plain, draw, get, revokeAll, mark, now);
              && repo.rows == After(old(repo.rows), EffectOf(c, old(repo.rows), op))
              && r == Respond(c, old(repo.rows), op)
    {
      if plain == "" {
        return Failed(InvalidInput);
      }
      var found := repo.GetByHash(c.hash(plain), get);
      if found.Err? {
        return Failed(found.error);
      }
      var rt := found.value;
      if rt.replacedBy.Some? {
        var revoked := repo.RevokeAll(rt.user, now, revokeAll);
        assert !revokeAll.Fails? ==> repo.rows == RevokeAllForUser(old(repo.rows), rt.user, now);
        assert revokeAll.Fails? ==> repo.rows == old(repo.rows);
        return Failed(if revoked then TokenReused else Unavailable);
      }
      if rt.revokedAt.Some? {
        return Failed(TokenRevoked);
      }
      if rt.expiresAt <= now {
        return Failed(TokenExpired);
      }
      r := IssueTokens(rt.user, rt.device, draw, now);
      if r.Failed? {
        return;
      }
      ghost var stored := repo.rows;
      var linked := repo.LinkReplaced(rt.id, draw.id, now, mark);
      assert !mark.Fails? ==> repo.rows == MarkReplaced(stored, rt.id, draw.id, now);
      assert mark.Fails? ==> repo.rows == stored;
      if !linked {
        r := Failed(Unavailable);
      }
    }

    method LogoutOne(plain: string, get: Fault, revoke: Fault, now: int) returns (r: Response)
      modifies repo
      ensures repo.rows == After(old(repo.rows), EffectOf(c, old(repo.rows), Logout(plain, get, revoke, now)))
      ensures r == Respond(c, old(repo.rows), Logout(plain, get, revoke, now))
    {
      if plain == "" {
        return Failed(InvalidInput);
      }
      var found := repo.GetByHash(c.hash(plain), get);
      if found.Err? {
        return if found.error == InvalidToken then LoggedOut else Failed(Unavailable);
      }
      var ok := repo.RevokeOne(found.value.id, now, revoke);
      assert !revoke.Fails? ==> repo.rows == Revoke(old(repo.rows), found.value.id, now);
      assert revoke.Fails? ==> repo.rows == old(repo.rows);
      r := if ok then LoggedOut else Failed(Unavailable);
    }

    method LogoutEverywhere(user: string, revokeAll: Fault, now: int) returns (r: Response)
      modifies repo
      ensures repo.rows == After(old(repo.rows), EffectOf(c, old(repo.rows), LogoutAll(user, revokeAll, now)))
      ensures r == Respond(c, old(repo.rows), LogoutAll(user, revokeAll, now))
    {
      if user == "" {
        return Failed(InvalidInput);
      }
      var ok := repo.RevokeAll(user, now, revokeAll);
      assert !revokeAll.Fails? ==> repo.rows == RevokeAllForUser(old(repo.rows), user, now);
      assert revokeAll.Fails? ==> repo.rows == old(repo.rows);
      r := if ok then LoggedOut else Failed(Unavailable);
    }
  }
}
