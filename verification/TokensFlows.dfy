/** What each token flow answers and leaves behind, row by row, for any table whose ids and digests are unique; and when
    tokens expire. */
module TokensFlows {
  import opened Wrappers
  import opened Tokens
  import opened TokensRun

  predicate Clear(rows: Table, id: string, hash: string) {
    forall k :: 0 <= k < |rows| ==> rows[k].id != id && rows[k].hash != hash
  }

  /** Signing, generating and storing a new token leave a row behind. */
  predicate LeavesRow(c: Config, rows: Table, draw: Draw) {
    draw.minted && (draw.store.Works? || draw.store.Unacknowledged?) && Clear(rows, draw.id, c.hash(draw.plain))
  }

  /** `after` has one more row, valid from `now` for the configured time. */
  predicate OneAdded(c: Config, rows: Table, after: Table, user: string, device: string, draw: Draw, now: int) {
    && |after| == |rows| + 1
    && after[|rows|]
       == RefreshToken(draw.id, user, device, c.hash(draw.plain), now, now + c.ttl, None, None)
  }

  predicate OthersKept(rows: Table, after: Table, k: nat) {
    |after| >= |rows| && forall j :: 0 <= j < |rows| && j != k ==> after[j] == rows[j]
  }

  /** Exactly the user's unrevoked rows were revoked. */
  predicate UserRevoked(rows: Table, after: Table, user: string, now: int) {
    && |after| == |rows|
    && forall k :: 0 <= k < |rows| ==>
         after[k] == if rows[k].user == user && rows[k].revokedAt.None? then rows[k].(revokedAt := Some(now)) else rows[k]
  }

  predicate Redeemable(rt: RefreshToken, now: int) {
    rt.replacedBy.None? && rt.revokedAt.None? && now < rt.expiresAt
  }

  // ----- refresh -----

  /** A Refresh whose token is found, but cannot be redeemed. */
  lemma RefreshRefuses(c: Config, rows: Table, op: Op, k: nat)
    requires UniqueKeys(rows) && op.Refresh? && op.plain != "" && op.get.Works?
    requires k < |rows| && rows[k].hash == c.hash(op.plain) && !Redeemable(rows[k], op.now)
    ensures var answer, after := Respond(c, rows, op), After(rows, EffectOf(c, rows, op));
            if rows[k].replacedBy.Some? then
              && answer == Failed(if op.revokeAll.Works? then TokenReused else Unavailable)
              && if op.revokeAll.Fails? then after == rows else UserRevoked(rows, after, rows[k].user, op.now)
            else
              && after == rows
              && answer == Failed(if rows[k].revokedAt.Some? then TokenRevoked else TokenExpired)
  {
    FindIs(rows, c.hash(op.plain), k);
  }

  /** A Refresh whose token can be redeemed: the new row is stored, and only then, and only if that was acknowledged,
      the presented one is linked and revoked; the new plaintext is handed out if that was acknowledged too. */
  lemma RefreshRedeems(c: Config, rows: Table, op: Op, k: nat)
    requires UniqueKeys(rows) && op.Refresh? && op.plain != "" && op.get.Works?
    requires k < |rows| && rows[k].hash == c.hash(op.plain) && Redeemable(rows[k], op.now)
    ensures var answer, after := Respond(c, rows, op), After(rows, EffectOf(c, rows, op));
            var linked := op.draw.store.Works? && !op.mark.Fails?;
            if !LeavesRow(c, rows, op.draw) then after == rows && answer == Failed(Unavailable)
            else
              && OneAdded(c, rows, after, rows[k].user, rows[k].device, op.draw, op.now) && OthersKept(rows, after, k)
              && after[k] == (if linked
                              then rows[k].(replacedBy := Some(op.draw.id), revokedAt := Some(op.now)) else rows[k])
              && answer == (if op.draw.store.Works? && op.mark.Works? then Issued(op.draw.plain)
                            else Failed(Unavailable))
  {
    FindIs(rows, c.hash(op.plain), k);
    var e := EffectOf(c, rows, op);
    assert LeavesRow(c, rows, op.draw) <==> Stores(c, rows, op.draw);
    if e.Rotates? {
      EffectIsOk(c, rows, op);
      RotationIs(rows, k, rows[k].id, e.row, op.now);
    }
  }

  /** A Refresh without a token, or whose token cannot be read, or is not there. */
  lemma RefreshFindsNothing(c: Config, rows: Table, op: Op)
    requires op.Refresh?
    requires op.plain == "" || !op.get.Works? || forall k :: 0 <= k < |rows| ==> rows[k].hash != c.hash(op.plain)
    ensures After(rows, EffectOf(c, rows, op)) == rows
    ensures Respond(c, rows, op) == Failed(if op.plain == "" then InvalidInput
                                           else if !op.get.Works? then Unavailable else InvalidToken)
  {
  }

  /** A Refresh is answered with a new token if and only if the plaintext is that of a row that is neither replaced nor
      revoked nor expired, and every statement on the way works. */
  lemma RefreshIsIssuedExactly(c: Config, rows: Table, op: Op)
    requires UniqueKeys(rows) && op.Refresh?
    ensures Respond(c, rows, op).Issued?
            <==> op.plain != "" && op.get.Works? && op.mark.Works?
                 && op.draw.minted && op.draw.store.Works? && Clear(rows, op.draw.id, c.hash(op.draw.plain))
                 && exists k :: 0 <= k < |rows| && rows[k].hash == c.hash(op.plain) && Redeemable(rows[k], op.now)
  {
    if op.plain == "" || !op.get.Works? || Find(rows, c.hash(op.plain)).None? {
      RefreshMisses(c, rows, op);
    } else {
      var k := Find(rows, c.hash(op.plain)).value;
      if Redeemable(rows[k], op.now) {
        RefreshRedeems(c, rows, op, k);
      } else {
        RefreshRefuses(c, rows, op, k);
        OnlyOneHasIt(rows, c.hash(op.plain), k, op.now);
      }
    }
  }

  lemma RefreshMisses(c: Config, rows: Table, op: Op)
    requires op.Refresh? && (op.plain == "" || !op.get.Works? || Find(rows, c.hash(op.plain)).None?)
    ensures !Respond(c, rows, op).Issued?
    ensures Find(rows, c.hash(op.plain)).None? ==> forall k :: 0 <= k < |rows| ==> rows[k].hash != c.hash(op.plain)
  {
  }

  lemma OnlyOneHasIt(rows: Table, hash: string, k: nat, now: int)
    requires UniqueKeys(rows) && k < |rows| && rows[k].hash == hash && !Redeemable(rows[k], now)
    ensures forall j :: 0 <= j < |rows| && rows[j].hash == hash ==> !Redeemable(rows[j], now)
  {
    forall j | 0 <= j < |rows| && rows[j].hash == hash
      ensures j == k
    {
      FindIs(rows, hash, j);
      FindIs(rows, hash, k);
    }
  }

  /** The row of a plaintext that was handed out. */
  lemma IssuedRow(c: Config, rows: Table, op: Op) returns (k: nat)
    requires Forest(rows) && Respond(c, rows, op).Issued?
    ensures var after := After(rows, EffectOf(c, rows, op));
            k < |after| && after[k].hash == c.hash(Respond(c, rows, op).plain) && after[k].expiresAt == op.now + c.ttl
  {
    k := |rows|;
    if op.Refresh? {
      RefreshIsIssuedExactly(c, rows, op);
      var j :| 0 <= j < |rows| && rows[j].hash == c.hash(op.plain) && Redeemable(rows[j], op.now);
      RefreshRedeems(c, rows, op, j);
    }
  }

  /** Over any run a plaintext handed out at some time is good for nothing from the configured time later on, whatever
      happened in between. */
  lemma IssuedTokenExpires(c: Config, ops: seq<Op>, i: nat, j: nat)
    requires i < j < |ops| && Answer(c, ops, i).Issued? && ops[j].Refresh?
    requires c.hash(ops[j].plain) == c.hash(Answer(c, ops, i).plain) && ops[i].now + c.ttl <= ops[j].now
    ensures !Answer(c, ops, j).Issued?
  {
    ReachableForest(c, ops[..i]);
    var k := IssuedRow(c, Run(c, ops[..i]), ops[i]);
    RunStep(c, ops, i);
    RevocationIsNeverUndone(c, ops, i + 1, j);
    ReachableForest(c, ops[..j]);
    var rows := Run(c, ops[..j]);
    assert Kept(Run(c, ops[..i + 1])[k], rows[k]);
    if ops[j].plain != "" && ops[j].get.Works? {
      RefreshRefuses(c, rows, ops[j], k);
    } else {
      RefreshFindsNothing(c, rows, ops[j]);
    }
  }

  // ----- the other flows -----

  /** A session adds one row, and hands out its plaintext if that was acknowledged; if the device or the issuing fails
      nothing changes. */
  lemma SessionIs(c: Config, rows: Table, op: Op)
    requires op.Session?
    ensures var answer, after := Respond(c, rows, op), After(rows, EffectOf(c, rows, op));
            if !op.deviceOk || !LeavesRow(c, rows, op.draw) then after == rows && answer == Failed(Unavailable)
            else
              && OneAdded(c, rows, after, op.user, op.device, op.draw, op.now) && after[..|rows|] == rows
              && answer == (if op.draw.store.Works? then Issued(op.draw.plain) else Failed(Unavailable))
  {
    assert LeavesRow(c, rows, op.draw) <==> Stores(c, rows, op.draw);
  }

  /** A logout of a known token revokes its row, unless that has a revocation already, and no other. */
  lemma LogoutOfKnown(c: Config, rows: Table, op: Op, k: nat)
    requires UniqueKeys(rows) && op.Logout? && op.plain != "" && op.get.Works?
    requires k < |rows| && rows[k].hash == c.hash(op.plain)
    ensures var answer, after := Respond(c, rows, op), After(rows, EffectOf(c, rows, op));
            && |after| == |rows| && OthersKept(rows, after, k)
            && after[k] == (if !op.revoke.Fails? && rows[k].revokedAt.None?
                            then rows[k].(revokedAt := Some(op.now)) else rows[k])
            && answer == (if op.revoke.Works? then LoggedOut else Failed(Unavailable))
  {
    FindIs(rows, c.hash(op.plain), k);
    forall j | 0 <= j < |rows| && j != k
      ensures rows[j].id != rows[k].id
    {
      if j < k { assert rows[j].id != rows[k].id; } else { assert rows[k].id != rows[j].id; }
    }
  }

  /** Any other logout changes nothing; of an unknown token it is no error. */
  lemma LogoutOfUnknown(c: Config, rows: Table, op: Op)
    requires op.Logout?
    requires op.plain == "" || !op.get.Works? || forall k :: 0 <= k < |rows| ==> rows[k].hash != c.hash(op.plain)
    ensures After(rows, EffectOf(c, rows, op)) == rows
    ensures Respond(c, rows, op) == if op.plain == "" then Failed(InvalidInput)
                                    else if !op.get.Works? then Failed(Unavailable) else LoggedOut
  {
  }

  /** A full logout revokes exactly the user's unrevoked rows. */
  lemma LogoutAllIs(c: Config, rows: Table, op: Op)
    requires op.LogoutAll?
    ensures var answer, after := Respond(c, rows, op), After(rows, EffectOf(c, rows, op));
            if op.user == "" then after == rows && answer == Failed(InvalidInput)
            else
              && (if op.revokeAll.Fails? then after == rows else UserRevoked(rows, after, op.user, op.now))
              && answer == (if op.revokeAll.Works? then LoggedOut else Failed(Unavailable))
  {
  }
}
