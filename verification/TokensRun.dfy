/** Runs of the refresh-token flows: the links form a forest of chains, a token is good for one rotation, reuse locks
    the user out, and the live tokens of a user are bounded by the sessions begun. */
module TokensRun {
  import opened Wrappers
  import opened Tokens

  // ----- the forest -----

  ghost predicate UniqueKeys(rows: Table) {
    forall i, j :: 0 <= i < j < |rows| ==> rows[i].id != rows[j].id && rows[i].hash != rows[j].hash
  }

  predicate LinkedTo(a: RefreshToken, b: RefreshToken) {
    a.replacedBy == Some(b.id) && a.user == b.user && a.device == b.device
  }

  /** A replaced token is revoked, and its successor is a later row of the same user and device. */
  ghost predicate LinksForward(rows: Table) {
    forall i :: 0 <= i < |rows| && rows[i].replacedBy.Some? ==>
      rows[i].revokedAt.Some? && exists j :: i < j < |rows| && LinkedTo(rows[i], rows[j])
  }

  ghost predicate NoSharedSuccessor(rows: Table) {
    forall i, j :: 0 <= i < j < |rows| && rows[i].replacedBy.Some? ==> rows[i].replacedBy != rows[j].replacedBy
  }

  ghost predicate Forest(rows: Table) {
    UniqueKeys(rows) && LinksForward(rows) && NoSharedSuccessor(rows)
  }

  ghost function Successor(rows: Table, i: nat): (j: nat)
    requires Forest(rows) && i < |rows| && rows[i].replacedBy.Some?
    ensures i < j < |rows| && LinkedTo(rows[i], rows[j])
  {
    var j :| i < j < |rows| && LinkedTo(rows[i], rows[j]);
    j
  }

  /** The rows reached from row `i` by following the links, to the end. */
  ghost function Chain(rows: Table, i: nat): (r: seq<nat>)
    requires Forest(rows) && i < |rows|
    ensures r != [] && r[0] == i && forall k :: 0 <= k < |r| ==> i <= r[k] < |rows|
    decreases |rows| - i
  {
    if rows[i].replacedBy.None? then [i] else [i] + Chain(rows, Successor(rows, i))
  }

  /** Every chain ends: it goes strictly forward, stays with one user and device, only its last token can be
      unrevoked, and that one has no successor. */
  lemma {:induction false} ChainHasOneLiveToken(rows: Table, i: nat)
    requires Forest(rows) && i < |rows|
    ensures var c := Chain(rows, i);
            && (forall p, q :: 0 <= p < q < |c| ==> c[p] < c[q])
            && (forall p :: 0 <= p < |c| ==> rows[c[p]].user == rows[i].user && rows[c[p]].device == rows[i].device)
            && (forall p :: 0 <= p < |c| - 1 ==>
                  rows[c[p]].revokedAt.Some? && rows[c[p]].replacedBy == Some(rows[c[p + 1]].id))
            && rows[c[|c| - 1]].replacedBy.None?
    decreases |rows| - i
  {
    if rows[i].replacedBy.Some? {
      ChainHasOneLiveToken(rows, Successor(rows, i));
    }
  }

  /** Two chains are disjoint, or one is the end of the other: if they share a row, one starts inside the other. */
  lemma {:induction false} ChainsDoNotMerge(rows: Table, i: nat, j: nat, p: nat, q: nat)
    requires Forest(rows) && i < |rows| && j < |rows|
    requires p < |Chain(rows, i)| && q < |Chain(rows, j)| && Chain(rows, i)[p] == Chain(rows, j)[q]
    ensures i in Chain(rows, j) || j in Chain(rows, i)
  {
    if p == 0 {
      assert Chain(rows, j)[q] == i;
    } else if q == 0 {
      assert Chain(rows, i)[p] == j;
    } else {
      ChainHasOneLiveToken(rows, i);
      ChainHasOneLiveToken(rows, j);
      var a, b := Chain(rows, i)[p - 1], Chain(rows, j)[q - 1];
      assert rows[a].replacedBy == rows[b].replacedBy;
      assert a == b;
      ChainsDoNotMerge(rows, i, j, p - 1, q - 1);
    }
  }

  // ----- what one effect does -----

  predicate FreshRow(rows: Table, row: RefreshToken) {
    !Clashes(rows, row.id, row.hash) && row.revokedAt.None? && row.replacedBy.None?
  }

  predicate CanRotate(a: RefreshToken, oldId: string, row: RefreshToken) {
    a.id == oldId && a.revokedAt.None? && a.replacedBy.None? && a.user == row.user && a.device == row.device
  }

  predicate EffectOk(rows: Table, e: Effect) {
    match e
    case Adds(row) => FreshRow(rows, row)
    case Rotates(oldId, row, _) =>
      FreshRow(rows, row) && exists i :: 0 <= i < |rows| && CanRotate(rows[i], oldId, row)
    case _ => true
  }

  lemma EffectIsOk(c: Config, rows: Table, op: Op)
    ensures EffectOk(rows, EffectOf(c, rows, op))
  {
    if op.Refresh? && EffectOf(c, rows, op).Rotates? {
      var at := Find(rows, c.hash(op.plain)).value;
      assert CanRotate(rows[at], rows[at].id, NewRow(c, rows[at].user, rows[at].device, op.draw, op.now));
    }
  }

  /** What no flow changes: a row keeps its identity, and its revocation and its successor once it has them. */
  predicate Kept(a: RefreshToken, b: RefreshToken) {
    && b.(revokedAt := None, replacedBy := None) == a.(revokedAt := None, replacedBy := None)
    && (a.revokedAt.Some? ==> b.revokedAt == a.revokedAt)
    && (a.replacedBy.Some? ==> b.replacedBy == a.replacedBy)
  }

  ghost predicate Evolves(a: Table, b: Table) {
    |a| <= |b| && forall i :: 0 <= i < |a| ==> Kept(a[i], b[i])
  }

  lemma RevokingKeepsForest(a: Table, b: Table)
    requires Forest(a) && Evolves(a, b) && |a| == |b|
    requires forall i :: 0 <= i < |a| ==> b[i].replacedBy == a[i].replacedBy
    ensures Forest(b)
  {
    forall i | 0 <= i < |b| && b[i].replacedBy.Some?
      ensures b[i].revokedAt.Some? && exists j :: i < j < |b| && LinkedTo(b[i], b[j])
    {
      assert Kept(a[i], b[i]);
      var j :| i < j < |a| && LinkedTo(a[i], a[j]);
      assert Kept(a[j], b[j]) && LinkedTo(b[i], b[j]);
    }
    forall i, j | 0 <= i < j < |b|
      ensures b[i].id != b[j].id && b[i].hash != b[j].hash
    {
      assert Kept(a[i], b[i]) && Kept(a[j], b[j]);
    }
  }

  lemma AddingKeepsForest(rows: Table, row: RefreshToken)
    requires Forest(rows) && FreshRow(rows, row)
    ensures Forest(rows + [row])
  {
    var b := rows + [row];
    forall i | 0 <= i < |b| && b[i].replacedBy.Some?
      ensures b[i].revokedAt.Some? && exists j :: i < j < |b| && LinkedTo(b[i], b[j])
    {
      assert b[i] == rows[i];
      var j :| i < j < |rows| && LinkedTo(rows[i], rows[j]);
      assert b[j] == rows[j];
    }
  }

  /** Rotating links one row to the row just added. */
  lemma RotationIs(rows: Table, i: nat, oldId: string, row: RefreshToken, at: int)
    requires UniqueKeys(rows) && FreshRow(rows, row) && i < |rows| && CanRotate(rows[i], oldId, row)
    ensures After(rows, Rotates(oldId, row, at))
            == rows[i := rows[i].(replacedBy := Some(row.id), revokedAt := Some(at))] + [row]
  {
    forall k | 0 <= k < |rows| && k != i
      ensures rows[k].id != oldId
    {
      if k < i { assert rows[k].id != rows[i].id; } else { assert rows[i].id != rows[k].id; }
    }
    assert row.id != rows[i].id;
  }

  lemma RotatingKeepsForest(rows: Table, i: nat, row: RefreshToken, at: int)
    requires Forest(rows) && FreshRow(rows, row) && i < |rows| && CanRotate(rows[i], rows[i].id, row)
    ensures Forest(rows[i := rows[i].(replacedBy := Some(row.id), revokedAt := Some(at))] + [row])
  {
    var b := rows[i := rows[i].(replacedBy := Some(row.id), revokedAt := Some(at))] + [row];
    forall k | 0 <= k < |b| && b[k].replacedBy.Some?
      ensures b[k].revokedAt.Some? && exists j :: k < j < |b| && LinkedTo(b[k], b[j])
    {
      if k == i {
        assert LinkedTo(b[k], b[|rows|]);
      } else {
        var j :| k < j < |rows| && LinkedTo(rows[k], rows[j]);
        assert LinkedTo(b[k], b[j]);
      }
    }
    forall k | 0 <= k < |rows| && rows[k].replacedBy.Some?
      ensures rows[k].replacedBy != Some(row.id)
    {
      var j :| k < j < |rows| && LinkedTo(rows[k], rows[j]);
    }
    assert NoSharedSuccessor(b);
    assert UniqueKeys(b);
  }

  lemma EffectKeepsForest(rows: Table, e: Effect)
    requires Forest(rows) && EffectOk(rows, e)
    ensures Forest(After(rows, e)) && Evolves(rows, After(rows, e))
  {
    match e
    case Nothing =>
    case Adds(row) => AddingKeepsForest(rows, row);
    case Rotates(oldId, row, at) =>
      var i :| 0 <= i < |rows| && CanRotate(rows[i], oldId, row);
      RotationIs(rows, i, oldId, row, at);
      RotatingKeepsForest(rows, i, row, at);
    case RevokesOne(id, at) => RevokingKeepsForest(rows, After(rows, e));
    case RevokesAll(user, at) => RevokingKeepsForest(rows, After(rows, e));
  }

  // ----- runs -----

  function Run(c: Config, ops: seq<Op>): Table {
    if ops == [] then []
    else var rows := Run(c, ops[..|ops| - 1]); After(rows, EffectOf(c, rows, ops[|ops| - 1]))
  }

  lemma RunStep(c: Config, ops: seq<Op>, i: nat)
    requires i < |ops|
    ensures Run(c, ops[..i + 1]) == After(Run(c, ops[..i]), EffectOf(c, Run(c, ops[..i]), ops[i]))
  {
    assert ops[..i + 1][..i] == ops[..i];
  }

  /** In every reachable state the links form a forest of chains. */
  lemma {:induction false} ReachableForest(c: Config, ops: seq<Op>)
    ensures Forest(Run(c, ops))
  {
    if ops != [] {
      var rows := Run(c, ops[..|ops| - 1]);
      ReachableForest(c, ops[..|ops| - 1]);
      EffectIsOk(c, rows, ops[|ops| - 1]);
      EffectKeepsForest(rows, EffectOf(c, rows, ops[|ops| - 1]));
    }
  }

  lemma {:induction false} EvolvesTransitive(a: Table, b: Table, d: Table)
    requires Evolves(a, b) && Evolves(b, d)
    ensures Evolves(a, d)
  {
    forall i | 0 <= i < |a|
      ensures Kept(a[i], d[i])
    {
      assert Kept(a[i], b[i]) && Kept(b[i], d[i]);
    }
  }

  lemma OneStepEvolves(c: Config, ops: seq<Op>, i: nat)
    requires i < |ops|
    ensures Evolves(Run(c, ops[..i]), Run(c, ops[..i + 1]))
  {
    RunStep(c, ops, i);
    ReachableForest(c, ops[..i]);
    EffectIsOk(c, Run(c, ops[..i]), ops[i]);
    EffectKeepsForest(Run(c, ops[..i]), EffectOf(c, Run(c, ops[..i]), ops[i]));
  }

  /** Over any stretch of any run no row disappears or changes identity, and no revocation or link is undone. */
  lemma {:induction false} RevocationIsNeverUndone(c: Config, ops: seq<Op>, i: nat, j: nat)
    requires i <= j <= |ops|
    ensures Evolves(Run(c, ops[..i]), Run(c, ops[..j]))
  {
    if i < j {
      RevocationIsNeverUndone(c, ops, i, j - 1);
      OneStepEvolves(c, ops, j - 1);
      EvolvesTransitive(Run(c, ops[..i]), Run(c, ops[..j - 1]), Run(c, ops[..j]));
    }
  }

  function Answer(c: Config, ops: seq<Op>, i: nat): Response
    requires i < |ops|
  {
    Respond(c, Run(c, ops[..i]), ops[i])
  }

  // ----- single use -----

  lemma FindIs(rows: Table, hash: string, k: nat)
    requires UniqueKeys(rows) && k < |rows| && rows[k].hash == hash
    ensures Find(rows, hash) == Some(k)
  {
    assert Find(rows, hash).Some? && rows[Find(rows, hash).value].hash == rows[k].hash;
  }

  /** The row a successful rotation leaves behind. */
  lemma RotatedRow(c: Config, rows: Table, op: Op) returns (k: nat)
    requires Forest(rows) && op.Refresh? && Respond(c, rows, op).Issued?
    ensures k < |rows| && rows[k].hash == c.hash(op.plain)
    ensures var after := After(rows, EffectOf(c, rows, op));
            k < |after| && after[k].hash == c.hash(op.plain) && after[k].replacedBy.Some?
  {
    k := Find(rows, c.hash(op.plain)).value;
    var row := NewRow(c, rows[k].user, rows[k].device, op.draw, op.now);
    assert EffectOf(c, rows, op) == Rotates(rows[k].id, row, op.now);
    RotationIs(rows, k, rows[k].id, row, op.now);
  }

  /** Over any run a refresh plaintext is good for one rotation: presented again, it is answered as reused (or the
      flow fails before it can say so), whatever happened in between. */
  lemma SingleUse(c: Config, ops: seq<Op>, i: nat, j: nat)
    requires i < j < |ops| && ops[i].Refresh? && ops[j].Refresh?
    requires c.hash(ops[i].plain) == c.hash(ops[j].plain) && Answer(c, ops, i).Issued?
    ensures !Answer(c, ops, j).Issued?
    ensures ops[j].plain != "" && ops[j].get.Works? && ops[j].revokeAll.Works? ==>
              Answer(c, ops, j) == Failed(TokenReused)
  {
    ReachableForest(c, ops[..i]);
    var k := RotatedRow(c, Run(c, ops[..i]), ops[i]);
    RunStep(c, ops, i);
    RevocationIsNeverUndone(c, ops, i + 1, j);
    ReachableForest(c, ops[..j]);
    assert Kept(Run(c, ops[..i + 1])[k], Run(c, ops[..j])[k]);
    FindIs(Run(c, ops[..j]), c.hash(ops[j].plain), k);
  }

  /** What was issued can be redeemed: presented before it expires, with nothing in between and no faults, the new
      plaintext rotates. */
  lemma IssuedTokenIsRedeemable(c: Config, rows: Table, op: Op, draw: Draw, now: int)
    requires Forest(rows) && Respond(c, rows, op).Issued? && Respond(c, rows, op).plain != ""
    requires now < op.now + c.ttl
    requires Issues(c, After(rows, EffectOf(c, rows, op)), draw)
    ensures Respond(c, After(rows, EffectOf(c, rows, op)),
                    Refresh(Respond(c, rows, op).plain, draw, Works, Works, Works, now)) == Issued(draw.plain)
  {
    var e := EffectOf(c, rows, op);
    var after := After(rows, e);
    EffectIsOk(c, rows, op);
    EffectKeepsForest(rows, e);
    if op.Refresh? {
      var k := Find(rows, c.hash(op.plain)).value;
      RotationIs(rows, k, rows[k].id, e.row, op.now);
    }
    assert after[|rows|] == e.row;
    FindIs(after, c.hash(op.draw.plain), |rows|);
  }

  // ----- how many tokens are live -----

  function LiveRow(rt: RefreshToken, user: string): nat {
    if rt.user == user && rt.revokedAt.None? then 1 else 0
  }

  /** The unrevoked tokens of a user. */
  function Live(rows: Table, user: string): nat {
    if rows == [] then 0 else Live(rows[..|rows| - 1], user) + LiveRow(rows[|rows| - 1], user)
  }

  lemma LiveSnoc(rows: Table, row: RefreshToken, user: string)
    ensures Live(rows + [row], user) == Live(rows, user) + LiveRow(row, user)
  {
    assert (rows + [row])[..|rows|] == rows;
  }

  lemma {:induction false} LiveUpdate(rows: Table, i: nat, row: RefreshToken, user: string)
    requires i < |rows|
    ensures Live(rows[i := row], user) + LiveRow(rows[i], user) == Live(rows, user) + LiveRow(row, user)
  {
    var last := |rows| - 1;
    if i == last {
      assert rows[i := row][..last] == rows[..last];
    } else {
      assert rows[i := row][..last] == rows[..last][i := row];
      LiveUpdate(rows[..last], i, row, user);
    }
  }

  lemma {:induction false} RevokeAllSparesOthers(rows: Table, u: string, at: int, user: string)
    requires u != user
    ensures Live(RevokeAllForUser(rows, u, at), user) == Live(rows, user)
  {
    if rows != [] {
      var last := |rows| - 1;
      assert RevokeAllForUser(rows, u, at)[..last] == RevokeAllForUser(rows[..last], u, at);
      RevokeAllSparesOthers(rows[..last], u, at, user);
    }
  }

  lemma {:induction false} LiveZero(rows: Table, user: string)
    ensures Live(rows, user) == 0 <==> forall k :: 0 <= k < |rows| ==> LiveRow(rows[k], user) == 0
  {
    if rows != [] {
      var last := |rows| - 1;
      LiveZero(rows[..last], user);
      if Live(rows, user) == 0 {
        forall k | 0 <= k < |rows|
          ensures LiveRow(rows[k], user) == 0
        {
          if k < last { assert rows[k] == rows[..last][k]; }
        }
      }
    }
  }

  lemma RevokeAllLeavesNone(rows: Table, user: string, at: int)
    ensures Live(RevokeAllForUser(rows, user, at), user) == 0
  {
    LiveZero(RevokeAllForUser(rows, user, at), user);
  }

  /** A logout revokes the presented row and changes no other. */
  lemma LogoutRevokesOne(c: Config, rows: Table, op: Op)
    requires Forest(rows) && op.Logout? && EffectOf(c, rows, op).RevokesOne?
    ensures var i := Find(rows, c.hash(op.plain)).value;
            Find(rows, c.hash(op.plain)).Some?
            && After(rows, EffectOf(c, rows, op)) == rows[i := RevokedRow(rows[i], op.now)]
  {
    var i := Find(rows, c.hash(op.plain)).value;
    forall k | 0 <= k < |rows| && k != i
      ensures rows[k].id != rows[i].id
    {
      if k < i { assert rows[k].id != rows[i].id; } else { assert rows[i].id != rows[k].id; }
    }
  }

  /** How many live tokens of a user an operation takes away by logging one out. */
  function TakenAway(c: Config, rows: Table, op: Op, user: string): nat {
    if op.Logout? && EffectOf(c, rows, op).RevokesOne? then LiveRow(rows[Find(rows, c.hash(op.plain)).value], user) else 0
  }

  /** How many it adds without revoking one for it. */
  function Begins(c: Config, rows: Table, op: Op, user: string): nat {
    var e := EffectOf(c, rows, op);
    if e.Adds? && e.row.user == user then 1 else 0
  }

  predicate RevokesAllOf(e: Effect, user: string) {
    e.RevokesAll? && e.user == user
  }

  lemma RotatingKeepsLive(c: Config, rows: Table, op: Op, user: string)
    requires Forest(rows) && EffectOf(c, rows, op).Rotates?
    ensures Live(After(rows, EffectOf(c, rows, op)), user) == Live(rows, user)
  {
    var e := EffectOf(c, rows, op);
    EffectIsOk(c, rows, op);
    var i :| 0 <= i < |rows| && CanRotate(rows[i], e.oldId, e.row);
    RotationIs(rows, i, e.oldId, e.row, e.at);
    var replaced := rows[i].(replacedBy := Some(e.row.id), revokedAt := Some(e.at));
    LiveUpdate(rows, i, replaced, user);
    LiveSnoc(rows[i := replaced], e.row, user);
  }

  /** What an operation does to the number of live tokens of a user. */
  lemma OpOnLive(c: Config, rows: Table, op: Op, user: string)
    requires Forest(rows)
    ensures var e := EffectOf(c, rows, op);
            if RevokesAllOf(e, user) then Live(After(rows, e), user) == 0
            else Live(After(rows, e), user) + TakenAway(c, rows, op, user) == Live(rows, user) + Begins(c, rows, op, user)
  {
    var e := EffectOf(c, rows, op);
    EffectIsOk(c, rows, op);
    match e
    case Nothing =>
    case Adds(row) => LiveSnoc(rows, row, user);
    case Rotates(_, _, _) => RotatingKeepsLive(c, rows, op, user);
    case RevokesOne(_, _) =>
      LogoutRevokesOne(c, rows, op);
      var i := Find(rows, c.hash(op.plain)).value;
      LiveUpdate(rows, i, RevokedRow(rows[i], op.now), user);
    case RevokesAll(u, at) =>
      if u == user {
        RevokeAllLeavesNone(rows, user, at);
      } else {
        RevokeAllSparesOthers(rows, u, at, user);
      }
  }

  /** How many chains of a user were begun since that user's tokens were last all revoked: by sessions, or, for
      `halfDone`, by rotations that stored the new token but did not get to link the old one. */
  function Begun(c: Config, ops: seq<Op>, user: string, halfDone: bool): nat {
    if ops == [] then 0
    else
      var op := ops[|ops| - 1];
      var e := EffectOf(c, Run(c, ops[..|ops| - 1]), op);
      if RevokesAllOf(e, user) then 0
      else Begun(c, ops[..|ops| - 1], user, halfDone)
           + (if op.Refresh? == halfDone then Begins(c, Run(c, ops[..|ops| - 1]), op, user) else 0)
  }

  /** How many live tokens of a user were logged out one by one since then. */
  function LoggedOutLive(c: Config, ops: seq<Op>, user: string): nat {
    if ops == [] then 0
    else
      var op, rows := ops[|ops| - 1], Run(c, ops[..|ops| - 1]);
      if RevokesAllOf(EffectOf(c, rows, op), user) then 0
      else LoggedOutLive(c, ops[..|ops| - 1], user) + TakenAway(c, rows, op, user)
  }

  /** After any operations a user's unrevoked tokens, and those logged out one by one, are exactly the sessions begun
      since the last revoke-all and the rotations that stopped halfway since. So the tokens never exceed these two
      together; and they do not exceed the sessions if and only if at least as many live tokens were logged out as
      rotations stopped halfway. */
  lemma {:induction false} LiveTokensAreBounded(c: Config, ops: seq<Op>, user: string)
    ensures Live(Run(c, ops), user) + LoggedOutLive(c, ops, user) == Begun(c, ops, user, false) + Begun(c, ops, user, true)
    ensures Live(Run(c, ops), user) <= Begun(c, ops, user, false) + Begun(c, ops, user, true)
    ensures Live(Run(c, ops), user) <= Begun(c, ops, user, false)
            <==> Begun(c, ops, user, true) <= LoggedOutLive(c, ops, user)
  {
    if ops != [] {
      var before := ops[..|ops| - 1];
      LiveTokensAreBounded(c, before, user);
      ReachableForest(c, before);
      OpOnLive(c, Run(c, before), ops[|ops| - 1], user);
    }
  }

  /** A Refresh raises the number of live tokens of a user if and only if it stores the new token for that user and does
      not link the presented one. */
  lemma RefreshRaisesExactlyHalfDone(c: Config, rows: Table, op: Op, user: string)
    requires Forest(rows) && op.Refresh?
    ensures var at := Find(rows, c.hash(op.plain));
            var after := After(rows, EffectOf(c, rows, op));
            Live(after, user) > Live(rows, user)
            <==> at.Some? && |after| == |rows| + 1 && after[|rows|].user == user
                 && after[at.value].replacedBy.None?
  {
    var at, e := Find(rows, c.hash(op.plain)), EffectOf(c, rows, op);
    OpOnLive(c, rows, op, user);
    if e.Rotates? {
      EffectIsOk(c, rows, op);
      RotationIs(rows, at.value, e.oldId, e.row, e.at);
    }
  }

  /** No rotation stops between storing the new token and linking the old one. */
  predicate RotationsAreWhole(ops: seq<Op>) {
    forall i :: 0 <= i < |ops| && ops[i].Refresh? ==> !ops[i].mark.Fails? && !ops[i].draw.store.Unacknowledged?
  }

  lemma {:induction false} WholeRotationsBeginNothing(c: Config, ops: seq<Op>, user: string)
    requires RotationsAreWhole(ops)
    ensures Begun(c, ops, user, true) == 0
  {
    if ops != [] {
      WholeRotationsBeginNothing(c, ops[..|ops| - 1], user);
    }
  }

  /** In particular with rotations that run to their end the sessions bound the tokens, whoever logs out. */
  lemma LiveTokensAtMostSessions(c: Config, ops: seq<Op>, user: string)
    requires RotationsAreWhole(ops)
    ensures Live(Run(c, ops), user) <= Begun(c, ops, user, false)
  {
    LiveTokensAreBounded(c, ops, user);
    WholeRotationsBeginNothing(c, ops, user);
  }

  /** The condition matters: when linking fails after storing, one session has two live tokens. */
  lemma HalfDoneRotationLeavesTwo(c: Config, user: string, d1: Draw, d2: Draw)
    requires d1.minted && d1.store.Works? && d2.minted && d2.store.Works? && d1.plain != "" && c.ttl > 0
    requires d1.id != d2.id && c.hash(d1.plain) != c.hash(d2.plain)
    ensures var ops := [Session(user, "", true, d1, 0), Refresh(d1.plain, d2, Works, Works, Fails, 0)];
            Live(Run(c, ops), user) == 2 && Begun(c, ops, user, false) == 1
  {
    HalfDoneRuns(c, user, d1, d2);
    TwoAreLive(NewRow(c, user, "", d1, 0), NewRow(c, user, "", d2, 0), user);
    OneIsBegun(c, Session(user, "", true, d1, 0), Refresh(d1.plain, d2, Works, Works, Fails, 0), user);
  }

  lemma TwoAreLive(row1: RefreshToken, row2: RefreshToken, user: string)
    requires LiveRow(row1, user) == LiveRow(row2, user) == 1
    ensures Live([row1, row2], user) == 2
  {
    LiveSnoc([], row1, user);
    LiveSnoc([row1], row2, user);
    assert [] + [row1] == [row1] && [row1] + [row2] == [row1, row2];
  }

  lemma OneIsBegun(c: Config, op1: Op, op2: Op, user: string)
    requires op1.Session? && op2.Refresh?
    requires EffectOf(c, [], op1).Adds? && EffectOf(c, [], op1).row.user == user
    requires EffectOf(c, Run(c, [op1]), op2).Adds?
    ensures Begun(c, [op1, op2], user, false) == 1
  {
    assert [op1, op2][..1] == [op1] && [op1][..0] == [];
    assert Begun(c, [op1], user, false) == 1;
  }

  lemma FirstSession(c: Config, user: string, d: Draw)
    requires d.minted && d.store.Works?
    ensures var op := Session(user, "", true, d, 0);
            EffectOf(c, [], op) == Adds(NewRow(c, user, "", d, 0)) && Run(c, [op]) == [NewRow(c, user, "", d, 0)]
  {
    var op := Session(user, "", true, d, 0);
    assert [op][..0] == [];
    assert Run(c, [op]) == After([], EffectOf(c, [], op)) == [] + [NewRow(c, user, "", d, 0)];
  }

  lemma HalfDoneRefresh(c: Config, row: RefreshToken, d1: Draw, d2: Draw)
    requires d2.minted && d2.store.Works? && d1.plain != "" && row == NewRow(c, row.user, "", d1, 0) && c.ttl > 0
    requires d1.id != d2.id && c.hash(d1.plain) != c.hash(d2.plain)
    ensures EffectOf(c, [row], Refresh(d1.plain, d2, Works, Works, Fails, 0)) == Adds(NewRow(c, row.user, "", d2, 0))
  {
    FindIs([row], c.hash(d1.plain), 0);
  }

  lemma HalfDoneRuns(c: Config, user: string, d1: Draw, d2: Draw)
    requires d1.minted && d1.store.Works? && d2.minted && d2.store.Works? && d1.plain != "" && c.ttl > 0
    requires d1.id != d2.id && c.hash(d1.plain) != c.hash(d2.plain)
    ensures var op1, op2 := Session(user, "", true, d1, 0), Refresh(d1.plain, d2, Works, Works, Fails, 0);
            var row1, row2 := NewRow(c, user, "", d1, 0), NewRow(c, user, "", d2, 0);
            && EffectOf(c, [], op1) == Adds(row1) && Run(c, [op1]) == [row1]
            && EffectOf(c, [row1], op2) == Adds(row2) && Run(c, [op1, op2]) == [row1, row2]
  {
    var op1, op2 := Session(user, "", true, d1, 0), Refresh(d1.plain, d2, Works, Works, Fails, 0);
    FirstSession(c, user, d1);
    HalfDoneRefresh(c, NewRow(c, user, "", d1, 0), d1, d2);
    RunStep(c, [op1, op2], 1);
    assert [op1, op2][..1] == [op1] && [op1, op2][..2] == [op1, op2];
  }

  // ----- users do not affect each other -----

  /** Whose tokens an operation is about: the user named, or the owner of the token presented. */
  predicate Concerns(c: Config, rows: Table, op: Op, user: string) {
    match op
    case Session(u, _, _, _, _) => u == user
    case LogoutAll(u, _, _) => u == user
    case Refresh(plain, _, _, _, _, _) => Presents(c, rows, plain, user)
    case Logout(plain, _, _, _) => Presents(c, rows, plain, user)
  }

  predicate Presents(c: Config, rows: Table, plain: string, user: string) {
    Find(rows, c.hash(plain)).Some? && rows[Find(rows, c.hash(plain)).value].user == user
  }

  /** An operation of one user changes no token of another, and adds none for another. */
  lemma OthersAreUntouched(c: Config, rows: Table, op: Op, user: string)
    requires Forest(rows) && !Concerns(c, rows, op, user)
    ensures var after := After(rows, EffectOf(c, rows, op));
            && |rows| <= |after|
            && (forall k :: 0 <= k < |rows| && rows[k].user == user ==> after[k] == rows[k])
            && (forall k :: |rows| <= k < |after| ==> after[k].user != user)
  {
    var e := EffectOf(c, rows, op);
    EffectIsOk(c, rows, op);
    if e.Rotates? {
      var i := Find(rows, c.hash(op.plain)).value;
      RotationIs(rows, i, e.oldId, e.row, e.at);
    } else if e.RevokesOne? {
      var i := Find(rows, c.hash(op.plain)).value;
      forall k | 0 <= k < |rows| && rows[k].user == user
        ensures rows[k].id != e.id
      {
        if k < i { assert rows[k].id != rows[i].id; } else { assert rows[i].id != rows[k].id; }
      }
    }
  }

  /** A successful rotation exchanges one live token for another. */
  lemma RotationExchangesOne(c: Config, rows: Table, op: Op)
    requires Forest(rows) && op.Refresh? && Respond(c, rows, op).Issued?
    ensures var i := Find(rows, c.hash(op.plain)).value;
            var after := After(rows, EffectOf(c, rows, op));
            && Find(rows, c.hash(op.plain)).Some? && |after| == |rows| + 1
            && Live(after, rows[i].user) == Live(rows, rows[i].user)
            && after[|rows|] == NewRow(c, rows[i].user, rows[i].device, op.draw, op.now)
            && after[..|rows|] == rows[i := rows[i].(replacedBy := Some(op.draw.id), revokedAt := Some(op.now))]
  {
    var i := Find(rows, c.hash(op.plain)).value;
    var e := EffectOf(c, rows, op);
    EffectIsOk(c, rows, op);
    RotationIs(rows, i, rows[i].id, e.row, op.now);
    var replaced := rows[i].(replacedBy := Some(op.draw.id), revokedAt := Some(op.now));
    LiveUpdate(rows, i, replaced, rows[i].user);
    LiveSnoc(rows[i := replaced], e.row, rows[i].user);
  }

  // ----- the response to reuse -----

  /** Without live tokens, only a session brings one. */
  lemma StaysLockedOut(c: Config, rows: Table, op: Op, user: string)
    requires Forest(rows) && Live(rows, user) == 0
    requires !(op.Session? && op.user == user)
    ensures Live(After(rows, EffectOf(c, rows, op)), user) == 0
  {
    LiveZero(rows, user);
    EffectIsOk(c, rows, op);
    OpOnLive(c, rows, op, user);
    if op.Refresh? && EffectOf(c, rows, op).Adds? {
      assert LiveRow(rows[Find(rows, c.hash(op.plain)).value], user) == 0;
    }
  }

  /** The owner of the presented token. */
  ghost predicate PresentsTokenOf(c: Config, rows: Table, op: Op, user: string) {
    op.Refresh? && Find(rows, c.hash(op.plain)).Some? && rows[Find(rows, c.hash(op.plain)).value].user == user
  }

  /** The answers after which nothing of the user is live. */
  ghost predicate LocksOut(c: Config, rows: Table, op: Op, user: string) {
    || (PresentsTokenOf(c, rows, op, user) && Respond(c, rows, op) == Failed(TokenReused))
    || (op.LogoutAll? && op.user == user && Respond(c, rows, op).LoggedOut?)
  }

  lemma LockingOutLeavesNone(c: Config, rows: Table, op: Op, user: string)
    requires LocksOut(c, rows, op, user)
    ensures Live(After(rows, EffectOf(c, rows, op)), user) == 0
  {
    assert EffectOf(c, rows, op) == RevokesAll(user, op.now);
    RevokeAllLeavesNone(rows, user, op.now);
  }

  lemma NothingLiveNothingIssued(c: Config, rows: Table, op: Op, user: string)
    requires Live(rows, user) == 0 && PresentsTokenOf(c, rows, op, user)
    ensures !Respond(c, rows, op).Issued?
  {
    LiveZero(rows, user);
    assert LiveRow(rows[Find(rows, c.hash(op.plain)).value], user) == 0;
  }

  ghost predicate NoSessionBetween(ops: seq<Op>, i: int, j: nat, user: string) {
    forall k :: 0 <= k < |ops| && i < k < j ==> !(ops[k].Session? && ops[k].user == user)
  }

  lemma LockedOutStep(c: Config, ops: seq<Op>, k: nat, user: string)
    requires k < |ops| && Live(Run(c, ops[..k]), user) == 0 && !(ops[k].Session? && ops[k].user == user)
    ensures Live(Run(c, ops[..k + 1]), user) == 0
  {
    RunStep(c, ops, k);
    ReachableForest(c, ops[..k]);
    StaysLockedOut(c, Run(c, ops[..k]), ops[k], user);
  }

  lemma {:induction false} NothingLiveUntilSession(c: Config, ops: seq<Op>, i: nat, j: nat, user: string)
    requires i <= j <= |ops| && Live(Run(c, ops[..i]), user) == 0 && NoSessionBetween(ops, i - 1, j, user)
    ensures Live(Run(c, ops[..j]), user) == 0
    decreases j - i
  {
    if i < j {
      LockedOutStep(c, ops, i, user);
      NothingLiveUntilSession(c, ops, i + 1, j, user);
    }
  }

  /** Once a reuse was answered, or the user logged out everywhere, the user has no unrevoked token, and every later
      Refresh with a token of that user fails, until a new session is issued to that user. */
  lemma ReuseLocksOut(c: Config, ops: seq<Op>, i: nat, j: nat, user: string)
    requires i < j < |ops| && LocksOut(c, Run(c, ops[..i]), ops[i], user) && NoSessionBetween(ops, i, j, user)
    ensures Live(Run(c, ops[..j]), user) == 0
    ensures PresentsTokenOf(c, Run(c, ops[..j]), ops[j], user) ==> !Answer(c, ops, j).Issued?
  {
    RunStep(c, ops, i);
    LockingOutLeavesNone(c, Run(c, ops[..i]), ops[i], user);
    NothingLiveUntilSession(c, ops, i + 1, j, user);
    if PresentsTokenOf(c, Run(c, ops[..j]), ops[j], user) {
      NothingLiveNothingIssued(c, Run(c, ops[..j]), ops[j], user);
    }
  }
}
