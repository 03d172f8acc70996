/** What holds of every run of the presence service. */
module PresenceTheorems {
  import opened Wrappers
  import opened RedisCounters
  import opened Presence
  import opened Database
  import opened Settings
  import opened PresenceRun
  import Nearby
  import L = LimiterRun

  // ----- disclosures of one pair are spaced -----

  function AdmissionOf(w: World, d: Disclosure): L.Admission
    requires d.adm < |L.Get(w.lim, PairKey(d.entry.requesterId, d.entry.targetId)).log|
  {
    L.Get(w.lim, PairKey(d.entry.requesterId, d.entry.targetId)).log[d.adm]
  }

  ghost predicate SamePair(d: Disclosure, e: Disclosure) {
    d.entry.requesterId == e.entry.requesterId && d.entry.targetId == e.entry.targetId
  }

  /** `later`'s budget was asked for a full window after `earlier`'s was answered. */
  predicate WindowApart(earlier: L.Admission, later: L.Admission) {
    earlier.answered + 30 * 1000 <= later.at
  }

  lemma SpacedInLog(w: World, a: nat, b: nat)
    requires Inv(w) && a < |w.audit| && b < |w.audit| && SamePair(w.audit[a], w.audit[b])
    requires w.audit[a].adm < w.audit[b].adm
    ensures var key := PairKey(w.audit[a].entry.requesterId, w.audit[a].entry.targetId);
            w.audit[b].adm < |L.Get(w.lim, key).log|
            && WindowApart(AdmissionOf(w, w.audit[a]), AdmissionOf(w, w.audit[b]))
  {
    var d, e := w.audit[a], w.audit[b];
    var key := PairKey(d.entry.requesterId, d.entry.targetId);
    PairPolicyIs(d.entry.requesterId, d.entry.targetId);
    assert DisclosureOk(w, d) && DisclosureOk(w, e);
    assert L.KeyInv(L.Get(w.lim, key), 1, PAIR_WINDOW, w.lim.now);
    L.SpacedByKeyInv(L.Get(w.lim, key), PAIR_WINDOW, w.lim.now, d.adm, e.adm);
  }

  lemma AdmissionsDiffer(w: World, a: nat, b: nat)
    requires Inv(w) && a < b < |w.audit| && SamePair(w.audit[a], w.audit[b])
    ensures w.audit[a].adm != w.audit[b].adm
  {
    assert DisclosureOk(w, w.audit[a]) && DisclosureOk(w, w.audit[b]);
  }

  /** Pair spacing, where the limiter enforces it: in every run, under every interleaving, any two audit entries for the
      same requester and target rest on two different admissions at least 30 s apart. */
  lemma AdmissionsOfAPairAreSpaced(trace: seq<World>, n: nat, a: nat, b: nat)
    requires IsRun(trace) && n < |trace| && a < b < |trace[n].audit|
    requires SamePair(trace[n].audit[a], trace[n].audit[b])
    ensures var d, e := trace[n].audit[a], trace[n].audit[b];
            var log := L.Get(trace[n].lim, PairKey(d.entry.requesterId, d.entry.targetId)).log;
            && d.adm < |log| && e.adm < |log| && d.adm != e.adm
            && (if d.adm < e.adm then WindowApart(log[d.adm], log[e.adm]) else WindowApart(log[e.adm], log[d.adm]))
  {
    ReachableInv(trace, n);
    var w := trace[n];
    assert DisclosureOk(w, w.audit[a]) && DisclosureOk(w, w.audit[b]);
    AdmissionsDiffer(w, a, b);
    if w.audit[a].adm < w.audit[b].adm {
      SpacedInLog(w, a, b);
    } else {
      SpacedInLog(w, b, a);
    }
  }

  ghost predicate HasAdmission(w: World, d: Disclosure) {
    d.adm < |L.Get(w.lim, PairKey(d.entry.requesterId, d.entry.targetId)).log|
  }

  /** How long an entry was held up between its admission and the log. */
  function HoldUp(w: World, d: Disclosure): int
    requires HasAdmission(w, d)
  {
    d.appended - AdmissionOf(w, d).answered
  }

  /** How long after its clock reading an entry's budget was asked for. */
  function Lag(w: World, d: Disclosure): int
    requires HasAdmission(w, d)
  {
    AdmissionOf(w, d).at - d.entry.occurredAt
  }

  lemma EntriesAreOk(w: World, a: nat, b: nat)
    requires Inv(w) && a < |w.audit| && b < |w.audit| && SamePair(w.audit[a], w.audit[b])
    requires w.audit[a].adm < w.audit[b].adm
    ensures var d, e := w.audit[a], w.audit[b];
            && HasAdmission(w, d) && HasAdmission(w, e) && WindowApart(AdmissionOf(w, d), AdmissionOf(w, e))
            && d.entry.occurredAt <= AdmissionOf(w, d).answered <= d.appended
            && AdmissionOf(w, d).at <= AdmissionOf(w, d).answered
            && AdmissionOf(w, e).at <= AdmissionOf(w, e).answered <= e.appended
  {
    SpacedInLog(w, a, b);
    assert DisclosureOk(w, w.audit[a]) && DisclosureOk(w, w.audit[b]);
    AdmissionIsAnsweredLater(w, w.audit[a]);
    AdmissionIsAnsweredLater(w, w.audit[b]);
  }

  lemma AdmissionIsAnsweredLater(w: World, d: Disclosure)
    requires Inv(w) && HasAdmission(w, d)
    ensures AdmissionOf(w, d).at <= AdmissionOf(w, d).answered
  {
    var key := PairKey(d.entry.requesterId, d.entry.targetId);
    L.GetKeyInv(QueryPolicy, w.lim, key);
    var k := L.Get(w.lim, key);
    assert L.AdmissionOk(k, k.log[d.adm], QueryPolicy.limit(key), QueryPolicy.window(key), w.lim.now);
  }

  /** Disclosures of a pair are spaced by 30 s less what the earlier one was held up between its admission and the log,
      plus what the later one was. No entry is older than its own admission. */
  lemma DisclosuresAreSpacedUpToHoldUp(trace: seq<World>, n: nat, a: nat, b: nat)
    requires IsRun(trace) && n < |trace| && a < |trace[n].audit| && b < |trace[n].audit|
    requires SamePair(trace[n].audit[a], trace[n].audit[b]) && trace[n].audit[a].adm < trace[n].audit[b].adm
    ensures var w := trace[n];
            var d, e := w.audit[a], w.audit[b];
            && HasAdmission(w, d) && HasAdmission(w, e)
            && AdmissionOf(w, d).answered <= d.appended && AdmissionOf(w, e).answered <= e.appended
            && d.appended + PAIR_WINDOW - HoldUp(w, d) + HoldUp(w, e) <= e.appended
  {
    ReachableInv(trace, n);
    EntriesAreOk(trace[n], a, b);
  }

  /** The recorded times likewise: spaced by 30 s plus the lag of the earlier entry, less that of the later one. */
  lemma RecordedTimesAreSpacedUpToLag(trace: seq<World>, n: nat, a: nat, b: nat)
    requires IsRun(trace) && n < |trace| && a < |trace[n].audit| && b < |trace[n].audit|
    requires SamePair(trace[n].audit[a], trace[n].audit[b]) && trace[n].audit[a].adm < trace[n].audit[b].adm
    ensures var w := trace[n];
            var d, e := w.audit[a], w.audit[b];
            && HasAdmission(w, d) && HasAdmission(w, e)
            && d.entry.occurredAt + PAIR_WINDOW + Lag(w, d) - Lag(w, e) <= e.entry.occurredAt
  {
    ReachableInv(trace, n);
    EntriesAreOk(trace[n], a, b);
  }

  // ----- the second factor -----

  predicate NoEnroll(h: seq<Event>, u: string, from: nat, until: nat)
    requires until <= |h|
  {
    forall k :: from <= k < until && h[k].user == u ==> !h[k].act.Enroll?
  }

  /** The secret the user has after `n` steps of the history was enrolled by step `e`. */
  predicate InForce(h: seq<Event>, u: string, n: nat, e: nat) {
    e < n <= |h| && h[e].user == u && h[e].act.Enroll? && NoEnroll(h, u, e + 1, n)
  }

  predicate MarkedAt(h: seq<Event>, u: string, n: nat, e: nat, m: nat) {
    e < m < n <= |h| && h[m].user == u && h[m].act.Mark?
  }

  /** The secret in force was marked activated. */
  predicate FactorActivated(h: seq<Event>, u: string, n: nat)
    requires n <= |h|
  {
    exists e: nat, m: nat :: e < n && m < n && InForce(h, u, n, e) && MarkedAt(h, u, n, e, m)
  }

  /** Step `a` accepted a code for the secret enrolled by step `e`, and step `m` activated it for that. */
  predicate Confirms(h: seq<Event>, u: string, n: nat, e: nat, a: nat, m: nat) {
    && MarkedAt(h, u, n, e, m) && e < a < m && h[m].act.read == a
    && h[e].act.Enroll? && h[a].user == u && h[a].act == Accept(h[e].act.secret)
  }

  /** The secret in force is one for which a code was accepted, and was activated for that reason. */
  predicate FactorConfirmed(h: seq<Event>, u: string, n: nat)
    requires n <= |h|
  {
    exists e: nat, a: nat, m: nat :: e < n && a < n && m < n && InForce(h, u, n, e) && Confirms(h, u, n, e, a, m)
  }

  /** The secret in force was marked by a verification that had not read the secret before it was enrolled. */
  predicate MarkedInTime(h: seq<Event>, u: string, n: nat)
    requires n <= |h|
  {
    exists e: nat, m: nat ::
      e < n && m < n && InForce(h, u, n, e) && MarkedAt(h, u, n, e, m) && h[m].act.read > e
  }

  /** The user never enrolled while one of the user's verifications was between reading and marking. */
  predicate Undisturbed(h: seq<Event>, u: string) {
    forall m :: 0 <= m < |h| && h[m].user == u && h[m].act.Mark? ==> NoEnroll(h, u, h[m].act.read, m)
  }

  ghost predicate EventsOk(h: seq<Event>) {
    forall g :: 0 <= g < |h| ==> EventOk(h, g)
  }

  lemma {:induction false} EnrolledFactorHasEnroll(h: seq<Event>, u: string, n: nat) returns (e: nat)
    requires n <= |h| && FactorAfter(h[..n], u).Some?
    ensures InForce(h, u, n, e)
    decreases n
  {
    assert h[..n][..n - 1] == h[..n - 1];
    if h[n - 1].user == u && h[n - 1].act.Enroll? {
      e := n - 1;
    } else {
      e := EnrolledFactorHasEnroll(h, u, n - 1);
    }
  }

  lemma {:induction false} InForceIsStored(h: seq<Event>, u: string, n: nat, e: nat)
    requires InForce(h, u, n, e)
    ensures FactorAfter(h[..n], u).Some? && FactorAfter(h[..n], u).value.value == h[e].act.secret
    decreases n
  {
    assert h[..n][..n - 1] == h[..n - 1];
    if e < n - 1 {
      InForceIsStored(h, u, n - 1, e);
    }
  }

  lemma {:induction false} VerifiedFactorWasActivated(h: seq<Event>, u: string, n: nat)
    requires n <= |h| && Verified(FactorAfter(h[..n], u))
    ensures FactorActivated(h, u, n)
    decreases n
  {
    assert h[..n][..n - 1] == h[..n - 1];
    if h[n - 1].user == u && h[n - 1].act.Mark? {
      var e := EnrolledFactorHasEnroll(h, u, n - 1);
      assert InForce(h, u, n, e) && MarkedAt(h, u, n, e, n - 1);
    } else {
      VerifiedFactorWasActivated(h, u, n - 1);
      var e: nat, m: nat :| e < n - 1 && m < n - 1 && InForce(h, u, n - 1, e) && MarkedAt(h, u, n - 1, e, m);
      assert InForce(h, u, n, e) && MarkedAt(h, u, n, e, m);
    }
  }

  lemma OneInForce(h: seq<Event>, u: string, n: nat, e: nat, f: nat)
    requires InForce(h, u, n, e) && InForce(h, u, n, f)
    ensures e == f
  {
  }

  /** The secret in force later is the one in force earlier if and only if nothing was enrolled in between. */
  lemma SameInForce(h: seq<Event>, u: string, i: nat, j: nat, e: nat, f: nat)
    requires i <= j && InForce(h, u, i, e) && InForce(h, u, j, f)
    ensures e == f <==> NoEnroll(h, u, i, j)
  {
    if NoEnroll(h, u, i, j) {
      assert InForce(h, u, j, e);
      OneInForce(h, u, j, e, f);
    }
  }

  lemma AcceptIsForTheSecretInForce(h: seq<Event>, a: nat) returns (e: nat)
    requires a < |h| && EventOk(h, a) && h[a].act.Accept?
    ensures InForce(h, h[a].user, a, e) && h[a].act.secret == h[e].act.secret
  {
    e := EnrolledFactorHasEnroll(h, h[a].user, a);
    InForceIsStored(h, h[a].user, a, e);
  }

  /** The user never drew the same secret twice. */
  predicate SecretsDiffer(h: seq<Event>, u: string) {
    forall i, j :: 0 <= i < j < |h| && h[i].user == h[j].user == u && h[i].act.Enroll? && h[j].act.Enroll? ==>
      h[i].act.secret != h[j].act.secret
  }

  /** What a verification activates, in every run: the secret in force when it marks, enrolled by step `f`. That is the
      secret it accepted a code for, enrolled by step `e`, if and only if the user enrolled nothing between its read and
      its mark; as texts the two are then equal, and otherwise differ unless the same text was drawn twice. */
  lemma MarkIsForTheAcceptedSecret(trace: seq<World>, n: nat, m: nat) returns (e: nat, f: nat)
    requires IsRun(trace) && n < |trace| && m < |trace[n].history| && trace[n].history[m].act.Mark?
    ensures var h, u, a := trace[n].history, trace[n].history[m].user, trace[n].history[m].act.read;
            && a < m && h[a].user == u && h[a].act.Accept?
            && InForce(h, u, a, e) && h[a].act.secret == h[e].act.secret
            && InForce(h, u, m, f) && FactorAfter(h[..m + 1], u) == Some(Secret(h[f].act.secret, Some(h[m].at)))
            && (e == f <==> NoEnroll(h, u, a, m))
            && (NoEnroll(h, u, a, m) ==> h[f].act.secret == h[a].act.secret)
            && (SecretsDiffer(h, u) ==> (h[f].act.secret == h[a].act.secret <==> NoEnroll(h, u, a, m)))
  {
    ReachableInv(trace, n);
    var h, u, a := trace[n].history, trace[n].history[m].user, trace[n].history[m].act.read;
    assert EventOk(h, m) && EventOk(h, a);
    e := AcceptIsForTheSecretInForce(h, a);
    f := MarkedSecretIsInForce(h, u, m, e, a);
    SameInForce(h, u, a, m, e, f);
  }

  lemma MarkedSecretIsInForce(h: seq<Event>, u: string, m: nat, e: nat, a: nat) returns (f: nat)
    requires m < |h| && h[m].user == u && h[m].act.Mark? && a < m && InForce(h, u, a, e)
    ensures e <= f && InForce(h, u, m, f)
    ensures FactorAfter(h[..m + 1], u) == Some(Secret(h[f].act.secret, Some(h[m].at)))
  {
    EnrolledStays(h, u, m, e);
    f := EnrolledFactorHasEnroll(h, u, m);
    InForceIsStored(h, u, m, f);
    assert h[..m + 1][..m] == h[..m];
  }

  lemma {:induction false} EnrolledStays(h: seq<Event>, u: string, n: nat, e: nat)
    requires e < n <= |h| && h[e].user == u && h[e].act.Enroll?
    ensures FactorAfter(h[..n], u).Some?
    decreases n
  {
    assert h[..n][..n - 1] == h[..n - 1];
    if e < n - 1 {
      EnrolledStays(h, u, n - 1, e);
    }
  }

  /** In every run a user's factor is confirmed, at any moment, if and only if the secret then in force was marked by a
      verification that read it after it was enrolled; so it is as soon as it is activated, if the user never enrolled
      while verifying. */
  lemma ConfirmedExactlyIfMarkedInTime(h: seq<Event>, u: string, n: nat)
    requires EventsOk(h) && n <= |h|
    ensures FactorConfirmed(h, u, n) <==> MarkedInTime(h, u, n)
    ensures Undisturbed(h, u) && FactorActivated(h, u, n) ==> FactorConfirmed(h, u, n)
  {
    if FactorConfirmed(h, u, n) {
      var e: nat, a: nat, m: nat :|
        e < n && a < n && m < n && InForce(h, u, n, e) && Confirms(h, u, n, e, a, m);
      assert h[m].act.read > e;
    }
    if MarkedInTime(h, u, n) {
      var e: nat, m: nat :|
        e < n && m < n && InForce(h, u, n, e) && MarkedAt(h, u, n, e, m) && h[m].act.read > e;
      MarkedInTimeConfirms(h, u, n, e, m);
    }
    if Undisturbed(h, u) && FactorActivated(h, u, n) {
      var e: nat, m: nat :| e < n && m < n && InForce(h, u, n, e) && MarkedAt(h, u, n, e, m);
      UndisturbedIsInTime(h, u, n, e, m);
      MarkedInTimeConfirms(h, u, n, e, m);
    }
  }

  lemma UndisturbedIsInTime(h: seq<Event>, u: string, n: nat, e: nat, m: nat)
    requires EventsOk(h) && Undisturbed(h, u) && InForce(h, u, n, e) && MarkedAt(h, u, n, e, m)
    ensures h[m].act.read > e
  {
    assert EventOk(h, m);
    var a := h[m].act.read;
    assert h[a].user == u && h[a].act.Accept? && NoEnroll(h, u, a, m);
  }

  lemma MarkedInTimeConfirms(h: seq<Event>, u: string, n: nat, e: nat, m: nat)
    requires EventsOk(h) && InForce(h, u, n, e) && MarkedAt(h, u, n, e, m) && h[m].act.read > e
    ensures FactorConfirmed(h, u, n)
  {
    var a := h[m].act.read;
    assert EventOk(h, m) && EventOk(h, a);
    var f := AcceptIsForTheSecretInForce(h, a);
    assert InForce(h, u, a, e);
    OneInForce(h, u, a, e, f);
    assert Confirms(h, u, n, e, a, m);
  }

  // ----- consent -----

  /** At `g` the user granted consent, and has not revoked it since. */
  predicate GrantStands(h: seq<Event>, u: string, g: nat) {
    && g < |h| && h[g].user == u && h[g].act.Grant?
    && forall k :: g < k < |h| && h[k].user == u ==> !h[k].act.Revoke?
  }

  /** The factor was activated when the grant at `g` checked it; and it was confirmed then, if the user never enrolled
      while verifying. */
  predicate BackedByFactor(h: seq<Event>, u: string, g: nat)
    requires g < |h| && h[g].act.Grant?
  {
    var check := h[g].act.check;
    && check < g && FactorActivated(h, u, check)
    && (FactorConfirmed(h, u, check) <==> MarkedInTime(h, u, check))
    && (Undisturbed(h, u) ==> FactorConfirmed(h, u, check))
  }

  /** At time `t` the history holds a consent less than 180 days old, given behind the second factor. */
  ghost predicate Consented(h: seq<Event>, u: string, t: int) {
    exists g: nat :: GrantStands(h, u, g) && t < h[g].at + 180 * 24 * 60 * 60 * 1000 && BackedByFactor(h, u, g)
  }

  /** The settings write at `k` is the user's last, and left the user neither paused nor invisible. */
  predicate ShowsSince(h: seq<Event>, u: string, k: nat) {
    && k < |h| && h[k].user == u && IsWrite(h[k].act)
    && !RowAfter(h[..k + 1], u).paused && RowAfter(h[..k + 1], u).visibility != VISIBILITY_INVISIBLE
    && forall l :: k < l < |h| && h[l].user == u ==> !IsWrite(h[l].act)
  }

  ghost predicate LastWriteShows(h: seq<Event>, u: string) {
    exists k: nat :: ShowsSince(h, u, k)
  }

  lemma {:induction false} EnabledRowHasGrant(h: seq<Event>, u: string) returns (g: nat)
    requires RowAfter(h, u).consentEnabled
    ensures GrantStands(h, u, g) && RowAfter(h, u).renewDue == Some(h[g].at + CONSENT_VALIDITY)
  {
    var e := h[|h| - 1];
    var init := h[..|h| - 1];
    if e.user == u && e.act.Grant? {
      g := |h| - 1;
    } else {
      g := EnabledRowHasGrant(init, u);
    }
  }

  lemma {:induction false} ShownRowWasWritten(h: seq<Event>, u: string) returns (k: nat)
    requires !RowAfter(h, u).Hidden()
    ensures ShowsSince(h, u, k)
  {
    var init, last := h[..|h| - 1], h[|h| - 1];
    if last.user == u && IsWrite(last.act) {
      k := |h| - 1;
      assert h[..k + 1] == h;
    } else {
      k := ShownRowWasWritten(init, u);
      assert h[..k + 1] == init[..k + 1] && h[k] == init[k];
      assert forall l :: k < l < |init| ==> h[l] == init[l];
    }
  }

  lemma {:induction false} EventsOkInPrefix(h: seq<Event>, n: nat)
    requires EventsOk(h) && n <= |h|
    ensures EventsOk(h[..n])
  {
    forall g | 0 <= g < n
      ensures EventOk(h[..n], g)
    {
      assert EventOk(h, g) && h[..n][..g] == h[..g];
    }
  }

  lemma GrantIsBacked(h: seq<Event>, u: string, g: nat)
    requires EventsOk(h) && g < |h| && h[g].user == u && h[g].act.Grant?
    ensures BackedByFactor(h, u, g)
  {
    assert EventOk(h, g) && EventOk(h, h[g].act.check);
    VerifiedFactorWasActivated(h, u, h[g].act.check);
    ConfirmedExactlyIfMarkedInTime(h, u, h[g].act.check);
  }

  lemma ActiveRowIsConsented(w: World, seen: nat, u: string, t: int)
    requires HistoryOk(w) && seen <= |w.history| && RowAfter(w.history[..seen], u).HasActiveConsent(t)
    ensures Consented(w.history[..seen], u, t)
  {
    var h := w.history[..seen];
    EventsOkInPrefix(w.history, seen);
    var g := EnabledRowHasGrant(h, u);
    GrantIsBacked(h, u, g);
  }

  /** The factor that stands behind a grant is the one the grant checked if and only if the user enrolled nothing
      between the check and the write. */
  lemma GrantIsForTheCheckedFactor(trace: seq<World>, n: nat, g: nat) returns (e: nat, f: nat)
    requires IsRun(trace) && n < |trace| && g < |trace[n].history| && trace[n].history[g].act.Grant?
    ensures var h, u, check := trace[n].history, trace[n].history[g].user, trace[n].history[g].act.check;
            && check < g && InForce(h, u, check, e) && InForce(h, u, g, f)
            && (e == f <==> NoEnroll(h, u, check, g))
  {
    ReachableInv(trace, n);
    var h, u, check := trace[n].history, trace[n].history[g].user, trace[n].history[g].act.check;
    assert EventOk(h, g) && EventOk(h, check);
    e := EnrolledFactorHasEnroll(h, u, check);
    EnrolledStays(h, u, g, e);
    f := EnrolledFactorHasEnroll(h, u, g);
    SameInForce(h, u, check, g, e, f);
  }

  /** Consent safety: in every run, for every disclosed result, as of what the target's row reflected when it was
      read, the target had granted consent less than 180 days before the query's clock reading, behind an activated
      TOTP factor (one confirmed by a code for it, exactly if it was marked by a verification that read it after it was
      enrolled), had not revoked it, and had last set itself neither paused nor invisible; and the asker's own row, when
      it was read, stood on the same kind of grant. The index plays no part. */
  lemma DisclosureRestsOnConsent(trace: seq<World>, n: nat, a: nat)
    requires IsRun(trace) && n < |trace| && a < |trace[n].audit|
    ensures var w := trace[n];
            var d := w.audit[a];
            && d.kept.seen <= |w.history| && d.askerSeen <= |w.history| && d.kept.userId == d.entry.targetId
            && Consented(w.history[..d.kept.seen], d.entry.targetId, d.entry.occurredAt)
            && LastWriteShows(w.history[..d.kept.seen], d.entry.targetId)
            && Consented(w.history[..d.askerSeen], d.entry.requesterId, d.entry.occurredAt)
  {
    ReachableInv(trace, n);
    var w, d := trace[n], trace[n].audit[a];
    assert DisclosureOk(w, d);
    ActiveRowIsConsented(w, d.kept.seen, d.entry.targetId, d.entry.occurredAt);
    ActiveRowIsConsented(w, d.askerSeen, d.entry.requesterId, d.entry.occurredAt);
    var k := ShownRowWasWritten(w.history[..d.kept.seen], d.entry.targetId);
  }

  /** The age of a consent is judged by the query's clock reading, so at the instant the target's row is read it can
      exceed the 180 days by what passed since the reading, and by no more. It is under 180 days at that instant if and
      only if the row would also have passed then. */
  lemma ConsentAgeAtTheRead(trace: seq<World>, n: nat, a: nat) returns (g: nat)
    requires IsRun(trace) && n < |trace| && a < |trace[n].audit|
    ensures var w := trace[n];
            var d := w.audit[a];
            && d.kept.seen <= |w.history| && GrantStands(w.history[..d.kept.seen], d.entry.targetId, g)
            && d.entry.occurredAt <= d.kept.readAt
            && d.kept.readAt - w.history[g].at < CONSENT_VALIDITY + (d.kept.readAt - d.entry.occurredAt)
            && (d.kept.readAt - w.history[g].at < CONSENT_VALIDITY <==> d.kept.row.HasActiveConsent(d.kept.readAt))
  {
    ReachableInv(trace, n);
    var w, d := trace[n], trace[n].audit[a];
    assert DisclosureOk(w, d);
    g := EnabledRowHasGrant(w.history[..d.kept.seen], d.entry.targetId);
  }

  // ----- the audit log -----

  lemma StepOnlyAppends(w: World, s: Step)
    requires Enabled(w, s)
    ensures w.audit <= Do(w, s).audit && w.history <= Do(w, s).history
  {
  }

  lemma StepLeavesAnswers(w: World, s: Step, q: nat)
    requires Enabled(w, s) && q in w.queries && w.queries[q].phase.Done?
    ensures q in Do(w, s).queries && Do(w, s).queries[q] == w.queries[q]
  {
  }

  lemma NextOnlyAppends(w: World, w': World)
    requires Next(w, w')
    ensures w.audit <= w'.audit && w.history <= w'.history
  {
    var s :| Enabled(w, s) && w' == Do(w, s);
    StepOnlyAppends(w, s);
  }

  /** The audit log and the settings history only ever grow by appending. */
  lemma {:induction false} AuditOnlyGrows(trace: seq<World>, i: nat, j: nat)
    requires IsRun(trace) && i <= j < |trace|
    ensures trace[i].audit <= trace[j].audit && trace[i].history <= trace[j].history
  {
    if i < j {
      AuditOnlyGrows(trace, i, j - 1);
      assert FollowsAt(trace, j);
      NextOnlyAppends(trace[j - 1], trace[j]);
    }
  }

  lemma NextLeavesAnswers(w: World, w': World, q: nat)
    requires Next(w, w') && q in w.queries && w.queries[q].phase.Done?
    ensures q in w'.queries && w'.queries[q] == w.queries[q]
  {
    var s :| Enabled(w, s) && w' == Do(w, s);
    StepLeavesAnswers(w, s, q);
  }

  lemma {:induction false} AnsweredStaysAnswered(trace: seq<World>, i: nat, j: nat, q: nat)
    requires IsRun(trace) && i <= j < |trace|
    requires q in trace[i].queries && trace[i].queries[q].phase.Done?
    ensures q in trace[j].queries && trace[j].queries[q] == trace[i].queries[q]
  {
    if i < j {
      AnsweredStaysAnswered(trace, i, j - 1, q);
      assert FollowsAt(trace, j);
      NextLeavesAnswers(trace[j - 1], trace[j], q);
    }
  }

  /** Audit matches disclosure over whole runs: the answer of a finished query is, from then on and for ever, exactly
      what the log holds for it: same targets, same buckets, same order. */
  lemma AnswersAreAudited(trace: seq<World>, i: nat, j: nat, q: nat)
    requires IsRun(trace) && i <= j < |trace|
    requires q in trace[i].queries && trace[i].queries[q].phase.Done?
    ensures AuditOf(trace[j].audit, q) == trace[i].queries[q].results
  {
    AnsweredStaysAnswered(trace, i, j, q);
    ReachableInv(trace, j);
    assert QueryOk(trace[j], q, trace[j].queries[q]);
  }

  // ----- the settings -----

  lemma {:induction false} RowAfterIsOk(h: seq<Event>, u: string)
    requires forall g :: 0 <= g < |h| && h[g].act.Write? ==> Rejects(h[g].act.input).None?
    ensures RowOk(RowAfter(h, u))
  {
    if h == [] {
      SettingsOfIsOk(map[], u);
    } else {
      RowAfterIsOk(h[..|h| - 1], u);
    }
  }

  /** Every row in force, stored or default, has a radius on the allowed steps. */
  lemma RadiiAreAlwaysAllowed(trace: seq<World>, n: nat, u: string)
    requires IsRun(trace) && n < |trace|
    ensures IsValidRadius(SettingsOf(trace[n].rows, u).radiusM) && RowOk(SettingsOf(trace[n].rows, u))
  {
    ReachableInv(trace, n);
    var w := trace[n];
    assert forall g :: 0 <= g < |w.history| ==> EventOk(w.history, g);
    RowAfterIsOk(w.history, u);
  }
}
