/** The control plane: reading and changing one user's settings, consent and blocks. */
module Settings {
  import opened Wrappers
  import opened Presence
  import opened Database
  import opened GeoStore
  import Mfa

  /** Which repository call of an operation fails. */
  datatype DbFault = NoDbFault | GetFails | UpsertFails

  /** `None` leaves a field unchanged. */
  datatype UpdateInput = UpdateInput(visibility: Option<string>, shareTrack: Option<bool>, radiusM: Option<int>,
                                     revealLevel: Option<int>, paused: Option<bool>)

  function Or<T>(o: Option<T>, default: T): T {
    if o.Some? then o.value else default
  }

  function Rejects(input: UpdateInput): Option<PresenceError> {
    if input.visibility.Some? && !IsValidVisibility(input.visibility.value) then Some(InvalidVisibility)
    else if input.radiusM.Some? && !IsValidRadius(input.radiusM.value) then Some(InvalidRadius)
    else if input.revealLevel.Some? && !IsValidRevealLevel(input.revealLevel.value) then Some(InvalidRevealLevel)
    else None
  }

  function Updated(row: PrivacySettings, input: UpdateInput, now: int): PrivacySettings {
    row.(visibility := Or(input.visibility, row.visibility), shareTrack := Or(input.shareTrack, row.shareTrack),
         radiusM := Or(input.radiusM, row.radiusM), revealLevel := Or(input.revealLevel, row.revealLevel),
         paused := Or(input.paused, row.paused), updatedAt := now)
  }

  /** `after` is `before` with exactly the touched fields set. */
  predicate Wrote(before: PrivacySettings, after: PrivacySettings, input: UpdateInput, now: int) {
    && after.visibility == (match input.visibility case Some(x) => x case None => before.visibility)
    && after.shareTrack == (match input.shareTrack case Some(x) => x case None => before.shareTrack)
    && after.radiusM == (match input.radiusM case Some(x) => x case None => before.radiusM)
    && after.revealLevel == (match input.revealLevel case Some(x) => x case None => before.revealLevel)
    && after.paused == (match input.paused case Some(x) => x case None => before.paused)
    && after.userId == before.userId && after.updatedAt == now && SameConsent(before, after)
  }

  lemma UpdatedIsWritten(row: PrivacySettings, input: UpdateInput, now: int)
    ensures Wrote(row, Updated(row, input, now), input, now)
  {
  }

  predicate SameConsent(before: PrivacySettings, after: PrivacySettings) {
    && after.consentEnabled == before.consentEnabled && after.consentTs == before.consentTs
    && after.renewDue == before.renewDue
  }

  predicate SameChoices(before: PrivacySettings, after: PrivacySettings) {
    && after.userId == before.userId && after.visibility == before.visibility && after.shareTrack == before.shareTrack
    && after.radiusM == before.radiusM && after.revealLevel == before.revealLevel
  }

  predicate Legal(input: UpdateInput) {
    && (input.visibility.Some? ==> input.visibility.value in ["invisible", "friends_only", "everyone"])
    && (input.radiusM.Some? ==> input.radiusM.value in [150, 1000, 5000, 15000])
    && (input.revealLevel.Some? ==> 0 <= input.revealLevel.value <= 2)
  }

  lemma AcceptsLegal(input: UpdateInput)
    ensures Rejects(input).None? <==> Legal(input)
  {
  }

  /** The first field that is not legal decides the error. */
  lemma RejectsIllegal(input: UpdateInput)
    ensures Rejects(input).None? <==> Legal(input)
    ensures Rejects(input) == Some(InvalidVisibility) <==> !Legal(UpdateInput(input.visibility, None, None, None, None))
    ensures Rejects(input) == Some(InvalidRadius)
            <==> Legal(UpdateInput(input.visibility, None, None, None, None))
                 && !Legal(UpdateInput(None, None, input.radiusM, None, None))
    ensures Rejects(input) == Some(InvalidRevealLevel)
            <==> Legal(UpdateInput(input.visibility, None, input.radiusM, None, None)) && !Legal(input)
  {
  }

  function Granted(row: PrivacySettings, now: int): PrivacySettings {
    row.(consentEnabled := true, consentTs := Some(now), renewDue := Some(now + CONSENT_VALIDITY), updatedAt := now)
  }

  function Revoked(row: PrivacySettings, now: int): PrivacySettings {
    row.(consentEnabled := false, paused := true, updatedAt := now)
  }

  /** What every stored row satisfies: legal steps only, and consent only with its due date on file. */
  predicate RowOk(row: PrivacySettings) {
    && IsValidRadius(row.radiusM) && IsValidRevealLevel(row.revealLevel) && IsValidVisibility(row.visibility)
    && (row.consentEnabled ==>
          row.consentTs.Some? && row.renewDue == Some(row.consentTs.value + CONSENT_VALIDITY))
  }

  predicate RowsOk(rows: map<string, PrivacySettings>) {
    forall u :: u in rows ==> RowOk(rows[u])
  }

  lemma SettingsOfIsOk(rows: map<string, PrivacySettings>, user: string)
    requires RowsOk(rows)
    ensures RowOk(SettingsOf(rows, user))
  {
    assert ALLOWED_RADII_M[1] == 1000;
  }

  lemma UpdatedIsOk(row: PrivacySettings, input: UpdateInput, now: int)
    requires RowOk(row)
    ensures Rejects(input).None? ==> RowOk(Updated(row, input, now))
  {
  }

  class SettingsService {
    const db: Tables
    const geo: Option<Store>  // None where no index is wired in
    const mfa: Mfa.TotpChallenger

    constructor (db: Tables, geo: Option<Store>, mfa: Mfa.TotpChallenger)
      ensures this.db == db && this.geo == geo && this.mfa == mfa
    {
      this.db, this.geo, this.mfa := db, geo, mfa;
    }

    method Get(user: string, fault: DbFault) returns (r: Result<PrivacySettings, PresenceError>)
      ensures r == if user == "" then Err(InvalidInput) else if fault.GetFails? then Err(PresenceError.Unavailable)
                   else Ok(SettingsOf(db.rows, user))
      ensures r.Ok? ==> r.value == if user in db.rows then db.rows[user]
                                   else PrivacySettings(user, "invisible", false, false, None, None, 1000, 0, true, 0)
    {
      if user == "" {
        return Err(InvalidInput);
      }
      if fault.GetFails? {
        return Err(PresenceError.Unavailable);
      }
      if user !in db.rows {
        return Ok(DefaultPrivacySettings(user));
      }
      r := Ok(db.rows[user]);
    }

    /** The index after an operation that removes the user from it, or leaves it alone. */
    twostate predicate IndexIs(user: string, removed: bool, indexFault: GeoStore.Fault)
      reads if geo.Some? then {geo.value.client} else {}
    {
      geo.Some? ==>
        var c := geo.value.client;
        && c.geo == (if removed then RemoveGeo(old(c.geo), user, indexFault) else old(c.geo))
        && c.details == (if removed then RemoveDetails(old(c.details), user, indexFault) else old(c.details))
        && c.now == old(c.now) && c.counters == old(c.counters)
    }

    /** Best effort: the settings row is already written, and every query checks it again. */
    method RemoveFromIndex(user: string, indexFault: GeoStore.Fault)
      modifies if geo.Some? then {geo.value.client} else {}
      ensures IndexIs(user, true, indexFault)
    {
      if geo.Some? {
        var _ := geo.value.Remove(user, indexFault);
      }
    }

    /** Validates and assigns the touched fields, in the order of the request's fields. */
    method Assign(row: PrivacySettings, input: UpdateInput) returns (r: Result<PrivacySettings, PresenceError>)
      ensures Rejects(input).Some? ==> r == Err(Rejects(input).value)
      ensures Rejects(input).None? ==> r == Ok(Updated(row, input, row.updatedAt))
    {
      var current := row;
      if input.visibility.Some? {
        if !IsValidVisibility(input.visibility.value) {
          return Err(InvalidVisibility);
        }
        current := current.(visibility := input.visibility.value);
      }
      if input.shareTrack.Some? {
        current := current.(shareTrack := input.shareTrack.value);
      }
      if input.radiusM.Some? {
        if !IsValidRadius(input.radiusM.value) {
          return Err(InvalidRadius);
        }
        current := current.(radiusM := input.radiusM.value);
      }
      if input.revealLevel.Some? {
        if !IsValidRevealLevel(input.revealLevel.value) {
          return Err(InvalidRevealLevel);
        }
        current := current.(revealLevel := input.revealLevel.value);
      }
      if input.paused.Some? {
        current := current.(paused := input.paused.value);
      }
      r := Ok(current);
    }

    method Update(user: string, input: UpdateInput, now: int, fault: DbFault, indexFault: GeoStore.Fault)
      returns (r: Result<PrivacySettings, PresenceError>)
      requires RowsOk(db.rows)
      modifies db`rows, if geo.Some? then {geo.value.client} else {}
      ensures RowsOk(db.rows)
      ensures r.Ok? <==> user != "" && fault.NoDbFault? && Legal(input)
      ensures r.Ok? ==> Wrote(SettingsOf(old(db.rows), user), r.value, input, now)
      ensures r.Ok? ==> r.value == Updated(SettingsOf(old(db.rows), user), input, now)
      ensures r.Ok? ==> db.rows == old(db.rows)[user := r.value]
      ensures r.Err? ==> db.rows == old(db.rows)
      ensures user == "" ==> r == Err(InvalidInput)
      ensures user != "" && !fault.GetFails? && Rejects(input).Some? ==> r == Err(Rejects(input).value)
      ensures user != "" && (fault.GetFails? || (fault.UpsertFails? && Legal(input))) ==>
                r == Err(PresenceError.Unavailable)
      ensures IndexIs(user, r.Ok? && r.value.Hidden(), indexFault)
    {
      if user == "" {
        return Err(InvalidInput);
      }
      var got := Get(user, fault);
      if got.Err? {
        return got;
      }
      SettingsOfIsOk(db.rows, user);
      AcceptsLegal(input);
      UpdatedIsOk(got.value, input, now);
      UpdatedIsWritten(got.value, input, now);
      var changed := Assign(got.value, input);
      if changed.Err? {
        return changed;
      }
      var current := changed.value.(updatedAt := now);
      if fault.UpsertFails? {
        return Err(PresenceError.Unavailable);
      }
      db.rows := db.rows[user := current];
      if current.paused || current.visibility == VISIBILITY_INVISIBLE {
        RemoveFromIndex(user, indexFault);
      }
      r := Ok(current);
    }

    method SetPaused(user: string, paused: bool, now: int, fault: DbFault, indexFault: GeoStore.Fault)
      returns (r: Result<PrivacySettings, PresenceError>)
      requires RowsOk(db.rows)
      modifies db`rows, if geo.Some? then {geo.value.client} else {}
      ensures RowsOk(db.rows)
      ensures r.Ok? <==> user != "" && fault.NoDbFault?
      ensures r.Err? ==> r.error == if user == "" then InvalidInput else PresenceError.Unavailable
      ensures r.Ok? ==> r.value == SettingsOf(old(db.rows), user).(paused := paused, updatedAt := now)
      ensures r.Ok? ==> db.rows == old(db.rows)[user := r.value]
      ensures r.Err? ==> db.rows == old(db.rows)
      ensures IndexIs(user, r.Ok? && r.value.Hidden(), indexFault)
    {
      r := Update(user, UpdateInput(None, None, None, None, Some(paused)), now, fault, indexFault);
    }

    method GrantConsent(user: string, now: int, fault: DbFault, mfaFault: Mfa.Fault)
      returns (r: Result<PrivacySettings, PresenceError>)
      requires RowsOk(db.rows) && mfa.db == db
      modifies db`rows
      ensures RowsOk(db.rows)
      ensures r.Ok? <==> (user != "" && !mfaFault.GetFails? && Mfa.HasVerifiedFactor(db.secrets, user)
                          && fault.NoDbFault?)
      ensures user == "" ==> r == Err(InvalidInput)
      ensures user != "" && !mfaFault.GetFails? && !Mfa.HasVerifiedFactor(db.secrets, user) ==>
                r == Err(MfaRequired)
      ensures user != "" && (mfaFault.GetFails? || (Mfa.HasVerifiedFactor(db.secrets, user) && !fault.NoDbFault?)) ==>
                r == Err(PresenceError.Unavailable)
      ensures r.Ok? ==> r.value == Granted(SettingsOf(old(db.rows), user), now)
      ensures r.Ok? ==>
                && SameChoices(SettingsOf(old(db.rows), user), r.value)
                && r.value.paused == SettingsOf(old(db.rows), user).paused
                && user in db.secrets && db.secrets[user].verifiedAt.Some?
                && r.value.consentEnabled && r.value.consentTs == Some(now)
                && r.value.renewDue == Some(now + 180 * 24 * 60 * 60 * 1000)
      ensures r.Ok? ==> db.rows == old(db.rows)[user := r.value]
      ensures r.Err? ==> db.rows == old(db.rows)
    {
      if user == "" {
        return Err(InvalidInput);
      }
      var hasMfa := mfa.HasVerified(user, mfaFault);
      if hasMfa.Err? {
        return Err(PresenceError.Unavailable);
      }
      if !hasMfa.value {
        return Err(MfaRequired);
      }
      var got := Get(user, fault);
      if got.Err? {
        return got;
      }
      SettingsOfIsOk(db.rows, user);
      var due := now + CONSENT_VALIDITY;
      var current := got.value.(consentEnabled := true, consentTs := Some(now), renewDue := Some(due), updatedAt := now);
      if fault.UpsertFails? {
        return Err(PresenceError.Unavailable);
      }
      db.rows := db.rows[user := current];
      r := Ok(current);
    }

    method RevokeConsent(user: string, now: int, fault: DbFault, indexFault: GeoStore.Fault)
      returns (r: Result<PrivacySettings, PresenceError>)
      requires RowsOk(db.rows)
      modifies db`rows, if geo.Some? then {geo.value.client} else {}
      ensures RowsOk(db.rows)
      ensures r.Ok? <==> user != "" && fault.NoDbFault?
      ensures r.Err? ==> r.error == if user == "" then InvalidInput else PresenceError.Unavailable
      ensures r.Ok? ==> r.value == Revoked(SettingsOf(old(db.rows), user), now)
      ensures r.Ok? ==> SameChoices(SettingsOf(old(db.rows), user), r.value) && !r.value.consentEnabled && r.value.paused
      ensures r.Ok? ==> db.rows == old(db.rows)[user := r.value]
      ensures r.Err? ==> db.rows == old(db.rows)
      ensures IndexIs(user, r.Ok?, indexFault)
    {
      if user == "" {
        return Err(InvalidInput);
      }
      var got := Get(user, fault);
      if got.Err? {
        return got;
      }
      SettingsOfIsOk(db.rows, user);
      var current := got.value.(consentEnabled := false, paused := true, updatedAt := now);
      if fault.UpsertFails? {
        return Err(PresenceError.Unavailable);
      }
      db.rows := db.rows[user := current];
      RemoveFromIndex(user, indexFault);
      r := Ok(current);
    }

    method Block(blocker: string, blocked: string, fails: bool) returns (r: Result<(), PresenceError>)
      modifies db`blocks
      ensures r.Ok? <==> blocker != "" && blocked != "" && blocker != blocked && !fails
      ensures db.blocks == if r.Ok? then old(db.blocks) + {(blocker, blocked)} else old(db.blocks)
      ensures r.Ok? ==> BlockedEitherWay(db.blocks, blocker, blocked) && BlockedEitherWay(db.blocks, blocked, blocker)
      ensures r.Err? ==> r.error == if blocker == "" || blocked == "" then InvalidInput
                                    else if blocker == blocked then CannotBlockSelf else PresenceError.Unavailable
    {
      if blocker == "" || blocked == "" {
        return Err(InvalidInput);
      }
      if blocker == blocked {
        return Err(CannotBlockSelf);
      }
      if fails {
        return Err(PresenceError.Unavailable);
      }
      db.blocks := db.blocks + {(blocker, blocked)};
      r := Ok(());
    }

    /** Lifts only the caller's own block: a block by the other side stays in force. */
    method Unblock(blocker: string, blocked: string, fails: bool) returns (r: Result<(), PresenceError>)
      modifies db`blocks
      ensures r.Ok? <==> blocker != "" && blocked != "" && !fails
      ensures r.Err? ==> r.error == if blocker == "" || blocked == "" then InvalidInput else PresenceError.Unavailable
      ensures db.blocks == if r.Ok? then old(db.blocks) - {(blocker, blocked)} else old(db.blocks)
      ensures blocker != blocked && (blocked, blocker) in old(db.blocks) ==>
                BlockedEitherWay(db.blocks, blocker, blocked)
    {
      if blocker == "" || blocked == "" {
        return Err(InvalidInput);
      }
      if fails {
        return Err(PresenceError.Unavailable);
      }
      db.blocks := db.blocks - {(blocker, blocked)};
      r := Ok(());
    }
  }
}
