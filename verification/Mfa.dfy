/** The TOTP factor that gates consent: enrolled, then activated by a first valid code. */
module Mfa {
  import opened Wrappers
  import opened Database

  datatype MfaError = SecretNotFound | Unavailable

  /** Which repository call fails. */
  datatype Fault = NoFault | GetFails | WriteFails

  predicate HasVerifiedFactor(secrets: map<string, Secret>, user: string) {
    user in secrets && secrets[user].verifiedAt.Some?
  }

  /** `Accepts(secret, code, now)` stands for the RFC 6238 check with one 30 s step of skew. */
  type CodeCheck = (string, string, int) -> bool

  class TotpChallenger {
    const db: Tables
    const accepts: CodeCheck

    constructor (db: Tables, accepts: CodeCheck)
      ensures this.db == db && this.accepts == accepts
    {
      this.db, this.accepts := db, accepts;
    }

    /** Enrolling overwrites whatever was there and leaves the factor pending. */
    method Enroll(user: string, freshSecret: string, fault: Fault) returns (r: Result<string, MfaError>)
      modifies db`secrets
      ensures db.secrets == if fault.WriteFails? then old(db.secrets)
                            else old(db.secrets)[user := Secret(freshSecret, None)]
      ensures r == if fault.WriteFails? then Err(Unavailable) else Ok(freshSecret)
      ensures r.Ok? ==> !HasVerifiedFactor(db.secrets, user)
    {
      if fault.WriteFails? {
        return Err(Unavailable);
      }
      db.secrets := db.secrets[user := Secret(freshSecret, None)];
      r := Ok(freshSecret);
    }

    /** Reads the secret, checks the code against it, and marks whatever secret the user has by then. `meanwhile` is the
        secret that the same user enrolled between the read and the mark, if any: it is the one that is activated, and
        that is the one the code was for exactly if nothing else was enrolled. */
    method Verify(user: string, code: string, now: int, fault: Fault, meanwhile: Option<string>)
      returns (r: Result<bool, MfaError>)
      modifies db`secrets
      ensures r == Err(SecretNotFound) <==> !fault.GetFails? && user !in old(db.secrets)
      ensures r == Ok(true) ==> old(user in db.secrets && accepts(db.secrets[user].value, code, now))
      ensures r == Ok(true) ==> HasVerifiedFactor(db.secrets, user)
      ensures fault.GetFails? ==> r == Err(Unavailable)
      ensures old(user in db.secrets) && !fault.GetFails? && !old(AcceptsPending(user, code, now)) ==>
                r == Ok(accepts(old(db.secrets)[user].value, code, now))
      ensures !old(AcceptsPending(user, code, now)) || fault.GetFails? ==> db.secrets == old(db.secrets)
      ensures old(AcceptsPending(user, code, now)) && !fault.GetFails? ==>
                && r == (if fault.WriteFails? then Err(Unavailable) else Ok(true))
                && db.secrets == old(db.secrets)[user := Secret(if meanwhile.Some? then meanwhile.value
                                                                else old(db.secrets)[user].value,
                                                                if r.Ok? then Some(now) else None)]
                && (db.secrets[user].value == old(db.secrets)[user].value
                    <==> meanwhile.None? || meanwhile.value == old(db.secrets)[user].value)
    {
      if fault.GetFails? {
        return Err(Unavailable);
      }
      if user !in db.secrets {
        return Err(SecretNotFound);
      }
      var s := db.secrets[user];
      if !accepts(s.value, code, now) {
        return Ok(false);
      }
      if s.verifiedAt.None? {
        if meanwhile.Some? {
          db.secrets := db.secrets[user := Secret(meanwhile.value, None)];
        }
        if fault.WriteFails? {
          return Err(Unavailable);
        }
        db.secrets := db.secrets[user := db.secrets[user].(verifiedAt := Some(now))];
      }
      r := Ok(true);
    }

    /** The user has a pending secret, and the code is right for it. */
    predicate AcceptsPending(user: string, code: string, now: int)
      reads db
    {
      user in db.secrets && db.secrets[user].verifiedAt.None? && accepts(db.secrets[user].value, code, now)
    }

    method HasVerified(user: string, fault: Fault) returns (r: Result<bool, MfaError>)
      ensures r == if fault.GetFails? then Err(Unavailable) else Ok(HasVerifiedFactor(db.secrets, user))
    {
      if fault.GetFails? {
        return Err(Unavailable);
      }
      if user !in db.secrets {
        return Ok(false);
      }
      r := Ok(db.secrets[user].verifiedAt.Some?);
    }
  }
}
