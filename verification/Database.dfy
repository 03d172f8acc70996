/** The durable tables of the presence feature. */
module Database {
  import opened Wrappers
  import opened Presence

  datatype Secret = Secret(value: string, verifiedAt: Option<int>)

  /** What one query reads: every table at one instant. */
  datatype View = View(rows: map<string, PrivacySettings>, blocks: set<(string, string)>,
                       follows: set<(string, string)>, users: map<string, Profile>)

  predicate BlockedEitherWay(blocks: set<(string, string)>, a: string, b: string) {
    (a, b) in blocks || (b, a) in blocks
  }

  predicate MutualFollow(follows: set<(string, string)>, a: string, b: string) {
    (a, b) in follows && (b, a) in follows
  }

  class Tables {
    var rows: map<string, PrivacySettings>
    var blocks: set<(string, string)>
    var follows: set<(string, string)>
    var users: map<string, Profile>
    var secrets: map<string, Secret>
    var audit: seq<AuditLogEntry>

    constructor ()
      ensures rows == map[] && blocks == {} && secrets == map[] && audit == []
    {
      rows, blocks, follows, users, secrets, audit := map[], {}, {}, map[], map[], [];
    }

    function Look(): View
      reads this
    {
      View(rows, blocks, follows, users)
    }
  }
}
