/** Playlist entries ordered by fractional positions, and the service that computes them. */
module Playlist {
  import opened Wrappers
  import opened Binary64

  const POSITION_START := "start"
  const POSITION_GAP := 1024.0

  datatype Entry = Entry(id: string, playlist: string, track: string, position: real, addedBy: string, addedAt: int)

  datatype LibraryError = InvalidInput | PlaylistNotFound | NotOwner | TrackNotFound | TrackNotInPlaylist | Unavailable

  /** How positions are computed: exactly, or in binary64. */
  datatype Arithmetic = Exact | Binary

  function Rounded(a: Arithmetic, x: real): real {
    if a.Exact? then x else Fl(x)
  }

  // ----- the table -----

  function Insert(e: Entry, l: seq<Entry>): (r: seq<Entry>)
    ensures |r| == |l| + 1
  {
    if l == [] then [e]
    else if e.position < l[0].position then [e] + l
    else [l[0]] + Insert(e, l[1..])
  }

  /** The entries of one playlist, ascending by position. */
  function Listing(rows: seq<Entry>, playlist: string): seq<Entry> {
    if rows == [] then []
    else
      var before := Listing(rows[..|rows| - 1], playlist);
      var e := rows[|rows| - 1];
      if e.playlist == playlist then Insert(e, before) else before
  }

  function Without(rows: seq<Entry>, playlist: string, track: string): seq<Entry> {
    if rows == [] then []
    else
      var before := Without(rows[..|rows| - 1], playlist, track);
      var e := rows[|rows| - 1];
      if e.playlist == playlist && e.track == track then before else before + [e]
  }

  function Highest(rows: seq<Entry>, playlist: string): Option<real> {
    if rows == [] then None
    else
      var before := Highest(rows[..|rows| - 1], playlist);
      var e := rows[|rows| - 1];
      if e.playlist != playlist || (before.Some? && before.value >= e.position) then before else Some(e.position)
  }

  predicate HasId(rows: seq<Entry>, id: string) {
    exists k :: 0 <= k < |rows| && rows[k].id == id
  }

  predicate Ascending(l: seq<Entry>) {
    forall i, j :: 0 <= i < j < |l| ==> l[i].position <= l[j].position
  }

  lemma {:induction false} InsertContents(e: Entry, l: seq<Entry>)
    ensures multiset(Insert(e, l)) == multiset(l) + multiset{e}
  {
    if l != [] {
      assert l == [l[0]] + l[1..];
      if e.position >= l[0].position {
        InsertContents(e, l[1..]);
      }
    }
  }

  lemma InsertMember(e: Entry, l: seq<Entry>, x: Entry)
    ensures x in Insert(e, l) <==> x in l || x == e
  {
    InsertContents(e, l);
    assert x in Insert(e, l) <==> x in multiset(Insert(e, l));
    assert x in l <==> x in multiset(l);
  }

  lemma {:induction false} InsertAscends(e: Entry, l: seq<Entry>)
    requires Ascending(l)
    ensures Ascending(Insert(e, l))
  {
    if l != [] && e.position >= l[0].position {
      InsertAscends(e, l[1..]);
      forall k | 0 <= k < |l|
        ensures l[0].position <= Insert(e, l[1..])[k].position
      {
        InsertMember(e, l[1..], Insert(e, l[1..])[k]);
      }
    }
  }

  predicate IsEntry(e: Entry, playlist: string, track: string) {
    e.playlist == playlist && e.track == track
  }

  /** `after` holds, in the same order, exactly the rows of `before` that are not entries of the track: row `i` of it
      was row `from[i]`. */
  ghost predicate Keeps(before: seq<Entry>, after: seq<Entry>, from: seq<nat>, playlist: string, track: string) {
    && |from| == |after|
    && (forall i :: 0 <= i < |from| ==> from[i] < |before| && after[i] == before[from[i]])
    && (forall i, j :: 0 <= i < j < |from| ==> from[i] < from[j])
    && (forall k :: 0 <= k < |before| ==> (k in from <==> !IsEntry(before[k], playlist, track)))
  }

  lemma KeepsStep(before: seq<Entry>, e: Entry, after: seq<Entry>, from: seq<nat>, playlist: string, track: string)
    requires Keeps(before, after, from, playlist, track)
    ensures IsEntry(e, playlist, track) ==> Keeps(before + [e], after, from, playlist, track)
    ensures !IsEntry(e, playlist, track) ==>
              Keeps(before + [e], after + [e], from + [|before|], playlist, track)
  {
    assert forall i :: 0 <= i < |from| ==> from[i] in from;
    assert |before| !in from;
    var longer := from + [|before|];
    assert forall k :: k in longer <==> k in from || k == |before|;
  }

  lemma KeptIsNoEntry(before: seq<Entry>, after: seq<Entry>, from: seq<nat>, playlist: string, track: string)
    requires Keeps(before, after, from, playlist, track)
    ensures forall k :: 0 <= k < |after| ==> !IsEntry(after[k], playlist, track)
  {
    assert forall k :: 0 <= k < |after| ==> from[k] in from;
  }

  predicate HasEntry(rows: seq<Entry>, playlist: string, track: string) {
    exists k :: 0 <= k < |rows| && IsEntry(rows[k], playlist, track)
  }

  lemma HasEntryStep(rows: seq<Entry>, e: Entry, playlist: string, track: string)
    ensures HasEntry(rows + [e], playlist, track) <==> HasEntry(rows, playlist, track) || IsEntry(e, playlist, track)
  {
    if HasEntry(rows, playlist, track) {
      var k :| 0 <= k < |rows| && IsEntry(rows[k], playlist, track);
      assert (rows + [e])[k] == rows[k];
    }
    assert (rows + [e])[|rows|] == e;
  }

  /** `items` holds the playlist's rows, each as often as the table does, and no others. */
  ghost predicate HoldsRowsOf(items: seq<Entry>, rows: seq<Entry>, playlist: string) {
    forall e :: multiset(items)[e] == if e.playlist == playlist then multiset(rows)[e] else 0
  }

  lemma RowsOfStep(items: seq<Entry>, rows: seq<Entry>, e: Entry, playlist: string)
    requires HoldsRowsOf(items, rows, playlist)
    ensures HoldsRowsOf(if e.playlist == playlist then Insert(e, items) else items, rows + [e], playlist)
  {
    InsertContents(e, items);
  }

  /** A listing is ascending, and holds the playlist's rows. */
  lemma {:induction false} ListingIs(rows: seq<Entry>, playlist: string)
    ensures Ascending(Listing(rows, playlist)) && HoldsRowsOf(Listing(rows, playlist), rows, playlist)
  {
    if rows != [] {
      var init, e := rows[..|rows| - 1], rows[|rows| - 1];
      ListingIs(init, playlist);
      assert rows == init + [e];
      RowsOfStep(Listing(init, playlist), init, e, playlist);
      InsertAscends(e, Listing(init, playlist));
    }
  }

  class PlaylistTrackRepo {
    var rows: seq<Entry>

    constructor ()
      ensures rows == []
    {
      rows := [];
    }

    method Add(e: Entry) returns (ok: bool)
      modifies this
      ensures ok <==> forall k :: 0 <= k < |old(rows)| ==> old(rows)[k].id != e.id
      ensures rows == if ok then old(rows) + [e] else old(rows)
    {
      ok := !HasId(rows, e.id);
      if ok {
        rows := rows + [e];
      }
    }

    /** Deletes every entry of the track; it is an error if there is none. */
    method Remove(playlist: string, track: string) returns (ok: bool)
      modifies this
      ensures exists from :: Keeps(old(rows), rows, from, playlist, track)
      ensures forall k :: 0 <= k < |rows| ==> !IsEntry(rows[k], playlist, track)
      ensures ok <==> HasEntry(old(rows), playlist, track)
      ensures rows == Without(old(rows), playlist, track)
    {
      var kept: seq<Entry> := [];
      ghost var from: seq<nat> := [];
      ok := false;
      for i := 0 to |rows|
        invariant rows == old(rows) && kept == Without(rows[..i], playlist, track)
        invariant Keeps(rows[..i], kept, from, playlist, track)
        invariant ok <==> HasEntry(rows[..i], playlist, track)
      {
        assert rows[..i + 1][..i] == rows[..i] && rows[..i + 1] == rows[..i] + [rows[i]];
        KeepsStep(rows[..i], rows[i], kept, from, playlist, track);
        HasEntryStep(rows[..i], rows[i], playlist, track);
        if IsEntry(rows[i], playlist, track) {
          ok := true;
        } else {
          kept, from := kept + [rows[i]], from + [i];
        }
      }
      assert rows[..|rows|] == rows;
      KeptIsNoEntry(rows, kept, from, playlist, track);
      rows := kept;
    }

    /** The rows of the playlist in the query's order. */
    method List(playlist: string) returns (items: seq<Entry>)
      ensures Ascending(items) && HoldsRowsOf(items, rows, playlist)
      ensures items == Listing(rows, playlist)
    {
      items := [];
      for i := 0 to |rows|
        invariant items == Listing(rows[..i], playlist)
      {
        assert rows[..i + 1][..i] == rows[..i];
        if rows[i].playlist == playlist {
          items := Insert(rows[i], items);
        }
      }
      assert rows[..|rows|] == rows;
      ListingIs(rows, playlist);
    }

    method MaxPosition(playlist: string) returns (max: Option<real>)
      ensures max.None? <==> forall k :: 0 <= k < |rows| ==> rows[k].playlist != playlist
      ensures max.Some? ==> exists k :: 0 <= k < |rows| && rows[k].playlist == playlist && rows[k].position == max.value
      ensures max.Some? ==> forall k :: 0 <= k < |rows| && rows[k].playlist == playlist ==>
                              rows[k].position <= max.value
      ensures max == Highest(rows, playlist)
    {
      max := None;
      for i := 0 to |rows|
        invariant max == Highest(rows[..i], playlist)
        invariant max.None? <==> forall k :: 0 <= k < i ==> rows[k].playlist != playlist
        invariant max.Some? ==> exists k :: 0 <= k < i && rows[k].playlist == playlist && rows[k].position == max.value
        invariant max.Some? ==> forall k :: 0 <= k < i && rows[k].playlist == playlist ==>
                                  rows[k].position <= max.value
      {
        assert rows[..i + 1][..i] == rows[..i];
        if rows[i].playlist == playlist && (max.None? || max.value < rows[i].position) {
          max := Some(rows[i].position);
        }
      }
      assert rows[..|rows|] == rows;
    }
  }

  lemma {:induction false} WithoutNone(rows: seq<Entry>, playlist: string, track: string)
    requires forall k :: 0 <= k < |rows| ==> !IsEntry(rows[k], playlist, track)
    ensures Without(rows, playlist, track) == rows
  {
    if rows != [] {
      WithoutNone(rows[..|rows| - 1], playlist, track);
    }
  }

  // ----- the service -----

  function Placed(a: Arithmetic, rows: seq<Entry>, playlist: string, start: bool): real {
    if start then
      var items := Listing(rows, playlist);
      if items == [] then POSITION_GAP else Rounded(a, items[0].position / 2.0)
    else
      var max := Highest(rows, playlist);
      if max.None? then POSITION_GAP else Rounded(a, max.value + POSITION_GAP)
  }

  predicate Lowest(rows: seq<Entry>, playlist: string, k: nat) {
    k < |rows| && rows[k].playlist == playlist
    && forall j :: 0 <= j < |rows| && rows[j].playlist == playlist ==> rows[k].position <= rows[j].position
  }

  predicate Topmost(rows: seq<Entry>, playlist: string, k: nat) {
    k < |rows| && rows[k].playlist == playlist
    && forall j :: 0 <= j < |rows| && rows[j].playlist == playlist ==> rows[j].position <= rows[k].position
  }

  /** What one request does to the table. */
  datatype Change =
    | Nothing
    | Puts(playlist: string, track: string, start: bool, id: string, addedBy: string, addedAt: int)
    | Drops(playlist: string, track: string)

  function NewEntry(a: Arithmetic, rows: seq<Entry>, c: Change): Entry
    requires c.Puts?
  {
    Entry(c.id, c.playlist, c.track, Placed(a, rows, c.playlist, c.start), c.addedBy, c.addedAt)
  }

  function After(a: Arithmetic, rows: seq<Entry>, c: Change): seq<Entry> {
    match c
    case Nothing => rows
    case Puts(_, _, _, _, _, _) => rows + [NewEntry(a, rows, c)]
    case Drops(playlist, track) => Without(rows, playlist, track)
  }

  datatype Fault = NoFault | PlaylistFails | TrackFails | PositionFails | WriteFails

  class PlaylistService {
    const repo: PlaylistTrackRepo
    const a: Arithmetic
    var owners: map<string, string>
    var tracks: set<string>

    constructor (repo: PlaylistTrackRepo, a: Arithmetic)
      ensures this.repo == repo && this.a == a && owners == map[] && tracks == {}
    {
      this.repo, this.a := repo, a;
      owners, tracks := map[], {};
    }

    predicate OwnedBy(playlist: string, requester: string)
      reads this
    {
      playlist != "" && requester != "" && playlist in owners && owners[playlist] == requester
    }

    /** Why somebody is not let at a playlist, if they are not. */
    function OwnerError(playlist: string, requester: string, fault: Fault): LibraryError
      reads this
    {
      if playlist == "" || requester == "" then InvalidInput
      else if fault.PlaylistFails? then Unavailable
      else if playlist !in owners then PlaylistNotFound else NotOwner
    }

    method CheckOwned(playlist: string, requester: string, fault: Fault) returns (r: Result<bool, LibraryError>)
      ensures r.Ok? <==> OwnedBy(playlist, requester) && !fault.PlaylistFails?
      ensures r.Ok? ==> playlist in owners && owners[playlist] == requester
      ensures r.Err? ==> r.error == OwnerError(playlist, requester, fault)
    {
      if playlist == "" || requester == "" {
        return Err(InvalidInput);
      }
      if fault.PlaylistFails? {
        return Err(Unavailable);
      }
      if playlist !in owners {
        return Err(PlaylistNotFound);
      }
      if owners[playlist] != requester {
        return Err(NotOwner);
      }
      r := Ok(true);
    }

    method ComputePosition(playlist: string, position: string, fault: Fault) returns (r: Result<real, LibraryError>)
      ensures r == if fault.PositionFails? then Err(Unavailable)
                   else Ok(Placed(a, repo.rows, playlist, position == POSITION_START))
    {
      if fault.PositionFails? {
        return Err(Unavailable);
      }
      if position == POSITION_START {
        var items := repo.List(playlist);
        if |items| == 0 {
          return Ok(POSITION_GAP);
        }
        return Ok(Rounded(a, items[0].position / 2.0));
      }
      var max := repo.MaxPosition(playlist);
      if max.None? {
        return Ok(POSITION_GAP);
      }
      r := Ok(Rounded(a, max.value + POSITION_GAP));
    }

    /** Whether a request to add goes through. */
    predicate Adds(playlist: string, requester: string, track: string, id: string, fault: Fault)
      reads this, repo
    {
      track != "" && OwnedBy(playlist, requester) && track in tracks && fault.NoFault? && !HasId(repo.rows, id)
    }

    method AddTrack(playlist: string, requester: string, track: string, position: string, id: string, now: int,
                    fault: Fault) returns (r: Result<Entry, LibraryError>)
      modifies repo
      ensures old(Adds(playlist, requester, track, id, fault)) <==> r.Ok?
      ensures var c := if r.Ok? then Puts(playlist, track, position == POSITION_START, id, requester, now) else Nothing;
              repo.rows == After(a, old(repo.rows), c)
              && (r.Ok? ==> r.value == NewEntry(a, old(repo.rows), c))
      ensures r.Ok? ==> playlist in owners && owners[playlist] == requester && track in tracks
      ensures r.Ok? ==> r.value.(position := 0.0) == Entry(id, playlist, track, 0.0, requester, now)
      ensures r.Err? ==>
                r.error == if track == "" then InvalidInput
                           else if !OwnedBy(playlist, requester) || fault.PlaylistFails?
                           then OwnerError(playlist, requester, fault)
                           else if fault.TrackFails? || track in tracks then Unavailable else TrackNotFound
    {
      if track == "" {
        return Err(InvalidInput);
      }
      var owned := CheckOwned(playlist, requester, fault);
      if owned.Err? {
        return Err(owned.error);
      }
      if fault.TrackFails? {
        return Err(Unavailable);
      }
      if track !in tracks {
        return Err(TrackNotFound);
      }
      var at := ComputePosition(playlist, position, fault);
      if at.Err? {
        return Err(at.error);
      }
      if fault.WriteFails? {
        return Err(Unavailable);
      }
      var e := Entry(id, playlist, track, at.value, requester, now);
      var ok := repo.Add(e);
      r := if ok then Ok(e) else Err(Unavailable);
    }

    method RemoveTrack(playlist: string, requester: string, track: string, fault: Fault)
      returns (r: Result<bool, LibraryError>)
      modifies repo
      ensures var goes := track != "" && old(OwnedBy(playlist, requester)) && !fault.PlaylistFails? && !fault.WriteFails?;
              && repo.rows == After(a, old(repo.rows), if goes then Drops(playlist, track) else Nothing)
              && (goes ==> r == if repo.rows == old(repo.rows) then Err(TrackNotInPlaylist) else Ok(true))
              && (!goes ==> r.Err? && r.error == if track == "" then InvalidInput
                                                 else if old(OwnedBy(playlist, requester)) && !fault.PlaylistFails?
                                                 then Unavailable else old(OwnerError(playlist, requester, fault)))
    {
      if track == "" {
        return Err(InvalidInput);
      }
      var owned := CheckOwned(playlist, requester, fault);
      if owned.Err? {
        return Err(owned.error);
      }
      if fault.WriteFails? {
        return Err(Unavailable);
      }
      var ok := repo.Remove(playlist, track);
      if !ok {
        WithoutNone(old(repo.rows), playlist, track);
      }
      r := if ok then Ok(true) else Err(TrackNotInPlaylist);
    }
  }
}
