/** Runs of playlist changes refine a plain sequence with prepend, append and delete: always in exact arithmetic, in
    binary64 within sharp bounds. */
module PlaylistRun {
  import opened Wrappers
  import opened Binary64
  import opened Playlist

  predicate StrictlyAscending(l: seq<Entry>) {
    forall i, j :: 0 <= i < j < |l| ==> l[i].position < l[j].position
  }

  function Tracks(l: seq<Entry>): seq<string> {
    seq(|l|, i requires 0 <= i < |l| => l[i].track)
  }

  // ----- the listing -----

  /** The listing is ascending, and holds exactly the playlist's rows. */
  lemma {:induction false} ListingIsSorted(rows: seq<Entry>, playlist: string)
    ensures Ascending(Listing(rows, playlist))
    ensures forall e :: e in Listing(rows, playlist) <==> e in rows && e.playlist == playlist
  {
    if rows != [] {
      var last := |rows| - 1;
      ListingIsSorted(rows[..last], playlist);
      assert rows == rows[..last] + [rows[last]];
      if rows[last].playlist == playlist {
        InsertAscends(rows[last], Listing(rows[..last], playlist));
        forall e
          ensures e in Listing(rows, playlist) <==> e in rows && e.playlist == playlist
        {
          InsertMember(rows[last], Listing(rows[..last], playlist), e);
        }
      }
    }
  }

  lemma SameFirst(l: seq<Entry>, m: seq<Entry>)
    requires StrictlyAscending(l) && Ascending(m) && multiset(m) == multiset(l) && l != []
    ensures m != [] && m[0] == l[0]
  {
    assert |m| == |multiset(m)| == |multiset(l)| == |l|;
    assert l[0] in multiset(m) && m[0] in multiset(l);
    var i :| 0 <= i < |m| && m[i] == l[0];
    var j :| 0 <= j < |l| && l[j] == m[0];
  }

  lemma SameRest(l: seq<Entry>, m: seq<Entry>)
    requires multiset(m) == multiset(l) && l != [] && m != [] && m[0] == l[0]
    ensures multiset(m[1..]) == multiset(l[1..])
  {
    assert l == [l[0]] + l[1..] && m == [m[0]] + m[1..];
    assert multiset(m[1..]) == multiset(m) - multiset{m[0]} == multiset(l[1..]);
  }

  /** With distinct positions the order is determined: whatever ascending order a query delivers the same entries in,
      it is the listing. */
  lemma {:induction false} OnlyOneOrder(l: seq<Entry>, m: seq<Entry>)
    requires StrictlyAscending(l) && Ascending(m) && multiset(m) == multiset(l)
    ensures m == l
  {
    if l == [] {
      assert |m| == |multiset(m)| == |multiset(l)| == 0;
    } else {
      SameFirst(l, m);
      SameRest(l, m);
      OnlyOneOrder(l[1..], m[1..]);
      assert m == [m[0]] + m[1..] && l == [l[0]] + l[1..];
    }
  }

  lemma {:induction false} InsertLast(e: Entry, l: seq<Entry>)
    requires forall k :: 0 <= k < |l| ==> l[k].position <= e.position
    ensures Insert(e, l) == l + [e]
  {
    if l != [] {
      InsertLast(e, l[1..]);
      assert l + [e] == [l[0]] + (l[1..] + [e]);
    }
  }

  lemma ListingSnoc(rows: seq<Entry>, e: Entry, playlist: string)
    ensures Listing(rows + [e], playlist)
            == if e.playlist == playlist then Insert(e, Listing(rows, playlist)) else Listing(rows, playlist)
  {
    assert (rows + [e])[..|rows|] == rows;
  }

  lemma ListingAscends(rows: seq<Entry>, playlist: string)
    ensures Ascending(Listing(rows, playlist))
  {
    ListingIsSorted(rows, playlist);
  }

  /** The maximum is the last listed position. */
  lemma {:induction false} HighestIsLast(rows: seq<Entry>, playlist: string)
    ensures var l := Listing(rows, playlist);
            if l == [] then Highest(rows, playlist).None? else Highest(rows, playlist) == Some(l[|l| - 1].position)
  {
    if rows != [] {
      var last := |rows| - 1;
      var e, before := rows[last], Listing(rows[..last], playlist);
      HighestIsLast(rows[..last], playlist);
      if e.playlist == playlist {
        ListingAscends(rows[..last], playlist);
        InsertEnd(e, before);
      }
    }
  }

  lemma {:induction false} InsertEnd(e: Entry, l: seq<Entry>)
    requires Ascending(l)
    ensures var r := Insert(e, l);
            r[|r| - 1].position
            == if l == [] || e.position >= l[|l| - 1].position then e.position else l[|l| - 1].position
  {
    if l != [] && e.position >= l[0].position {
      InsertEnd(e, l[1..]);
    }
  }

  lemma LowestIsFirst(rows: seq<Entry>, playlist: string, k: nat)
    requires Lowest(rows, playlist, k)
    ensures var l := Listing(rows, playlist); l != [] && l[0].position == rows[k].position
  {
    var l := Listing(rows, playlist);
    ListingIsSorted(rows, playlist);
    assert rows[k] in l;
    var i :| 0 <= i < |l| && l[i] == rows[k];
    ListedIsThere(rows, playlist, 0);
  }

  lemma TopmostIsHighest(rows: seq<Entry>, playlist: string, k: nat)
    requires Topmost(rows, playlist, k)
    ensures Highest(rows, playlist) == Some(rows[k].position)
  {
    var l := Listing(rows, playlist);
    ListingIsSorted(rows, playlist);
    HighestIsLast(rows, playlist);
    assert rows[k] in l;
    var i :| 0 <= i < |l| && l[i] == rows[k];
    ListedIsThere(rows, playlist, |l| - 1);
  }

  /** Where an entry is put, in terms of the rows: half the lowest position for the start, 1024 past the topmost else, and
      1024 in an empty playlist. */
  lemma PlacedIs(a: Arithmetic, rows: seq<Entry>, playlist: string, k: nat)
    ensures (forall j :: 0 <= j < |rows| ==> rows[j].playlist != playlist) ==>
              Placed(a, rows, playlist, true) == Placed(a, rows, playlist, false) == 1024.0
    ensures Lowest(rows, playlist, k) ==>
              Placed(a, rows, playlist, true) == Rounded(a, rows[k].position / 2.0)
    ensures Topmost(rows, playlist, k) ==>
              Placed(a, rows, playlist, false) == Rounded(a, rows[k].position + 1024.0)
  {
    if Lowest(rows, playlist, k) {
      LowestIsFirst(rows, playlist, k);
    }
    if Topmost(rows, playlist, k) {
      TopmostIsHighest(rows, playlist, k);
    }
    if forall j :: 0 <= j < |rows| ==> rows[j].playlist != playlist {
      NobodyListed(rows, playlist);
    }
  }

  lemma {:induction false} NobodyListed(rows: seq<Entry>, playlist: string)
    requires forall j :: 0 <= j < |rows| ==> rows[j].playlist != playlist
    ensures Listing(rows, playlist) == [] && Highest(rows, playlist) == None
  {
    if rows != [] {
      NobodyListed(rows[..|rows| - 1], playlist);
    }
  }

  lemma ListedIsThere(rows: seq<Entry>, playlist: string, i: nat)
    requires i < |Listing(rows, playlist)|
    ensures exists j :: 0 <= j < |rows| && rows[j] == Listing(rows, playlist)[i] && rows[j].playlist == playlist
  {
    ListingIsSorted(rows, playlist);
    assert Listing(rows, playlist)[i] in Listing(rows, playlist);
  }

  // ----- deleting -----

  function Dropped(l: seq<Entry>, track: string): seq<Entry> {
    if l == [] then []
    else (if l[0].track == track then [] else [l[0]]) + Dropped(l[1..], track)
  }

  lemma {:induction false} DroppedMembers(l: seq<Entry>, track: string)
    ensures forall e :: e in Dropped(l, track) <==> e in l && e.track != track
    ensures StrictlyAscending(l) ==> StrictlyAscending(Dropped(l, track))
    ensures |Dropped(l, track)| <= |l|
  {
    if l != [] {
      assert l == [l[0]] + l[1..];
      DroppedMembers(l[1..], track);
    }
  }

  lemma {:induction false} InsertFirst(e: Entry, l: seq<Entry>)
    requires forall x :: x in l ==> e.position < x.position
    ensures Insert(e, l) == [e] + l
  {
    if l != [] { assert l[0] in l; }
  }

  lemma DroppedCons(x: Entry, l: seq<Entry>, track: string)
    ensures Dropped([x] + l, track) == if x.track == track then Dropped(l, track) else [x] + Dropped(l, track)
  {
    assert ([x] + l)[1..] == l;
    assert [] + Dropped(l, track) == Dropped(l, track);
  }

  lemma InsertCons(e: Entry, x: Entry, l: seq<Entry>)
    requires e.position >= x.position
    ensures Insert(e, [x] + l) == [x] + Insert(e, l)
  {
    assert ([x] + l)[1..] == l;
  }

  lemma {:induction false} DroppedInsert(e: Entry, l: seq<Entry>, track: string)
    requires Ascending(l)
    ensures Dropped(Insert(e, l), track)
            == if e.track == track then Dropped(l, track) else Insert(e, Dropped(l, track))
  {
    if l == [] {
      DroppedCons(e, l, track);
    } else if e.position < l[0].position {
      DroppedCons(e, l, track);
      DroppedMembers(l, track);
      InsertFirst(e, Dropped(l, track));
    } else {
      assert l == [l[0]] + l[1..];
      DroppedInsert(e, l[1..], track);
      DroppedCons(l[0], Insert(e, l[1..]), track);
      DroppedCons(l[0], l[1..], track);
      InsertCons(e, l[0], Dropped(l[1..], track));
    }
  }

  /** Deleting a track's rows drops its entries from that playlist's listing, and changes no other. */
  lemma {:induction false} ListingWithout(rows: seq<Entry>, playlist: string, track: string, other: string)
    ensures Listing(Without(rows, playlist, track), other)
            == if other == playlist then Dropped(Listing(rows, playlist), track) else Listing(rows, other)
  {
    if rows != [] {
      var last := |rows| - 1;
      var e := rows[last];
      ListingWithout(rows[..last], playlist, track, other);
      if !(e.playlist == playlist && e.track == track) {
        ListingSnoc(Without(rows[..last], playlist, track), e, other);
      }
      ListingIsSorted(rows[..last], playlist);
      if other == playlist == e.playlist {
        DroppedInsert(e, Listing(rows[..last], playlist), track);
      }
    }
  }

  // ----- the plain sequence -----

  function Filter(s: seq<string>, track: string): seq<string> {
    if s == [] then [] else (if s[0] == track then [] else [s[0]]) + Filter(s[1..], track)
  }

  function PlainAfter(s: seq<string>, playlist: string, c: Change): seq<string> {
    match c
    case Nothing => s
    case Puts(p, track, start, _, _, _) =>
      if p != playlist then s else if start then [track] + s else s + [track]
    case Drops(p, track) => if p != playlist then s else Filter(s, track)
  }

  function Plain(cs: seq<Change>, playlist: string): seq<string> {
    if cs == [] then [] else PlainAfter(Plain(cs[..|cs| - 1], playlist), playlist, cs[|cs| - 1])
  }

  function Run(a: Arithmetic, cs: seq<Change>): seq<Entry> {
    if cs == [] then [] else After(a, Run(a, cs[..|cs| - 1]), cs[|cs| - 1])
  }

  lemma {:induction false} TracksDropped(l: seq<Entry>, track: string)
    ensures Tracks(Dropped(l, track)) == Filter(Tracks(l), track)
  {
    if l != [] {
      TracksDropped(l[1..], track);
      assert Tracks(l)[1..] == Tracks(l[1..]);
      var rest := Dropped(l[1..], track);
      assert Tracks([l[0]] + rest) == [l[0].track] + Tracks(rest);
      assert [] + rest == rest;
    }
  }

  /** A new position that goes before everything listed, or after it. */
  predicate GoesBefore(x: real, l: seq<Entry>) {
    l != [] ==> x < l[0].position
  }

  predicate GoesAfter(x: real, l: seq<Entry>) {
    l != [] ==> l[|l| - 1].position < x
  }

  predicate PutGoesRight(a: Arithmetic, rows: seq<Entry>, c: Change, playlist: string)
  {
    c.Puts? && c.playlist == playlist ==>
      if c.start then GoesBefore(Placed(a, rows, playlist, true), Listing(rows, playlist))
      else GoesAfter(Placed(a, rows, playlist, false), Listing(rows, playlist))
  }

  lemma InsertRefines(e: Entry, l: seq<Entry>, start: bool)
    requires StrictlyAscending(l) && if start then GoesBefore(e.position, l) else GoesAfter(e.position, l)
    ensures StrictlyAscending(Insert(e, l))
    ensures Tracks(Insert(e, l)) == if start then [e.track] + Tracks(l) else Tracks(l) + [e.track]
  {
    if start {
      assert Insert(e, l) == [e] + l;
    } else {
      InsertLast(e, l);
    }
  }

  /** One change refines its plain counterpart, and keeps the positions distinct, as soon as a new position goes where
      it should. */
  lemma ChangeRefines(a: Arithmetic, rows: seq<Entry>, c: Change, playlist: string)
    requires StrictlyAscending(Listing(rows, playlist)) && PutGoesRight(a, rows, c, playlist)
    ensures StrictlyAscending(Listing(After(a, rows, c), playlist))
    ensures Tracks(Listing(After(a, rows, c), playlist)) == PlainAfter(Tracks(Listing(rows, playlist)), playlist, c)
  {
    match c
    case Nothing =>
    case Puts(p, _, _, _, _, _) =>
      ListingSnoc(rows, NewEntry(a, rows, c), playlist);
      if p == playlist {
        InsertRefines(NewEntry(a, rows, c), Listing(rows, playlist), c.start);
      }
    case Drops(p, track) =>
      ListingWithout(rows, p, track, playlist);
      DroppedMembers(Listing(rows, playlist), track);
      TracksDropped(Listing(rows, playlist), track);
  }

  // ----- exact arithmetic -----

  predicate Positive(l: seq<Entry>) {
    forall e :: e in l ==> e.position > 0.0
  }

  lemma ExactStep(rows: seq<Entry>, c: Change, playlist: string)
    requires StrictlyAscending(Listing(rows, playlist)) && Positive(Listing(rows, playlist))
    ensures var l := Listing(After(Exact, rows, c), playlist);
            && StrictlyAscending(l) && Positive(l)
            && Tracks(l) == PlainAfter(Tracks(Listing(rows, playlist)), playlist, c)
  {
    var l := Listing(rows, playlist);
    HighestIsLast(rows, playlist);
    if l != [] { assert l[0] in l && l[|l| - 1] in l; }
    ChangeRefines(Exact, rows, c, playlist);
    NewMembers(Exact, rows, c, playlist);
  }

  /** After a change, what is listed was listed before or has just been put there. */
  lemma NewMembers(a: Arithmetic, rows: seq<Entry>, c: Change, playlist: string)
    ensures forall e :: e in Listing(After(a, rows, c), playlist) ==>
              e in Listing(rows, playlist) || (c.Puts? && c.playlist == playlist && e == NewEntry(a, rows, c))
  {
    match c
    case Nothing =>
    case Puts(p, _, _, _, _, _) =>
      var e := NewEntry(a, rows, c);
      ListingSnoc(rows, e, playlist);
      forall x ensures x in Insert(e, Listing(rows, playlist)) <==> x in Listing(rows, playlist) || x == e {
        InsertMember(e, Listing(rows, playlist), x);
      }
    case Drops(p, track) =>
      ListingWithout(rows, p, track, playlist);
      DroppedMembers(Listing(rows, playlist), track);
  }

  /** In exact arithmetic, after any run of changes to any playlists, every playlist lists exactly the plain sequence,
      and its positions are positive and distinct. */
  lemma {:induction false} ExactRunRefinesSequence(cs: seq<Change>, playlist: string)
    ensures var l := Listing(Run(Exact, cs), playlist);
            StrictlyAscending(l) && Positive(l) && Tracks(l) == Plain(cs, playlist)
  {
    if cs != [] {
      ExactRunRefinesSequence(cs[..|cs| - 1], playlist);
      ExactStep(Run(Exact, cs[..|cs| - 1]), cs[|cs| - 1], playlist);
    }
  }

  // ----- binary64 -----

  /** In front stays in front exactly while the lowest position is positive. */
  lemma StartIsInFront(u: nat)
    requires Double(u)
    ensures Fl(ToReal(u) / 2.0) < ToReal(u) <==> u > 0
  {
    FlHalf(u);
    if u > 0 {
      HalvingLowers(u);
    } else {
      HalfOfSmallest(u);
    }
    RealOrder(Round(u), u);
  }

  /** At the end stays at the end exactly while the highest position is below 2^63. */
  lemma EndIsBehind(u: nat)
    requires Double(u) && u <= Pow2(LIMIT_BITS)
    ensures ToReal(u) < Fl(ToReal(u) + 1024.0) <==> u < Pow2(LIMIT_BITS)
  {
    FlGap(u);
    RealOrder(u, Round(2 * (u + Pow2(GAP_BITS))));
    if u < Pow2(LIMIT_BITS) {
      RoundIsNearestEven(2 * (u + Pow2(GAP_BITS)));
      var z := NeighbourWithinGap(u);
      RoundStaysWithin(2 * (u + Pow2(GAP_BITS)), z);
    } else {
      GapIsLostAtLimit();
    }
  }

  /** The front position after k halvings of the first one. */
  function Halved(k: nat): real {
    if k == 0 then POSITION_GAP else Fl(Halved(k - 1) / 2.0)
  }

  /** How many units are left after k halvings of 1024. */
  function UnitsAfter(k: nat): nat {
    if k <= GAP_BITS then Pow2(GAP_BITS - k) else 0
  }

  lemma UnitsHalve(k: nat)
    requires k > 0
    ensures Double(UnitsAfter(k - 1)) && Round(UnitsAfter(k - 1)) == UnitsAfter(k)
  {
    PowersAreDoubles(if k <= GAP_BITS then GAP_BITS - k + 1 else 0);
    if k <= GAP_BITS {
      Halving(UnitsAfter(k - 1), GAP_BITS - k);
    } else {
      assert UnitsAfter(k - 1) <= 1;
      HalfOfSmallest(UnitsAfter(k - 1));
    }
  }

  /** Halving is exact down to the smallest double: after k halvings the position is 2^(1084 - k) units of 2^-1074.
      The next one gives zero, and so do all further ones. */
  lemma {:induction false} HalvingIsExactThrough1084(k: nat)
    ensures Halved(k) == ToReal(UnitsAfter(k))
  {
    if k == 0 {
      GapIs1024();
    } else {
      HalvingIsExactThrough1084(k - 1);
      HalvedStep(k, Halved(k - 1));
    }
  }

  lemma HalvedStep(k: nat, x: real)
    requires k > 0 && x == ToReal(UnitsAfter(k - 1))
    ensures Fl(x / 2.0) == ToReal(UnitsAfter(k))
  {
    UnitsHalve(k);
    FlHalf(UnitsAfter(k - 1));
  }

  /** And that many units are 1024 / 2^k. */
  lemma PowerTimes(k: nat)
    requires k <= GAP_BITS
    ensures ToReal(Pow2(GAP_BITS - k)) * Pow2(k) as real == 1024.0
  {
    var x, y, gap := Pow2(GAP_BITS - k), Pow2(k), Pow2(GAP_BITS);
    PowersMultiply(k);
    Regroup(x, y, Pow2(SMALLEST) as real);
    assert ToReal(x) * y as real == ToReal(gap);
    GapIs1024();
  }

  lemma PowersMultiply(k: nat)
    requires k <= GAP_BITS
    ensures Pow2(k) * Pow2(GAP_BITS - k) == Pow2(GAP_BITS)
  {
    ShiftShift(1, GAP_BITS - k, k);
    ShiftIsProduct(Pow2(GAP_BITS - k), k);
  }

  lemma Regroup(x: nat, y: nat, p: real)
    requires p > 0.0
    ensures x as real / p * y as real == (y * x) as real / p
  {
  }

  /** How often a run put a track in front of a nonempty playlist, and how often it put one at all. */
  function Halvings(cs: seq<Change>, playlist: string): nat {
    if cs == [] then 0
    else
      var c := cs[|cs| - 1];
      Halvings(cs[..|cs| - 1], playlist)
      + (if c.Puts? && c.playlist == playlist && c.start && Plain(cs[..|cs| - 1], playlist) != [] then 1 else 0)
  }

  function Additions(cs: seq<Change>, playlist: string): nat {
    if cs == [] then 0
    else
      var c := cs[|cs| - 1];
      Additions(cs[..|cs| - 1], playlist) + (if c.Puts? && c.playlist == playlist then 1 else 0)
  }

  /** A position after at most s halvings and n additions. */
  predicate InUnits(x: real, u: nat, s: nat, n: nat) {
    x == ToReal(u) && (s <= GAP_BITS ==> u >= Pow2(GAP_BITS - s)) && u <= Shift(n, GAP_BITS)
  }

  ghost predicate Fits(x: real, s: nat, n: nat) {
    exists u: nat :: Double(u) && InUnits(x, u, s, n)
  }

  ghost predicate AllFit(l: seq<Entry>, s: nat, n: nat) {
    forall e :: e in l ==> Fits(e.position, s, n)
  }

  lemma FitsLonger(x: real, s: nat, n: nat, s2: nat, n2: nat)
    requires Fits(x, s, n) && s <= s2 && n <= n2
    ensures Fits(x, s2, n2)
  {
    var u: nat :| Double(u) && InUnits(x, u, s, n);
    if s2 <= GAP_BITS { ShiftGrows(1, GAP_BITS - s2, GAP_BITS - s); }
    ShiftMono(n, n2, GAP_BITS);
    assert InUnits(x, u, s2, n2);
  }

  lemma FirstFits(s: nat, n: nat)
    requires n >= 1
    ensures Fits(POSITION_GAP, s, n)
  {
    GapIs1024();
    PowersAreDoubles(GAP_BITS);
    if s <= GAP_BITS { ShiftGrows(1, GAP_BITS - s, GAP_BITS); }
    ShiftMono(1, n, GAP_BITS);
    assert InUnits(POSITION_GAP, Pow2(GAP_BITS), s, n);
  }

  lemma HalfFits(x: real, s: nat, n: nat)
    requires Fits(x, s, n) && s <= GAP_BITS
    ensures Fits(Fl(x / 2.0), s + 1, n) && Fl(x / 2.0) < x
  {
    var u: nat :| Double(u) && InUnits(x, u, s, n);
    StartIsInFront(u);
    FlHalf(u);
    var j := if s < GAP_BITS then GAP_BITS - s - 1 else 0;
    Halving(u, j);
    assert InUnits(Fl(x / 2.0), Round(u), s + 1, n);
  }

  /** As long as fewer than 2^53 gaps have been added, one more is not lost. */
  lemma GapRaises(u: nat, n: nat)
    requires Double(u) && u <= Shift(n, GAP_BITS) && n < Pow2(DIGITS)
    ensures var r := Round(2 * (u + Pow2(GAP_BITS)));
            Double(r) && u < r <= Shift(n + 1, GAP_BITS)
  {
    ShiftShift(1, DIGITS, GAP_BITS);
    ShiftMono(n, Pow2(DIGITS), GAP_BITS);
    assert u < Pow2(LIMIT_BITS);
    ShiftSum(n, 1, GAP_BITS);
    DigitsAreDouble(n + 1, GAP_BITS);
    AddingGap(u, Shift(n + 1, GAP_BITS));
  }

  lemma SumFits(x: real, s: nat, n: nat)
    requires Fits(x, s, n) && n < Pow2(DIGITS)
    ensures Fits(Fl(x + 1024.0), s, n + 1) && x < Fl(x + 1024.0)
  {
    var u: nat :| Double(u) && InUnits(x, u, s, n);
    GapRaises(u, n);
    FlGap(u);
    RealOrder(u, Round(2 * (u + Pow2(GAP_BITS))));
    assert InUnits(Fl(x + 1024.0), Round(2 * (u + Pow2(GAP_BITS))), s, n + 1);
  }

  /** What one change adds to the two counts. */
  function Halves(rows: seq<Entry>, c: Change, playlist: string): nat {
    if c.Puts? && c.playlist == playlist && c.start && Listing(rows, playlist) != [] then 1 else 0
  }

  function AddsOne(c: Change, playlist: string): nat {
    if c.Puts? && c.playlist == playlist then 1 else 0
  }

  lemma StartFits(rows: seq<Entry>, playlist: string, s: nat, n: nat)
    requires AllFit(Listing(rows, playlist), s, n) && Listing(rows, playlist) != [] && s <= GAP_BITS
    ensures Fits(Placed(Binary, rows, playlist, true), s + 1, n + 1)
    ensures GoesBefore(Placed(Binary, rows, playlist, true), Listing(rows, playlist))
  {
    var first := Listing(rows, playlist)[0];
    assert first in Listing(rows, playlist);
    HalfFits(first.position, s, n);
    FitsLonger(Fl(first.position / 2.0), s + 1, n, s + 1, n + 1);
  }

  lemma EndFits(rows: seq<Entry>, playlist: string, s: nat, n: nat)
    requires AllFit(Listing(rows, playlist), s, n) && Listing(rows, playlist) != [] && n < Pow2(DIGITS)
    ensures Fits(Placed(Binary, rows, playlist, false), s, n + 1)
    ensures GoesAfter(Placed(Binary, rows, playlist, false), Listing(rows, playlist))
  {
    var last := Listing(rows, playlist)[|Listing(rows, playlist)| - 1];
    HighestIsLast(rows, playlist);
    assert last in Listing(rows, playlist);
    SumFits(last.position, s, n);
  }

  /** A put goes where it should and fits, while the counts allow it. */
  lemma PutFits(rows: seq<Entry>, c: Change, playlist: string, s: nat, n: nat)
    requires c.Puts? && c.playlist == playlist && AllFit(Listing(rows, playlist), s, n)
    requires s + Halves(rows, c, playlist) <= GAP_BITS + 1 && n < Pow2(DIGITS)
    ensures var x := Placed(Binary, rows, playlist, c.start);
            && Fits(x, s + Halves(rows, c, playlist), n + 1)
            && if c.start then GoesBefore(x, Listing(rows, playlist)) else GoesAfter(x, Listing(rows, playlist))
  {
    if Listing(rows, playlist) == [] {
      HighestIsLast(rows, playlist);
      FirstFits(s, n + 1);
    } else if c.start {
      StartFits(rows, playlist, s, n);
    } else {
      EndFits(rows, playlist, s, n);
    }
  }

  lemma StepKeepsFit(rows: seq<Entry>, c: Change, playlist: string, s: nat, n: nat, s2: nat, n2: nat)
    requires AllFit(Listing(rows, playlist), s, n) && s <= s2 && n <= n2
    requires c.Puts? && c.playlist == playlist ==> Fits(Placed(Binary, rows, playlist, c.start), s2, n2)
    ensures AllFit(Listing(After(Binary, rows, c), playlist), s2, n2)
  {
    NewMembers(Binary, rows, c, playlist);
    forall e | e in Listing(After(Binary, rows, c), playlist)
      ensures Fits(e.position, s2, n2)
    {
      if e in Listing(rows, playlist) {
        FitsLonger(e.position, s, n, s2, n2);
      }
    }
  }

  lemma BinaryPutGoesRight(rows: seq<Entry>, c: Change, playlist: string, s: nat, n: nat)
    requires StrictlyAscending(Listing(rows, playlist)) && AllFit(Listing(rows, playlist), s, n)
    requires s + Halves(rows, c, playlist) <= GAP_BITS + 1 && n + AddsOne(c, playlist) <= Pow2(DIGITS)
    ensures PutGoesRight(Binary, rows, c, playlist)
  {
    if c.Puts? && c.playlist == playlist {
      PutFits(rows, c, playlist, s, n);
    }
  }

  lemma BinaryStepFits(rows: seq<Entry>, c: Change, playlist: string, s: nat, n: nat)
    requires AllFit(Listing(rows, playlist), s, n)
    requires s + Halves(rows, c, playlist) <= GAP_BITS + 1 && n + AddsOne(c, playlist) <= Pow2(DIGITS)
    ensures AllFit(Listing(After(Binary, rows, c), playlist), s + Halves(rows, c, playlist), n + AddsOne(c, playlist))
  {
    if c.Puts? && c.playlist == playlist {
      PutFits(rows, c, playlist, s, n);
    }
    StepKeepsFit(rows, c, playlist, s, n, s + Halves(rows, c, playlist), n + AddsOne(c, playlist));
  }

  /** What a run within the bounds keeps. */
  ghost predicate BinaryOk(rows: seq<Entry>, plain: seq<string>, playlist: string, s: nat, n: nat) {
    var l := Listing(rows, playlist);
    StrictlyAscending(l) && Tracks(l) == plain && AllFit(l, s, n)
  }

  lemma BinaryChangeFits(rows: seq<Entry>, plain: seq<string>, c: Change, playlist: string, s: nat, n: nat)
    requires BinaryOk(rows, plain, playlist, s, n)
    requires s + Halves(rows, c, playlist) <= GAP_BITS + 1 && n + AddsOne(c, playlist) <= Pow2(DIGITS)
    ensures BinaryOk(After(Binary, rows, c), PlainAfter(plain, playlist, c), playlist,
                     s + Halves(rows, c, playlist), n + AddsOne(c, playlist))
  {
    BinaryPutGoesRight(rows, c, playlist, s, n);
    BinaryStepFits(rows, c, playlist, s, n);
    ChangeRefines(Binary, rows, c, playlist);
  }

  lemma CountsStep(cs: seq<Change>, rows: seq<Entry>, playlist: string, s: nat, n: nat)
    requires cs != [] && BinaryOk(rows, Plain(cs[..|cs| - 1], playlist), playlist, s, n)
    ensures Halvings(cs, playlist) == Halvings(cs[..|cs| - 1], playlist) + Halves(rows, cs[|cs| - 1], playlist)
    ensures Additions(cs, playlist) == Additions(cs[..|cs| - 1], playlist) + AddsOne(cs[|cs| - 1], playlist)
    ensures Plain(cs, playlist) == PlainAfter(Plain(cs[..|cs| - 1], playlist), playlist, cs[|cs| - 1])
  {
    assert |Tracks(Listing(rows, playlist))| == |Listing(rows, playlist)|;
  }

  lemma {:induction false} BinaryRunFits(cs: seq<Change>, playlist: string)
    requires Halvings(cs, playlist) <= GAP_BITS + 1 && Additions(cs, playlist) <= Pow2(DIGITS)
    ensures BinaryOk(Run(Binary, cs), Plain(cs, playlist), playlist, Halvings(cs, playlist), Additions(cs, playlist))
  {
    if cs == [] {
      NothingFits(Run(Binary, cs), playlist);
    } else {
      var before, c := cs[..|cs| - 1], cs[|cs| - 1];
      BinaryRunFits(before, playlist);
      var s, n := Halvings(before, playlist), Additions(before, playlist);
      CountsStep(cs, Run(Binary, before), playlist, s, n);
      BinaryChangeFits(Run(Binary, before), Plain(before, playlist), c, playlist, s, n);
    }
  }

  lemma NothingFits(rows: seq<Entry>, playlist: string)
    requires rows == []
    ensures BinaryOk(rows, [], playlist, 0, 0)
  {
  }

  /** In binary64, a playlist lists exactly the plain sequence, at distinct positions, after any run with at most 1085
      puts in front of a nonempty playlist and at most 2^53 puts in all; with at most 1084 of the former the positions
      are also positive. */
  lemma BinaryRunRefinesSequence(cs: seq<Change>, playlist: string)
    requires Halvings(cs, playlist) <= GAP_BITS + 1 && Additions(cs, playlist) <= Pow2(DIGITS)
    ensures var l := Listing(Run(Binary, cs), playlist);
            && StrictlyAscending(l) && Tracks(l) == Plain(cs, playlist)
            && (Halvings(cs, playlist) <= GAP_BITS ==> Positive(l))
  {
    BinaryRunFits(cs, playlist);
    if Halvings(cs, playlist) <= GAP_BITS {
      FittingIsPositive(Listing(Run(Binary, cs), playlist), Halvings(cs, playlist), Additions(cs, playlist));
    }
  }

  lemma FittingIsPositive(l: seq<Entry>, s: nat, n: nat)
    requires AllFit(l, s, n) && s <= GAP_BITS
    ensures Positive(l)
  {
    forall e | e in l
      ensures e.position > 0.0
    {
      var u: nat :| Double(u) && InUnits(e.position, u, s, n);
      RealOrder(0, u);
      assert ToReal(0) == 0.0;
    }
  }

  // ----- the first bound is sharp -----

  const ONE_START := Puts("p", "t", true, "", "", 0)

  /** k puts in front of the playlist "p". */
  function Starts(k: nat): seq<Change> {
    if k == 0 then [] else Starts(k - 1) + [ONE_START]
  }

  lemma {:induction false} StartsLength(k: nat)
    ensures |Starts(k)| == k && (k > 0 ==> Starts(k)[..k - 1] == Starts(k - 1) && Starts(k)[k - 1] == ONE_START)
  {
    if k > 0 { StartsLength(k - 1); }
  }

  lemma {:induction false} AdditionsOfStarts(k: nat)
    ensures Additions(Starts(k), "p") == k && |Plain(Starts(k), "p")| == k
  {
    StartsLength(k);
    if k > 0 {
      AdditionsOfStarts(k - 1);
      OneMorePut(Starts(k), "p");
    }
  }

  lemma OneMorePut(cs: seq<Change>, playlist: string)
    requires cs != [] && cs[|cs| - 1].Puts? && cs[|cs| - 1].playlist == playlist
    ensures Additions(cs, playlist) == Additions(cs[..|cs| - 1], playlist) + 1
    ensures |Plain(cs, playlist)| == |Plain(cs[..|cs| - 1], playlist)| + 1
  {
  }

  lemma OneMoreStart(cs: seq<Change>, playlist: string)
    requires cs != [] && cs[|cs| - 1].Puts? && cs[|cs| - 1].playlist == playlist && cs[|cs| - 1].start
    ensures Halvings(cs, playlist)
            == Halvings(cs[..|cs| - 1], playlist) + (if |Plain(cs[..|cs| - 1], playlist)| == 0 then 0 else 1)
  {
  }

  lemma {:induction false} HalvingsOfStarts(k: nat)
    ensures Halvings(Starts(k), "p") == if k == 0 then 0 else k - 1
  {
    StartsLength(k);
    if k > 0 {
      HalvingsOfStarts(k - 1);
      AdditionsOfStarts(k - 1);
      OneMoreStart(Starts(k), "p");
    }
  }

  lemma StartsStep(k: nat)
    requires k > 0
    ensures Listing(Run(Binary, Starts(k)), "p")
            == Insert(NewEntry(Binary, Run(Binary, Starts(k - 1)), ONE_START), Listing(Run(Binary, Starts(k - 1)), "p"))
  {
    StartsLength(k);
    ListingSnoc(Run(Binary, Starts(k - 1)), NewEntry(Binary, Run(Binary, Starts(k - 1)), ONE_START), "p");
  }

  ghost predicate FrontIs(k: nat, u: nat) {
    Listing(Run(Binary, Starts(k)), "p") != [] && Listing(Run(Binary, Starts(k)), "p")[0].position == ToReal(u)
  }

  lemma FrontStep(rows: seq<Entry>, u: nat)
    requires Listing(rows, "p") != [] && Listing(rows, "p")[0].position == ToReal(u) && Double(u) && u > 0
    ensures Insert(NewEntry(Binary, rows, ONE_START), Listing(rows, "p"))[0].position == ToReal(Round(u))
  {
    StartIsInFront(u);
    FlHalf(u);
  }

  lemma FirstFront(rows: seq<Entry>)
    requires Listing(rows, "p") == []
    ensures Insert(NewEntry(Binary, rows, ONE_START), Listing(rows, "p"))[0].position == ToReal(Pow2(GAP_BITS))
  {
    GapIs1024();
  }

  /** While the front position is positive, it is the one halved every time. */
  lemma {:induction false} FrontOfStarts(k: nat)
    requires 1 <= k <= GAP_BITS + 2
    ensures FrontIs(k, UnitsAfter(k - 1))
  {
    StartsStep(k);
    var rows := Run(Binary, Starts(k - 1));
    if k == 1 {
      FirstFront(rows);
    } else {
      FrontOfStarts(k - 1);
      UnitsHalve(k - 1);
      assert UnitsAfter(k - 2) > 0;
      FrontStep(rows, UnitsAfter(k - 2));
    }
  }

  /** One put more than the theorem allows, the 1086th in front of a nonempty playlist, lands on the zero position
      that is taken. */
  lemma OneMoreStartCollides()
    ensures Halvings(Starts(GAP_BITS + 3), "p") == GAP_BITS + 2
    ensures !StrictlyAscending(Listing(Run(Binary, Starts(GAP_BITS + 3)), "p"))
  {
    var k := GAP_BITS + 2;
    HalvingsOfStarts(k + 1);
    FrontOfStarts(k);
    StartsStep(k + 1);
    SameFrontCollides(Run(Binary, Starts(k)), UnitsAfter(k - 1));
  }

  lemma SameFrontCollides(rows: seq<Entry>, u: nat)
    requires Listing(rows, "p") != [] && Listing(rows, "p")[0].position == ToReal(u) && u == 0
    ensures !StrictlyAscending(Insert(NewEntry(Binary, rows, ONE_START), Listing(rows, "p")))
  {
    SameFrontAgain(rows, u);
    InsertEqual(NewEntry(Binary, rows, ONE_START), Listing(rows, "p"));
  }

  lemma SameFrontAgain(rows: seq<Entry>, u: nat)
    requires Listing(rows, "p") != [] && Listing(rows, "p")[0].position == ToReal(u) && u == 0
    ensures NewEntry(Binary, rows, ONE_START).position == Listing(rows, "p")[0].position
  {
    HalfOfZero(u);
  }

  lemma HalfOfZero(u: nat)
    requires u == 0
    ensures Fl(ToReal(u) / 2.0) == ToReal(u)
  {
    HalfOfSmallest(u);
    FlHalf(u);
  }

  lemma InsertEqual(e: Entry, l: seq<Entry>)
    requires l != [] && e.position == l[0].position
    ensures !StrictlyAscending(Insert(e, l))
  {
    InsertMember(e, l[1..], e);
    var k :| 0 <= k < |Insert(e, l[1..])| && Insert(e, l[1..])[k] == e;
    assert Insert(e, l)[0].position == Insert(e, l)[k + 1].position;
  }
}
