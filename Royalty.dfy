/**
 * Report 1, royalties: for every artist, the seconds its songs were played
 * since a cutoff (the last 30 days), with the artist's name; the five
 * largest totals, largest first.
 */
module Royalty {
  import opened Documents
  import opened Stages

  /** A report row: the artist's `_id` (kept by `$project`), its name and its total. */
  datatype RoyaltyRow = RoyaltyRow(id: Id, artist: string, total_play_time_seconds: nat)

  /** `$project: { artist: "$artist_info.name", total_play_time_seconds: "$totalSeconds" }` */
  function ToRoyaltyRow(j: ((Id, nat), Artist)): RoyaltyRow
  {
    RoyaltyRow(j.0.0, j.1.name, j.0.1)
  }

  function PlayTime(r: RoyaltyRow): int { r.total_play_time_seconds }

  /**
   * The pipeline up to and including `$project`: one row per named artist
   * with recent plays. Every row is named after an artist document with its
   * `_id`, so an `artist_id` without one produces no row.
   */
  function RoyaltyRows(streams: seq<Stream>, artists: seq<Artist>, lastMonth: Date): (rows: seq<RoyaltyRow>)
    ensures forall r :: r in rows ==> exists a :: a in artists && a.id == r.id && a.name == r.artist
  {
    var recent := Match(streams, PlayedSince(lastMonth));
    var totals := Group(recent, StreamArtist, SumOf(Seconds));
    var named := Unwind(Lookup(totals, artists, GroupKey, ArtistKey));
    assert forall r :: r in Project(named, ToRoyaltyRow) ==> exists a :: a in artists && a.id == r.id && a.name == r.artist by {
      forall r | r in Project(named, ToRoyaltyRow) ensures exists a :: a in artists && a.id == r.id && a.name == r.artist {
        ProjectMembers(named, ToRoyaltyRow, r);
        var pr :| pr in named && r == ToRoyaltyRow(pr);
        JoinMembers(totals, artists, GroupKey, ArtistKey, pr);
      }
    }
    Project(named, ToRoyaltyRow)
  }

  /** The whole report: `$sort: { total_play_time_seconds: -1 }` then `$limit: 5`. */
  function Royalties(streams: seq<Stream>, artists: seq<Artist>, lastMonth: Date): (rows: seq<RoyaltyRow>)
    ensures |rows| <= 5
    ensures NonIncreasing(rows, PlayTime)
  {
    TopK(RoyaltyRows(streams, artists, lastMonth), PlayTime, 5);
    Limit(SortDesc(RoyaltyRows(streams, artists, lastMonth), PlayTime), 5)
  }

  /** Seconds played of artist `aid` at or after `cutoff`, added up stream by stream. */
  function PlayTimeSince(streams: seq<Stream>, aid: Id, cutoff: Date): nat
  {
    if streams == [] then 0
    else
      (if streams[0].artist_id == aid && streams[0].date >= cutoff then streams[0].seconds_played else 0)
      + PlayTimeSince(streams[1..], aid, cutoff)
  }

  /** The `$sum` that `$group` computes for an artist is that artist's recent play time. */
  lemma {:induction false} GroupTotal(streams: seq<Stream>, aid: Id, cutoff: Date)
    ensures Sum(Match(Match(streams, PlayedSince(cutoff)), KeyIs(StreamArtist, aid)), Seconds)
         == PlayTimeSince(streams, aid, cutoff)
  {
    if streams != [] {
      var st, rest := streams[0], streams[1..];
      var head := if PlayedSince(cutoff)(st) then [st] else [];
      var recentRest := Match(rest, PlayedSince(cutoff));
      assert Match(streams, PlayedSince(cutoff)) == head + recentRest;
      MatchAppend(head, recentRest, KeyIs(StreamArtist, aid));
      SumAppend(Match(head, KeyIs(StreamArtist, aid)), Match(recentRest, KeyIs(StreamArtist, aid)), Seconds);
      GroupTotal(rest, aid, cutoff);
      if head != [] {
        assert head[1..] == [];
      }
    }
  }

  /** Every row before sorting is a named artist with recent plays, carrying its recent play time. */
  lemma RoyaltyRowSound(streams: seq<Stream>, artists: seq<Artist>, lastMonth: Date, r: RoyaltyRow)
    requires r in RoyaltyRows(streams, artists, lastMonth)
    ensures r.total_play_time_seconds == PlayTimeSince(streams, r.id, lastMonth)
    ensures exists a :: a in artists && a.id == r.id && a.name == r.artist
    ensures exists st :: st in streams && st.artist_id == r.id && st.date >= lastMonth
  {
    var recent := Match(streams, PlayedSince(lastMonth));
    var totals := Group(recent, StreamArtist, SumOf(Seconds));
    var named := Unwind(Lookup(totals, artists, GroupKey, ArtistKey));
    ProjectMembers(named, ToRoyaltyRow, r);
    var j :| j in named && r == ToRoyaltyRow(j);
    JoinMembers(totals, artists, GroupKey, ArtistKey, j);
    GroupAggregate(recent, StreamArtist, SumOf(Seconds), j.0);
    var x :| x in Match(recent, KeyIs(StreamArtist, r.id));
    GroupTotal(streams, r.id, lastMonth);
  }

  /** An artist with a document and recent plays has a row before sorting. */
  lemma RoyaltyRowComplete(streams: seq<Stream>, artists: seq<Artist>, lastMonth: Date, a: Artist, st: Stream)
    requires a in artists && st in streams && st.artist_id == a.id && st.date >= lastMonth
    ensures RoyaltyRow(a.id, a.name, PlayTimeSince(streams, a.id, lastMonth)) in RoyaltyRows(streams, artists, lastMonth)
  {
    var recent := Match(streams, PlayedSince(lastMonth));
    var totals := Group(recent, StreamArtist, SumOf(Seconds));
    var named := Unwind(Lookup(totals, artists, GroupKey, ArtistKey));
    assert st in recent;
    var row := GroupRowWith(recent, StreamArtist, SumOf(Seconds), st);
    GroupAggregate(recent, StreamArtist, SumOf(Seconds), row);
    GroupTotal(streams, a.id, lastMonth);
    var total := PlayTimeSince(streams, a.id, lastMonth);
    var j := ((a.id, total), a);
    assert j.0 == row;
    JoinMembers(totals, artists, GroupKey, ArtistKey, j);
    assert j in named;
    ProjectIncludes(named, ToRoyaltyRow, j);
  }

  /**
   * Every returned row is an artist that has a document and was played since
   * `lastMonth`, and its total is exactly the seconds played since then; an
   * `artist_id` without an artist document never produces a row.
   */
  lemma RoyaltyTotals(streams: seq<Stream>, artists: seq<Artist>, lastMonth: Date)
    ensures forall r :: r in Royalties(streams, artists, lastMonth) ==>
      && r.total_play_time_seconds == PlayTimeSince(streams, r.id, lastMonth)
      && (exists a :: a in artists && a.id == r.id && a.name == r.artist)
      && (exists st :: st in streams && st.artist_id == r.id && st.date >= lastMonth)
  {
    var rows := RoyaltyRows(streams, artists, lastMonth);
    var result := Royalties(streams, artists, lastMonth);
    TopK(rows, PlayTime, 5);
    forall r | r in result
      ensures r.total_play_time_seconds == PlayTimeSince(streams, r.id, lastMonth)
      ensures exists a :: a in artists && a.id == r.id && a.name == r.artist
      ensures exists st :: st in streams && st.artist_id == r.id && st.date >= lastMonth
    {
      assert r in multiset(result);
      RoyaltyRowSound(streams, artists, lastMonth, r);
    }
  }

  /**
   * The five largest totals are returned: a named artist with recent plays
   * is in the report, or five rows were returned and none of them has a
   * smaller total than this artist's.
   */
  lemma RoyaltyTop5(streams: seq<Stream>, artists: seq<Artist>, lastMonth: Date, a: Artist, st: Stream)
    requires a in artists && st in streams && st.artist_id == a.id && st.date >= lastMonth
    ensures var row := RoyaltyRow(a.id, a.name, PlayTimeSince(streams, a.id, lastMonth));
      var result := Royalties(streams, artists, lastMonth);
      row in result || (|result| == 5 && forall r :: r in result ==> row.total_play_time_seconds <= r.total_play_time_seconds)
  {
    var row := RoyaltyRow(a.id, a.name, PlayTimeSince(streams, a.id, lastMonth));
    RoyaltyRowComplete(streams, artists, lastMonth, a, st);
    TopKCandidate(RoyaltyRows(streams, artists, lastMonth), PlayTime, 5, row);
  }

  /** One play of 120 seconds ten days ago by artist "A" gives exactly one row. */
  lemma RoyaltyOnePlay()
    ensures Royalties([Stream(-10, 1, 1, 7, 120)], [Artist(7, "A")], -30) == [RoyaltyRow(7, "A", 120)]
  {
    var row := RoyaltyRow(7, "A", 120);
    OnePlayRows();
    assert SortDesc([row], PlayTime) == [row] by {
      assert [row][1..] == [];
    }
  }

  lemma OnePlayRows()
    ensures RoyaltyRows([Stream(-10, 1, 1, 7, 120)], [Artist(7, "A")], -30) == [RoyaltyRow(7, "A", 120)]
  {
    var streams := [Stream(-10, 1, 1, 7, 120)];
    var artists := [Artist(7, "A")];
    assert Match(streams, PlayedSince(-30)) == streams;
    OnePlayTotals(streams);
    OnePlayNamed(artists);
    var named := [((7, 120), Artist(7, "A"))];
    assert Project(named, ToRoyaltyRow) == [RoyaltyRow(7, "A", 120)];
    assert Group(Match(streams, PlayedSince(-30)), StreamArtist, SumOf(Seconds)) == [(7, 120)];
    assert Unwind(Lookup(Group(Match(streams, PlayedSince(-30)), StreamArtist, SumOf(Seconds)), artists, GroupKey, ArtistKey)) == named;
  }

  lemma OnePlayTotals(streams: seq<Stream>)
    requires streams == [Stream(-10, 1, 1, 7, 120)]
    ensures Group(streams, StreamArtist, SumOf(Seconds)) == [(7, 120)]
  {
    assert DistinctKeys(streams, StreamArtist) == [7] by {
      assert streams[..0] == [];
    }
    assert Match(streams, KeyIs(StreamArtist, 7)) == streams;
    assert Sum(streams, Seconds) == 120 by {
      assert streams[1..] == [];
    }
    var g := Group(streams, StreamArtist, SumOf(Seconds));
    assert |g| == 1 && g[0] == GroupOf(streams, StreamArtist, SumOf(Seconds))(7);
  }

  lemma OnePlayNamed(artists: seq<Artist>)
    requires artists == [Artist(7, "A")]
    ensures Unwind(Lookup([(7, 120)], artists, GroupKey, ArtistKey)) == [((7, 120), Artist(7, "A"))]
  {
    assert Match(artists, KeyIs(ArtistKey, 7)) == artists;
    LookupOne((7, 120), artists, GroupKey, ArtistKey);
  }
}
