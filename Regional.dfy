/**
 * Report 2, the regional chart: the songs most played since a cutoff (the
 * last 7 days) by users whose country is "GT", ten at most, most played
 * first.
 */
module Regional {
  import opened Documents
  import opened Stages

  /** A report row: the song's `_id` (kept by `$project`), title, artist and play count. */
  datatype RegionalRow = RegionalRow(id: Id, song: string, artist: string, streams: nat)

  /** The `$match` on `user_info.country`. */
  function FromCountry(country: string): User -> bool
  {
    (u: User) => u.country == country
  }

  function PairSong(pr: (Stream, User)): Id { pr.0.song_id }

  /** `$project: { song: "$song_info.title", artist: "$song_info.artist_name", streams: 1 }` */
  function ToRegionalRow(j: ((Id, nat), Song)): RegionalRow
  {
    RegionalRow(j.0.0, j.1.title, j.1.artist_name, j.0.1)
  }

  function PlayCount(r: RegionalRow): int { r.streams }

  /**
   * The pipeline up to the `$group`: recent plays joined with their user,
   * kept when the user is in GT. Every pair is a recent stream of the
   * collection with a GT user document whose `_id` is the stream's `user_id`.
   */
  function LocalPlays(streams: seq<Stream>, users: seq<User>, lastWeek: Date): (plays: seq<(Stream, User)>)
    ensures forall pr :: pr in plays ==>
      && pr.0 in streams && pr.0.date >= lastWeek
      && pr.1 in users && pr.1.id == pr.0.user_id && pr.1.country == "GT"
  {
    var recent := Match(streams, PlayedSince(lastWeek));
    var withUser := Unwind(Lookup(recent, users, StreamUser, UserKey));
    assert forall pr :: pr in withUser ==> pr.0 in recent && pr.1 in users && pr.1.id == pr.0.user_id by {
      forall pr | pr in withUser ensures pr.0 in recent && pr.1 in users && pr.1.id == pr.0.user_id {
        JoinMembers(recent, users, StreamUser, UserKey, pr);
      }
    }
    Match(withUser, OnForeign(FromCountry("GT")))
  }

  /**
   * The pipeline up to and including `$project`. Every row carries the title
   * and artist of a song document with its `_id`, so a `song_id` without one
   * produces no row.
   */
  function RegionalRows(streams: seq<Stream>, users: seq<User>, songs: seq<Song>, lastWeek: Date): (rows: seq<RegionalRow>)
    ensures forall r :: r in rows ==> exists s :: s in songs && s.id == r.id && s.title == r.song && s.artist_name == r.artist
  {
    var counts := Group(LocalPlays(streams, users, lastWeek), PairSong, CountOf());
    var named := Unwind(Lookup(counts, songs, GroupKey, SongKey));
    assert forall r :: r in Project(named, ToRegionalRow) ==> exists s :: s in songs && s.id == r.id && s.title == r.song && s.artist_name == r.artist by {
      forall r | r in Project(named, ToRegionalRow) ensures exists s :: s in songs && s.id == r.id && s.title == r.song && s.artist_name == r.artist {
        ProjectMembers(named, ToRegionalRow, r);
        var pr :| pr in named && r == ToRegionalRow(pr);
        JoinMembers(counts, songs, GroupKey, SongKey, pr);
      }
    }
    Project(named, ToRegionalRow)
  }

  /** The whole report: `$sort: { streams: -1 }` then `$limit: 10`. */
  function TopRegional(streams: seq<Stream>, users: seq<User>, songs: seq<Song>, lastWeek: Date): (rows: seq<RegionalRow>)
    ensures |rows| <= 10
    ensures NonIncreasing(rows, PlayCount)
  {
    TopK(RegionalRows(streams, users, songs, lastWeek), PlayCount, 10);
    Limit(SortDesc(RegionalRows(streams, users, songs, lastWeek), PlayCount), 10)
  }

  /**
   * The number of GT plays of song `sid` since `cutoff`, counted stream by
   * stream: a stream counts once for every user document with its
   * `user_id` whose country is "GT" (once, when `_id`s are unique).
   */
  function GTPlays(streams: seq<Stream>, users: seq<User>, cutoff: Date, sid: Id): nat
  {
    if streams == [] then 0
    else
      var st := streams[0];
      (if st.date >= cutoff && st.song_id == sid
       then |Match(Match(users, KeyIs(UserKey, st.user_id)), FromCountry("GT"))| else 0)
      + GTPlays(streams[1..], users, cutoff, sid)
  }

  /** A play of song sid since cutoff by a user who has a document with country "GT". */
  function GTPlayOf(users: seq<User>, cutoff: Date, sid: Id): Stream -> bool
  {
    (st: Stream) => st.date >= cutoff && st.song_id == sid
                 && exists u :: u in users && u.id == st.user_id && u.country == "GT"
  }

  /** With unique user `_id`s (as MongoDB enforces), every qualifying play counts exactly once. */
  lemma {:induction false} GTPlaysUnique(streams: seq<Stream>, users: seq<User>, cutoff: Date, sid: Id)
    requires UniqueKeys(users, UserKey)
    ensures GTPlays(streams, users, cutoff, sid) == |Match(streams, GTPlayOf(users, cutoff, sid))|
  {
    if streams != [] {
      var st := streams[0];
      GTPlaysUnique(streams[1..], users, cutoff, sid);
      var hits := Match(Match(users, KeyIs(UserKey, st.user_id)), FromCountry("GT"));
      UniqueKeysMatch(users, UserKey, st.user_id);
      if hits != [] {
        assert hits[0] in hits;
      }
      if GTPlayOf(users, cutoff, sid)(st) {
        var u :| u in users && u.id == st.user_id && u.country == "GT";
        assert u in hits;
      }
    }
  }

  /** One stream's part of the `$count` for song `sid`. */
  lemma LocalPlaysOne(st: Stream, users: seq<User>, cutoff: Date, sid: Id)
    ensures |Match(LocalPlays([st], users, cutoff), KeyIs(PairSong, sid))|
         == if st.date >= cutoff && st.song_id == sid
            then |Match(Match(users, KeyIs(UserKey, st.user_id)), FromCountry("GT"))| else 0
  {
    if st.date >= cutoff {
      var gt := Match(Match(users, KeyIs(UserKey, st.user_id)), FromCountry("GT"));
      LocalPlaysRecent(st, users, cutoff);
      var q := KeyIs(PairSong, sid);
      assert forall y :: q((st, y)) == (st.song_id == sid);
      MatchAttachLocal(st, gt, q);
      if st.song_id == sid {
        assert Match(Attach(st, gt), q) == Attach(st, gt);
      } else {
        assert Match(Attach(st, gt), q) == [];
      }
    } else {
      LocalPlaysOld(st, users, cutoff);
    }
  }

  lemma LocalPlaysOld(st: Stream, users: seq<User>, cutoff: Date)
    requires st.date < cutoff
    ensures LocalPlays([st], users, cutoff) == []
  {
    assert Match([st], PlayedSince(cutoff)) == [];
    assert Lookup([], users, StreamUser, UserKey) == [];
  }

  /** A recent stream is paired with each of its user documents from GT. */
  lemma LocalPlaysRecent(st: Stream, users: seq<User>, cutoff: Date)
    requires st.date >= cutoff
    ensures LocalPlays([st], users, cutoff) == Attach(st, Match(Match(users, KeyIs(UserKey, st.user_id)), FromCountry("GT")))
  {
    assert Match([st], PlayedSince(cutoff)) == [st];
    LookupOne(st, users, StreamUser, UserKey);
    MatchAttachForeign(st, Match(users, KeyIs(UserKey, st.user_id)), FromCountry("GT"));
  }

  /** The `$count` that `$group` computes for a song is its number of GT plays. */
  lemma {:induction false} GroupCount(streams: seq<Stream>, users: seq<User>, cutoff: Date, sid: Id)
    ensures |Match(LocalPlays(streams, users, cutoff), KeyIs(PairSong, sid))| == GTPlays(streams, users, cutoff, sid)
  {
    if streams != [] {
      var st, rest := streams[0], streams[1..];
      assert streams == [st] + rest;
      var p := PlayedSince(cutoff);
      MatchAppend([st], rest, p);
      LookupAppend(Match([st], p), Match(rest, p), users, StreamUser, UserKey);
      UnwindAppend(Lookup(Match([st], p), users, StreamUser, UserKey), Lookup(Match(rest, p), users, StreamUser, UserKey));
      MatchAppend(Unwind(Lookup(Match([st], p), users, StreamUser, UserKey)),
                  Unwind(Lookup(Match(rest, p), users, StreamUser, UserKey)), OnForeign(FromCountry("GT")));
      assert LocalPlays(streams, users, cutoff) == LocalPlays([st], users, cutoff) + LocalPlays(rest, users, cutoff);
      MatchAppend(LocalPlays([st], users, cutoff), LocalPlays(rest, users, cutoff), KeyIs(PairSong, sid));
      LocalPlaysOne(st, users, cutoff, sid);
      GroupCount(rest, users, cutoff, sid);
    }
  }

  /** Every row before sorting is a song with a document and GT plays, carrying its GT play count. */
  lemma RegionalRowSound(streams: seq<Stream>, users: seq<User>, songs: seq<Song>, lastWeek: Date, r: RegionalRow)
    requires r in RegionalRows(streams, users, songs, lastWeek)
    ensures r.streams == GTPlays(streams, users, lastWeek, r.id) && r.streams > 0
    ensures exists s :: s in songs && s.id == r.id && s.title == r.song && s.artist_name == r.artist
  {
    var plays := LocalPlays(streams, users, lastWeek);
    var counts := Group(plays, PairSong, CountOf());
    var named := Unwind(Lookup(counts, songs, GroupKey, SongKey));
    ProjectMembers(named, ToRegionalRow, r);
    var j :| j in named && r == ToRegionalRow(j);
    JoinMembers(counts, songs, GroupKey, SongKey, j);
    GroupAggregate(plays, PairSong, CountOf(), j.0);
    GroupCount(streams, users, lastWeek, r.id);
  }

  /** A song with a document and GT plays has a row before sorting. */
  lemma RegionalRowComplete(streams: seq<Stream>, users: seq<User>, songs: seq<Song>, lastWeek: Date, s: Song)
    requires s in songs && GTPlays(streams, users, lastWeek, s.id) > 0
    ensures RegionalRow(s.id, s.title, s.artist_name, GTPlays(streams, users, lastWeek, s.id))
            in RegionalRows(streams, users, songs, lastWeek)
  {
    var plays := LocalPlays(streams, users, lastWeek);
    var counts := Group(plays, PairSong, CountOf());
    var named := Unwind(Lookup(counts, songs, GroupKey, SongKey));
    var n := GTPlays(streams, users, lastWeek, s.id);
    GroupCount(streams, users, lastWeek, s.id);
    var ofSong := Match(plays, KeyIs(PairSong, s.id));
    assert ofSong[0] in ofSong;
    var row := GroupRowWith(plays, PairSong, CountOf(), ofSong[0]);
    GroupAggregate(plays, PairSong, CountOf(), row);
    var j := ((s.id, n), s);
    assert j.0 == row;
    JoinMembers(counts, songs, GroupKey, SongKey, j);
    ProjectIncludes(named, ToRegionalRow, j);
  }

  /**
   * Every returned row is a song that has a document, and its `streams` is
   * exactly its number of GT plays since `lastWeek`, which is at least one;
   * a `song_id` without a song document never produces a row.
   */
  lemma RegionalCounts(streams: seq<Stream>, users: seq<User>, songs: seq<Song>, lastWeek: Date)
    ensures forall r :: r in TopRegional(streams, users, songs, lastWeek) ==>
      && r.streams == GTPlays(streams, users, lastWeek, r.id) && r.streams > 0
      && exists s :: s in songs && s.id == r.id && s.title == r.song && s.artist_name == r.artist
  {
    var rows := RegionalRows(streams, users, songs, lastWeek);
    var result := TopRegional(streams, users, songs, lastWeek);
    TopK(rows, PlayCount, 10);
    forall r | r in result
      ensures r.streams == GTPlays(streams, users, lastWeek, r.id) && r.streams > 0
      ensures exists s :: s in songs && s.id == r.id && s.title == r.song && s.artist_name == r.artist
    {
      assert r in multiset(result);
      RegionalRowSound(streams, users, songs, lastWeek, r);
    }
  }

  /**
   * The ten most played songs are returned: a song with a document and GT
   * plays is in the chart, or ten rows were returned and none of them has
   * fewer plays than this song.
   */
  lemma RegionalTop10(streams: seq<Stream>, users: seq<User>, songs: seq<Song>, lastWeek: Date, s: Song)
    requires s in songs && GTPlays(streams, users, lastWeek, s.id) > 0
    ensures var row := RegionalRow(s.id, s.title, s.artist_name, GTPlays(streams, users, lastWeek, s.id));
      var result := TopRegional(streams, users, songs, lastWeek);
      row in result || (|result| == 10 && forall r :: r in result ==> row.streams <= r.streams)
  {
    var row := RegionalRow(s.id, s.title, s.artist_name, GTPlays(streams, users, lastWeek, s.id));
    RegionalRowComplete(streams, users, songs, lastWeek, s);
    TopKCandidate(RegionalRows(streams, users, songs, lastWeek), PlayCount, 10, row);
  }
}
