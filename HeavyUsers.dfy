/**
 * Report 5, heavy users of an artist: for every user, the number of
 * distinct Bad Bunny songs they played; the five users with the most, with
 * their usernames.
 */
module HeavyUsers {
  import opened Documents
  import opened Stages

  /** The row after `$group` and `$project`: the user's `_id` and the number of distinct songs. */
  datatype SongCount = SongCount(id: Id, unique_songs_count: nat)

  /** A report row: the user's `_id`, username and number of distinct songs. */
  datatype HeavyRow = HeavyRow(id: Id, username: string, unique_bad_bunny_songs: nat)

  /** `$match: { "artist.name": "Bad Bunny" }` */
  function IsBadBunny(a: Artist): bool { a.name == "Bad Bunny" }

  function PlayUser(pr: (Stream, Artist)): Id { pr.0.user_id }
  function PlaySong(pr: (Stream, Artist)): Id { pr.0.song_id }

  /** `$lookup` of the artist, `$unwind`, then `$match` on the artist's name. */
  function BadBunnyPlays(streams: seq<Stream>, artists: seq<Artist>): seq<(Stream, Artist)>
  {
    Match(Unwind(Lookup(streams, artists, StreamArtist, ArtistKey)), OnForeign(IsBadBunny))
  }

  /** `$project: { unique_songs_count: { $size: "$uniqueSongs" } }` */
  function ToSongCount(g: (Id, set<Id>)): SongCount { SongCount(g.0, |g.1|) }

  /**
   * `$group` by `user_id` with `$addToSet` of `song_id`, then the size of
   * each set: one row per user, no user twice.
   */
  function SongCounts(streams: seq<Stream>, artists: seq<Artist>): (counts: seq<SongCount>)
    ensures forall i, j :: 0 <= i < j < |counts| ==> counts[i].id != counts[j].id
  {
    Project(Group(BadBunnyPlays(streams, artists), PlayUser, AddToSet(PlaySong)), ToSongCount)
  }

  function UniqueSongs(c: SongCount): int { c.unique_songs_count }

  /** `$sort: { unique_songs_count: -1 }` then `$limit: 5`. */
  function TopListeners(streams: seq<Stream>, artists: seq<Artist>): (top: seq<SongCount>)
    ensures |top| <= 5
    ensures NonIncreasing(top, UniqueSongs)
  {
    TopK(SongCounts(streams, artists), UniqueSongs, 5);
    Limit(SortDesc(SongCounts(streams, artists), UniqueSongs), 5)
  }

  function CountId(c: SongCount): Id { c.id }

  /** `$project: { username: "$user_data.username", unique_bad_bunny_songs: "$unique_songs_count" }` */
  function ToHeavyRow(pr: (SongCount, User)): HeavyRow
  {
    HeavyRow(pr.0.id, pr.1.username, pr.0.unique_songs_count)
  }

  /**
   * `$lookup` of the user, `$unwind`, then the final `$project`: every row
   * carries the username of a user document with its `_id`.
   */
  function NamedRows(top: seq<SongCount>, users: seq<User>): (rows: seq<HeavyRow>)
    ensures forall r :: r in rows ==> exists u :: u in users && u.id == r.id && u.username == r.username
  {
    var named := Unwind(Lookup(top, users, CountId, UserKey));
    assert forall r :: r in Project(named, ToHeavyRow) ==> exists u :: u in users && u.id == r.id && u.username == r.username by {
      forall r | r in Project(named, ToHeavyRow) ensures exists u :: u in users && u.id == r.id && u.username == r.username {
        ProjectMembers(named, ToHeavyRow, r);
        var pr :| pr in named && r == ToHeavyRow(pr);
        JoinMembers(top, users, CountId, UserKey, pr);
      }
    }
    Project(named, ToHeavyRow)
  }

  /** The whole report, in non-increasing order of the distinct-song counts. */
  function HeavyUsers(streams: seq<Stream>, artists: seq<Artist>, users: seq<User>): (rows: seq<HeavyRow>)
    ensures NonIncreasing(rows, HeavyCount)
  {
    NamedRowsInOrder(TopListeners(streams, artists), users);
    NamedRows(TopListeners(streams, artists), users)
  }

  function HeavyCount(r: HeavyRow): int { r.unique_bad_bunny_songs }

  // ---------------------------------------------------------------------
  // Reference definitions
  // ---------------------------------------------------------------------

  /** A play by user uid of a song by an artist named "Bad Bunny". */
  function BadBunnyPlayBy(artists: seq<Artist>, uid: Id): Stream -> bool
  {
    (st: Stream) => st.user_id == uid && exists a :: a in artists && a.id == st.artist_id && IsBadBunny(a)
  }

  /** User uid's plays of Bad Bunny songs. */
  function BadBunnyStreams(streams: seq<Stream>, artists: seq<Artist>, uid: Id): seq<Stream>
  {
    Match(streams, BadBunnyPlayBy(artists, uid))
  }

  /** The distinct songs among user uid's plays of Bad Bunny songs. */
  function BadBunnySongs(streams: seq<Stream>, artists: seq<Artist>, uid: Id): set<Id>
  {
    set st | st in BadBunnyStreams(streams, artists, uid) :: st.song_id
  }

  // ---------------------------------------------------------------------
  // The distinct-song count
  // ---------------------------------------------------------------------

  /** The `$addToSet` of a user's group is the set of distinct Bad Bunny songs they played. */
  lemma GroupSongSet(streams: seq<Stream>, artists: seq<Artist>, uid: Id)
    ensures ToSet(Match(BadBunnyPlays(streams, artists), KeyIs(PlayUser, uid)), PlaySong)
         == BadBunnySongs(streams, artists, uid)
  {
    var plays := BadBunnyPlays(streams, artists);
    var mine := Match(plays, KeyIs(PlayUser, uid));
    var lhs := ToSet(mine, PlaySong);
    var rhs := BadBunnySongs(streams, artists, uid);
    forall v | v in lhs ensures v in rhs {
      var pr :| pr in mine && PlaySong(pr) == v;
      MinePlayIsBadBunny(streams, artists, uid, pr);
    }
    forall v | v in rhs ensures v in lhs {
      var st :| st in BadBunnyStreams(streams, artists, uid) && st.song_id == v;
      var a := BadBunnyPlayOf(streams, artists, uid, st);
      assert (st, a) in mine;
    }
  }

  /** A joined Bad Bunny play is a stream whose artist has a Bad Bunny document. */
  lemma PlayIsBadBunny(streams: seq<Stream>, artists: seq<Artist>, pr: (Stream, Artist))
    requires pr in BadBunnyPlays(streams, artists)
    ensures pr.0 in streams && BadBunnyPlayBy(artists, pr.0.user_id)(pr.0)
  {
    var joined := Unwind(Lookup(streams, artists, StreamArtist, ArtistKey));
    assert pr in joined && IsBadBunny(pr.1);
    JoinMembers(streams, artists, StreamArtist, ArtistKey, pr);
    assert pr.1 in artists && pr.1.id == pr.0.artist_id;
  }

  lemma MinePlayIsBadBunny(streams: seq<Stream>, artists: seq<Artist>, uid: Id, pr: (Stream, Artist))
    requires pr in Match(BadBunnyPlays(streams, artists), KeyIs(PlayUser, uid))
    ensures pr.0 in BadBunnyStreams(streams, artists, uid)
  {
    assert KeyIs(PlayUser, uid)(pr);
    PlayIsBadBunny(streams, artists, pr);
  }

  /** A Bad Bunny play of the user, joined with its artist document. */
  lemma BadBunnyPlayOf(streams: seq<Stream>, artists: seq<Artist>, uid: Id, st: Stream) returns (a: Artist)
    requires st in streams && BadBunnyPlayBy(artists, uid)(st)
    ensures (st, a) in Match(BadBunnyPlays(streams, artists), KeyIs(PlayUser, uid))
  {
    a :| a in artists && a.id == st.artist_id && IsBadBunny(a);
    JoinMembers(streams, artists, StreamArtist, ArtistKey, (st, a));
    var joined := Unwind(Lookup(streams, artists, StreamArtist, ArtistKey));
    assert (st, a) in joined;
    assert OnForeign(IsBadBunny)((st, a));
    assert (st, a) in BadBunnyPlays(streams, artists);
    assert st.user_id == uid;
    assert PlayUser((st, a)) == uid;
    assert KeyIs(PlayUser, uid)((st, a));
  }

  /**
   * Every row after `$group` is a user with at least one Bad Bunny play, and
   * its count is the number of distinct Bad Bunny songs that user played.
   */
  lemma SongCountSound(streams: seq<Stream>, artists: seq<Artist>, c: SongCount)
    requires c in SongCounts(streams, artists)
    ensures c.unique_songs_count == |BadBunnySongs(streams, artists, c.id)| > 0
  {
    var groups := Group(BadBunnyPlays(streams, artists), PlayUser, AddToSet(PlaySong));
    ProjectMembers(groups, ToSongCount, c);
    var g :| g in groups && c == ToSongCount(g);
    GroupSongRow(streams, artists, g);
  }

  /** A `$group` row holds its user's distinct Bad Bunny songs, at least one. */
  lemma GroupSongRow(streams: seq<Stream>, artists: seq<Artist>, g: (Id, set<Id>))
    requires g in Group(BadBunnyPlays(streams, artists), PlayUser, AddToSet(PlaySong))
    ensures g.1 == BadBunnySongs(streams, artists, g.0) && |g.1| > 0
  {
    var plays := BadBunnyPlays(streams, artists);
    var mine := Match(plays, KeyIs(PlayUser, g.0));
    GroupAggregate(plays, PlayUser, AddToSet(PlaySong), g);
    AddToSetApply(PlaySong, mine);
    GroupSongSet(streams, artists, g.0);
    var x :| x in mine;
    ToSetIncludes(mine, PlaySong, x);
  }

  /** A user with a Bad Bunny play has a row after `$group`. */
  lemma SongCountComplete(streams: seq<Stream>, artists: seq<Artist>, st: Stream)
    requires st in streams && BadBunnyPlayBy(artists, st.user_id)(st)
    ensures SongCount(st.user_id, |BadBunnySongs(streams, artists, st.user_id)|) in SongCounts(streams, artists)
  {
    var uid := st.user_id;
    var plays := BadBunnyPlays(streams, artists);
    var groups := Group(plays, PlayUser, AddToSet(PlaySong));
    var a :| a in artists && a.id == st.artist_id && IsBadBunny(a);
    JoinMembers(streams, artists, StreamArtist, ArtistKey, (st, a));
    assert (st, a) in plays;
    var i :| 0 <= i < |groups| && groups[i].0 == uid;
    var mine := Match(plays, KeyIs(PlayUser, uid));
    GroupAggregate(plays, PlayUser, AddToSet(PlaySong), groups[i]);
    GroupSongSet(streams, artists, uid);
    assert groups[i].1 == BadBunnySongs(streams, artists, uid);
    ProjectIncludes(groups, ToSongCount, groups[i]);
  }

  /** A user's count is at most the number of their Bad Bunny plays. */
  lemma SongCountBound(streams: seq<Stream>, artists: seq<Artist>, uid: Id)
    ensures |BadBunnySongs(streams, artists, uid)| <= |BadBunnyStreams(streams, artists, uid)|
  {
    var mine := BadBunnyStreams(streams, artists, uid);
    assert ToSet(mine, StreamSong) == BadBunnySongs(streams, artists, uid);
  }

  /** Playing again a Bad Bunny song the user already played leaves the count unchanged. */
  lemma RepeatListen(streams: seq<Stream>, artists: seq<Artist>, uid: Id, st: Stream)
    requires BadBunnyPlayBy(artists, uid)(st) ==> st.song_id in BadBunnySongs(streams, artists, uid)
    ensures BadBunnySongs(streams + [st], artists, uid) == BadBunnySongs(streams, artists, uid)
  {
    MatchAppend(streams, [st], BadBunnyPlayBy(artists, uid));
  }

  // ---------------------------------------------------------------------
  // The report
  // ---------------------------------------------------------------------

  /**
   * Every returned row is a user with a user document and at least one Bad
   * Bunny play, and carries that user's username and number of distinct
   * Bad Bunny songs.
   */
  lemma HeavySound(streams: seq<Stream>, artists: seq<Artist>, users: seq<User>)
    ensures forall r :: r in HeavyUsers(streams, artists, users) ==>
      && r.unique_bad_bunny_songs == |BadBunnySongs(streams, artists, r.id)| > 0
      && exists u :: u in users && u.id == r.id && u.username == r.username
  {
    var top := TopListeners(streams, artists);
    var named := Unwind(Lookup(top, users, CountId, UserKey));
    TopK(SongCounts(streams, artists), UniqueSongs, 5);
    forall r | r in HeavyUsers(streams, artists, users)
      ensures r.unique_bad_bunny_songs == |BadBunnySongs(streams, artists, r.id)| > 0
      ensures exists u :: u in users && u.id == r.id && u.username == r.username
    {
      ProjectMembers(named, ToHeavyRow, r);
      var pr :| pr in named && r == ToHeavyRow(pr);
      JoinMembers(top, users, CountId, UserKey, pr);
      assert pr.0 in multiset(top);
      SongCountSound(streams, artists, pr.0);
    }
  }

  /**
   * The five largest counts are kept by `$limit`: a user with a Bad Bunny
   * play is among the top listeners, or five were kept and none has a
   * smaller count than this user's.
   */
  lemma HeavyTop5(streams: seq<Stream>, artists: seq<Artist>, st: Stream)
    requires st in streams && BadBunnyPlayBy(artists, st.user_id)(st)
    ensures var c := SongCount(st.user_id, |BadBunnySongs(streams, artists, st.user_id)|);
      var top := TopListeners(streams, artists);
      c in top || (|top| == 5 && forall t :: t in top ==> c.unique_songs_count <= t.unique_songs_count)
  {
    var c := SongCount(st.user_id, |BadBunnySongs(streams, artists, st.user_id)|);
    SongCountComplete(streams, artists, st);
    TopKCandidate(SongCounts(streams, artists), UniqueSongs, 5, c);
  }

  /**
   * With unique user `_id`s the report has one row per top listener that
   * has a user document: at most five, and a top listener without one is
   * dropped, not replaced by the sixth.
   */
  lemma HeavyAtMost5(streams: seq<Stream>, artists: seq<Artist>, users: seq<User>)
    requires UniqueKeys(users, UserKey)
    ensures |HeavyUsers(streams, artists, users)| == |Match(TopListeners(streams, artists), Resolves(users, CountId, UserKey))|
    ensures |HeavyUsers(streams, artists, users)| <= 5
  {
    JoinSizeUnique(TopListeners(streams, artists), users, CountId, UserKey);
  }

  lemma HeavyDropped(streams: seq<Stream>, artists: seq<Artist>, users: seq<User>, c: SongCount)
    requires UniqueKeys(users, UserKey)
    requires c in TopListeners(streams, artists) && forall u :: u in users ==> u.id != c.id
    ensures |HeavyUsers(streams, artists, users)| < |TopListeners(streams, artists)|
  {
    var top := TopListeners(streams, artists);
    HeavyAtMost5(streams, artists, users);
    if Resolves(users, CountId, UserKey)(c) {
      ProjectMembers(users, UserKey, c.id);
    }
    MatchDrops(top, Resolves(users, CountId, UserKey), c);
  }

  lemma {:induction false} NamedRowsInOrder(top: seq<SongCount>, users: seq<User>)
    requires NonIncreasing(top, UniqueSongs)
    ensures NonIncreasing(NamedRows(top, users), HeavyCount)
  {
    if top != [] {
      var c, rest := top[0], top[1..];
      var head := Project(Attach(c, Match(users, KeyIs(UserKey, c.id))), ToHeavyRow);
      NamedRowsCons(top, users);
      assert NonIncreasing(rest, UniqueSongs);
      NamedRowsInOrder(rest, users);
      NamedRowsBound(rest, users, c.unique_songs_count);
      ConcatNonIncreasing(head, NamedRows(rest, users), HeavyCount, c.unique_songs_count);
    } else {
      assert Lookup(top, users, CountId, UserKey) == [];
    }
  }

  /** The first top listener's rows (one per user document) come before the others'. */
  lemma NamedRowsCons(top: seq<SongCount>, users: seq<User>)
    requires top != []
    ensures NamedRows(top, users)
         == Project(Attach(top[0], Match(users, KeyIs(UserKey, top[0].id))), ToHeavyRow) + NamedRows(top[1..], users)
  {
    var c, rest := top[0], top[1..];
    assert top == [c] + rest;
    LookupAppend([c], rest, users, CountId, UserKey);
    UnwindAppend(Lookup([c], users, CountId, UserKey), Lookup(rest, users, CountId, UserKey));
    LookupOne(c, users, CountId, UserKey);
    ProjectAppend(Attach(c, Match(users, KeyIs(UserKey, c.id))), Unwind(Lookup(rest, users, CountId, UserKey)), ToHeavyRow);
  }

  /**
   * A named row carries the `_id` and the count of one of the top listeners
   * it came from, so a bound on their counts bounds the rows'.
   */
  lemma NamedRowsBound(top: seq<SongCount>, users: seq<User>, k: int)
    requires forall c :: c in top ==> c.unique_songs_count <= k
    ensures forall r :: r in NamedRows(top, users) ==>
      exists c :: c in top && c.id == r.id && c.unique_songs_count == r.unique_bad_bunny_songs
    ensures forall r :: r in NamedRows(top, users) ==> HeavyCount(r) <= k
  {
    var named := Unwind(Lookup(top, users, CountId, UserKey));
    forall r | r in NamedRows(top, users)
      ensures exists c :: c in top && c.id == r.id && c.unique_songs_count == r.unique_bad_bunny_songs
      ensures HeavyCount(r) <= k
    {
      ProjectMembers(named, ToHeavyRow, r);
      var pr :| pr in named && r == ToHeavyRow(pr);
      JoinMembers(top, users, CountId, UserKey, pr);
    }
  }
}
