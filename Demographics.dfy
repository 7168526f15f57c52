/**
 * Report 4, demographics of a genre: the plays of Reggaeton songs, each
 * joined with the listener, counted per age range of the listener.
 */
module Demographics {
  import opened Documents
  import opened Stages

  /** `boundaries: [0, 18, 25, 35, 50, 100]`, with `default: "Other"`. */
  const AgeBoundaries: seq<int> := [0, 18, 25, 35, 50, 100]

  /** `$match: { "song.genre": "Reggaeton" }` */
  function IsReggaeton(s: Song): bool { s.genre == "Reggaeton" }

  /** The listener key of a play already joined with its song. */
  function PlayUser(pr: (Stream, Song)): Id { pr.0.user_id }

  /** A play joined with its song and with its listener. */
  type Listen = ((Stream, Song), User)

  /**
   * `$lookup` of the song, `$unwind`, then `$match` on the genre: every pair
   * is a stream of the collection with a Reggaeton song document whose `_id`
   * is the stream's `song_id`.
   */
  function ReggaetonPlays(streams: seq<Stream>, songs: seq<Song>): (plays: seq<(Stream, Song)>)
    ensures forall pr :: pr in plays ==> pr.0 in streams && pr.1 in songs && pr.1.id == pr.0.song_id && IsReggaeton(pr.1)
  {
    var withSong := Unwind(Lookup(streams, songs, StreamSong, SongKey));
    assert forall pr :: pr in withSong ==> pr.0 in streams && pr.1 in songs && pr.1.id == pr.0.song_id by {
      forall pr | pr in withSong ensures pr.0 in streams && pr.1 in songs && pr.1.id == pr.0.song_id {
        JoinMembers(streams, songs, StreamSong, SongKey, pr);
      }
    }
    Match(withSong, OnForeign(IsReggaeton))
  }

  /**
   * `$lookup` of the listener, then `$unwind`: exactly the Reggaeton plays
   * paired with a user document whose `_id` is the play's `user_id`.
   */
  function Listens(streams: seq<Stream>, songs: seq<Song>, users: seq<User>): (ls: seq<Listen>)
    ensures forall l :: l in ls <==> l.0 in ReggaetonPlays(streams, songs) && l.1 in users && l.1.id == l.0.0.user_id
  {
    var plays := ReggaetonPlays(streams, songs);
    assert forall l :: l in Unwind(Lookup(plays, users, PlayUser, UserKey)) <==> l.0 in plays && l.1 in users && l.1.id == l.0.0.user_id by {
      forall l ensures l in Unwind(Lookup(plays, users, PlayUser, UserKey)) <==> l.0 in plays && l.1 in users && l.1.id == l.0.0.user_id {
        JoinMembers(plays, users, PlayUser, UserKey, l);
      }
    }
    Unwind(Lookup(plays, users, PlayUser, UserKey))
  }

  /**
   * `$project: { age: { $dateDiff: ... } }`: the listener's age, computed
   * from the birth date by `age`, which stands for the date difference
   * against the current clock.
   */
  function AgeOf(age: Date -> int): Listen -> int
  {
    (l: Listen) => age(l.1.birth_date)
  }

  /**
   * The whole report: `$bucket` on the ages, counting the plays in each
   * range. Only non-empty ranges are emitted, and every listen's range has
   * a row.
   */
  function Demographics(streams: seq<Stream>, songs: seq<Song>, users: seq<User>, age: Date -> int): (rows: seq<BucketRow>)
    ensures forall r :: r in rows ==> r.count > 0
    ensures forall l :: l in Listens(streams, songs, users) ==> exists r :: r in rows && r.id == BucketOf(age(l.1.birth_date), AgeBoundaries)
  {
    var ls := Listens(streams, songs, users);
    var ages := Project(ls, AgeOf(age));
    assert forall l :: l in ls ==> age(l.1.birth_date) in ages by {
      forall l | l in ls ensures age(l.1.birth_date) in ages {
        var i :| 0 <= i < |ls| && ls[i] == l;
        assert ages[i] == AgeOf(age)(l);
      }
    }
    Bucket(ages, AgeBoundaries)
  }

  lemma AgeBoundariesAscending()
    ensures Ascending(AgeBoundaries)
  {
  }

  /**
   * The age ranges: [0, 18), [18, 25), [25, 35), [35, 50) and [50, 100),
   * each named by its lower end; any other age is "Other".
   */
  lemma AgeBucket(a: int)
    ensures BucketOf(a, AgeBoundaries) ==
      if 0 <= a < 18 then Lower(0)
      else if 18 <= a < 25 then Lower(18)
      else if 25 <= a < 35 then Lower(25)
      else if 35 <= a < 50 then Lower(35)
      else if 50 <= a < 100 then Lower(50)
      else Other
  {
    var b0 := AgeBoundaries;
    var b1, b2, b3, b4, b5 := b0[1..], b0[2..], b0[3..], b0[4..], b0[5..];
    assert b1 == [18, 25, 35, 50, 100] && b1[1..] == b2;
    assert b2 == [25, 35, 50, 100] && b2[1..] == b3;
    assert b3 == [35, 50, 100] && b3[1..] == b4;
    assert b4 == [50, 100] && b4[1..] == b5;
    assert b5 == [100];
    assert BucketOf(a, b5) == Other;
    assert BucketOf(a, b4) == if 50 <= a < 100 then Lower(50) else Other;
    assert BucketOf(a, b3) == if 35 <= a < 50 then Lower(35) else BucketOf(a, b4);
    assert BucketOf(a, b2) == if 25 <= a < 35 then Lower(25) else BucketOf(a, b3);
    assert BucketOf(a, b1) == if 18 <= a < 25 then Lower(18) else BucketOf(a, b2);
    assert BucketOf(a, b0) == if 0 <= a < 18 then Lower(0) else BucketOf(a, b1);
  }

  /**
   * Only non-empty ranges are emitted, and each carries the number of
   * listens whose age falls into it.
   */
  lemma DemographicsRows(streams: seq<Stream>, songs: seq<Song>, users: seq<User>, age: Date -> int)
    ensures forall r :: r in Demographics(streams, songs, users, age) ==>
      && r.count > 0
      && r.count == |Match(Listens(streams, songs, users), AgeIn(age, r.id))|
  {
    var ls := Listens(streams, songs, users);
    var ages := Project(ls, AgeOf(age));
    forall r | r in Demographics(streams, songs, users, age)
      ensures r.count == |Match(ls, AgeIn(age, r.id))|
    {
      MatchProjectCount(ls, age, r.id);
    }
  }

  /** The predicate "this listen's age falls into bucket id". */
  function AgeIn(age: Date -> int, id: BucketId): Listen -> bool
  {
    (l: Listen) => BucketOf(age(l.1.birth_date), AgeBoundaries) == id
  }

  lemma {:induction false} MatchProjectCount(ls: seq<Listen>, age: Date -> int, id: BucketId)
    ensures |Match(Project(ls, AgeOf(age)), KeyIs(BucketKey(AgeBoundaries), id))| == |Match(ls, AgeIn(age, id))|
  {
    if ls != [] {
      MatchProjectCount(ls[1..], age, id);
      assert Project(ls, AgeOf(age))[1..] == Project(ls[1..], AgeOf(age));
    }
  }

  /**
   * The number of listens one play contributes: one per Reggaeton song
   * document with its `song_id` times one per user document with its
   * `user_id`.
   */
  function ListenCount(songs: seq<Song>, users: seq<User>): Stream -> nat
  {
    (st: Stream) => |Match(Match(songs, KeyIs(SongKey, st.song_id)), IsReggaeton)|
                    * |Match(users, KeyIs(UserKey, st.user_id))|
  }

  /** Plays of a Reggaeton song, one per play, joined as many times as songs and users match. */
  lemma {:induction false} PlaysListenCount(streams: seq<Stream>, songs: seq<Song>, users: seq<User>)
    ensures Sum(ReggaetonPlays(streams, songs), MatchCount(users, PlayUser, UserKey))
         == Sum(streams, ListenCount(songs, users))
  {
    if streams != [] {
      var st, rest := streams[0], streams[1..];
      assert streams == [st] + rest;
      var count := MatchCount(users, PlayUser, UserKey);
      LookupAppend([st], rest, songs, StreamSong, SongKey);
      UnwindAppend(Lookup([st], songs, StreamSong, SongKey), Lookup(rest, songs, StreamSong, SongKey));
      MatchAppend(Unwind(Lookup([st], songs, StreamSong, SongKey)), Unwind(Lookup(rest, songs, StreamSong, SongKey)), OnForeign(IsReggaeton));
      assert ReggaetonPlays(streams, songs) == ReggaetonPlays([st], songs) + ReggaetonPlays(rest, songs);
      LookupOne(st, songs, StreamSong, SongKey);
      var hits := Match(Match(songs, KeyIs(SongKey, st.song_id)), IsReggaeton);
      MatchAttachForeign(st, Match(songs, KeyIs(SongKey, st.song_id)), IsReggaeton);
      assert ReggaetonPlays([st], songs) == Attach(st, hits);
      SumAttach(st, hits, count, |Match(users, KeyIs(UserKey, st.user_id))|);
      SumAppend(ReggaetonPlays([st], songs), ReggaetonPlays(rest, songs), count);
      PlaysListenCount(rest, songs, users);
    }
  }

  /**
   * The counts of all ranges add up to the number of listens: every play
   * of a Reggaeton song whose listener resolves, counted per play and not
   * per distinct user.
   */
  lemma DemographicsTotal(streams: seq<Stream>, songs: seq<Song>, users: seq<User>, age: Date -> int)
    ensures Sum(Demographics(streams, songs, users, age), RowCount) == Sum(streams, ListenCount(songs, users))
  {
    var ls := Listens(streams, songs, users);
    AgeBoundariesAscending();
    BucketTotal(Project(ls, AgeOf(age)), AgeBoundaries);
    JoinSize(ReggaetonPlays(streams, songs), users, PlayUser, UserKey);
    PlaysListenCount(streams, songs, users);
  }

  /** A play is counted when its song is a Reggaeton song and its listener has a user document. */
  function CountedPlay(songs: seq<Song>, users: seq<User>): Stream -> bool
  {
    (st: Stream) => (exists s :: s in songs && s.id == st.song_id && IsReggaeton(s))
                 && (exists u :: u in users && u.id == st.user_id)
  }

  lemma UniqueListenCount(songs: seq<Song>, users: seq<User>, st: Stream)
    requires UniqueKeys(songs, SongKey) && UniqueKeys(users, UserKey)
    ensures ListenCount(songs, users)(st) == if CountedPlay(songs, users)(st) then 1 else 0
  {
    var bySong := Match(songs, KeyIs(SongKey, st.song_id));
    var hits := Match(bySong, IsReggaeton);
    var byUser := Match(users, KeyIs(UserKey, st.user_id));
    UniqueKeysMatch(songs, SongKey, st.song_id);
    UniqueKeysMatch(users, UserKey, st.user_id);
    if hits != [] {
      assert hits[0] in hits;
    }
    if byUser != [] {
      assert byUser[0] in byUser;
    }
    if CountedPlay(songs, users)(st) {
      var s :| s in songs && s.id == st.song_id && IsReggaeton(s);
      var u :| u in users && u.id == st.user_id;
      assert s in hits && u in byUser;
    }
  }

  /**
   * With unique `_id`s (as MongoDB enforces), the counts add up to exactly
   * the number of plays of a Reggaeton song by a known user.
   */
  lemma DemographicsTotalUnique(streams: seq<Stream>, songs: seq<Song>, users: seq<User>, age: Date -> int)
    requires UniqueKeys(songs, SongKey) && UniqueKeys(users, UserKey)
    ensures Sum(Demographics(streams, songs, users, age), RowCount) == |Match(streams, CountedPlay(songs, users))|
  {
    DemographicsTotal(streams, songs, users, age);
    forall st | st in streams
      ensures ListenCount(songs, users)(st) == if CountedPlay(songs, users)(st) then 1 else 0
    {
      UniqueListenCount(songs, users, st);
    }
    SumIndicator(streams, ListenCount(songs, users), CountedPlay(songs, users));
  }

  /** One user who played the same Reggaeton song twice contributes two to the counts. */
  lemma DemographicsPerPlay(streams: seq<Stream>, songs: seq<Song>, users: seq<User>, age: Date -> int)
    requires streams == [Stream(-1, 1, 5, 9, 200), Stream(-1, 1, 5, 9, 200)]
    requires songs == [Song(5, "Tusa", "Karol G", "Reggaeton")]
    requires users == [User(1, "ana", "a@x", "Free", "GT", 2000)]
    ensures Sum(Demographics(streams, songs, users, age), RowCount) == 2
  {
    assert UniqueKeys(songs, SongKey) && UniqueKeys(users, UserKey);
    DemographicsTotalUnique(streams, songs, users, age);
    assert CountedPlay(songs, users)(streams[0]) by {
      assert songs[0] in songs && users[0] in users;
    }
    MatchAll(streams, CountedPlay(songs, users));
  }
}
