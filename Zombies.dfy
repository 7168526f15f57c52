/**
 * Report 3, inactive subscribers ("zombies"): Premium users without a
 * single play since a cutoff (the last 30 days), at most five, in the order
 * of the users collection.
 */
module Zombies {
  import opened Documents
  import opened Stages

  /** A report row: `_id` (kept by `$project`), username, email and subscription. */
  datatype ZombieRow = ZombieRow(id: Id, username: string, email: string, subscription: string)

  /** `$match: { subscription: "Premium" }` */
  function IsPremium(u: User): bool { u.subscription == "Premium" }

  /**
   * The sub-pipeline of the correlated `$lookup`, with `$$userId` bound to
   * the user's `_id`: the user's plays since the cutoff.
   */
  function RecentPlaysOf(lastMonth: Date): User -> Stream -> bool
  {
    (u: User) => (st: Stream) => st.user_id == u.id && st.date >= lastMonth
  }

  /** `$match: { recent_streams: { $size: 0 } }` */
  function NoRecentPlays(j: Joined<User, Stream>): bool { |j.matches| == 0 }

  /** `$project: { username: 1, email: 1, subscription: 1 }` */
  function UserRow(u: User): ZombieRow
  {
    ZombieRow(u.id, u.username, u.email, u.subscription)
  }

  function ToZombieRow(j: Joined<User, Stream>): ZombieRow { UserRow(j.doc) }

  /**
   * The pipeline up to and including `$project`: never more rows than there
   * are Premium users.
   */
  function ZombieRows(users: seq<User>, streams: seq<Stream>, lastMonth: Date): (rows: seq<ZombieRow>)
    ensures |rows| <= |Match(users, IsPremium)|
  {
    var premium := Match(users, IsPremium);
    var withRecent := CorrelatedLookup(premium, streams, RecentPlaysOf(lastMonth));
    Project(Match(withRecent, NoRecentPlays), ToZombieRow)
  }

  /** The whole report: `$limit: 5`. */
  function Zombies(users: seq<User>, streams: seq<Stream>, lastMonth: Date): (rows: seq<ZombieRow>)
    ensures |rows| <= 5
  {
    Limit(ZombieRows(users, streams, lastMonth), 5)
  }

  /** No play of user u at or after the cutoff. */
  predicate Inactive(u: User, streams: seq<Stream>, lastMonth: Date)
  {
    forall st :: st in streams && st.user_id == u.id ==> st.date < lastMonth
  }

  /** The correlated lookup finds nothing for u exactly when u is inactive. */
  lemma NoRecentPlaysIffInactive(u: User, streams: seq<Stream>, lastMonth: Date)
    ensures NoRecentPlays(Joined(u, Match(streams, RecentPlaysOf(lastMonth)(u)))) <==> Inactive(u, streams, lastMonth)
  {
    var found := Match(streams, RecentPlaysOf(lastMonth)(u));
    if |found| > 0 {
      assert found[0] in found;
    }
  }

  /** The pipeline takes the users one at a time: each is kept or dropped on its own. */
  lemma ZombieRowsCons(users: seq<User>, streams: seq<Stream>, lastMonth: Date)
    requires users != []
    ensures ZombieRows(users, streams, lastMonth)
         == (if IsPremium(users[0]) && Inactive(users[0], streams, lastMonth) then [UserRow(users[0])] else [])
            + ZombieRows(users[1..], streams, lastMonth)
  {
    var u, rest := users[0], users[1..];
    assert users == [u] + rest;
    var sub := RecentPlaysOf(lastMonth);
    var head := Match([u], IsPremium);
    MatchAppend([u], rest, IsPremium);
    CorrelatedLookupAppend(head, Match(rest, IsPremium), streams, sub);
    var jHead := CorrelatedLookup(head, streams, sub);
    var jRest := CorrelatedLookup(Match(rest, IsPremium), streams, sub);
    MatchAppend(jHead, jRest, NoRecentPlays);
    ProjectAppend(Match(jHead, NoRecentPlays), Match(jRest, NoRecentPlays), ToZombieRow);
    NoRecentPlaysIffInactive(u, streams, lastMonth);
    if IsPremium(u) {
      assert head == [u];
      assert jHead == [Joined(u, Match(streams, sub(u)))];
    } else {
      assert head == [];
      assert jHead == [];
    }
  }

  /**
   * Every returned user is a Premium user of the collection who has not
   * played anything since `lastMonth`; so a user with even one play since
   * then never appears.
   */
  lemma ZombiesSound(users: seq<User>, streams: seq<Stream>, lastMonth: Date)
    ensures forall r :: r in Zombies(users, streams, lastMonth) ==>
      && r.subscription == "Premium"
      && (exists u :: u in users && UserRow(u) == r)
      && forall st :: st in streams && st.user_id == r.id ==> st.date < lastMonth
  {
    forall r | r in Zombies(users, streams, lastMonth)
      ensures r.subscription == "Premium"
      ensures exists u :: u in users && UserRow(u) == r
      ensures forall st :: st in streams && st.user_id == r.id ==> st.date < lastMonth
    {
      ZombieRowSound(users, streams, lastMonth, r);
    }
  }

  lemma {:induction false} ZombieRowSound(users: seq<User>, streams: seq<Stream>, lastMonth: Date, r: ZombieRow)
    requires r in ZombieRows(users, streams, lastMonth)
    ensures exists u :: u in users && IsPremium(u) && Inactive(u, streams, lastMonth) && UserRow(u) == r
  {
    ZombieRowsCons(users, streams, lastMonth);
    if !(IsPremium(users[0]) && Inactive(users[0], streams, lastMonth) && UserRow(users[0]) == r) {
      ZombieRowSound(users[1..], streams, lastMonth, r);
      var u :| u in users[1..] && IsPremium(u) && Inactive(u, streams, lastMonth) && UserRow(u) == r;
      assert u in users;
    }
  }

  /** A Premium user with a recent play is never reported. */
  lemma ZombiesExcludeActive(users: seq<User>, streams: seq<Stream>, lastMonth: Date, u: User, st: Stream)
    requires st in streams && st.user_id == u.id && st.date >= lastMonth
    ensures forall r :: r in Zombies(users, streams, lastMonth) ==> r.id != u.id
  {
    ZombiesSound(users, streams, lastMonth);
  }

  /** Before `$limit`, every inactive Premium user is kept: with no plays at all, or only older ones. */
  lemma {:induction false} ZombieRowComplete(users: seq<User>, streams: seq<Stream>, lastMonth: Date, u: User)
    requires u in users && IsPremium(u) && Inactive(u, streams, lastMonth)
    ensures UserRow(u) in ZombieRows(users, streams, lastMonth)
  {
    ZombieRowsCons(users, streams, lastMonth);
    if users[0] != u {
      ZombieRowComplete(users[1..], streams, lastMonth, u);
    }
  }

  /** An inactive Premium user is reported, unless five others already filled the report. */
  lemma ZombiesComplete(users: seq<User>, streams: seq<Stream>, lastMonth: Date, u: User)
    requires u in users && IsPremium(u) && Inactive(u, streams, lastMonth)
    ensures UserRow(u) in Zombies(users, streams, lastMonth) || |Zombies(users, streams, lastMonth)| == 5
  {
    ZombieRowComplete(users, streams, lastMonth, u);
  }

  /** The report lists users in the order of the users collection, skipping some. */
  lemma ZombiesInOrder(users: seq<User>, streams: seq<Stream>, lastMonth: Date)
    ensures IsSubsequence(Zombies(users, streams, lastMonth), Project(users, UserRow))
  {
    var rows := ZombieRows(users, streams, lastMonth);
    ZombieRowsInOrder(users, streams, lastMonth);
    SubsequencePrefix(rows, Project(users, UserRow), |Zombies(users, streams, lastMonth)|);
  }

  lemma {:induction false} ZombieRowsInOrder(users: seq<User>, streams: seq<Stream>, lastMonth: Date)
    ensures IsSubsequence(ZombieRows(users, streams, lastMonth), Project(users, UserRow))
  {
    if users != [] {
      ZombieRowsCons(users, streams, lastMonth);
      ZombieRowsInOrder(users[1..], streams, lastMonth);
      var all := Project(users, UserRow);
      assert all[1..] == Project(users[1..], UserRow);
      var rows := ZombieRows(users, streams, lastMonth);
      if IsPremium(users[0]) && Inactive(users[0], streams, lastMonth) {
        assert rows[0] == all[0] && rows[1..] == ZombieRows(users[1..], streams, lastMonth);
      } else {
        assert rows == ZombieRows(users[1..], streams, lastMonth);
      }
    } else {
      assert Match([], IsPremium) == [];
      assert CorrelatedLookup([], streams, RecentPlaysOf(lastMonth)) == [];
    }
  }

  /** An inactive Premium user at the head of the collection heads the rows. */
  lemma ZombieRowsKeep(users: seq<User>, streams: seq<Stream>, lastMonth: Date)
    requires users != [] && IsPremium(users[0]) && Inactive(users[0], streams, lastMonth)
    ensures ZombieRows(users, streams, lastMonth) == [UserRow(users[0])] + ZombieRows(users[1..], streams, lastMonth)
  {
    ZombieRowsCons(users, streams, lastMonth);
  }

  /** A user at the head of the collection who played since the cutoff is dropped. */
  lemma ZombieRowsDrop(users: seq<User>, streams: seq<Stream>, lastMonth: Date, st: Stream)
    requires users != [] && st in streams && st.user_id == users[0].id && st.date >= lastMonth
    ensures ZombieRows(users, streams, lastMonth) == ZombieRows(users[1..], streams, lastMonth)
  {
    ZombieRowsCons(users, streams, lastMonth);
  }

  lemma ZombieRowsNone(streams: seq<Stream>, lastMonth: Date)
    ensures ZombieRows([], streams, lastMonth) == []
  {
    assert Match([], IsPremium) == [];
    assert CorrelatedLookup([], streams, RecentPlaysOf(lastMonth)) == [];
  }

  function Never(): User { User(1, "never", "n@x", "Premium", "GT", 0) }
  function Lapsed(): User { User(2, "lapsed", "l@x", "Premium", "GT", 0) }
  function Active(): User { User(3, "active", "a@x", "Premium", "GT", 0) }

  /** A play by `lapsed` 45 days before day 0 and one by `active` 5 days before. */
  function ThreeUserPlays(): seq<Stream> { [Stream(-45, 2, 10, 20, 60), Stream(-5, 3, 10, 20, 60)] }

  lemma ActiveDropped()
    ensures ZombieRows([Active()], ThreeUserPlays(), -30) == []
  {
    ZombieRowsDrop([Active()], ThreeUserPlays(), -30, ThreeUserPlays()[1]);
    assert [Active()][1..] == [];
    ZombieRowsNone(ThreeUserPlays(), -30);
  }

  /** Prepending an inactive Premium user prepends its row. */
  lemma ZombieRowsPrepend(u: User, rest: seq<User>, streams: seq<Stream>, lastMonth: Date, tail: seq<ZombieRow>)
    requires IsPremium(u) && Inactive(u, streams, lastMonth)
    requires ZombieRows(rest, streams, lastMonth) == tail
    ensures ZombieRows([u] + rest, streams, lastMonth) == [UserRow(u)] + tail
  {
    assert ([u] + rest)[0] == u && ([u] + rest)[1..] == rest;
    ZombieRowsKeep([u] + rest, streams, lastMonth);
  }

  lemma LapsedKept()
    ensures ZombieRows([Lapsed(), Active()], ThreeUserPlays(), -30) == [UserRow(Lapsed())]
  {
    assert Inactive(Lapsed(), ThreeUserPlays(), -30);
    ActiveDropped();
    ZombieRowsPrepend(Lapsed(), [Active()], ThreeUserPlays(), -30, []);
    assert [Lapsed()] + [Active()] == [Lapsed(), Active()];
  }

  lemma NeverKept()
    ensures ZombieRows([Never(), Lapsed(), Active()], ThreeUserPlays(), -30) == [UserRow(Never()), UserRow(Lapsed())]
  {
    assert Inactive(Never(), ThreeUserPlays(), -30);
    LapsedKept();
    ZombieRowsPrepend(Never(), [Lapsed(), Active()], ThreeUserPlays(), -30, [UserRow(Lapsed())]);
    assert [Never()] + [Lapsed(), Active()] == [Never(), Lapsed(), Active()];
  }

  /**
   * Three Premium users, with the cutoff 30 days before day 0: one who never
   * played, one whose only play is 45 days old, and one who played 5 days
   * ago. The first two are reported, the third is not.
   */
  lemma ZombiesThreeUsers()
    ensures Zombies([Never(), Lapsed(), Active()], ThreeUserPlays(), -30) == [UserRow(Never()), UserRow(Lapsed())]
  {
    NeverKept();
  }
}
