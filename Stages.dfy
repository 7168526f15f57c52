/**
 * The aggregation-pipeline stages the reports are built from, as pure
 * functions over in-memory sequences of documents. Each stage takes the
 * documents the previous stage produced and returns new ones; predicates,
 * keys and aggregators are passed in as functions.
 */
module Stages {

  /** A document together with the foreign documents a `$lookup` attached to it. */
  datatype Joined<L, F> = Joined(doc: L, matches: seq<F>)

  /** The number of foreign documents attached to a document. */
  function MatchesSize<L, F>(j: Joined<L, F>): nat { |j.matches| }

  /** The predicate "the key of this document equals k". */
  function KeyIs<T(!new), K(==,!new)>(key: T -> K, k: K): T -> bool
  {
    x => key(x) == k
  }

  /** The predicate "the key of this document is one of ks". */
  function KeyIn<T(!new), K(==,!new)>(key: T -> K, ks: seq<K>): T -> bool
  {
    x => key(x) in ks
  }

  /** Lifts a predicate on the foreign half of an unwound pair to the pair. */
  function OnForeign<L(!new), F(!new)>(p: F -> bool): ((L, F)) -> bool
  {
    (pr: (L, F)) => p(pr.1)
  }

  /** The `_id` of a `$group` output row. */
  function GroupKey<K(!new), A(!new)>(g: (K, A)): K { g.0 }

  // ---------------------------------------------------------------------
  // $match
  // ---------------------------------------------------------------------

  /** `$match`: the documents of s that satisfy p, in their original order. */
  function Match<T(!new)>(s: seq<T>, p: T -> bool): (r: seq<T>)
    ensures |r| <= |s|
    ensures forall x :: x in r <==> x in s && p(x)
  {
    if s == [] then []
    else if p(s[0]) then [s[0]] + Match(s[1..], p)
    else Match(s[1..], p)
  }

  lemma {:induction false} MatchAppend<T(!new)>(a: seq<T>, b: seq<T>, p: T -> bool)
    ensures Match(a + b, p) == Match(a, p) + Match(b, p)
  {
    if a != [] {
      assert (a + b)[0] == a[0];
      assert (a + b)[1..] == a[1..] + b;
      MatchAppend(a[1..], b, p);
      if p(a[0]) {
        assert Match(a + b, p) == [a[0]] + (Match(a[1..], p) + Match(b, p));
      }
    } else {
      assert a + b == b;
    }
  }

  /** A stage whose predicate holds of every document keeps them all. */
  lemma {:induction false} MatchAll<T(!new)>(s: seq<T>, p: T -> bool)
    requires forall x :: x in s ==> p(x)
    ensures Match(s, p) == s
  {
    if s != [] {
      MatchAll(s[1..], p);
    }
  }

  /** A stage whose predicate holds of no document keeps none. */
  lemma {:induction false} MatchNone<T(!new)>(s: seq<T>, p: T -> bool)
    requires forall x :: x in s ==> !p(x)
    ensures Match(s, p) == []
  {
    if s != [] {
      MatchNone(s[1..], p);
    }
  }

  /** Two predicates that never both hold split a stage's output between them. */
  lemma {:induction false} MatchDisjointUnion<T(!new)>(s: seq<T>, p: T -> bool, q: T -> bool, pq: T -> bool)
    requires forall x :: x in s ==> (pq(x) <==> p(x) || q(x))
    requires forall x :: x in s ==> !(p(x) && q(x))
    ensures |Match(s, pq)| == |Match(s, p)| + |Match(s, q)|
  {
    if s != [] {
      MatchDisjointUnion(s[1..], p, q, pq);
    }
  }

  /** A stage that rejects some document returns strictly fewer than it was given. */
  lemma {:induction false} MatchDrops<T(!new)>(s: seq<T>, p: T -> bool, x: T)
    requires x in s && !p(x)
    ensures |Match(s, p)| < |s|
  {
    if s[0] != x {
      MatchDrops(s[1..], p, x);
    }
  }

  // ---------------------------------------------------------------------
  // $project
  // ---------------------------------------------------------------------

  /** `$project`: reshape every document with f, keeping the order. */
  function Project<A(!new), B(!new)>(s: seq<A>, f: A -> B): (r: seq<B>)
    ensures |r| == |s|
    ensures forall i :: 0 <= i < |s| ==> r[i] == f(s[i])
  {
    if s == [] then [] else [f(s[0])] + Project(s[1..], f)
  }

  lemma ProjectMembers<A(!new), B(!new)>(s: seq<A>, f: A -> B, y: B)
    requires y in Project(s, f)
    ensures exists x :: x in s && y == f(x)
  {
    var r := Project(s, f);
    var i :| 0 <= i < |r| && r[i] == y;
    assert s[i] in s;
  }

  lemma {:induction false} ProjectAppend<A(!new), B(!new)>(a: seq<A>, b: seq<A>, f: A -> B)
    ensures Project(a + b, f) == Project(a, f) + Project(b, f)
  {
    if a != [] {
      assert (a + b)[0] == a[0];
      assert (a + b)[1..] == a[1..] + b;
      ProjectAppend(a[1..], b, f);
      assert Project(a + b, f) == [f(a[0])] + (Project(a[1..], f) + Project(b, f));
    } else {
      assert a + b == b;
    }
  }

  lemma ProjectIncludes<A(!new), B(!new)>(s: seq<A>, f: A -> B, x: A)
    requires x in s
    ensures f(x) in Project(s, f)
  {
    var i :| 0 <= i < |s| && s[i] == x;
    assert Project(s, f)[i] == f(x);
  }

  // ---------------------------------------------------------------------
  // $limit
  // ---------------------------------------------------------------------

  /** `$limit`: the first n documents, or all of them if there are fewer. */
  function Limit<T(!new)>(s: seq<T>, n: nat): (r: seq<T>)
    ensures |r| == if |s| <= n then |s| else n
    ensures r == s[..|r|]
  {
    if |s| <= n then s else s[..n]
  }

  // ---------------------------------------------------------------------
  // Order-preserving subsequences
  // ---------------------------------------------------------------------

  /** a can be obtained from b by deleting elements, without reordering. */
  predicate IsSubsequence<T(==,!new)>(a: seq<T>, b: seq<T>)
    decreases |b|
  {
    a == [] || (b != [] && ((a[0] == b[0] && IsSubsequence(a[1..], b[1..])) || IsSubsequence(a, b[1..])))
  }

  /** A prefix of a subsequence is still a subsequence. */
  lemma {:induction false} SubsequencePrefix<T(!new)>(a: seq<T>, b: seq<T>, n: nat)
    requires IsSubsequence(a, b) && n <= |a|
    ensures IsSubsequence(a[..n], b)
    decreases |b|
  {
    if n > 0 {
      if a[0] == b[0] && IsSubsequence(a[1..], b[1..]) {
        SubsequencePrefix(a[1..], b[1..], n - 1);
        assert a[..n][1..] == a[1..][..n - 1];
      } else {
        SubsequencePrefix(a, b[1..], n);
      }
    }
  }

  /** `$match` keeps the relative order of what it keeps. */
  lemma {:induction false} MatchIsSubsequence<T(!new)>(s: seq<T>, p: T -> bool)
    ensures IsSubsequence(Match(s, p), s)
  {
    if s != [] {
      MatchIsSubsequence(s[1..], p);
      if p(s[0]) {
        assert Match(s, p)[1..] == Match(s[1..], p);
      }
    }
  }

  // ---------------------------------------------------------------------
  // $lookup and $unwind
  // ---------------------------------------------------------------------

  /**
   * `$lookup` with a sub-pipeline: to every document x attach the foreign
   * documents y for which sub(x)(y) holds, in foreign order. The local
   * document is bound into the sub-filter, as `let` does.
   */
  function CorrelatedLookup<L(!new), F(!new)>(s: seq<L>, from: seq<F>, sub: L -> F -> bool): (r: seq<Joined<L, F>>)
    ensures |r| == |s|
    ensures forall i :: 0 <= i < |s| ==> r[i] == Joined(s[i], Match(from, sub(s[i])))
  {
    if s == [] then []
    else [Joined(s[0], Match(from, sub(s[0])))] + CorrelatedLookup(s[1..], from, sub)
  }

  /** The sub-filter of an equality lookup: the foreign key equals the local key. */
  function EqualKeys<L(!new), F(!new), K(==,!new)>(lk: L -> K, fk: F -> K): L -> F -> bool
  {
    x => KeyIs(fk, lk(x))
  }

  /**
   * `$lookup` on `localField`/`foreignField`: attach to every document the
   * foreign documents whose key equals its own; an empty array when none does.
   */
  function Lookup<L(!new), F(!new), K(==,!new)>(s: seq<L>, from: seq<F>, lk: L -> K, fk: F -> K): (r: seq<Joined<L, F>>)
    ensures |r| == |s|
    ensures forall i :: 0 <= i < |s| ==> r[i].doc == s[i]
    ensures forall i :: 0 <= i < |s| ==> r[i].matches == Match(from, KeyIs(fk, lk(s[i])))
    ensures forall i, y :: 0 <= i < |s| ==> (y in r[i].matches <==> y in from && fk(y) == lk(s[i]))
  {
    CorrelatedLookup(s, from, EqualKeys(lk, fk))
  }

  lemma {:induction false} CorrelatedLookupAppend<L(!new), F(!new)>(a: seq<L>, b: seq<L>, from: seq<F>, sub: L -> F -> bool)
    ensures CorrelatedLookup(a + b, from, sub) == CorrelatedLookup(a, from, sub) + CorrelatedLookup(b, from, sub)
  {
    if a != [] {
      assert (a + b)[0] == a[0];
      assert (a + b)[1..] == a[1..] + b;
      CorrelatedLookupAppend(a[1..], b, from, sub);
      var j := Joined(a[0], Match(from, sub(a[0])));
      assert CorrelatedLookup(a + b, from, sub) == [j] + (CorrelatedLookup(a[1..], from, sub) + CorrelatedLookup(b, from, sub));
    } else {
      assert a + b == b;
    }
  }

  lemma LookupAppend<L(!new), F(!new), K(!new)>(a: seq<L>, b: seq<L>, from: seq<F>, lk: L -> K, fk: F -> K)
    ensures Lookup(a + b, from, lk, fk) == Lookup(a, from, lk, fk) + Lookup(b, from, lk, fk)
  {
    CorrelatedLookupAppend(a, b, from, EqualKeys(lk, fk));
  }

  /** One document paired with each of its matches, in order. */
  function Attach<L(!new), F(!new)>(x: L, ms: seq<F>): (r: seq<(L, F)>)
    ensures |r| == |ms|
    ensures forall i :: 0 <= i < |ms| ==> r[i] == (x, ms[i])
  {
    if ms == [] then [] else [(x, ms[0])] + Attach(x, ms[1..])
  }

  /**
   * `$unwind`: one output document per element of the attached array, in
   * order; a document whose array is empty produces nothing.
   */
  function Unwind<L(!new), F(!new)>(js: seq<Joined<L, F>>): (r: seq<(L, F)>)
    ensures |r| == Sum(js, MatchesSize)
    ensures forall pr :: pr in r <==> exists i :: 0 <= i < |js| && pr.0 == js[i].doc && pr.1 in js[i].matches
  {
    if js == [] then []
    else
      var head := Attach(js[0].doc, js[0].matches);
      var tail := Unwind(js[1..]);
      assert forall pr :: pr in head <==> pr.0 == js[0].doc && pr.1 in js[0].matches by {
        forall pr: (L, F) | pr.0 == js[0].doc && pr.1 in js[0].matches ensures pr in head {
          var k :| 0 <= k < |js[0].matches| && js[0].matches[k] == pr.1;
          assert head[k] == pr;
        }
      }
      assert forall pr :: pr in tail <==> exists i :: 1 <= i < |js| && pr.0 == js[i].doc && pr.1 in js[i].matches by {
        forall pr: (L, F) ensures pr in tail <==> exists i :: 1 <= i < |js| && pr.0 == js[i].doc && pr.1 in js[i].matches {
          if pr in tail {
            var i :| 0 <= i < |js[1..]| && pr.0 == js[1..][i].doc && pr.1 in js[1..][i].matches;
            assert js[i + 1] == js[1..][i];
          }
          if exists i :: 1 <= i < |js| && pr.0 == js[i].doc && pr.1 in js[i].matches {
            var i :| 1 <= i < |js| && pr.0 == js[i].doc && pr.1 in js[i].matches;
            assert js[1..][i - 1] == js[i];
          }
        }
      }
      head + tail
  }

  lemma {:induction false} UnwindAppend<L(!new), F(!new)>(a: seq<Joined<L, F>>, b: seq<Joined<L, F>>)
    ensures Unwind(a + b) == Unwind(a) + Unwind(b)
  {
    if a != [] {
      assert (a + b)[0] == a[0];
      assert (a + b)[1..] == a[1..] + b;
      UnwindAppend(a[1..], b);
      var head := Attach(a[0].doc, a[0].matches);
      assert Unwind(a + b) == head + (Unwind(a[1..]) + Unwind(b));
    } else {
      assert a + b == b;
    }
  }

  /** A lookup followed by an unwind is an inner join on equal keys. */
  lemma JoinMembers<L(!new), F(!new), K(!new)>(s: seq<L>, from: seq<F>, lk: L -> K, fk: F -> K, pr: (L, F))
    ensures pr in Unwind(Lookup(s, from, lk, fk)) <==> pr.0 in s && pr.1 in from && fk(pr.1) == lk(pr.0)
  {
    var js := Lookup(s, from, lk, fk);
    if pr.0 in s && pr.1 in from && fk(pr.1) == lk(pr.0) {
      var i :| 0 <= i < |s| && s[i] == pr.0;
      assert js[i].doc == pr.0 && pr.1 in js[i].matches;
    }
  }

  /** Unwinding a single looked-up document pairs it with each of its matches. */
  lemma LookupOne<L(!new), F(!new), K(!new)>(x: L, from: seq<F>, lk: L -> K, fk: F -> K)
    ensures Unwind(Lookup([x], from, lk, fk)) == Attach(x, Match(from, KeyIs(fk, lk(x))))
  {
    var js := Lookup([x], from, lk, fk);
    assert js == [Joined(x, Match(from, KeyIs(fk, lk(x))))];
    assert js[1..] == [];
  }

  /** Filtering pairs on their foreign half filters the matches of one document. */
  lemma {:induction false} MatchAttachForeign<L(!new), F(!new)>(x: L, ms: seq<F>, p: F -> bool)
    ensures Match(Attach(x, ms), OnForeign(p)) == Attach(x, Match(ms, p))
  {
    if ms != [] {
      MatchAttachForeign(x, ms[1..], p);
      assert Attach(x, ms)[1..] == Attach(x, ms[1..]);
    }
  }

  /** A predicate that only looks at the local document keeps all or none of its pairs. */
  lemma MatchAttachLocal<L(!new), F(!new)>(x: L, ms: seq<F>, q: ((L, F)) -> bool)
    ensures (forall y :: y in ms ==> q((x, y))) ==> Match(Attach(x, ms), q) == Attach(x, ms)
    ensures (forall y :: y in ms ==> !q((x, y))) ==> Match(Attach(x, ms), q) == []
  {
    var a := Attach(x, ms);
    if forall y :: y in ms ==> q((x, y)) {
      forall pr | pr in a ensures q(pr) {
        var i :| 0 <= i < |a| && a[i] == pr;
        assert ms[i] in ms;
      }
      MatchAll(a, q);
    }
    if forall y :: y in ms ==> !q((x, y)) {
      forall pr | pr in a ensures !q(pr) {
        var i :| 0 <= i < |a| && a[i] == pr;
        assert ms[i] in ms;
      }
      MatchNone(a, q);
    }
  }

  /** Under unique foreign keys, an equality lookup finds at most one document. */
  ghost predicate UniqueKeys<F(!new), K(!new)>(from: seq<F>, fk: F -> K)
  {
    forall i, j :: 0 <= i < j < |from| ==> fk(from[i]) != fk(from[j])
  }

  lemma {:induction false} UniqueKeysMatch<F(!new), K(!new)>(from: seq<F>, fk: F -> K, k: K)
    requires UniqueKeys(from, fk)
    ensures |Match(from, KeyIs(fk, k))| <= 1
  {
    if from != [] {
      var rest := from[1..];
      assert UniqueKeys(rest, fk) by {
        forall i, j | 0 <= i < j < |rest| ensures fk(rest[i]) != fk(rest[j]) {
          assert rest[i] == from[i + 1] && rest[j] == from[j + 1];
        }
      }
      UniqueKeysMatch(rest, fk, k);
      if fk(from[0]) == k {
        forall y | y in rest ensures !KeyIs(fk, k)(y) {
          var j :| 0 <= j < |rest| && rest[j] == y;
          assert from[j + 1] == y;
        }
        MatchNone(rest, KeyIs(fk, k));
      }
    }
  }

  /** The number of foreign documents an equality lookup attaches to a document. */
  function MatchCount<L(!new), F(!new), K(==,!new)>(from: seq<F>, lk: L -> K, fk: F -> K): L -> nat
  {
    x => |Match(from, KeyIs(fk, lk(x)))|
  }

  /** The predicate "some foreign document has this document's key". */
  function Resolves<L(!new), F(!new), K(==,!new)>(from: seq<F>, lk: L -> K, fk: F -> K): L -> bool
  {
    x => lk(x) in Project(from, fk)
  }

  /** An inner join yields, for every local document, one row per match. */
  lemma {:induction false} JoinSize<L(!new), F(!new), K(!new)>(s: seq<L>, from: seq<F>, lk: L -> K, fk: F -> K)
    ensures |Unwind(Lookup(s, from, lk, fk))| == Sum(s, MatchCount(from, lk, fk))
  {
    if s != [] {
      assert s == [s[0]] + s[1..];
      LookupAppend([s[0]], s[1..], from, lk, fk);
      UnwindAppend(Lookup([s[0]], from, lk, fk), Lookup(s[1..], from, lk, fk));
      LookupOne(s[0], from, lk, fk);
      JoinSize(s[1..], from, lk, fk);
    }
  }

  /** Under unique foreign keys a document has one match if its key resolves and none otherwise. */
  lemma UniqueMatchCount<L(!new), F(!new), K(!new)>(from: seq<F>, lk: L -> K, fk: F -> K, x: L)
    requires UniqueKeys(from, fk)
    ensures MatchCount(from, lk, fk)(x) == if Resolves(from, lk, fk)(x) then 1 else 0
  {
    var found := Match(from, KeyIs(fk, lk(x)));
    UniqueKeysMatch(from, fk, lk(x));
    if Resolves(from, lk, fk)(x) {
      ProjectMembers(from, fk, lk(x));
      var y :| y in from && lk(x) == fk(y);
      assert y in found;
    } else if found != [] {
      assert found[0] in found;
      ProjectIncludes(from, fk, found[0]);
    }
  }

  /**
   * Under unique foreign keys an inner join neither duplicates nor invents
   * rows: it keeps exactly the local documents whose key resolves.
   */
  lemma {:induction false} JoinSizeUnique<L(!new), F(!new), K(!new)>(s: seq<L>, from: seq<F>, lk: L -> K, fk: F -> K)
    requires UniqueKeys(from, fk)
    ensures |Unwind(Lookup(s, from, lk, fk))| == |Match(s, Resolves(from, lk, fk))|
  {
    JoinSize(s, from, lk, fk);
    forall x | x in s ensures MatchCount(from, lk, fk)(x) == if Resolves(from, lk, fk)(x) then 1 else 0 {
      UniqueMatchCount(from, lk, fk, x);
    }
    SumIndicator(s, MatchCount(from, lk, fk), Resolves(from, lk, fk));
  }

  // ---------------------------------------------------------------------
  // $group
  // ---------------------------------------------------------------------

  /** The distinct keys of s, each once, in order of first occurrence. */
  function DistinctKeys<T(!new), K(==,!new)>(s: seq<T>, key: T -> K): (ks: seq<K>)
    ensures forall i, j :: 0 <= i < j < |ks| ==> ks[i] != ks[j]
    ensures forall k :: k in ks <==> exists x :: x in s && key(x) == k
  {
    if s == [] then []
    else
      var init := s[..|s| - 1];
      var last := s[|s| - 1];
      assert s == init + [last];
      var ks := DistinctKeys(init, key);
      if key(last) in ks then ks else ks + [key(last)]
  }

  /**
   * `$group`: one output row per distinct key of s, holding that key and the
   * aggregate of exactly the documents that have it.
   */
  function Group<T(!new), K(==,!new), A(!new)>(s: seq<T>, key: T -> K, agg: seq<T> -> A): (g: seq<(K, A)>)
    ensures forall i, j :: 0 <= i < j < |g| ==> g[i].0 != g[j].0
    ensures forall x :: x in s ==> exists i :: 0 <= i < |g| && g[i].0 == key(x)
    ensures forall i :: 0 <= i < |g| ==> exists x :: x in s && key(x) == g[i].0
    ensures forall i :: 0 <= i < |g| ==> g[i].1 == agg(Match(s, KeyIs(key, g[i].0)))
  {
    GroupRows(s, key, agg);
    Project(DistinctKeys(s, key), GroupOf(s, key, agg))
  }

  /** The aggregate of a group row is taken over the documents carrying its key, of which there is one at least. */
  lemma GroupAggregate<T(!new), K(!new), A(!new)>(s: seq<T>, key: T -> K, agg: seq<T> -> A, row: (K, A))
    requires row in Group(s, key, agg)
    ensures row.1 == agg(Match(s, KeyIs(key, row.0)))
    ensures |Match(s, KeyIs(key, row.0))| > 0
  {
    var g := Group(s, key, agg);
    var i :| 0 <= i < |g| && g[i] == row;
    var x :| x in s && key(x) == row.0;
    assert x in Match(s, KeyIs(key, row.0));
  }

  /** The group row a document falls into. */
  lemma GroupRowWith<T(!new), K(!new), A(!new)>(s: seq<T>, key: T -> K, agg: seq<T> -> A, x: T) returns (row: (K, A))
    requires x in s
    ensures row in Group(s, key, agg) && row.0 == key(x)
  {
    var g := Group(s, key, agg);
    var i :| 0 <= i < |g| && g[i].0 == key(x);
    row := g[i];
  }

  lemma GroupRows<T(!new), K(!new), A(!new)>(s: seq<T>, key: T -> K, agg: seq<T> -> A)
    ensures var g := Project(DistinctKeys(s, key), GroupOf(s, key, agg));
      && (forall i, j :: 0 <= i < j < |g| ==> g[i].0 != g[j].0)
      && (forall x :: x in s ==> exists i :: 0 <= i < |g| && g[i].0 == key(x))
      && (forall i :: 0 <= i < |g| ==> exists x :: x in s && key(x) == g[i].0)
      && (forall i :: 0 <= i < |g| ==> g[i].1 == agg(Match(s, KeyIs(key, g[i].0))))
  {
    var ks := DistinctKeys(s, key);
    var g := Project(ks, GroupOf(s, key, agg));
    GroupRowAt(s, key, agg);
    forall x | x in s ensures exists i :: 0 <= i < |g| && g[i].0 == key(x) {
      var i := GroupRowFor(s, key, agg, x);
      assert g[i].0 == key(x);
    }
    forall i | 0 <= i < |g| ensures exists x :: x in s && key(x) == g[i].0 {
      assert ks[i] in ks;
    }
  }

  lemma GroupRowAt<T(!new), K(!new), A(!new)>(s: seq<T>, key: T -> K, agg: seq<T> -> A)
    ensures var ks := DistinctKeys(s, key);
      var g := Project(ks, GroupOf(s, key, agg));
      forall i :: 0 <= i < |g| ==> g[i] == (ks[i], agg(Match(s, KeyIs(key, ks[i]))))
  {
  }

  lemma GroupRowFor<T(!new), K(!new), A(!new)>(s: seq<T>, key: T -> K, agg: seq<T> -> A, x: T) returns (i: nat)
    requires x in s
    ensures i < |DistinctKeys(s, key)| && Project(DistinctKeys(s, key), GroupOf(s, key, agg))[i].0 == key(x)
  {
    var ks := DistinctKeys(s, key);
    GroupRowAt(s, key, agg);
    assert key(x) in ks;
    i :| 0 <= i < |ks| && ks[i] == key(x);
  }

  /** The `$group` row for key k: k with the aggregate of the documents that have it. */
  function GroupOf<T(!new), K(==,!new), A(!new)>(s: seq<T>, key: T -> K, agg: seq<T> -> A): K -> (K, A)
  {
    k => (k, agg(Match(s, KeyIs(key, k))))
  }

  /** `$sum` of val over a group. */
  function Sum<T(!new)>(s: seq<T>, val: T -> nat): nat
  {
    if s == [] then 0 else val(s[0]) + Sum(s[1..], val)
  }

  lemma {:induction false} SumAppend<T(!new)>(a: seq<T>, b: seq<T>, val: T -> nat)
    ensures Sum(a + b, val) == Sum(a, val) + Sum(b, val)
  {
    if a != [] {
      assert (a + b)[0] == a[0];
      assert (a + b)[1..] == a[1..] + b;
      SumAppend(a[1..], b, val);
    } else {
      assert a + b == b;
    }
  }

  /** Pairs of one document whose value depends only on that document add up to a multiple of it. */
  lemma {:induction false} SumAttach<L(!new), F(!new)>(x: L, ms: seq<F>, val: ((L, F)) -> nat, c: nat)
    requires forall y :: y in ms ==> val((x, y)) == c
    ensures Sum(Attach(x, ms), val) == |ms| * c
  {
    if ms != [] {
      SumAttach(x, ms[1..], val, c);
      assert Attach(x, ms)[1..] == Attach(x, ms[1..]);
    }
  }

  /** Adding up 1 for every document that satisfies p counts them. */
  lemma {:induction false} SumIndicator<T(!new)>(s: seq<T>, val: T -> nat, p: T -> bool)
    requires forall x :: x in s ==> val(x) == if p(x) then 1 else 0
    ensures Sum(s, val) == |Match(s, p)|
  {
    if s != [] {
      SumIndicator(s[1..], val, p);
    }
  }

  /** Dropping documents that contribute nothing leaves a `$sum` unchanged. */
  lemma {:induction false} SumMatchZeros<T(!new)>(s: seq<T>, p: T -> bool, val: T -> nat)
    requires forall x :: x in s && !p(x) ==> val(x) == 0
    ensures Sum(Match(s, p), val) == Sum(s, val)
  {
    if s != [] {
      SumMatchZeros(s[1..], p, val);
    }
  }

  /** `$addToSet` of val over a group: the set of distinct values. */
  function ToSet<T(!new), V(!new)>(s: seq<T>, val: T -> V): (r: set<V>)
    ensures forall v :: v in r <==> exists x :: x in s && val(x) == v
    ensures |r| <= |s|
  {
    if s == [] then {}
    else
      var rest := ToSet(s[1..], val);
      assert forall x :: x in s <==> x == s[0] || x in s[1..];
      assert |{val(s[0])} + rest| <= |{val(s[0])}| + |rest|;
      {val(s[0])} + rest
  }

  lemma ToSetIncludes<T(!new), V(!new)>(s: seq<T>, val: T -> V, x: T)
    requires x in s
    ensures val(x) in ToSet(s, val)
  {
  }

  /**
   * The aggregator `{ $sum: val }`: nothing for no documents, val of a single
   * document, and additive over any split of a group.
   */
  function SumOf<T(!new)>(val: T -> nat): (agg: seq<T> -> nat)
    ensures agg([]) == 0
    ensures forall x :: agg([x]) == val(x)
    ensures forall a, b :: agg(a + b) == agg(a) + agg(b)
  {
    assert forall a, b :: Sum(a + b, val) == Sum(a, val) + Sum(b, val) by {
      forall a, b ensures Sum(a + b, val) == Sum(a, val) + Sum(b, val) {
        SumAppend(a, b, val);
      }
    }
    assert forall x :: Sum([x], val) == val(x) by {
      forall x ensures Sum([x], val) == val(x) {
        assert [x][1..] == [];
      }
    }
    s => Sum(s, val)
  }

  /** The value 1 for every document: `{ $sum: 1 }` adds it up. */
  function One<T>(x: T): nat { 1 }

  lemma {:induction false} SumOne<T(!new)>(s: seq<T>)
    ensures Sum(s, One) == |s|
  {
    if s != [] {
      SumOne(s[1..]);
    }
  }

  /** The aggregator `{ $count: {} }`: the same as `{ $sum: 1 }`. */
  function CountOf<T(!new)>(): (agg: seq<T> -> nat)
    ensures forall s :: agg(s) == Sum(s, One)
  {
    assert forall s: seq<T> :: Sum(s, One) == |s| by {
      forall s: seq<T> ensures Sum(s, One) == |s| {
        SumOne(s);
      }
    }
    s => |s|
  }

  /**
   * The aggregator `{ $addToSet: val }`: exactly the distinct values of the
   * group's documents, never more of them than documents.
   */
  function AddToSet<T(!new), V(!new)>(val: T -> V): (agg: seq<T> -> set<V>)
    ensures forall s, v :: v in agg(s) <==> exists x :: x in s && val(x) == v
    ensures forall s :: |agg(s)| <= |s|
  {
    s => ToSet(s, val)
  }

  lemma AddToSetApply<T(!new), V(!new)>(val: T -> V, s: seq<T>)
    ensures AddToSet(val)(s) == ToSet(s, val)
  {
  }

  // ---------------------------------------------------------------------
  // $sort (descending) and top-k
  // ---------------------------------------------------------------------

  /** key never increases from left to right. */
  predicate NonIncreasing<T(!new)>(s: seq<T>, key: T -> int)
  {
    forall i, j :: 0 <= i < j < |s| ==> key(s[i]) >= key(s[j])
  }

  /** A run of equal keys followed by no larger, non-increasing keys is non-increasing. */
  lemma ConcatNonIncreasing<T(!new)>(a: seq<T>, b: seq<T>, key: T -> int, k: int)
    requires forall x :: x in a ==> key(x) == k
    requires forall y :: y in b ==> key(y) <= k
    requires NonIncreasing(b, key)
    ensures NonIncreasing(a + b, key)
  {
    var ab := a + b;
    forall i, j | 0 <= i < j < |ab| ensures key(ab[i]) >= key(ab[j]) {
      if j < |a| {
        assert ab[i] in a && ab[j] in a;
      } else if i < |a| {
        assert ab[i] in a && ab[j] in b;
      } else {
        assert ab[i] == b[i - |a|] && ab[j] == b[j - |a|];
      }
    }
  }

  /** Inserts x before the first element whose key is not larger than its own. */
  function InsertDesc<T(!new)>(x: T, s: seq<T>, key: T -> int): (r: seq<T>)
    ensures multiset(r) == multiset(s) + multiset{x}
  {
    if s == [] || key(x) >= key(s[0]) then [x] + s
    else
      assert s == [s[0]] + s[1..];
      [s[0]] + InsertDesc(x, s[1..], key)
  }

  lemma {:induction false} InsertDescSorted<T(!new)>(x: T, s: seq<T>, key: T -> int)
    requires NonIncreasing(s, key)
    ensures NonIncreasing(InsertDesc(x, s, key), key)
  {
    if s != [] && key(x) < key(s[0]) {
      var rest := InsertDesc(x, s[1..], key);
      InsertDescSorted(x, s[1..], key);
      forall y | y in rest ensures key(s[0]) >= key(y) {
        assert y in multiset(rest);
        if y != x {
          assert y in multiset(s[1..]);
          var k :| 0 <= k < |s[1..]| && s[1..][k] == y;
          assert s[k + 1] == y;
        }
      }
      assert forall j :: 0 <= j < |rest| ==> rest[j] in rest;
    }
  }

  /** `$sort` descending on key: a reordering of s in which key never increases. */
  function SortDesc<T(!new)>(s: seq<T>, key: T -> int): (r: seq<T>)
    ensures |r| == |s|
    ensures multiset(r) == multiset(s)
    ensures NonIncreasing(r, key)
  {
    if s == [] then []
    else
      assert s == [s[0]] + s[1..];
      var sorted := SortDesc(s[1..], key);
      InsertDescSorted(s[0], sorted, key);
      var r := InsertDesc(s[0], sorted, key);
      assert |r| == |multiset(r)|;
      r
  }

  /**
   * `$sort` descending followed by `$limit` n returns the n largest keys: at
   * most n documents, all drawn from s, in non-increasing order, and every
   * document left out has a key no larger than any document returned.
   */
  lemma TopK<T(!new)>(s: seq<T>, key: T -> int, n: nat)
    ensures var t := Limit(SortDesc(s, key), n);
      && |t| == (if |s| <= n then |s| else n)
      && multiset(t) <= multiset(s)
      && NonIncreasing(t, key)
      && forall x, y :: x in multiset(s) - multiset(t) && y in t ==> key(x) <= key(y)
  {
    var sorted := SortDesc(s, key);
    var t := Limit(sorted, n);
    var rest := sorted[|t|..];
    assert sorted == t + rest;
    assert multiset(s) == multiset(t) + multiset(rest);
    assert NonIncreasing(t, key) by {
      forall i, j | 0 <= i < j < |t| ensures key(t[i]) >= key(t[j]) {
        assert t[i] == sorted[i] && t[j] == sorted[j];
      }
    }
    forall x, y | x in multiset(s) - multiset(t) && y in t ensures key(x) <= key(y) {
      OutrankedBy(sorted, key, |t|, x, y);
    }
  }

  lemma OutrankedBy<T(!new)>(sorted: seq<T>, key: T -> int, m: nat, x: T, y: T)
    requires NonIncreasing(sorted, key) && m <= |sorted|
    requires x in sorted[m..] && y in sorted[..m]
    ensures key(x) <= key(y)
  {
    var j :| 0 <= j < |sorted[m..]| && sorted[m..][j] == x;
    var i :| 0 <= i < m && sorted[..m][i] == y;
    assert sorted[i] == y && sorted[m + j] == x;
  }

  /** The top-k guarantee for one candidate: it is returned, or it was outranked. */
  lemma TopKCandidate<T(!new)>(s: seq<T>, key: T -> int, n: nat, x: T)
    requires x in s
    ensures var t := Limit(SortDesc(s, key), n);
      x in t || (|t| == n && forall y :: y in t ==> key(x) <= key(y))
  {
    TopK(s, key, n);
    var t := Limit(SortDesc(s, key), n);
    if x !in t {
      assert multiset(t)[x] == 0;
      assert x in multiset(s) - multiset(t);
    }
  }

  // ---------------------------------------------------------------------
  // $bucket
  // ---------------------------------------------------------------------

  /** The `_id` of a bucket: its lower boundary, or the default bucket. */
  datatype BucketId = Lower(bound: int) | Other

  /** One `$bucket` output row. */
  datatype BucketRow = BucketRow(id: BucketId, count: nat)

  /** Boundaries must be strictly ascending. */
  predicate Ascending(bounds: seq<int>)
  {
    forall i, j :: 0 <= i < j < |bounds| ==> bounds[i] < bounds[j]
  }

  /**
   * The bucket v falls into: the half-open interval [bounds[i], bounds[i+1])
   * that contains it, named by its lower bound, or the default bucket.
   */
  function BucketOf(v: int, bounds: seq<int>): (b: BucketId)
    ensures b.Lower? ==> exists i :: 0 <= i < |bounds| - 1 && b.bound == bounds[i] && bounds[i] <= v < bounds[i + 1]
    ensures (exists i :: 0 <= i < |bounds| - 1 && bounds[i] <= v < bounds[i + 1]) ==> b.Lower?
  {
    if |bounds| < 2 then Other
    else if bounds[0] <= v < bounds[1] then Lower(bounds[0])
    else
      var b := BucketOf(v, bounds[1..]);
      assert b.Lower? ==> exists i :: 0 <= i < |bounds| - 1 && b.bound == bounds[i] && bounds[i] <= v < bounds[i + 1] by {
        if b.Lower? {
          var i :| 0 <= i < |bounds| - 2 && b.bound == bounds[1..][i] && bounds[1..][i] <= v < bounds[1..][i + 1];
          assert bounds[i + 1] == bounds[1..][i] && bounds[i + 2] == bounds[1..][i + 1];
        }
      }
      assert (exists i :: 0 <= i < |bounds| - 1 && bounds[i] <= v < bounds[i + 1]) ==> b.Lower? by {
        if exists i :: 0 <= i < |bounds| - 1 && bounds[i] <= v < bounds[i + 1] {
          var i :| 0 <= i < |bounds| - 1 && bounds[i] <= v < bounds[i + 1];
          assert i != 0;
          assert bounds[1..][i - 1] == bounds[i] && bounds[1..][i] == bounds[i + 1];
        }
      }
      b
  }

  /** With ascending boundaries, v goes to the default bucket exactly when it is out of range. */
  lemma BucketOfOther(v: int, bounds: seq<int>)
    requires Ascending(bounds) && |bounds| >= 2
    ensures BucketOf(v, bounds) == Other <==> v < bounds[0] || v >= bounds[|bounds| - 1]
  {
  }

  function BucketKey(bounds: seq<int>): int -> BucketId
  {
    v => BucketOf(v, bounds)
  }

  /** Every bucket that `$bucket` may emit, in output order: one per interval, then the default. */
  function BucketIds(bounds: seq<int>): (ids: seq<BucketId>)
    requires |bounds| >= 2
    ensures forall v :: BucketOf(v, bounds) in ids
  {
    Project(bounds[..|bounds| - 1], (b: int) => Lower(b)) + [Other]
  }

  /** A bucket together with the number of values that fall into it. */
  function CountIn(vs: seq<int>, bounds: seq<int>): BucketId -> BucketRow
  {
    id => BucketRow(id, |Match(vs, KeyIs(BucketKey(bounds), id))|)
  }

  function NonEmpty(r: BucketRow): bool { r.count > 0 }

  function RowCount(r: BucketRow): nat { r.count }

  /**
   * `$bucket` with `output: { count: { $sum: 1 } }`: one row per non-empty
   * bucket, holding the number of values that fall into it.
   */
  function Bucket(vs: seq<int>, bounds: seq<int>): (rows: seq<BucketRow>)
    requires |bounds| >= 2
    ensures forall r :: r in rows ==> r.count > 0
    ensures forall r :: r in rows ==> r.count == |Match(vs, KeyIs(BucketKey(bounds), r.id))|
    ensures forall v :: v in vs ==> exists r :: r in rows && r.id == BucketOf(v, bounds)
  {
    var ids := BucketIds(bounds);
    var all := Project(ids, CountIn(vs, bounds));
    var rows := Match(all, NonEmpty);
    assert forall r :: r in rows ==> r.count == |Match(vs, KeyIs(BucketKey(bounds), r.id))| by {
      forall r | r in rows ensures r.count == |Match(vs, KeyIs(BucketKey(bounds), r.id))| {
        var i :| 0 <= i < |all| && all[i] == r;
      }
    }
    assert forall v :: v in vs ==> exists r :: r in rows && r.id == BucketOf(v, bounds) by {
      forall v | v in vs ensures exists r :: r in rows && r.id == BucketOf(v, bounds) {
        var b := BucketOf(v, bounds);
        var i :| 0 <= i < |ids| && ids[i] == b;
        assert v in Match(vs, KeyIs(BucketKey(bounds), b));
        assert all[i] in rows;
      }
    }
    rows
  }

  /** With ascending boundaries no bucket is listed twice. */
  lemma BucketIdsDistinct(bounds: seq<int>)
    requires Ascending(bounds) && |bounds| >= 2
    ensures var ids := BucketIds(bounds); forall i, j :: 0 <= i < j < |ids| ==> ids[i] != ids[j]
  {
    var ids := BucketIds(bounds);
    var lows := Project(bounds[..|bounds| - 1], (b: int) => Lower(b));
    assert ids == lows + [Other];
    forall i, j | 0 <= i < j < |ids| ensures ids[i] != ids[j] {
      if j < |lows| {
        assert ids[i] == Lower(bounds[i]) && ids[j] == Lower(bounds[j]);
      }
    }
  }

  /** Adding up the counts of distinct buckets counts the values that fall into any of them. */
  lemma {:induction false} SumCountIn(vs: seq<int>, bounds: seq<int>, ids: seq<BucketId>)
    requires forall i, j :: 0 <= i < j < |ids| ==> ids[i] != ids[j]
    ensures Sum(Project(ids, CountIn(vs, bounds)), RowCount) == |Match(vs, KeyIn(BucketKey(bounds), ids))|
  {
    var key := BucketKey(bounds);
    if ids == [] {
      MatchNone(vs, KeyIn(key, ids));
    } else {
      var rest := ids[1..];
      assert ids == [ids[0]] + rest;
      SumCountIn(vs, bounds, rest);
      assert Project(ids, CountIn(vs, bounds))[1..] == Project(rest, CountIn(vs, bounds));
      assert forall v :: v in vs ==> !(KeyIs(key, ids[0])(v) && KeyIn(key, rest)(v));
      MatchDisjointUnion(vs, KeyIs(key, ids[0]), KeyIn(key, rest), KeyIn(key, ids));
    }
  }

  /** Every value lands in exactly one emitted bucket: the counts add up to the number of values. */
  lemma BucketTotal(vs: seq<int>, bounds: seq<int>)
    requires Ascending(bounds) && |bounds| >= 2
    ensures Sum(Bucket(vs, bounds), RowCount) == |vs|
  {
    var ids := BucketIds(bounds);
    var all := Project(ids, CountIn(vs, bounds));
    SumMatchZeros(all, NonEmpty, RowCount);
    BucketIdsDistinct(bounds);
    SumCountIn(vs, bounds, ids);
    MatchAll(vs, KeyIn(BucketKey(bounds), ids));
  }
}
