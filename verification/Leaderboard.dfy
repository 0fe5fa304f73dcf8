/**
 Paged ranks of the leaderboard (`get_leaderboard` and `rank_of` in api/models/xp.py). Every page is a query of its
 own, so pages make up one ranking exactly where the query's order leaves the database no choice.
 */
module Leaderboard {
  import opened Ids
  import opened Options

  /** The sum of a participant's XP and their last update, as the query groups them. */
  datatype Score = Score(xp: int, updated: Time)
  type Scores = map<UserId, Score>
  datatype Ranked = Ranked(user: UserId, xp: int, rank: nat)

  /** `published_participants`: without a snapshot everybody is compared. */
  function Compared(all: Scores, participants: Option<set<UserId>>): Scores {
    if participants.None? then all else map u | u in all && u in participants.value :: all[u]
  }

  /** With a snapshot exactly its participants are compared, with their own scores. */
  lemma SnapshotIsExact(all: Scores, participants: set<UserId>, u: UserId)
    ensures u in Compared(all, Some(participants)) <==> u in all && u in participants
    ensures u in Compared(all, Some(participants)) ==> Compared(all, Some(participants))[u] == all[u]
    ensures Compared(all, None) == all
  {}

  // ----- The order of the query ------------------------------------------------------------------------------------

  /** User ids in ascending order of code points. */
  predicate IdBefore(a: UserId, b: UserId) {
    b != "" && (a == "" || a[0] < b[0] || (a[0] == b[0] && IdBefore(a[1..], b[1..])))
  }

  /** ORDER BY the sum, highest first, then the last update and, for a published snapshot, the user id. */
  predicate Precedes(scores: Scores, byUser: bool, a: UserId, b: UserId)
    requires a in scores && b in scores
  {
    || scores[a].xp > scores[b].xp
    || (scores[a].xp == scores[b].xp
        && (scores[a].updated < scores[b].updated
            || (scores[a].updated == scores[b].updated && (byUser ==> a == b || IdBefore(a, b)))))
  }

  predicate IsDistinct<T(==)>(s: seq<T>) {
    forall i, j | 0 <= i < j < |s| :: s[i] != s[j]
  }

  /** An answer the database may give: every participant once, in the order of the query. */
  ghost predicate IsListing(scores: Scores, byUser: bool, list: seq<UserId>) {
    && IsDistinct(list) && (forall u :: u in list <==> u in scores)
    && IsSorted(scores, byUser, list)
  }

  predicate IsSorted(scores: Scores, byUser: bool, list: seq<UserId>)
    requires forall u | u in list :: u in scores
  {
    forall i, j | 0 <= i < j < |list| :: Precedes(scores, byUser, list[i], list[j])
  }

  /** No two participants share both the sum and the instant of the last update. */
  predicate HasNoTies(scores: Scores) {
    forall a, b | a in scores && b in scores && scores[a] == scores[b] :: a == b
  }

  lemma {:induction false} IdsAreOrdered(a: UserId, b: UserId, c: UserId)
    ensures !(IdBefore(a, b) && IdBefore(b, a))
    ensures a == b || IdBefore(a, b) || IdBefore(b, a)
    ensures IdBefore(a, b) && IdBefore(b, c) ==> IdBefore(a, c)
  {
    if a != "" && b != "" && a[0] == b[0] {
      assert a == [a[0]] + a[1..] && b == [b[0]] + b[1..];
      IdsAreOrdered(a[1..], b[1..], if c != "" then c[1..] else "");
    }
  }

  lemma SomeElement<T>(s: seq<T>)
    ensures s != [] ==> exists x :: x in s
  {
    if s != [] { assert s[0] in s; }
  }

  lemma {:induction false} HeadsAgree(scores: Scores, byUser: bool, x: seq<UserId>, y: seq<UserId>)
    requires byUser || HasNoTies(scores)
    requires forall u | u in x :: u in scores
    requires IsDistinct(x) && IsDistinct(y) && forall u :: u in x <==> u in y
    requires IsSorted(scores, byUser, x) && IsSorted(scores, byUser, y)
    ensures x == y
  {
    if x == [] {
      SomeElement(y);
    } else {
      assert x[0] in y && y != [] && y[0] in x;
      if x[0] != y[0] {
        assert Precedes(scores, byUser, x[0], y[0]) && Precedes(scores, byUser, y[0], x[0]);
        IdsAreOrdered(x[0], y[0], x[0]);
      }
      TailHolds(x, y);
      HeadsAgree(scores, byUser, x[1..], y[1..]);
    }
  }

  lemma TailHolds(x: seq<UserId>, y: seq<UserId>)
    requires x != [] && y != [] && x[0] == y[0] && IsDistinct(x) && IsDistinct(y) && forall u :: u in x <==> u in y
    ensures forall u :: u in x[1..] <==> u in y[1..]
  {
    forall u ensures u in x[1..] <==> u in x && u != x[0] {}
    forall u ensures u in y[1..] <==> u in y && u != y[0] {}
  }

  /** Where the order is total on the participants, the database has one answer only. */
  lemma ListingIsUnique(scores: Scores, byUser: bool, x: seq<UserId>, y: seq<UserId>)
    requires (byUser || HasNoTies(scores)) && IsListing(scores, byUser, x) && IsListing(scores, byUser, y)
    ensures x == y
  {
    HeadsAgree(scores, byUser, x, y);
  }

  /** There is always an answer. */
  lemma ListingExists(scores: Scores, byUser: bool) returns (list: seq<UserId>)
    ensures IsListing(scores, byUser, list)
  {
    list := SortedListing(scores, byUser, scores.Keys);
  }

  lemma {:induction false} SortedListing(scores: Scores, byUser: bool, users: set<UserId>) returns (list: seq<UserId>)
    requires users <= scores.Keys
    ensures IsDistinct(list) && (forall u :: u in list <==> u in users) && IsSorted(scores, byUser, list)
    decreases users
  {
    if users == {} {
      list := [];
    } else {
      var u :| u in users;
      var rest := SortedListing(scores, byUser, users - {u});
      list := Insert(scores, byUser, rest, u);
    }
  }

  lemma {:induction false} Insert(scores: Scores, byUser: bool, list: seq<UserId>, u: UserId) returns (more: seq<UserId>)
    requires u in scores && u !in list && (forall v | v in list :: v in scores)
    requires IsDistinct(list) && IsSorted(scores, byUser, list)
    ensures IsDistinct(more) && (forall v :: v in more <==> v in list || v == u) && IsSorted(scores, byUser, more)
  {
    if list == [] {
      more := [u];
    } else {
      IdsAreOrdered(u, list[0], u);
      if Precedes(scores, byUser, u, list[0]) {
        forall v | v in list[1..] ensures Precedes(scores, byUser, u, v) {
          assert Precedes(scores, byUser, list[0], v);
          IdsAreOrdered(u, list[0], v);
        }
        more := [u] + list;
        ConsIsDistinct(u, list);
      } else {
        var rest := Insert(scores, byUser, list[1..], u);
        more := [list[0]] + rest;
        forall v | v in rest ensures Precedes(scores, byUser, list[0], v) && v != list[0] {}
        ConsIsDistinct(list[0], rest);
      }
    }
  }

  lemma ConsIsDistinct<T>(head: T, tail: seq<T>)
    requires IsDistinct(tail) && head !in tail
    ensures IsDistinct([head] + tail)
  {
    var s := [head] + tail;
    forall i, j | 0 <= i < j < |s| ensures s[i] != s[j] {
      assert s[j] == tail[j - 1];
      if i > 0 { assert s[i] == tail[i - 1]; }
    }
  }

  // ----- Ranks -----------------------------------------------------------------------------------------------------

  function Better(scores: Scores, xp: int): set<UserId> {
    set u | u in scores && scores[u].xp > xp
  }

  /** `rank_of`: one more than the participants with strictly more XP. */
  function RankOf(scores: Scores, xp: int): nat {
    |Better(scores, xp)| + 1
  }

  /** The whole ranking in the order of a listing. */
  function Ranking(scores: Scores, list: seq<UserId>): (ranking: seq<Ranked>)
    requires forall u | u in list :: u in scores
    ensures |ranking| == |list|
    ensures forall i | 0 <= i < |list| :: ranking[i] == Ranked(list[i], scores[list[i]].xp, RankOf(scores, scores[list[i]].xp))
  {
    seq(|list|, i requires 0 <= i < |list| => Ranked(list[i], scores[list[i]].xp, RankOf(scores, scores[list[i]].xp)))
  }

  /** LIMIT and OFFSET of a query. */
  function Page<T>(s: seq<T>, limit: nat, offset: nat): seq<T> {
    if offset >= |s| then [] else if offset + limit >= |s| then s[offset..] else s[offset..offset + limit]
  }

  /** Where the XP drop in a listing, the position is the number of participants with strictly more. */
  lemma AboveIsPosition(scores: Scores, byUser: bool, list: seq<UserId>, i: nat)
    requires IsListing(scores, byUser, list) && 0 < i < |list| && scores[list[i - 1]].xp > scores[list[i]].xp
    ensures RankOf(scores, scores[list[i]].xp) == i + 1
  {
    var better := Better(scores, scores[list[i]].xp);
    forall u ensures u in better <==> u in list[..i] {
      if u in scores {
        var k :| 0 <= k < |list| && list[k] == u;
        if k < i {
          assert list[..i][k] == u;
          if k < i - 1 { assert Precedes(scores, byUser, list[k], list[i - 1]); }
        } else if k > i {
          assert Precedes(scores, byUser, list[i], list[k]);
        }
      }
    }
    DistinctCount(list[..i], better);
  }

  lemma {:induction false} DistinctCount(s: seq<UserId>, elements: set<UserId>)
    requires IsDistinct(s) && forall u :: u in elements <==> u in s
    ensures |elements| == |s|
  {
    if s == [] {
      assert elements == {};
    } else {
      forall u ensures u in elements - {s[0]} <==> u in s[1..] {}
      DistinctCount(s[1..], elements - {s[0]});
    }
  }

  /** Along a listing the XP never rise, and where they drop the rank is the position. */
  lemma NextRank(scores: Scores, byUser: bool, list: seq<UserId>, i: nat)
    requires IsListing(scores, byUser, list) && 0 < i < |list|
    ensures scores[list[i]].xp <= scores[list[i - 1]].xp
    ensures scores[list[i]].xp < scores[list[i - 1]].xp ==> RankOf(scores, scores[list[i]].xp) == i + 1
  {
    assert Precedes(scores, byUser, list[i - 1], list[i]);
    if scores[list[i]].xp < scores[list[i - 1]].xp { AboveIsPosition(scores, byUser, list, i); }
  }

  /** The first rows of a page with their ranks. */
  ghost predicate IsRanked(scores: Scores, rows: seq<UserId>, out: seq<Ranked>, count: nat)
    requires count <= |rows| && forall u | u in rows :: u in scores
  {
    && |out| == count
    && forall j {:trigger out[j]} | 0 <= j < count ::
         out[j] == Ranked(rows[j], scores[rows[j]].xp, RankOf(scores, scores[rows[j]].xp))
  }

  /**
   `get_leaderboard`: the loop asks for the rank of the first row alone and counts on from there; every page is that
   page of the whole ranking, in the order of whatever answer the query got.
   */
  method GetLeaderboard(all: Scores, participants: Option<set<UserId>>, list: seq<UserId>, limit: nat, offset: nat)
    returns (out: seq<Ranked>)
    requires IsListing(Compared(all, participants), participants.Some?, list)
    ensures out == Page(Ranking(Compared(all, participants), list), limit, offset)
  {
    var scores := Compared(all, participants);
    var rows := Page(list, limit, offset);
    PageRows(list, limit, offset);
    var rankXp := if rows != [] then scores[rows[0]].xp else 0;
    var rank := RankOf(scores, rankXp);
    out := [];
    for i := 0 to |rows|
      invariant IsRanked(scores, rows, out, i) && rank == RankOf(scores, rankXp)
      invariant rows != [] ==> rankXp == scores[rows[if i > 0 then i - 1 else 0]].xp
    {
      var xp := scores[rows[i]].xp;
      if i > 0 { NextRank(scores, participants.Some?, list, offset + i); }
      if xp < rankXp {
        rank := offset + i + 1;
        rankXp := xp;
      }
      out := out + [Ranked(rows[i], xp, rank)];
    }
    RankedIsPage(scores, list, limit, offset, out);
  }

  lemma PageRows<T>(s: seq<T>, limit: nat, offset: nat)
    ensures forall j {:trigger Page(s, limit, offset)[j]} | 0 <= j < |Page(s, limit, offset)| ::
              offset + j < |s| && Page(s, limit, offset)[j] == s[offset + j]
  {}

  lemma RankedIsPage(scores: Scores, list: seq<UserId>, limit: nat, offset: nat, out: seq<Ranked>)
    requires forall u | u in list :: u in scores
    requires (forall u | u in Page(list, limit, offset) :: u in scores)
    requires IsRanked(scores, Page(list, limit, offset), out, |Page(list, limit, offset)|)
    ensures out == Page(Ranking(scores, list), limit, offset)
  {
    var rows := Page(list, limit, offset);
    PageRows(list, limit, offset);
    PageRows(Ranking(scores, list), limit, offset);
    forall j | 0 <= j < |rows| ensures out[j] == Page(Ranking(scores, list), limit, offset)[j] {}
  }

  // ----- Pages of separate queries -----------------------------------------------------------------------------------

  /** A ranking that a query may see: that of some answer of the database. */
  ghost predicate IsRanking(scores: Scores, byUser: bool, ranking: seq<Ranked>) {
    exists list :: IsListing(scores, byUser, list) && ranking == Ranking(scores, list)
  }

  /** One request for a page: the ranking that its query sees, and how many rows it takes. */
  datatype Query = Query(ranking: seq<Ranked>, limit: nat)

  ghost predicate AreRankings(scores: Scores, byUser: bool, queries: seq<Query>) {
    forall i | 0 <= i < |queries| :: IsRanking(scores, byUser, queries[i].ranking)
  }

  /** What a reader of consecutive pages sees. */
  function Read(queries: seq<Query>, offset: nat): seq<Ranked> {
    if queries == [] then []
    else Page(queries[0].ranking, queries[0].limit, offset) + Read(queries[1..], offset + queries[0].limit)
  }

  function Rows(queries: seq<Query>): nat {
    if queries == [] then 0 else queries[0].limit + Rows(queries[1..])
  }

  lemma {:induction false} PagesOfOne(queries: seq<Query>, ranking: seq<Ranked>, offset: nat)
    requires forall i | 0 <= i < |queries| :: queries[i].ranking == ranking
    ensures Read(queries, offset) == Page(ranking, Rows(queries), offset)
  {
    if queries != [] {
      PagesOfOne(queries[1..], ranking, offset + queries[0].limit);
      PagesJoin(ranking, queries[0].limit, Rows(queries[1..]), offset);
    }
  }

  lemma PagesJoin<T>(s: seq<T>, first: nat, second: nat, offset: nat)
    ensures Page(s, first, offset) + Page(s, second, offset + first) == Page(s, first + second, offset)
  {}

  /** Where the order is total, consecutive pages of separate queries make up the one ranking. */
  lemma PagesConcatenate(scores: Scores, byUser: bool, queries: seq<Query>, ranking: seq<Ranked>, offset: nat)
    requires (byUser || HasNoTies(scores)) && AreRankings(scores, byUser, queries) && IsRanking(scores, byUser, ranking)
    ensures Read(queries, offset) == Page(ranking, Rows(queries), offset)
  {
    var list :| IsListing(scores, byUser, list) && ranking == Ranking(scores, list);
    forall i | 0 <= i < |queries| ensures queries[i].ranking == ranking {
      var other :| IsListing(scores, byUser, other) && queries[i].ranking == Ranking(scores, other);
      ListingIsUnique(scores, byUser, other, list);
    }
    PagesOfOne(queries, ranking, offset);
  }

  /** Whatever answers the queries get, their consecutive pages make up each whole ranking. */
  ghost predicate PagesFit(scores: Scores, byUser: bool) {
    forall queries, ranking {:trigger AreRankings(scores, byUser, queries), IsRanking(scores, byUser, ranking)}
      | AreRankings(scores, byUser, queries) && IsRanking(scores, byUser, ranking) ::
      Read(queries, 0) == Page(ranking, Rows(queries), 0)
  }

  /**
   Consecutive pages always make up the ranking if and only if they are ordered by user id as well, as those of a
   published snapshot are, or no two participants are tied.
   */
  lemma PagesFitExactly(all: Scores, participants: Option<set<UserId>>)
    ensures var scores := Compared(all, participants);
            PagesFit(scores, participants.Some?) <==> participants.Some? || HasNoTies(scores)
  {
    var scores, byUser := Compared(all, participants), participants.Some?;
    if byUser || HasNoTies(scores) {
      forall queries, ranking | AreRankings(scores, byUser, queries) && IsRanking(scores, byUser, ranking)
        ensures Read(queries, 0) == Page(ranking, Rows(queries), 0)
      {
        PagesConcatenate(scores, byUser, queries, ranking, 0);
      }
    } else {
      var a, b :| a in scores && b in scores && scores[a] == scores[b] && a != b;
      var list := ListingExists(scores, false);
      var i :| 0 <= i < |list| && list[i] == a;
      var j :| 0 <= j < |list| && list[j] == b;
      TiedPagesRepeat(scores, list, if i < j then i else j, if i < j then j else i);
    }
  }

  lemma SwappedIsListing(scores: Scores, list: seq<UserId>, i: nat, j: nat)
    requires IsListing(scores, false, list) && i < j < |list| && scores[list[i]] == scores[list[j]]
    ensures IsListing(scores, false, list[i := list[j]][j := list[i]])
  {
    var swapped := list[i := list[j]][j := list[i]];
    forall u ensures u in swapped <==> u in list {
      if u in list {
        var k :| 0 <= k < |list| && list[k] == u;
        assert swapped[if k == i then j else if k == j then i else k] == u;
      }
    }
    forall k, l | 0 <= k < l < |list| ensures Precedes(scores, false, swapped[k], swapped[l]) {
      assert scores[swapped[k]] == scores[list[k]] && scores[swapped[l]] == scores[list[l]];
      assert Precedes(scores, false, list[k], list[l]);
    }
  }

  /** With a tie the second query may answer in another order, and its page repeats a row of the first. */
  lemma TiedPagesRepeat(scores: Scores, list: seq<UserId>, i: nat, j: nat)
    requires IsListing(scores, false, list) && i < j < |list| && scores[list[i]] == scores[list[j]]
    ensures !PagesFit(scores, false)
  {
    var swapped := list[i := list[j]][j := list[i]];
    SwappedIsListing(scores, list, i, j);
    DifferentRankings(scores, Ranking(scores, list), Ranking(scores, swapped), i + 1, j);
  }

  lemma DifferentRankings(scores: Scores, x: seq<Ranked>, y: seq<Ranked>, first: nat, j: nat)
    requires IsRanking(scores, false, x) && IsRanking(scores, false, y)
    requires |x| == |y| && first <= j < |x| && x[j] != y[j]
    ensures !PagesFit(scores, false)
  {
    var queries := [Query(x, first), Query(y, |y|)];
    ReadTwo(queries[0], queries[1]);
    MixedPages(x, y, first, j);
    assert Read(queries, 0) != Page(x, Rows(queries), 0);
    assert AreRankings(scores, false, queries);
  }

  lemma ReadTwo(a: Query, b: Query)
    ensures Rows([a, b]) == a.limit + b.limit
    ensures Read([a, b], 0) == Page(a.ranking, a.limit, 0) + Page(b.ranking, b.limit, a.limit)
  {
    assert [a, b][1..] == [b] && [b][1..] == [];
    assert Read([], a.limit + b.limit) == [] && Rows([]) == 0;
    assert Read([b], a.limit) == Page(b.ranking, b.limit, a.limit) && Rows([b]) == b.limit;
  }

  lemma MixedPages<T>(x: seq<T>, y: seq<T>, first: nat, j: nat)
    requires |x| == |y| && first <= j < |x|
    ensures |Page(x, first, 0) + Page(y, |y|, first)| == |Page(x, first + |x|, 0)| == |x|
    ensures (Page(x, first, 0) + Page(y, |y|, first))[j] == y[j] && Page(x, first + |x|, 0)[j] == x[j]
  {}

  const TIED: Scores := map["a" := Score(5, 1), "b" := Score(5, 1)]

  lemma TiedRanking(first: UserId, second: UserId)
    requires first != second && first in TIED && second in TIED
    ensures IsRanking(TIED, false, [Ranked(first, 5, 1), Ranked(second, 5, 1)])
  {
    var list := [first, second];
    assert Better(TIED, 5) == {};
    assert IsListing(TIED, false, list);
    assert Ranking(TIED, list) == [Ranked(first, 5, 1), Ranked(second, 5, 1)];
  }

  /** Two tied learners without a published snapshot: pages of one row may show the one twice and the other never. */
  lemma TiedPair()
    ensures var a, b := Ranked("a", 5, 1), Ranked("b", 5, 1);
            && IsRanking(Compared(TIED, None), false, [a, b]) && IsRanking(Compared(TIED, None), false, [b, a])
            && Read([Query([a, b], 1), Query([b, a], 1)], 0) == [a, a]
  {
    var a, b := Ranked("a", 5, 1), Ranked("b", 5, 1);
    TiedRanking("a", "b");
    TiedRanking("b", "a");
    ReadTwo(Query([a, b], 1), Query([b, a], 1));
  }
}
