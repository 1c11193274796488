/** The standings record and the sort-then-rank pipeline both standings
    transforms share.

    `Array.prototype.sort` is stable, so for a comparator that is a strict
    weak order its result is the unique stable sorted permutation of the
    input; `Sort` computes that permutation by insertion. Each transform
    chooses its comparator through an `Order` value.
 */
module Ranking {
  import opened Wrappers

  /** One team's row of a standings table. `userId` and `displayName` are
      absent from the records one of the transforms builds. */
  datatype Standing = Standing(
    rosterId: nat,
    userId: Option<string>,
    displayName: Option<string>,
    teamName: string,
    wins: nat,
    losses: nat,
    ties: nat,
    pointsFor: int,
    pointsAgainst: int,
    winPct: real,
    rank: nat)

  /** A league member, as the users endpoint returns it. */
  datatype User = User(userId: string, displayName: Option<string>, username: Option<string>, teamName: Option<string>)

  /** The two sort orders in the code base. */
  datatype Order =
    | WinsThenPoints            // wins, then points for
    | WinsThenPctThenPoints     // wins, then win percentage, then points for

  /** A share of a positive whole lies between 0 and 1. */
  lemma RatioBounds(part: real, whole: real)
    requires 0.0 <= part <= whole && whole > 0.0
    ensures 0.0 <= part / whole <= 1.0
  {
    assert part / whole * whole == part;
  }

  /** `a` sorts strictly before `b` (the comparator returns a negative number). */
  predicate Before(o: Order, a: Standing, b: Standing)
  {
    match o
    case WinsThenPoints =>
      a.wins > b.wins || (a.wins == b.wins && a.pointsFor > b.pointsFor)
    case WinsThenPctThenPoints =>
      a.wins > b.wins
      || (a.wins == b.wins && (a.winPct > b.winPct || (a.winPct == b.winPct && a.pointsFor > b.pointsFor)))
  }

  /** Neither sorts before the other: the comparator returns 0. */
  predicate Tied(o: Order, a: Standing, b: Standing)
  {
    !Before(o, a, b) && !Before(o, b, a)
  }

  /** No later entry sorts strictly before an earlier one. */
  predicate Sorted(o: Order, s: seq<Standing>)
  {
    forall i, j | 0 <= i < j < |s| :: !Before(o, s[j], s[i])
  }

  /** `Before` is a strict weak order: asymmetric, and "not before" is transitive. */
  lemma BeforeIsStrictWeakOrder(o: Order, a: Standing, b: Standing, c: Standing)
    ensures Before(o, a, b) ==> !Before(o, b, a)
    ensures !Before(o, a, b) && !Before(o, b, c) ==> !Before(o, a, c)
  {
  }

  /** Percentages within [0, 1] stay so when the rows are permuted and re-ranked. */
  lemma PctBoundsKept(s: seq<Standing>, t: seq<Standing>)
    requires multiset(Unranked(t)) == multiset(s)
    requires forall k | 0 <= k < |s| :: 0.0 <= s[k].winPct <= 1.0
    ensures forall i | 0 <= i < |t| :: 0.0 <= t[i].winPct <= 1.0
  {
    forall i | 0 <= i < |t|
      ensures 0.0 <= t[i].winPct <= 1.0
    {
      assert Unranked(t)[i] in multiset(s);
    }
  }

  /** A first entry that sorts before `x` stays ahead of a sorted sequence holding `x` and the rest. */
  lemma SortedBehind(o: Order, a: Standing, x: Standing, t: seq<Standing>, rest: seq<Standing>)
    requires Before(o, a, x) && Sorted(o, [a] + t) && Sorted(o, rest)
    requires multiset(rest) == multiset(t) + multiset{x}
    ensures Sorted(o, [a] + rest)
  {
    var r := [a] + rest;
    forall i, j | 0 <= i < j < |r|
      ensures !Before(o, r[j], r[i])
    {
      if i == 0 {
        assert r[j] == rest[j - 1] && r[j] in multiset(rest);
        if r[j] == x {
          BeforeIsStrictWeakOrder(o, a, x, x);
        } else {
          assert r[j] in multiset(t);
          var k :| 0 <= k < |t| && t[k] == r[j];
          assert ([a] + t)[0] == a && ([a] + t)[k + 1] == r[j];
        }
      } else {
        assert r[i] == rest[i - 1] && r[j] == rest[j - 1];
      }
    }
  }

  /** An entry that no first entry sorts before can go in front of a sorted sequence. */
  lemma SortedFront(o: Order, x: Standing, s: seq<Standing>)
    requires Sorted(o, s) && (|s| == 0 || !Before(o, s[0], x))
    ensures Sorted(o, [x] + s)
  {
    var r := [x] + s;
    forall i, j | 0 <= i < j < |r|
      ensures !Before(o, r[j], r[i])
    {
      if i == 0 {
        BeforeIsStrictWeakOrder(o, r[j], s[0], x);
      } else {
        assert r[i] == s[i - 1] && r[j] == s[j - 1];
      }
    }
  }

  /** Inserts `x` after every entry that sorts strictly before it. */
  function Insert(o: Order, x: Standing, s: seq<Standing>): (r: seq<Standing>)
    ensures multiset(r) == multiset(s) + multiset{x}
    ensures |r| == |s| + 1
    ensures Sorted(o, s) ==> Sorted(o, r)
  {
    if |s| == 0 then [x]
    else if Before(o, s[0], x) then
      var rest := Insert(o, x, s[1..]);
      assert s == [s[0]] + s[1..];
      if Sorted(o, s) then
        assert Sorted(o, s[1..]);
        SortedBehind(o, s[0], x, s[1..], rest);
        [s[0]] + rest
      else [s[0]] + rest
    else
      if Sorted(o, s) then
        SortedFront(o, x, s);
        [x] + s
      else [x] + s
  }

  /** Stable sort: a sorted permutation of the input. */
  function Sort(o: Order, s: seq<Standing>): (r: seq<Standing>)
    ensures multiset(r) == multiset(s)
    ensures |r| == |s|
    ensures Sorted(o, r)
  {
    if |s| == 0 then []
    else
      assert s == [s[0]] + s[1..];
      Insert(o, s[0], Sort(o, s[1..]))
  }

  /** Numbers the rows by position, starting at 1; nothing else in a row changes. */
  function AssignRanks(s: seq<Standing>): (r: seq<Standing>)
    ensures |r| == |s|
    ensures forall i | 0 <= i < |s| :: r[i] == s[i].(rank := i + 1)
  {
    seq(|s|, i requires 0 <= i < |s| => s[i].(rank := i + 1))
  }

  /** The records with their rank cleared, as the map step builds them. */
  function Unranked(s: seq<Standing>): (r: seq<Standing>)
    ensures |r| == |s|
    ensures forall i | 0 <= i < |s| :: r[i] == s[i].(rank := 0)
  {
    seq(|s|, i requires 0 <= i < |s| => s[i].(rank := 0))
  }

  predicate AllUnranked(s: seq<Standing>)
  {
    forall i | 0 <= i < |s| :: s[i].rank == 0
  }

  /** Sort, then number the rows from 1. */
  function SortAndRank(o: Order, s: seq<Standing>): (r: seq<Standing>)
    requires AllUnranked(s)
    ensures |r| == |s|
    ensures forall i | 0 <= i < |r| :: r[i].rank == i + 1
    ensures Sorted(o, r)
    ensures multiset(Unranked(r)) == multiset(s)
  {
    var sorted := Sort(o, s);
    var r := AssignRanks(sorted);
    forall i | 0 <= i < |sorted|
      ensures sorted[i].rank == 0
    {
      assert sorted[i] in multiset(s);
    }
    assert Unranked(r) == sorted;
    r
  }

  // ---------------------------------------------------------------------------
  // Stability and idempotence
  // ---------------------------------------------------------------------------

  /** The entries of `s` tied with `k`, in order. */
  function TiedWith(o: Order, s: seq<Standing>, k: Standing): seq<Standing>
  {
    if |s| == 0 then [] else (if Tied(o, s[0], k) then [s[0]] else []) + TiedWith(o, s[1..], k)
  }

  /** `TiedWith` of a sequence with a known first entry. */
  lemma TiedWithCons(o: Order, a: Standing, t: seq<Standing>, k: Standing)
    ensures TiedWith(o, [a] + t, k) == (if Tied(o, a, k) then [a] else []) + TiedWith(o, t, k)
  {
    assert ([a] + t)[1..] == t;
  }

  /** Inserting behind a first entry that sorts strictly before the new one. */
  lemma InsertCons(o: Order, x: Standing, s: seq<Standing>)
    requires |s| > 0 && Before(o, s[0], x)
    ensures Insert(o, x, s) == [s[0]] + Insert(o, x, s[1..])
  {
  }

  /** Inserting in front when nothing sorts strictly before the new entry. */
  lemma InsertFront(o: Order, x: Standing, s: seq<Standing>)
    requires |s| == 0 || !Before(o, s[0], x)
    ensures Insert(o, x, s) == [x] + s
  {
    if |s| == 0 {
      assert [x] + s == [x];
    }
  }

  /** Two entries one of which sorts strictly before the other are never both tied with a third. */
  lemma NotBothTied(o: Order, a: Standing, x: Standing, k: Standing)
    requires Before(o, a, x)
    ensures !(Tied(o, a, k) && Tied(o, x, k))
  {
    BeforeIsStrictWeakOrder(o, a, k, x);
    BeforeIsStrictWeakOrder(o, k, a, x);
    BeforeIsStrictWeakOrder(o, a, x, k);
  }

  /** Two optional singletons of which at most one is present commute in front of a sequence. */
  lemma SwapOptional(a: Standing, x: Standing, tt: seq<Standing>, ta: bool, tx: bool)
    requires !(ta && tx)
    ensures (if ta then [a] else []) + ((if tx then [x] else []) + tt)
         == (if tx then [x] else []) + ((if ta then [a] else []) + tt)
  {
    if !ta {
      assert [] + ((if tx then [x] else []) + tt) == (if tx then [x] else []) + tt;
      assert [] + tt == tt;
    } else {
      assert [] + ([a] + tt) == [a] + tt;
    }
  }

  /** Inserting keeps the entries tied with `k` in the order they have with the new entry in front. */
  lemma {:induction false} InsertStable(o: Order, x: Standing, s: seq<Standing>, k: Standing)
    ensures TiedWith(o, Insert(o, x, s), k) == TiedWith(o, [x] + s, k)
  {
    if |s| > 0 && Before(o, s[0], x) {
      var a, t := s[0], s[1..];
      assert s == [a] + t;
      InsertCons(o, x, s);
      InsertStable(o, x, t, k);
      TiedWithCons(o, a, Insert(o, x, t), k);
      TiedWithCons(o, x, t, k);
      TiedWithCons(o, x, s, k);
      TiedWithCons(o, a, t, k);
      NotBothTied(o, a, x, k);
      SwapOptional(a, x, TiedWith(o, t, k), Tied(o, a, k), Tied(o, x, k));
    } else {
      InsertFront(o, x, s);
    }
  }

  /** Entries that tie keep their input order. */
  lemma {:induction false} SortStable(o: Order, s: seq<Standing>, k: Standing)
    ensures TiedWith(o, Sort(o, s), k) == TiedWith(o, s, k)
  {
    if |s| > 0 {
      SortStable(o, s[1..], k);
      InsertStable(o, s[0], Sort(o, s[1..]), k);
      var t := Sort(o, s[1..]);
      assert ([s[0]] + t)[1..] == t;
      assert s == [s[0]] + s[1..];
    }
  }

  /** Ranking keeps tied entries in their input order. */
  lemma RankStable(o: Order, s: seq<Standing>, k: Standing)
    requires AllUnranked(s)
    ensures TiedWith(o, Unranked(SortAndRank(o, s)), k) == TiedWith(o, s, k)
  {
    var sorted := Sort(o, s);
    SortStable(o, s, k);
    forall i | 0 <= i < |sorted|
      ensures sorted[i].rank == 0
    {
      assert sorted[i] in multiset(s);
    }
    assert Unranked(SortAndRank(o, s)) == sorted;
  }

  /** Sorting an already sorted sequence changes nothing. */
  lemma {:induction false} SortOfSorted(o: Order, s: seq<Standing>)
    requires Sorted(o, s)
    ensures Sort(o, s) == s
  {
    if |s| > 0 {
      assert Sorted(o, s[1..]);
      SortOfSorted(o, s[1..]);
      if |s| > 1 {
        assert !Before(o, s[1], s[0]);
      }
      assert s == [s[0]] + s[1..];
    }
  }

  /** Ranking an already ranked table again yields the same table. */
  lemma RankIdempotent(o: Order, s: seq<Standing>)
    requires AllUnranked(s)
    ensures var r := SortAndRank(o, s);
            Sort(o, r) == r && AssignRanks(Sort(o, r)) == r
  {
    var r := SortAndRank(o, s);
    SortOfSorted(o, r);
  }

  lemma SortOne(o: Order, z: Standing)
    ensures Sort(o, [z]) == [z]
  {
    assert [z][1..] == [];
  }

  /** Two rows where the second beats the first swap places. */
  lemma SortTwo(o: Order, x: Standing, y: Standing)
    requires Before(o, y, x)
    ensures Sort(o, [x, y]) == [y, x]
  {
    SortOne(o, y);
    assert [x, y][1..] == [y];
    assert [y][1..] == [];
  }

  lemma InsertBeforeTwo(o: Order, x: Standing, y: Standing, z: Standing)
    requires Before(o, y, x) && !Before(o, z, x)
    ensures Insert(o, x, [y, z]) == [y, x, z]
  {
    assert [y, z][1..] == [z];
  }

  /** Three rows where the second beats the first and the third beats neither. */
  lemma SortThree(o: Order, x: Standing, y: Standing, z: Standing)
    requires Before(o, y, x) && !Before(o, z, x) && !Before(o, z, y)
    ensures Sort(o, [x, y, z]) == [y, x, z]
  {
    SortOne(o, z);
    assert [y, z][1..] == [z];
    assert Insert(o, y, [z]) == [y, z];
    assert Sort(o, [y, z]) == [y, z];
    InsertBeforeTwo(o, x, y, z);
    assert [x, y, z][1..] == [y, z];
  }

  // ---------------------------------------------------------------------------
  // User lookup
  // ---------------------------------------------------------------------------

  /** No later user in `users` has the id of `users[k]`. */
  predicate LastWithId(users: seq<User>, k: int)
    requires 0 <= k < |users|
  {
    forall j | k < j < |users| :: users[j].userId != users[k].userId
  }

  /** The position of the last user with id `id`, or -1 when there is none. */
  function LastIndex(users: seq<User>, id: string): (k: int)
    ensures -1 <= k < |users|
    ensures k >= 0 ==> users[k].userId == id && LastWithId(users, k)
    ensures k < 0 ==> forall j | 0 <= j < |users| :: users[j].userId != id
  {
    if |users| == 0 then -1
    else if users[|users| - 1].userId == id then |users| - 1
    else
      var init := users[..|users| - 1];
      var k := LastIndex(init, id);
      assert forall j | 0 <= j < |init| :: init[j] == users[j];
      k
  }

  /** The user lookup built by storing each user under its id in turn: every id maps to the last user carrying it. */
  function IndexUsers(users: seq<User>): (m: map<string, User>)
    ensures forall k | 0 <= k < |users| :: users[k].userId in m
    ensures forall id | id in m :: m[id] in users && m[id].userId == id
    ensures forall k | 0 <= k < |users| && LastWithId(users, k) :: m[users[k].userId] == users[k]
  {
    var ids := set k | 0 <= k < |users| :: users[k].userId;
    var m := map id | id in ids :: users[if 0 <= LastIndex(users, id) then LastIndex(users, id) else 0];
    forall k | 0 <= k < |users| && LastWithId(users, k)
      ensures m[users[k].userId] == users[k]
    {
      var last := LastIndex(users, users[k].userId);
      assert last == k;
    }
    m
  }
}
