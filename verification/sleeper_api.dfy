/** The API service: the standings transform of `getLeagueStandings`, the
    five-minute response cache, and the collection of several leagues.

    Network calls are left to the caller: a fetch result is an `Option`
    input, and the clock is the parameter `now` (milliseconds). The cache is
    an immutable map value instead of a static mutable field.
 */
module SleeperApi {
  import opened Wrappers
  import opened Ranking
  import Text

  /** A roster as the rosters endpoint returns it; `ties` and the decimal parts may be missing. */
  datatype Roster = Roster(
    rosterId: nat,
    ownerId: string,
    wins: nat,
    losses: nat,
    ties: Option<nat>,
    fpts: int,
    fptsDecimal: Option<int>,
    fptsAgainst: int,
    fptsAgainstDecimal: Option<int>)

  /** A string that JavaScript treats as true: present and non-empty. */
  predicate Truthy(s: Option<string>)
  {
    s.Some? && s.value != ""
  }

  /** The team name: the user's team name, else their display name, else "Team <roster id>". */
  function TeamName(user: Option<User>, rosterId: nat): (r: string)
    ensures r != ""
    ensures user.Some? && Truthy(user.value.teamName) ==> r == user.value.teamName.value
    ensures (user.Some? && !Truthy(user.value.teamName) && Truthy(user.value.displayName))
              ==> r == user.value.displayName.value
    ensures (user.None? || (!Truthy(user.value.teamName) && !Truthy(user.value.displayName)))
              ==> r == "Team " + Text.NatToString(rosterId)
  {
    if user.Some? && Truthy(user.value.teamName) then user.value.teamName.value
    else if user.Some? && Truthy(user.value.displayName) then user.value.displayName.value
    else "Team " + Text.NatToString(rosterId)
  }

  /** Wins over games played, ties counting as games but not as wins; 0 before any game. */
  function WinPercentage(wins: nat, losses: nat, ties: nat): (r: real)
    ensures 0.0 <= r <= 1.0
    ensures wins + losses + ties == 0 ==> r == 0.0
    ensures wins + losses + ties > 0 ==> r * (wins + losses + ties) as real == wins as real
  {
    var total := wins + losses + ties;
    if total > 0 then
      var r := (wins as real) / (total as real);
      assert r * (total as real) == wins as real;
      RatioBounds(wins as real, total as real);
      r
    else 0.0
  }

  /** The record built for one roster before sorting: missing ties and decimals count as 0, and the rank is not yet set. */
  function ToStanding(roster: Roster, users: map<string, User>): (t: Standing)
    ensures t.rank == 0 && t.userId.None? && t.displayName.None?
    ensures t.rosterId == roster.rosterId && t.wins == roster.wins && t.losses == roster.losses
    ensures t.ties == roster.ties.GetOr(0)
    ensures t.teamName == TeamName(if roster.ownerId in users then Some(users[roster.ownerId]) else None, roster.rosterId)
    ensures t.winPct == WinPercentage(t.wins, t.losses, t.ties)
    ensures t.pointsFor == roster.fpts + roster.fptsDecimal.GetOr(0)
    ensures t.pointsAgainst == roster.fptsAgainst + roster.fptsAgainstDecimal.GetOr(0)
    ensures 0.0 <= t.winPct <= 1.0
  {
    var user := if roster.ownerId in users then Some(users[roster.ownerId]) else None;
    var ties := roster.ties.GetOr(0);
    Standing(
      roster.rosterId, None, None, TeamName(user, roster.rosterId),
      roster.wins, roster.losses, ties,
      roster.fpts + roster.fptsDecimal.GetOr(0),
      roster.fptsAgainst + roster.fptsAgainstDecimal.GetOr(0),
      WinPercentage(roster.wins, roster.losses, ties),
      0)
  }

  function MapRosters(rosters: seq<Roster>, users: map<string, User>): (s: seq<Standing>)
    ensures |s| == |rosters| && AllUnranked(s)
    ensures forall i | 0 <= i < |s| :: s[i] == ToStanding(rosters[i], users)
  {
    seq(|rosters|, i requires 0 <= i < |rosters| => ToStanding(rosters[i], users))
  }

  /** The standings of one league: one row per roster, ordered by wins and then
      points for (both descending), ranked 1, 2, 3, ... by position. */
  function LeagueStandings(rosters: seq<Roster>, users: seq<User>): (r: seq<Standing>)
    ensures |r| == |rosters|
    ensures forall i | 0 <= i < |r| :: r[i].rank == i + 1
    ensures forall i, j | 0 <= i < j < |r| ::
              r[i].wins > r[j].wins || (r[i].wins == r[j].wins && r[i].pointsFor >= r[j].pointsFor)
    ensures multiset(Unranked(r)) == multiset(MapRosters(rosters, IndexUsers(users)))
    ensures forall i | 0 <= i < |r| :: 0.0 <= r[i].winPct <= 1.0
  {
    var mapped := MapRosters(rosters, IndexUsers(users));
    var r := SortAndRank(WinsThenPoints, mapped);
    assert forall k | 0 <= k < |mapped| :: 0.0 <= mapped[k].winPct <= 1.0;
    PctBoundsKept(mapped, r);
    r
  }

  /** Empty input gives an empty table, not an error. */
  lemma NoRostersNoStandings(users: seq<User>)
    ensures LeagueStandings([], users) == []
  {
  }

  /** Rows tied on wins and points for keep the order the rosters came in. */
  lemma LeagueStandingsStable(rosters: seq<Roster>, users: seq<User>, k: Standing)
    ensures var mapped := MapRosters(rosters, IndexUsers(users));
            TiedWith(WinsThenPoints, Unranked(LeagueStandings(rosters, users)), k)
            == TiedWith(WinsThenPoints, mapped, k)
  {
    var mapped := MapRosters(rosters, IndexUsers(users));
    RankStable(WinsThenPoints, mapped, k);
    assert LeagueStandings(rosters, users) == SortAndRank(WinsThenPoints, mapped);
  }

  /** Every row of the table is the mapped record of one of the rosters, with its rank set. */
  lemma RowOrigin(rosters: seq<Roster>, users: seq<User>, i: nat) returns (j: nat)
    requires i < |rosters|
    ensures j < |rosters|
    ensures LeagueStandings(rosters, users)[i] == ToStanding(rosters[j], IndexUsers(users)).(rank := i + 1)
  {
    var r := LeagueStandings(rosters, users);
    var mapped := MapRosters(rosters, IndexUsers(users));
    assert Unranked(r)[i] in multiset(mapped);
    j :| 0 <= j < |mapped| && mapped[j] == Unranked(r)[i];
  }

  /** Three teams: a tie on wins is broken by points for. */
  lemma RankingExample()
    ensures var a := Roster(1, "a", 10, 3, Some(0), 1500, None, 0, None);
            var b := Roster(2, "b", 10, 3, Some(0), 1600, None, 0, None);
            var c := Roster(3, "c", 9, 4, Some(0), 1700, None, 0, None);
            var r := LeagueStandings([a, b, c], []);
            |r| == 3 && r[0].rosterId == 2 && r[1].rosterId == 1 && r[2].rosterId == 3
            && r[0].rank == 1 && r[1].rank == 2 && r[2].rank == 3
  {
    var a := Roster(1, "a", 10, 3, Some(0), 1500, None, 0, None);
    var b := Roster(2, "b", 10, 3, Some(0), 1600, None, 0, None);
    var c := Roster(3, "c", 9, 4, Some(0), 1700, None, 0, None);
    var m := MapRosters([a, b, c], IndexUsers([]));
    var sa, sb, sc := m[0], m[1], m[2];
    assert sa.rosterId == 1 && sa.wins == 10 && sa.pointsFor == 1500;
    assert sb.rosterId == 2 && sb.wins == 10 && sb.pointsFor == 1600;
    assert sc.rosterId == 3 && sc.wins == 9 && sc.pointsFor == 1700;
    assert m == [sa, sb, sc];
    SortThree(WinsThenPoints, sa, sb, sc);
  }

  // ---------------------------------------------------------------------------
  // Response cache
  // ---------------------------------------------------------------------------

  /** Five minutes, in milliseconds. */
  const CacheDuration: int := 5 * 60 * 1000

  datatype Entry<V> = Entry(data: V, timestamp: int)

  type Cache<V> = map<string, Entry<V>>

  /** `getCachedData`: the stored value while it is younger than five minutes. */
  function GetCached<V>(c: Cache<V>, key: string, now: int): (r: Option<V>)
    ensures r.Some? <==> key in c && now - c[key].timestamp < 300000
    ensures r.Some? ==> r.value == c[key].data
  {
    if key in c && now - c[key].timestamp < CacheDuration then Some(c[key].data) else None
  }

  /** `setCachedData`: stamps the value with the current time. */
  function SetCached<V>(c: Cache<V>, key: string, data: V, now: int): (r: Cache<V>)
    ensures r.Keys == c.Keys + {key}
    ensures r[key] == Entry(data, now)
    ensures forall k | k in c && k != key :: r[k] == c[k]
  {
    c[key := Entry(data, now)]
  }

  /** `clearCache`. */
  function ClearCache<V>(): (r: Cache<V>)
    ensures |r| == 0
  {
    map[]
  }

  /** `getCacheSize`: expired entries still count, since nothing evicts them. */
  function CacheSize<V>(c: Cache<V>): nat
  {
    |c|
  }

  /** A value read back at the time it was stored is found. */
  lemma SetThenGet<V>(c: Cache<V>, key: string, data: V, now: int)
    ensures GetCached(SetCached(c, key, data, now), key, now) == Some(data)
  {
  }

  /** A stored value is served for exactly five minutes after it was stored. */
  lemma CachedForFiveMinutes<V>(c: Cache<V>, key: string, data: V, stored: int, now: int)
    ensures GetCached(SetCached(c, key, data, stored), key, now).Some? <==> now < stored + 300000
  {
  }

  /** Storing under one key leaves the lookups of every other key unchanged. */
  lemma SetKeepsOtherKeys<V>(c: Cache<V>, key: string, data: V, stored: int, other: string, now: int)
    requires other != key
    ensures GetCached(SetCached(c, key, data, stored), other, now) == GetCached(c, other, now)
  {
  }

  /** The size counts every stored key: storing adds one exactly when the key
      is new, and an entry too old to be served still counts. */
  lemma SetCachedSize<V>(c: Cache<V>, key: string, data: V, stored: int, now: int)
    ensures CacheSize(SetCached(c, key, data, stored)) == CacheSize(c) + (if key in c then 0 else 1)
    ensures now >= stored + 300000 ==>
              GetCached(SetCached(c, key, data, stored), key, now) == None
              && CacheSize(SetCached(c, key, data, stored)) >= 1
  {
    var r := SetCached(c, key, data, stored);
    if key in c {
      assert r.Keys == c.Keys;
    } else {
      assert r.Keys == c.Keys + {key};
    }
  }

  /** After clearing, every lookup misses and the size is 0. */
  lemma ClearedCacheMisses<V>(key: string, now: int)
    ensures GetCached(ClearCache<V>(), key, now) == None
    ensures CacheSize(ClearCache<V>()) == 0
  {
  }

  /** The cache keys of the three fetchers. */
  function LeagueKey(leagueId: string): string { "league_" + leagueId }
  function RostersKey(leagueId: string): string { "rosters_" + leagueId }
  function UsersKey(leagueId: string): string { "users_" + leagueId }

  /** The three fetchers never overwrite one another's entries. */
  lemma KeysDisjoint(a: string, b: string)
    ensures LeagueKey(a) != RostersKey(b) && LeagueKey(a) != UsersKey(b) && RostersKey(a) != UsersKey(b)
    ensures LeagueKey(a) == LeagueKey(b) ==> a == b
  {
    assert LeagueKey(a)[0] == 'l' && RostersKey(b)[0] == 'r' && UsersKey(b)[0] == 'u';
    assert RostersKey(a)[0] == 'r';
    if LeagueKey(a) == LeagueKey(b) {
      assert a == LeagueKey(a)[7..] && b == LeagueKey(b)[7..];
    }
  }

  /** A fetcher (`getLeague`, `getLeagueRosters`, `getLeagueUsers`): served from
      the cache when an entry fresh at the request time `now` holds a payload
      JavaScript treats as true, otherwise from `response`, which is stored on
      success stamped with `responded`, the clock reading once the answer has
      arrived. `truthy` says which payloads count as true (a `null` body does
      not; every array does). */
  function Fetch<V>(c: Cache<V>, key: string, now: int, responded: int, response: Option<V>, error: string, truthy: V -> bool)
    : (r: (Result<V, string>, Cache<V>))
    ensures GetCached(c, key, now).Some? && truthy(GetCached(c, key, now).value) ==>
              r == (Ok(GetCached(c, key, now).value), c)
    ensures !(GetCached(c, key, now).Some? && truthy(GetCached(c, key, now).value)) && response.Some? ==>
              r.0 == Ok(response.value) && r.1 == SetCached(c, key, response.value, responded)
    ensures !(GetCached(c, key, now).Some? && truthy(GetCached(c, key, now).value)) && response.None? ==>
              r == (Err(error), c)
  {
    var cached := GetCached(c, key, now);
    if cached.Some? && truthy(cached.value) then (Ok(cached.value), c)
    else if response.Some? then (Ok(response.value), SetCached(c, key, response.value, responded))
    else (Err(error), c)
  }

  /** After a fetch that went to the network and got a payload treated as true,
      every fetch starting less than five minutes after that answer arrived
      returns it whatever the network says; a fetch served from an older entry
      gives no such guarantee, because that entry may expire sooner. */
  lemma FetchTwice<V>(c: Cache<V>, key: string, t1: int, d1: int, t2: int, d2: int, r1: Option<V>, r2: Option<V>,
                      error: string, truthy: V -> bool)
    requires !(GetCached(c, key, t1).Some? && truthy(GetCached(c, key, t1).value))
    requires r1.Some? && truthy(r1.value)
    requires t2 < d1 + 300000
    ensures var (first, c1) := Fetch(c, key, t1, d1, r1, error, truthy);
            first == Ok(r1.value) && Fetch(c1, key, t2, d2, r2, error, truthy) == (first, c1)
  {
  }

  /** A payload treated as false is stored but never served: any later fetch
      answers with whatever the network says. */
  lemma FalsyPayloadRefetched<V>(c: Cache<V>, key: string, now: int, d1: int, v: V, t2: int, d2: int, r2: Option<V>,
                                 error: string, truthy: V -> bool)
    requires !(GetCached(c, key, now).Some? && truthy(GetCached(c, key, now).value))
    requires !truthy(v) && r2.Some?
    ensures var (first, c1) := Fetch(c, key, now, d1, Some(v), error, truthy);
            first == Ok(v) && GetCached(c1, key, d1) == Some(v)
            && Fetch(c1, key, t2, d2, r2, error, truthy).0 == Ok(r2.value)
  {
  }

  /** A later fetch whose clock still reads the first request's time, run on
      the cache the first fetch left behind, agrees with a first fetch that
      yields a payload treated as true; the clock never runs backwards between
      a request and its answer. */
  lemma FetchSameInstant<V>(c: Cache<V>, key: string, now: int, d1: int, d2: int, r1: Option<V>, r2: Option<V>,
                            error: string, truthy: V -> bool)
    requires now <= d1
    requires Fetch(c, key, now, d1, r1, error, truthy).0.Ok?
    requires truthy(Fetch(c, key, now, d1, r1, error, truthy).0.value)
    ensures var (first, c1) := Fetch(c, key, now, d1, r1, error, truthy);
            Fetch(c1, key, now, d2, r2, error, truthy).0 == first
  {
  }

  // ---------------------------------------------------------------------------
  // Several leagues
  // ---------------------------------------------------------------------------

  /** `getMultipleLeagueStandings`: the leagues whose fetch succeeded, in request order. */
  function MultipleLeagueStandings<T>(fetched: seq<Option<T>>): (r: seq<T>)
    ensures |r| <= |fetched|
    ensures forall k | 0 <= k < |r| :: Some(r[k]) in fetched
    ensures forall k | 0 <= k < |fetched| && fetched[k].Some? :: fetched[k].value in r
    ensures |r| == CountSome(fetched)
  {
    SuccessesCount(fetched);
    Successes(fetched)
  }

  /** Collecting a batch split in two is collecting each part, in order. */
  lemma MultipleInOrder<T>(a: seq<Option<T>>, b: seq<Option<T>>)
    ensures MultipleLeagueStandings(a + b) == MultipleLeagueStandings(a) + MultipleLeagueStandings(b)
  {
    SuccessesAppend(a, b);
  }
}
