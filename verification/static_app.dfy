/** The stand-alone page script: its league rotation, its own standings
    transform (ties count as half a win), the team initials shown in the
    avatar, and the record and points-difference cells of a table row.

    DOM updates and the five-second rotation timer are left out (each timer
    firing is a call of `NextLeague`), and a fetch result is an `Option` input.
 */
module StaticApp {
  import opened Wrappers
  import opened Ranking
  import Text
  import Rotation

  // ---------------------------------------------------------------------------
  // Rotation
  // ---------------------------------------------------------------------------

  /** The page's rotation state: how many leagues loaded, which one is shown, whether it rotates. */
  datatype App = App(leagueCount: nat, index: nat, isPlaying: bool)

  /** The state after construction: nothing loaded, first league, paused. */
  const Initial: App := App(0, 0, false)

  predicate InRange(a: App)
  {
    a.index < a.leagueCount || a.index == 0
  }

  /** `nextLeague`: nothing to do with at most one league, otherwise wraps around. */
  function NextLeague(a: App): (r: App)
    ensures a.leagueCount <= 1 ==> r == a
    ensures a.leagueCount > 1 && a.index < a.leagueCount ==> r == a.(index := (a.index + 1) % a.leagueCount)
    ensures r.isPlaying == a.isPlaying && r.leagueCount == a.leagueCount
    ensures InRange(a) ==> InRange(r)
  {
    if a.leagueCount <= 1 then a
    else
      var n := a.leagueCount;
      var i := if a.index < n - 1 then a.index + 1 else 0;
      assert a.index < n ==> (a.index + 1) % n == i by {
        if a.index < n - 1 {
          Rotation.ModUnique(a.index + 1, n, 0, a.index + 1);
        } else if a.index == n - 1 {
          Rotation.ModUnique(n, n, 1, 0);
        }
      }
      a.(index := i)
  }

  /** `previousLeague`. */
  function PreviousLeague(a: App): (r: App)
    ensures a.leagueCount <= 1 ==> r == a
    ensures a.leagueCount > 1 && a.index < a.leagueCount ==>
              r == a.(index := (a.index + a.leagueCount - 1) % a.leagueCount)
    ensures r.isPlaying == a.isPlaying && r.leagueCount == a.leagueCount
    ensures InRange(a) ==> InRange(r)
  {
    if a.leagueCount <= 1 then a
    else
      var n := a.leagueCount;
      var i := if a.index > 0 then a.index - 1 else n - 1;
      assert a.index < n ==> (a.index + n - 1) % n == i by {
        if 0 < a.index < n {
          Rotation.ModUnique(a.index + n - 1, n, 1, a.index - 1);
        } else if a.index == 0 {
          Rotation.ModUnique(n - 1, n, 0, n - 1);
        }
      }
      a.(index := i)
  }

  /** `goToLeague`: out-of-range targets are ignored. */
  function GoToLeague(a: App, target: int): (r: App)
    ensures 0 <= target < a.leagueCount ==> r == a.(index := target)
    ensures !(0 <= target < a.leagueCount) ==> r == a
  {
    if 0 <= target < a.leagueCount then a.(index := target) else a
  }

  /** `startRotation`. */
  function StartRotation(a: App): (r: App)
    ensures a.leagueCount <= 1 ==> r == a
    ensures a.leagueCount > 1 ==> r == a.(isPlaying := true)
  {
    if a.leagueCount <= 1 then a else a.(isPlaying := true)
  }

  /** `pauseRotation`: always stops. */
  function PauseRotation(a: App): (r: App)
    ensures r == a.(isPlaying := false)
  {
    a.(isPlaying := false)
  }

  /** `toggleRotation`: flips playing when there is something to rotate. */
  function ToggleRotation(a: App): (r: App)
    ensures a.leagueCount <= 1 ==> r == a
    ensures a.leagueCount > 1 ==> r == a.(isPlaying := !a.isPlaying)
  {
    if a.leagueCount <= 1 then a
    else if a.isPlaying then PauseRotation(a)
    else StartRotation(a)
  }

  /** `loadAllLeagues`: the leagues that loaded, in order, or the error shown when none did. */
  function LoadAllLeagues<T>(fetched: seq<Option<T>>): (r: Result<seq<T>, string>)
    ensures r.Err? <==> CountSome(fetched) == 0
    ensures r.Err? ==> r.error == "No leagues could be loaded"
    ensures r.Ok? ==> r.value == Successes(fetched) && |r.value| == CountSome(fetched)
  {
    SuccessesCount(fetched);
    var loaded := Successes(fetched);
    if |loaded| == 0 then Err("No leagues could be loaded") else Ok(loaded)
  }

  /** `retry`: pause, go back to the first league, and reload. */
  function Retry<T>(a: App, fetched: seq<Option<T>>): (r: App)
    ensures !r.isPlaying && r.index == 0 && InRange(r)
    ensures r.leagueCount == CountSome(fetched)
  {
    SuccessesCount(fetched);
    var paused := PauseRotation(a);
    App(|Successes(fetched)|, 0, paused.isPlaying)
  }

  /** Before any league has loaded the page is paused on the first league, and
      neither starting nor toggling the rotation changes that. */
  lemma InitialCannotStart()
    ensures InRange(Initial) && !Initial.isPlaying && Initial.index == 0
    ensures StartRotation(Initial) == Initial && ToggleRotation(Initial) == Initial
    ensures NextLeague(Initial) == Initial && PreviousLeague(Initial) == Initial
  {
  }

  /** With more than one league, going forward then back (or back then forward) is the identity. */
  lemma NextPreviousInverse(a: App)
    requires a.index < a.leagueCount
    ensures PreviousLeague(NextLeague(a)) == a
    ensures NextLeague(PreviousLeague(a)) == a
  {
  }

  /** Toggling twice restores the play state. */
  lemma ToggleTwice(a: App)
    ensures ToggleRotation(ToggleRotation(a)) == a
  {
  }

  /** The page's rotation agrees with the hook's looping rotation on the index. */
  lemma NextAgreesWithHook(a: App, o: Rotation.Options, s: Rotation.State, now: int)
    requires o.loop && o.itemCount == a.leagueCount && s.index == a.index && a.index < a.leagueCount
    ensures NextLeague(a).index == Rotation.NextItem(o, s, now).index
    ensures PreviousLeague(a).index == Rotation.PreviousItem(o, s, now).index
  {
  }

  /** Jumping to a league agrees with the hook's jump on the index, for every target. */
  lemma GoToAgreesWithHook(a: App, o: Rotation.Options, s: Rotation.State, target: int, now: int)
    requires o.itemCount == a.leagueCount && s.index == a.index
    ensures GoToLeague(a, target).index == Rotation.GoToItem(o, s, target, now).index
  {
  }

  // ---------------------------------------------------------------------------
  // Standings transform
  // ---------------------------------------------------------------------------

  /** The roster settings the page reads; each may be missing. */
  datatype Settings = Settings(wins: Option<nat>, losses: Option<nat>, ties: Option<nat>, fpts: Option<int>, fptsAgainst: Option<int>)

  datatype Roster = Roster(rosterId: nat, ownerId: string, settings: Option<Settings>)

  /** Each settings field of a roster, with a missing settings object or field read as 0. */
  function Wins(r: Roster): nat { if r.settings.Some? then r.settings.value.wins.GetOr(0) else 0 }
  function Losses(r: Roster): nat { if r.settings.Some? then r.settings.value.losses.GetOr(0) else 0 }
  function Ties(r: Roster): nat { if r.settings.Some? then r.settings.value.ties.GetOr(0) else 0 }
  function PointsFor(r: Roster): int { if r.settings.Some? then r.settings.value.fpts.GetOr(0) else 0 }
  function PointsAgainst(r: Roster): int { if r.settings.Some? then r.settings.value.fptsAgainst.GetOr(0) else 0 }

  /** Ties count as half a win; 0 before any game. */
  function WinPercentage(wins: nat, losses: nat, ties: nat): (r: real)
    ensures 0.0 <= r <= 1.0
    ensures wins + losses + ties == 0 ==> r == 0.0
    ensures wins + losses + ties > 0 ==>
              r * (wins + losses + ties) as real == wins as real + (ties as real) / 2.0
  {
    var total := wins + losses + ties;
    if total > 0 then
      var won := wins as real + (ties as real) * 0.5;
      var r := won / (total as real);
      assert r * (total as real) == won;
      RatioBounds(won, total as real);
      r
    else 0.0
  }

  /** The display name: the user's display name, else their user name, else "Team <roster id>". */
  function DisplayName(user: Option<User>, rosterId: nat): (r: string)
    ensures r != ""
    ensures (user.Some? && user.value.displayName.Some? && user.value.displayName.value != "")
              ==> r == user.value.displayName.value
    ensures (user.Some? && !(user.value.displayName.Some? && user.value.displayName.value != "")
             && user.value.username.Some? && user.value.username.value != "")
              ==> r == user.value.username.value
    ensures (user.None? || (!(user.value.displayName.Some? && user.value.displayName.value != "")
                            && !(user.value.username.Some? && user.value.username.value != "")))
              ==> r == "Team " + Text.NatToString(rosterId)
  {
    if user.Some? && user.value.displayName.Some? && user.value.displayName.value != "" then
      user.value.displayName.value
    else if user.Some? && user.value.username.Some? && user.value.username.value != "" then
      user.value.username.value
    else "Team " + Text.NatToString(rosterId)
  }

  function ToStanding(roster: Roster, users: map<string, User>): (t: Standing)
    ensures t.rank == 0 && t.rosterId == roster.rosterId && t.userId == Some(roster.ownerId)
    ensures t.teamName == DisplayName(if roster.ownerId in users then Some(users[roster.ownerId]) else None, roster.rosterId)
    ensures t.displayName == Some(t.teamName)
    ensures t.wins == Wins(roster) && t.losses == Losses(roster) && t.ties == Ties(roster)
    ensures t.pointsFor == PointsFor(roster) && t.pointsAgainst == PointsAgainst(roster)
    ensures t.winPct == WinPercentage(t.wins, t.losses, t.ties)
    ensures 0.0 <= t.winPct <= 1.0
  {
    var user := if roster.ownerId in users then Some(users[roster.ownerId]) else None;
    var name := DisplayName(user, roster.rosterId);
    Standing(
      roster.rosterId, Some(roster.ownerId), Some(name), name,
      Wins(roster), Losses(roster), Ties(roster), PointsFor(roster), PointsAgainst(roster),
      WinPercentage(Wins(roster), Losses(roster), Ties(roster)),
      0)
  }

  function MapRosters(rosters: seq<Roster>, users: map<string, User>): (s: seq<Standing>)
    ensures |s| == |rosters| && AllUnranked(s)
    ensures forall i | 0 <= i < |s| :: s[i] == ToStanding(rosters[i], users)
  {
    seq(|rosters|, i requires 0 <= i < |rosters| => ToStanding(rosters[i], users))
  }

  /** The page's standings: ordered by wins, then win percentage, then points for
      (all descending), ranked 1, 2, 3, ... by position. */
  function Standings(rosters: seq<Roster>, users: seq<User>): (r: seq<Standing>)
    ensures |r| == |rosters|
    ensures forall i | 0 <= i < |r| :: r[i].rank == i + 1
    ensures forall i, j | 0 <= i < j < |r| ::
              || r[i].wins > r[j].wins
              || (r[i].wins == r[j].wins && r[i].winPct > r[j].winPct)
              || (r[i].wins == r[j].wins && r[i].winPct == r[j].winPct && r[i].pointsFor >= r[j].pointsFor)
    ensures multiset(Unranked(r)) == multiset(MapRosters(rosters, IndexUsers(users)))
    ensures forall i | 0 <= i < |r| :: 0.0 <= r[i].winPct <= 1.0
  {
    var mapped := MapRosters(rosters, IndexUsers(users));
    var r := SortAndRank(WinsThenPctThenPoints, mapped);
    assert forall k | 0 <= k < |mapped| :: 0.0 <= mapped[k].winPct <= 1.0;
    PctBoundsKept(mapped, r);
    r
  }

  /** Rows tied on wins, percentage and points for keep the order the rosters came in. */
  lemma StandingsStable(rosters: seq<Roster>, users: seq<User>, k: Standing)
    ensures var mapped := MapRosters(rosters, IndexUsers(users));
            TiedWith(WinsThenPctThenPoints, Unranked(Standings(rosters, users)), k)
            == TiedWith(WinsThenPctThenPoints, mapped, k)
  {
    var mapped := MapRosters(rosters, IndexUsers(users));
    RankStable(WinsThenPctThenPoints, mapped, k);
    assert Standings(rosters, users) == SortAndRank(WinsThenPctThenPoints, mapped);
  }

  /** Every row of the table is the mapped record of one of the rosters, with its rank set. */
  lemma RowOrigin(rosters: seq<Roster>, users: seq<User>, i: nat) returns (j: nat)
    requires i < |rosters|
    ensures j < |rosters|
    ensures Standings(rosters, users)[i] == ToStanding(rosters[j], IndexUsers(users)).(rank := i + 1)
  {
    var r := Standings(rosters, users);
    var mapped := MapRosters(rosters, IndexUsers(users));
    assert Unranked(r)[i] in multiset(mapped);
    j :| 0 <= j < |mapped| && mapped[j] == Unranked(r)[i];
  }

  /** The two transforms really differ: with equal wins, the page ranks the team
      with more ties (hence a higher percentage) first, the service the one with more points. */
  lemma VariantsDiffer()
    ensures var a := Settings(Some(5), Some(5), Some(0), Some(900), None);
            var b := Settings(Some(5), Some(3), Some(2), Some(800), None);
            var r := Standings([Roster(1, "a", Some(a)), Roster(2, "b", Some(b))], []);
            r[0].rosterId == 2 && r[1].rosterId == 1
  {
    var a := Settings(Some(5), Some(5), Some(0), Some(900), None);
    var b := Settings(Some(5), Some(3), Some(2), Some(800), None);
    var m := MapRosters([Roster(1, "a", Some(a)), Roster(2, "b", Some(b))], IndexUsers([]));
    var sa, sb := m[0], m[1];
    assert m == [sa, sb];
    assert sa.winPct == 0.5;
    assert sb.winPct == 0.6;
    SortTwo(WinsThenPctThenPoints, sa, sb);
  }

  /** Without any settings a roster counts as 0-0-0 with no points. */
  lemma MissingSettingsAreZero(roster: Roster, users: map<string, User>)
    requires roster.settings.None?
    ensures var t := ToStanding(roster, users);
            t.wins == 0 && t.losses == 0 && t.ties == 0 && t.pointsFor == 0 && t.pointsAgainst == 0 && t.winPct == 0.0
  {
  }

  // ---------------------------------------------------------------------------
  // Table row formatting
  // ---------------------------------------------------------------------------

  /** `getTeamInitials`: "T" for a missing or empty name; for a one-word name its
      first two characters, upper-cased; otherwise the upper-cased first
      characters of the first two words. A blank name has no words and gives "". */
  function TeamInitials(name: Option<string>): (r: string)
    ensures |r| <= 2
    ensures name.None? || name == Some("") ==> r == "T"
    ensures name.Some? && name.value != "" && Text.AllWhitespace(name.value) ==> r == ""
    ensures name.Some? && !Text.AllWhitespace(name.value) ==>
              |r| >= 1 && |Text.RemoveWhitespace(name.value)| > 0 &&
              r[0] == Text.ToUpper(Text.RemoveWhitespace(name.value)[0])
    ensures name.Some? && |Text.Words(name.value)| == 1 ==>
              var w := Text.Words(name.value)[0];
              r == Text.UpperString(if |w| < 2 then w else w[..2])
    ensures name.Some? && |Text.Words(name.value)| >= 2 ==>
              var ws := Text.Words(name.value);
              r == [Text.ToUpper(ws[0][0]), Text.ToUpper(ws[1][0])]
  {
    if name.None? || name.value == "" then "T"
    else if Text.AllWhitespace(name.value) then
      assert Text.SplitWords(name.value) == [""] && |Text.Words(name.value)| == 0;
      ""
    else
      var words := Text.SplitWords(name.value);
      assert words == Text.Words(name.value) && |words| >= 1;
      Text.FirstWordStart(name.value);
      Abbreviate(words)
  }

  /** Initials of a non-empty list of non-empty words. */
  function Abbreviate(words: seq<string>): (r: string)
    requires |words| >= 1 && forall k | 0 <= k < |words| :: |words[k]| > 0
    ensures 1 <= |r| <= 2
    ensures r[0] == Text.ToUpper(words[0][0])
    ensures |words| == 1 ==> r == Text.UpperString(if |words[0]| < 2 then words[0] else words[0][..2])
    ensures |words| >= 2 ==> r == [Text.ToUpper(words[0][0]), Text.ToUpper(words[1][0])]
  {
    if |words| == 1 then Text.UpperString(words[0][..if |words[0]| < 2 then |words[0]| else 2])
    else [Text.ToUpper(words[0][0]), Text.ToUpper(words[1][0])]
  }

  /** The record cell: wins and losses, with ties appended only when there are any. */
  function RecordText(wins: nat, losses: nat, ties: nat): string
  {
    Text.NatToString(wins) + "-" + Text.NatToString(losses) + (if ties > 0 then "-" + Text.NatToString(ties) else "")
  }

  /** Reads a record cell back. */
  function ParseRecord(s: string): Option<(nat, nat, nat)>
  {
    var parts := Text.Split(s, '-');
    if (|parts| == 2 || |parts| == 3) && forall k | 0 <= k < |parts| :: Text.IsNumeral(parts[k]) then
      var t := if |parts| == 3 then Text.ParseNat(parts[2]) else 0;
      if |parts| == 3 && t == 0 then None
      else Some((Text.ParseNat(parts[0]), Text.ParseNat(parts[1]), t))
    else None
  }

  /** The record cell splits at its dashes into the numerals of its counts. */
  lemma RecordPieces(wins: nat, losses: nat, ties: nat)
    ensures Text.Split(RecordText(wins, losses, ties), '-')
         == [Text.NatToString(wins), Text.NatToString(losses)] + (if ties > 0 then [Text.NatToString(ties)] else [])
  {
    var w, l := Text.NatToString(wins), Text.NatToString(losses);
    NumeralHasNoDash(w);
    if ties > 0 {
      var t := Text.NatToString(ties);
      assert RecordText(wins, losses, ties) == w + ['-'] + (l + ['-'] + t);
      Text.SplitAfterPiece(w, '-', l + ['-'] + t);
      TwoPieces(l, t);
      assert [w] + [l, t] == [w, l] + [t];
    } else {
      assert RecordText(wins, losses, ties) == w + ['-'] + l;
      Text.SplitAfterPiece(w, '-', l);
      NumeralHasNoDash(l);
      Text.SplitNoSeparator(l, '-');
      assert [w] + [l] == [w, l] + [];
    }
  }

  /** Two numerals joined by a dash split back into the two. */
  lemma TwoPieces(a: string, b: string)
    requires Text.IsNumeral(a) && Text.IsNumeral(b)
    ensures Text.Split(a + ['-'] + b, '-') == [a, b]
  {
    NumeralHasNoDash(a);
    NumeralHasNoDash(b);
    Text.SplitAfterPiece(a, '-', b);
    Text.SplitNoSeparator(b, '-');
  }

  /** The record cell has two dash-separated numbers, or three exactly when there
      are ties, and reading it back gives the record. */
  lemma RecordRoundTrip(wins: nat, losses: nat, ties: nat)
    ensures var parts := Text.Split(RecordText(wins, losses, ties), '-');
            |parts| == (if ties > 0 then 3 else 2)
    ensures ParseRecord(RecordText(wins, losses, ties)) == Some((wins, losses, ties))
  {
    RecordPieces(wins, losses, ties);
    var parts := Text.Split(RecordText(wins, losses, ties), '-');
    Text.ParseNatToString(wins);
    Text.ParseNatToString(losses);
    Text.ParseNatToString(ties);
    assert parts[0] == Text.NatToString(wins) && parts[1] == Text.NatToString(losses);
    assert |parts| == 3 ==> parts[2] == Text.NatToString(ties);
  }

  lemma NumeralHasNoDash(s: string)
    requires Text.IsNumeral(s)
    ensures '-' !in s
  {
  }

  /** The class of the points-difference cell. */
  datatype DiffClass = Positive | Negative | Neutral

  /** The class and sign prefix of the points-difference cell. */
  function Difference(pointsFor: int, pointsAgainst: int): (r: (DiffClass, string))
    ensures r.0 == Positive <==> pointsFor > pointsAgainst
    ensures r.0 == Negative <==> pointsFor < pointsAgainst
    ensures r.0 == Neutral <==> pointsFor == pointsAgainst
    ensures r.1 == "+" <==> r.0 == Positive
    ensures r.1 != "+" ==> r.1 == ""
  {
    var diff := pointsFor - pointsAgainst;
    var cls := if diff > 0 then Positive else if diff < 0 then Negative else Neutral;
    (cls, if diff > 0 then "+" else "")
  }

  /** Swapping the two totals swaps positive and negative. */
  lemma DifferenceAntisymmetric(pf: int, pa: int)
    ensures Difference(pf, pa).0 == Positive <==> Difference(pa, pf).0 == Negative
    ensures Difference(pf, pa).0 == Neutral <==> Difference(pa, pf).0 == Neutral
  {
  }

  /** The class of the rank badge: the podium gets its own colours. */
  function RankClass(rank: nat): (r: string)
    ensures 1 <= rank <= 3 ==> r == "rank-" + Text.NatToString(rank)
    ensures !(1 <= rank <= 3) ==> r == "rank-other"
  {
    if rank == 1 then "rank-1" else if rank == 2 then "rank-2" else if rank == 3 then "rank-3" else "rank-other"
  }
}
