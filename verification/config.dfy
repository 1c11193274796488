/** The dashboard's persisted configuration: its defaults, the merge applied
    when a stored copy is loaded, partial updates, reset, and the per-league
    edits of the league-id helper hook.

    Storage is not modelled as I/O: what the browser returned for the
    configuration key is the input `Stored`, and saving a configuration is
    `Save`, the stored value a later load would read back.
 */
module Config {
  import opened Wrappers
  import Rotation

  datatype DisplaySettings = DisplaySettings(showLogos: bool, animationSpeed: int, theme: string)

  /** The whole configuration. The rotation interval is in milliseconds. */
  datatype AppConfig = AppConfig(
    leagueIds: seq<string>,
    rotationInterval: real,
    enabledLeagues: seq<bool>,
    displaySettings: DisplaySettings)

  /** A display-settings object with any subset of its fields. */
  datatype PartialDisplay = PartialDisplay(showLogos: Option<bool>, animationSpeed: Option<int>, theme: Option<string>)

  /** A configuration object with any subset of its top-level fields. */
  datatype PartialConfig = PartialConfig(
    leagueIds: Option<seq<string>>,
    rotationInterval: Option<real>,
    enabledLeagues: Option<seq<bool>>,
    displaySettings: Option<PartialDisplay>)

  /** What a load finds under the storage key: nothing (or the empty string),
      text that does not parse, or a parsed object. */
  datatype Stored = NothingStored | Unparseable | Parsed(value: PartialConfig)

  const EmptyPartial: PartialConfig := PartialConfig(None, None, None, None)

  const DefaultDisplay: DisplaySettings := DisplaySettings(true, 500, "sports")

  const DefaultConfig: AppConfig := AppConfig(
    [ "784462448236363776", "784462448236363777", "784462448236363778", "784462448236363779",
      "784462448236363780", "784462448236363781", "784462448236363782", "784462448236363783" ],
    20000.0,
    [true, true, true, true, true, true, true, true],
    DefaultDisplay)

  /** The defaults: eight leagues, all enabled, rotating every 20 seconds like the rotation hook. */
  lemma DefaultShape()
    ensures |DefaultConfig.leagueIds| == 8 && |DefaultConfig.enabledLeagues| == 8
    ensures forall k | 0 <= k < 8 :: DefaultConfig.enabledLeagues[k]
    ensures DefaultConfig.rotationInterval == 20000.0 == Rotation.DefaultInterval as real
    ensures forall j, k | 0 <= j < k < 8 :: DefaultConfig.leagueIds[j] != DefaultConfig.leagueIds[k]
  {
  }

  // ---------------------------------------------------------------------------
  // Merging
  // ---------------------------------------------------------------------------

  /** Display settings merged field by field: each field present in `p` wins. */
  function MergeDisplay(prev: DisplaySettings, p: PartialDisplay): (r: DisplaySettings)
    ensures p.showLogos.Some? ==> r.showLogos == p.showLogos.value
    ensures p.showLogos.None? ==> r.showLogos == prev.showLogos
    ensures p.animationSpeed.Some? ==> r.animationSpeed == p.animationSpeed.value
    ensures p.animationSpeed.None? ==> r.animationSpeed == prev.animationSpeed
    ensures p.theme.Some? ==> r.theme == p.theme.value
    ensures p.theme.None? ==> r.theme == prev.theme
  {
    DisplaySettings(
      p.showLogos.GetOr(prev.showLogos),
      p.animationSpeed.GetOr(prev.animationSpeed),
      p.theme.GetOr(prev.theme))
  }

  /** `updateConfig`: the fields present in `p` replace the previous ones, and
      display settings are merged field by field rather than replaced. */
  function UpdateConfig(prev: AppConfig, p: PartialConfig): (r: AppConfig)
    ensures p.leagueIds.Some? ==> r.leagueIds == p.leagueIds.value
    ensures p.leagueIds.None? ==> r.leagueIds == prev.leagueIds
    ensures p.rotationInterval.Some? ==> r.rotationInterval == p.rotationInterval.value
    ensures p.rotationInterval.None? ==> r.rotationInterval == prev.rotationInterval
    ensures p.enabledLeagues.Some? ==> r.enabledLeagues == p.enabledLeagues.value
    ensures p.enabledLeagues.None? ==> r.enabledLeagues == prev.enabledLeagues
    ensures p.displaySettings.Some? ==> r.displaySettings == MergeDisplay(prev.displaySettings, p.displaySettings.value)
    ensures p.displaySettings.None? ==> r.displaySettings == prev.displaySettings
  {
    AppConfig(
      p.leagueIds.GetOr(prev.leagueIds),
      p.rotationInterval.GetOr(prev.rotationInterval),
      p.enabledLeagues.GetOr(prev.enabledLeagues),
      if p.displaySettings.Some? then MergeDisplay(prev.displaySettings, p.displaySettings.value)
      else prev.displaySettings)
  }

  /** The load on mount: a parsed object is merged over the defaults (display
      settings field by field); anything else leaves the defaults. */
  function LoadConfig(stored: Stored): (r: AppConfig)
    ensures stored.NothingStored? || stored.Unparseable? ==> r == DefaultConfig
    ensures stored.Parsed? && stored.value.displaySettings.None? ==> r.displaySettings == DefaultDisplay
    ensures stored.Parsed? && stored.value.displaySettings.Some? ==>
              r.displaySettings == MergeDisplay(DefaultDisplay, stored.value.displaySettings.value)
    ensures stored.Parsed? && stored.value.leagueIds.None? ==> r.leagueIds == DefaultConfig.leagueIds
    ensures stored.Parsed? && stored.value.leagueIds.Some? ==> r.leagueIds == stored.value.leagueIds.value
    ensures stored.Parsed? && stored.value.rotationInterval.None? ==> r.rotationInterval == DefaultConfig.rotationInterval
    ensures stored.Parsed? && stored.value.rotationInterval.Some? ==> r.rotationInterval == stored.value.rotationInterval.value
    ensures stored.Parsed? && stored.value.enabledLeagues.None? ==> r.enabledLeagues == DefaultConfig.enabledLeagues
    ensures stored.Parsed? && stored.value.enabledLeagues.Some? ==> r.enabledLeagues == stored.value.enabledLeagues.value
  {
    match stored
    case Parsed(p) =>
      var display := if p.displaySettings.Some? then p.displaySettings.value else PartialDisplay(None, None, None);
      AppConfig(
        p.leagueIds.GetOr(DefaultConfig.leagueIds),
        p.rotationInterval.GetOr(DefaultConfig.rotationInterval),
        p.enabledLeagues.GetOr(DefaultConfig.enabledLeagues),
        MergeDisplay(DefaultDisplay, display))
    case _ => DefaultConfig
  }

  /** The configuration as the save effect writes it: every field present. */
  function AsPartial(c: AppConfig): (p: PartialConfig)
    ensures p.leagueIds.Some? && p.rotationInterval.Some? && p.enabledLeagues.Some? && p.displaySettings.Some?
  {
    var d := c.displaySettings;
    PartialConfig(Some(c.leagueIds), Some(c.rotationInterval), Some(c.enabledLeagues),
                  Some(PartialDisplay(Some(d.showLogos), Some(d.animationSpeed), Some(d.theme))))
  }

  /** What the save effect leaves in storage. */
  function Save(c: AppConfig): (s: Stored)
    ensures s.Parsed?
  {
    Parsed(AsPartial(c))
  }

  /** `resetConfig`: back to the defaults, with the stored copy removed. */
  function ResetConfig(c: AppConfig): (r: (AppConfig, Stored))
    ensures r.1 == NothingStored
    ensures r.0 == LoadConfig(r.1)
  {
    (DefaultConfig, NothingStored)
  }

  /** The load merge is the update merge applied to the defaults. */
  lemma LoadIsUpdateOfDefault(p: PartialConfig)
    ensures LoadConfig(Parsed(p)) == UpdateConfig(DefaultConfig, p)
  {
  }

  /** A saved configuration loads back unchanged. */
  lemma SaveLoadRoundTrip(c: AppConfig)
    ensures LoadConfig(Save(c)) == c
  {
  }

  /** Applying a complete configuration as an update replaces the previous one. */
  lemma UpdateWithWhole(prev: AppConfig, c: AppConfig)
    ensures UpdateConfig(prev, AsPartial(c)) == c
  {
  }

  /** The empty update changes nothing, and every update is idempotent. */
  lemma UpdateIdentityAndIdempotent(c: AppConfig, p: PartialConfig)
    ensures UpdateConfig(c, EmptyPartial) == c
    ensures UpdateConfig(UpdateConfig(c, p), p) == UpdateConfig(c, p)
  {
  }

  /** The later of two partial updates, with display settings combined field by field. */
  function CombineDisplay(p: PartialDisplay, q: PartialDisplay): PartialDisplay
  {
    PartialDisplay(
      if q.showLogos.Some? then q.showLogos else p.showLogos,
      if q.animationSpeed.Some? then q.animationSpeed else p.animationSpeed,
      if q.theme.Some? then q.theme else p.theme)
  }

  function Combine(p: PartialConfig, q: PartialConfig): PartialConfig
  {
    PartialConfig(
      if q.leagueIds.Some? then q.leagueIds else p.leagueIds,
      if q.rotationInterval.Some? then q.rotationInterval else p.rotationInterval,
      if q.enabledLeagues.Some? then q.enabledLeagues else p.enabledLeagues,
      if p.displaySettings.Some? && q.displaySettings.Some? then
        Some(CombineDisplay(p.displaySettings.value, q.displaySettings.value))
      else if q.displaySettings.Some? then q.displaySettings
      else p.displaySettings)
  }

  /** Two updates in a row are the one update that combines them. */
  lemma UpdateCompose(c: AppConfig, p: PartialConfig, q: PartialConfig)
    ensures UpdateConfig(UpdateConfig(c, p), q) == UpdateConfig(c, Combine(p, q))
  {
  }

  // ---------------------------------------------------------------------------
  // Per-league edits
  // ---------------------------------------------------------------------------

  /** Writing `v` at index `i` of a copy of an array. A negative index is a property, not an
      element, and leaves the elements alone; writing past the end grows the
      array, whose new holes are modelled by `hole`. */
  function SetIndex<T>(s: seq<T>, i: int, v: T, hole: T): (r: seq<T>)
    ensures i < 0 ==> r == s
    ensures 0 <= i ==> |r| == (if i < |s| then |s| else i + 1) && r[i] == v
    ensures 0 <= i ==> forall k | 0 <= k < |r| && k != i :: r[k] == (if k < |s| then s[k] else hole)
  {
    if i < 0 then s
    else if i < |s| then s[i := v]
    else s + seq(i - |s|, _ => hole) + [v]
  }

  /** Negating the element at index `i` of a copy of an array: a missing element reads as false. */
  function Flip(flags: seq<bool>, i: int): (r: seq<bool>)
    ensures i < 0 ==> r == flags
    ensures 0 <= i < |flags| ==> r == flags[i := !flags[i]]
    ensures i >= |flags| ==> |r| == i + 1 && r[i] && forall k | 0 <= k < i :: r[k] == (k < |flags| && flags[k])
  {
    SetIndex(flags, i, !(0 <= i < |flags| && flags[i]), false)
  }

  /** Flipping the same flag twice restores it; the array only grows. */
  lemma FlipTwice(flags: seq<bool>, i: int)
    ensures 0 <= i < |flags| ==> Flip(Flip(flags, i), i) == flags
    ensures i >= |flags| ==> var r := Flip(Flip(flags, i), i);
              r[..|flags|] == flags && forall k | |flags| <= k < |r| :: !r[k]
  {
  }

  /** `useLeagueIds().updateLeagueId`. */
  function UpdateLeagueId(c: AppConfig, i: int, id: string): (r: AppConfig)
    ensures r.rotationInterval == c.rotationInterval && r.enabledLeagues == c.enabledLeagues
    ensures r.displaySettings == c.displaySettings
    ensures 0 <= i < |c.leagueIds| ==> r.leagueIds == c.leagueIds[i := id]
    ensures i < 0 ==> r == c
  {
    UpdateConfig(c, PartialConfig(Some(SetIndex(c.leagueIds, i, id, "")), None, None, None))
  }

  /** `useLeagueIds().toggleLeague`. */
  function ToggleLeague(c: AppConfig, i: int): (r: AppConfig)
    ensures r.rotationInterval == c.rotationInterval && r.leagueIds == c.leagueIds
    ensures r.displaySettings == c.displaySettings
    ensures 0 <= i < |c.enabledLeagues| ==> r.enabledLeagues == c.enabledLeagues[i := !c.enabledLeagues[i]]
    ensures i < 0 ==> r == c
  {
    UpdateConfig(c, PartialConfig(None, None, Some(Flip(c.enabledLeagues, i)), None))
  }

  /** Toggling a league twice restores the configuration. */
  lemma ToggleLeagueTwice(c: AppConfig, i: int)
    requires i < |c.enabledLeagues|
    ensures ToggleLeague(ToggleLeague(c, i), i) == c
  {
    FlipTwice(c.enabledLeagues, i);
  }

  /** Setting a league id to the value it already has changes nothing. */
  lemma UpdateLeagueIdSame(c: AppConfig, i: int)
    requires 0 <= i < |c.leagueIds|
    ensures UpdateLeagueId(c, i, c.leagueIds[i]) == c
  {
  }
}
