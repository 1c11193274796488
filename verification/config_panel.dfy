/** The configuration editor: a draft (`temp`) edited apart from the saved
    configuration, a flag saying whether the draft has unsaved edits, the
    interval stepper, and the enabled/valid league counts it displays.

    The panel's draft is initialised from the saved configuration once and
    does not follow it afterwards; the parent's configuration is `saved`.
 */
module ConfigPanel {
  import opened Config
  import Text

  datatype Panel = Panel(saved: AppConfig, temp: AppConfig, hasChanges: bool)

  /** Shortest and longest interval the stepper produces, and its step, in milliseconds. */
  const MinInterval: real := 5000.0
  const MaxInterval: real := 60000.0
  const Step: real := 5000.0

  /** A freshly mounted panel shows the saved configuration with no edits. */
  function Open(saved: AppConfig): (p: Panel)
    ensures p.saved == saved && p.temp == saved
    ensures Consistent(p) && !p.hasChanges
  {
    Panel(saved, saved, false)
  }

  /** Without unsaved edits, the draft is the saved configuration. */
  predicate Consistent(p: Panel)
  {
    !p.hasChanges ==> p.temp == p.saved
  }

  // ---------------------------------------------------------------------------
  // Edits
  // ---------------------------------------------------------------------------

  /** `handleLeagueIdChange`: edits one id of the draft. */
  function HandleLeagueIdChange(p: Panel, i: int, value: string): (r: Panel)
    ensures r.hasChanges && r.saved == p.saved
    ensures 0 <= i < |p.temp.leagueIds| ==> r.temp.leagueIds == p.temp.leagueIds[i := value]
    ensures r.temp.enabledLeagues == p.temp.enabledLeagues && r.temp.rotationInterval == p.temp.rotationInterval
    ensures r.temp.displaySettings == p.temp.displaySettings
    ensures Consistent(r)
  {
    Panel(p.saved, p.temp.(leagueIds := SetIndex(p.temp.leagueIds, i, value, "")), true)
  }

  /** `toggleLeague`: flips one flag of the draft. */
  function HandleToggleLeague(p: Panel, i: int): (r: Panel)
    ensures r.hasChanges && r.saved == p.saved
    ensures 0 <= i < |p.temp.enabledLeagues| ==> r.temp.enabledLeagues == p.temp.enabledLeagues[i := !p.temp.enabledLeagues[i]]
    ensures r.temp.leagueIds == p.temp.leagueIds && r.temp.rotationInterval == p.temp.rotationInterval
    ensures r.temp.displaySettings == p.temp.displaySettings
    ensures Consistent(r)
  {
    Panel(p.saved, p.temp.(enabledLeagues := Flip(p.temp.enabledLeagues, i)), true)
  }

  /** `handleIntervalChange`: the argument is in seconds. */
  function HandleIntervalChange(p: Panel, seconds: real): (r: Panel)
    ensures r.hasChanges && r.saved == p.saved
    ensures r.temp == p.temp.(rotationInterval := seconds * 1000.0)
    ensures r.temp.rotationInterval / 1000.0 == seconds
  {
    Panel(p.saved, p.temp.(rotationInterval := seconds * 1000.0), true)
  }

  function RMax(a: real, b: real): real { if a >= b then a else b }
  function RMin(a: real, b: real): real { if a <= b then a else b }

  /** The minus button: five seconds less, but not below five. */
  function StepDown(p: Panel): (r: Panel)
    ensures r.temp == p.temp.(rotationInterval := RMax(MinInterval, p.temp.rotationInterval - Step))
    ensures r.temp.rotationInterval >= MinInterval
    ensures r.hasChanges && r.saved == p.saved
  {
    HandleIntervalChange(p, RMax(5.0, p.temp.rotationInterval / 1000.0 - 5.0))
  }

  /** The plus button: five seconds more, but not above sixty. */
  function StepUp(p: Panel): (r: Panel)
    ensures r.temp == p.temp.(rotationInterval := RMin(MaxInterval, p.temp.rotationInterval + Step))
    ensures r.temp.rotationInterval <= MaxInterval
    ensures r.hasChanges && r.saved == p.saved
  {
    HandleIntervalChange(p, RMin(60.0, p.temp.rotationInterval / 1000.0 + 5.0))
  }

  predicate IntervalInRange(p: Panel)
  {
    MinInterval <= p.temp.rotationInterval <= MaxInterval
  }

  /** The steppers keep an interval between five and sixty seconds there, and
      undo each other away from the ends. */
  lemma StepperBounds(p: Panel)
    ensures IntervalInRange(p) ==> IntervalInRange(StepDown(p)) && IntervalInRange(StepUp(p))
    ensures MinInterval + Step <= p.temp.rotationInterval <= MaxInterval ==>
              StepUp(StepDown(p)).temp == p.temp
    ensures MinInterval <= p.temp.rotationInterval <= MaxInterval - Step ==>
              StepDown(StepUp(p)).temp == p.temp
  {
  }

  /** Enough presses of the minus button always reach five seconds. */
  lemma {:induction false} StepDownReachesMinimum(p: Panel, presses: nat)
    requires MinInterval <= p.temp.rotationInterval <= MinInterval + (presses as real) * Step
    ensures StepDownN(p, presses).temp.rotationInterval == MinInterval
    decreases presses
  {
    if presses > 0 {
      var q := StepDown(p);
      assert q.temp.rotationInterval <= MinInterval + ((presses - 1) as real) * Step;
      StepDownReachesMinimum(q, presses - 1);
    }
  }

  function StepDownN(p: Panel, presses: nat): (r: Panel)
    ensures presses > 0 ==> r.temp.rotationInterval >= MinInterval
    decreases presses
  {
    if presses == 0 then p else StepDownN(StepDown(p), presses - 1)
  }

  // ---------------------------------------------------------------------------
  // Save, reset, cancel
  // ---------------------------------------------------------------------------

  /** `handleSave`: the draft becomes the configuration. */
  function HandleSave(p: Panel): (r: Panel)
    ensures r.saved == p.temp && r.temp == p.temp && !r.hasChanges
    ensures Consistent(r)
  {
    UpdateWithWhole(p.saved, p.temp);
    Panel(UpdateConfig(p.saved, AsPartial(p.temp)), p.temp, false)
  }

  /** `handleCancel`: the draft is discarded. */
  function HandleCancel(p: Panel): (r: Panel)
    ensures r.saved == p.saved && r.temp == p.saved && !r.hasChanges
    ensures Consistent(r)
  {
    Panel(p.saved, p.saved, false)
  }

  /** `handleReset` as the component does it: the configuration is reset, but the
      draft is set from the configuration the component was rendered with, which
      is still the one from before the reset. */
  function HandleResetAsWritten(p: Panel): (r: Panel)
    ensures r.saved == DefaultConfig && !r.hasChanges
    ensures r.temp == p.saved
  {
    Panel(ResetConfig(p.saved).0, p.saved, false)
  }

  /** After a reset from a non-default configuration, the panel shows the old
      configuration as if it were saved, while the defaults are in force. */
  lemma ResetAsWrittenShowsStaleDraft(p: Panel)
    requires p.saved != DefaultConfig
    ensures var r := HandleResetAsWritten(p);
            !r.hasChanges && r.temp != r.saved && !Consistent(r)
  {
  }

  /** `handleReset` corrected: the draft follows the reset configuration. */
  function HandleReset(p: Panel): (r: Panel)
    ensures r.saved == DefaultConfig && r.temp == DefaultConfig && !r.hasChanges
    ensures Consistent(r)
  {
    var (config, _) := ResetConfig(p.saved);
    Panel(config, config, false)
  }

  /** The panel events. */
  datatype Action =
    | EditId(i: int, value: string)
    | ToggleFlag(i: int)
    | Minus
    | Plus
    | SaveDraft
    | ResetAll
    | CancelEdits

  function Apply(p: Panel, a: Action): Panel
  {
    match a
    case EditId(i, v) => HandleLeagueIdChange(p, i, v)
    case ToggleFlag(i) => HandleToggleLeague(p, i)
    case Minus => StepDown(p)
    case Plus => StepUp(p)
    case SaveDraft => HandleSave(p)
    case ResetAll => HandleReset(p)
    case CancelEdits => HandleCancel(p)
  }

  /** Any sequence of panel events keeps the draft and the saved configuration
      consistent: the "unsaved changes" dot is shown whenever they differ. */
  function {:induction false} Run(p: Panel, actions: seq<Action>): (r: Panel)
    requires Consistent(p)
    ensures Consistent(r)
    ensures (|actions| > 0 && actions[|actions| - 1] in {SaveDraft, CancelEdits, ResetAll}) ==> !r.hasChanges
    decreases |actions|
  {
    if |actions| == 0 then p
    else
      var q := Run(p, actions[..|actions| - 1]);
      Apply(q, actions[|actions| - 1])
  }

  // ---------------------------------------------------------------------------
  // Counts
  // ---------------------------------------------------------------------------

  /** The number of leagues whose enabled flag is set. */
  function EnabledCount(flags: seq<bool>): (n: nat)
    ensures n <= |flags|
    ensures n == |flags| <==> forall k | 0 <= k < |flags| :: flags[k]
    ensures n == 0 <==> forall k | 0 <= k < |flags| :: !flags[k]
  {
    if |flags| == 0 then 0
    else
      var n := (if flags[0] then 1 else 0) + EnabledCount(flags[1..]);
      assert forall k | 1 <= k < |flags| :: flags[1..][k - 1] == flags[k];
      n
  }

  /** A league counts as valid when its id is not blank after trimming and its
      flag is set; a missing flag reads as false. */
  predicate ValidAt(ids: seq<string>, flags: seq<bool>, k: nat)
    requires k < |ids|
  {
    Text.Trim(ids[k]) != "" && k < |flags| && flags[k]
  }

  /** The flags after the first; an empty array stays empty. */
  function Rest(flags: seq<bool>): seq<bool>
  {
    if |flags| == 0 then [] else flags[1..]
  }

  /** The number of leagues whose id is not blank and whose flag is set. */
  function ValidCount(ids: seq<string>, flags: seq<bool>): (n: nat)
    ensures n <= |ids|
  {
    if |ids| == 0 then 0
    else (if ValidAt(ids, flags, 0) then 1 else 0) + ValidCount(ids[1..], Rest(flags))
  }

  /** Dropping the first league shifts every later league's validity down by one. */
  lemma ValidAtShift(ids: seq<string>, flags: seq<bool>, k: nat)
    requires 1 <= k < |ids|
    ensures ValidAt(ids[1..], Rest(flags), k - 1) == ValidAt(ids, flags, k)
  {
    assert ids[1..][k - 1] == ids[k];
    if |flags| > 0 && k < |flags| {
      assert Rest(flags)[k - 1] == flags[k];
    }
  }

  /** Every league counts exactly when every league is valid. */
  lemma {:induction false} ValidCountAll(ids: seq<string>, flags: seq<bool>)
    ensures ValidCount(ids, flags) == |ids| <==> forall k | 0 <= k < |ids| :: ValidAt(ids, flags, k)
  {
    if |ids| > 0 {
      ValidCountAll(ids[1..], Rest(flags));
      forall k | 1 <= k < |ids|
        ensures ValidAt(ids[1..], Rest(flags), k - 1) == ValidAt(ids, flags, k)
      {
        ValidAtShift(ids, flags, k);
      }
      if forall k | 0 <= k < |ids| :: ValidAt(ids, flags, k) {
        assert forall k | 0 <= k < |ids| - 1 :: ValidAt(ids[1..], Rest(flags), k) by {
          forall k | 0 <= k < |ids| - 1
            ensures ValidAt(ids[1..], Rest(flags), k)
          {
            assert ValidAt(ids, flags, k + 1);
          }
        }
      }
    }
  }

  /** No league counts exactly when no league is valid. */
  lemma {:induction false} ValidCountNone(ids: seq<string>, flags: seq<bool>)
    ensures ValidCount(ids, flags) == 0 <==> forall k | 0 <= k < |ids| :: !ValidAt(ids, flags, k)
  {
    if |ids| > 0 {
      ValidCountNone(ids[1..], Rest(flags));
      forall k | 1 <= k < |ids|
        ensures ValidAt(ids[1..], Rest(flags), k - 1) == ValidAt(ids, flags, k)
      {
        ValidAtShift(ids, flags, k);
      }
      if forall k | 0 <= k < |ids| :: !ValidAt(ids, flags, k) {
        assert forall k | 0 <= k < |ids| - 1 :: !ValidAt(ids[1..], Rest(flags), k) by {
          forall k | 0 <= k < |ids| - 1
            ensures !ValidAt(ids[1..], Rest(flags), k)
          {
            assert !ValidAt(ids, flags, k + 1);
          }
        }
      }
    }
  }

  /** Every valid league is an enabled one. */
  lemma {:induction false} ValidAtMostEnabled(ids: seq<string>, flags: seq<bool>)
    ensures ValidCount(ids, flags) <= EnabledCount(flags)
  {
    if |ids| > 0 {
      ValidAtMostEnabled(ids[1..], Rest(flags));
    }
  }

  /** Toggling an in-range flag moves the enabled count by exactly one. */
  lemma {:induction false} ToggleChangesCount(flags: seq<bool>, i: nat)
    requires i < |flags|
    ensures EnabledCount(flags[i := !flags[i]]) == EnabledCount(flags) + (if flags[i] then -1 else 1)
  {
    var g := flags[i := !flags[i]];
    if i == 0 {
      assert g[1..] == flags[1..];
    } else {
      ToggleChangesCount(flags[1..], i - 1);
      assert g[1..] == flags[1..][i - 1 := !flags[i]];
    }
  }

  /** Ids that start with a digit are not blank; with every flag set, all such leagues are valid. */
  lemma {:induction false} DigitIdsAllValid(ids: seq<string>, flags: seq<bool>)
    requires |flags| == |ids|
    requires forall k | 0 <= k < |ids| :: |ids[k]| > 0 && '0' <= ids[k][0] <= '9' && flags[k]
    ensures ValidCount(ids, flags) == |ids|
  {
    forall k | 0 <= k < |ids|
      ensures ValidAt(ids, flags, k)
    {
      assert !Text.IsWhitespace(ids[k][0]);
    }
    ValidCountAll(ids, flags);
  }

  /** The default configuration has eight enabled leagues. */
  lemma DefaultEnabledCount()
    ensures EnabledCount(DefaultConfig.enabledLeagues) == 8
  {
  }

  /** All eight default leagues are valid. */
  lemma DefaultValidCount()
    ensures ValidCount(DefaultConfig.leagueIds, DefaultConfig.enabledLeagues) == 8
  {
    DefaultShape();
    DigitIdsAllValid(DefaultConfig.leagueIds, DefaultConfig.enabledLeagues);
  }
}
