/** The league header's two status helpers: the colour class chosen for a
    league status and the status label shown to the viewer.

    Both only ever compare or change ASCII characters: the regular
    expressions `\b` and `\w` are ASCII-only, and no non-ASCII character
    lower-cases into the four status words, so ASCII case mapping is exact here.
 */
module LeagueHeader {
  import opened Wrappers
  import Text

  /** The characters of the regular-expression class `\w`. */
  predicate IsWordChar(c: char)
  {
    Text.IsLower(c) || Text.IsUpper(c) || Text.IsDigit(c) || c == '_'
  }

  predicate IsAlphanumeric(c: char)
  {
    Text.IsLower(c) || Text.IsUpper(c) || Text.IsDigit(c)
  }

  /** `\b\w` matches at `i`: a word character with no word character before it. */
  predicate WordStartAt(t: string, i: nat)
    requires i < |t|
  {
    IsWordChar(t[i]) && (i == 0 || !IsWordChar(t[i - 1]))
  }

  /** Every underscore becomes a space; nothing else changes. */
  function UnderscoresToSpaces(s: string): (t: string)
    ensures |t| == |s| && '_' !in t
    ensures forall i | 0 <= i < |s| :: t[i] == (if s[i] == '_' then ' ' else s[i])
  {
    seq(|s|, i requires 0 <= i < |s| => if s[i] == '_' then ' ' else s[i])
  }

  /** Every word character that starts a word is upper-cased; nothing else changes. */
  function CapitalizeWords(t: string): (r: string)
    ensures |r| == |t|
    ensures forall i | 0 <= i < |t| :: r[i] == (if WordStartAt(t, i) then Text.ToUpper(t[i]) else t[i])
  {
    seq(|t|, i requires 0 <= i < |t| => if WordStartAt(t, i) then Text.ToUpper(t[i]) else t[i])
  }

  /** The first letter or digit of each run of letters and digits, after underscores became spaces. */
  predicate StartsWord(s: string, i: nat)
    requires i < |s|
  {
    IsAlphanumeric(s[i]) && (i == 0 || !IsAlphanumeric(s[i - 1]))
  }

  /** `formatStatus`: "In Season" for a missing or empty status; otherwise
      underscores become spaces and each word's first character is upper-cased,
      everything else kept. */
  function FormatStatus(status: Option<string>): (r: string)
    ensures status.None? || status == Some("") ==> r == "In Season"
    ensures status.Some? && status.value != "" ==>
              var s := status.value;
              && |r| == |s|
              && '_' !in r
              && forall i | 0 <= i < |s| ::
                   r[i] == (if StartsWord(s, i) then Text.ToUpper(s[i]) else if s[i] == '_' then ' ' else s[i])
  {
    if status.None? || status.value == "" then "In Season"
    else
      var s := status.value;
      var t := UnderscoresToSpaces(s);
      var r := CapitalizeWords(t);
      assert forall i | 0 <= i < |s| :: WordStartAt(t, i) == StartsWord(s, i);
      forall c | c in r
        ensures c != '_'
      {
        var i :| 0 <= i < |r| && r[i] == c;
        assert t[i] != '_';
      }
      r
  }

  /** Formatting a label again changes nothing. */
  lemma FormatStatusIdempotent(status: Option<string>)
    ensures FormatStatus(Some(FormatStatus(status))) == FormatStatus(status)
  {
    var r := FormatStatus(status);
    if status.None? || status.value == "" {
      assert "In Season"[..2] == "In";
      var s := "In Season";
      forall i | 0 <= i < |s|
        ensures (if StartsWord(s, i) then Text.ToUpper(s[i]) else if s[i] == '_' then ' ' else s[i]) == s[i]
      {
      }
    } else {
      var r2 := FormatStatus(Some(r));
      var s := status.value;
      forall i | 0 <= i < |r|
        ensures r2[i] == r[i]
      {
        assert IsAlphanumeric(r[i]) == IsAlphanumeric(s[i]);
        if i > 0 {
          assert IsAlphanumeric(r[i - 1]) == IsAlphanumeric(s[i - 1]);
        }
      }
    }
  }

  /** `getStatusColor`. */
  function StatusColor(status: Option<string>): (r: string)
    ensures status.None? || status == Some("") ==> r == "text-accent-green"
    ensures status.Some? && status.value != "" ==>
              var key := Text.LowerString(status.value);
              r == (if key == "in_season" then "text-accent-green"
                    else if key == "pre_draft" then "text-accent-yellow"
                    else if key == "drafting" then "text-primary-400"
                    else if key == "complete" then "text-accent-purple"
                    else "text-gray-400")
  {
    if status.None? || status.value == "" then "text-accent-green"
    else
      match Text.LowerString(status.value)
      case "in_season" => "text-accent-green"
      case "pre_draft" => "text-accent-yellow"
      case "drafting" => "text-primary-400"
      case "complete" => "text-accent-purple"
      case _ => "text-gray-400"
  }

  /** The colour does not depend on letter case. */
  lemma StatusColorIgnoresCase(a: string, b: string)
    requires a != "" && b != "" && |a| == |b|
    requires forall i | 0 <= i < |a| :: Text.ToLower(a[i]) == Text.ToLower(b[i])
    ensures StatusColor(Some(a)) == StatusColor(Some(b))
  {
    assert Text.LowerString(a) == Text.LowerString(b);
  }

  /** A league without a status is shown and coloured like one in season. */
  lemma MissingStatusIsInSeason()
    ensures FormatStatus(None) == FormatStatus(Some("in_season"))
    ensures StatusColor(None) == StatusColor(Some("in_season")) == StatusColor(Some("IN_SEASON"))
  {
    InSeasonLabel();
    InSeasonColor();
  }

  /** The status "in_season" is shown as "In Season". */
  lemma InSeasonLabel()
    ensures FormatStatus(Some("in_season")) == "In Season"
  {
    var s := "in_season";
    var r := FormatStatus(Some(s));
    assert StartsWord(s, 0) && StartsWord(s, 3);
    assert forall i | 0 <= i < |s| && i != 0 && i != 3 :: !StartsWord(s, i);
    assert |r| == |"In Season"|;
    assert forall i | 0 <= i < |r| :: r[i] == "In Season"[i];
  }

  /** "in_season" in either case takes the in-season colour. */
  lemma InSeasonColor()
    ensures StatusColor(Some("in_season")) == "text-accent-green"
    ensures StatusColor(Some("IN_SEASON")) == "text-accent-green"
  {
    assert Text.LowerString("IN_SEASON") == "in_season";
    assert Text.LowerString("in_season") == "in_season";
  }
}
