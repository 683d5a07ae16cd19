/** The arithmetic and form rules of `MaterialsManager`: the "Hh Mm"
    duration label, each material card's capped progress and average focus,
    and the add-material form (its blank-name check, the target-hours input
    fallback and the reset after a successful add). The database calls are
    outcomes passed in by the caller. */
module MaterialsManager {
  import opened Common
  import opened Text

  /** `formatDuration`: whole hours, then the whole minutes left over. */
  function FormatDuration(seconds: nat): string {
    NatToString(seconds / 3600) + "h " + NatToString((seconds % 3600) / 60) + "m"
  }

  /** The minutes field is below an hour, the hours field counts whole hours,
      and together they account for the duration to within the last minute. */
  lemma {:induction false} DurationFieldsBounds(seconds: nat)
    ensures var hours, mins := seconds / 3600, (seconds % 3600) / 60;
            && 0 <= mins <= 59
            && hours * 3600 + mins * 60 <= seconds < hours * 3600 + mins * 60 + 60
  {
    var hours, rest := seconds / 3600, seconds % 3600;
    var mins := rest / 60;
    assert seconds == hours * 3600 + rest;
    assert rest == mins * 60 + rest % 60;
  }

  /** Reads a label of the form "<digits>h <digits>m" back into its fields. */
  function ParseDuration(s: string): Option<(nat, nat)> {
    var k := DigitPrefixLength(s);
    if k == 0 || |s| < k + 2 || s[k..k + 2] != "h " then None
    else
      var rest := s[k + 2..];
      var j := DigitPrefixLength(rest);
      if j == 0 || rest[j..] != "m" then None
      else Some((DigitsValue(s[..k]), DigitsValue(rest[..j])))
  }

  /** The label has exactly the form "<hours>h <mins>m": parsing it gives
      back the hours and the minutes. */
  lemma DurationLabelRoundTrip(seconds: nat)
    ensures ParseDuration(FormatDuration(seconds)) == Some((seconds / 3600, (seconds % 3600) / 60))
  {
    var h, m := NatToString(seconds / 3600), NatToString((seconds % 3600) / 60);
    var s := FormatDuration(seconds);
    assert s == h + ("h " + m + "m");
    DigitPrefixOfRun(h, "h " + m + "m");
    assert s[..|h|] == h;
    assert s[|h|..|h| + 2] == "h ";
    var rest := s[|h| + 2..];
    assert rest == m + "m";
    DigitPrefixOfRun(m, "m");
    assert rest[..|m|] == m;
    assert rest[|m|..] == "m";
    NatToStringRoundTrip(seconds / 3600);
    NatToStringRoundTrip((seconds % 3600) / 60);
  }

  /** A material card's progress: completed hours over target hours, in
      percent, capped at 100. */
  function ProgressPercent(totalDuration: real, targetHours: real): (p: real)
    requires targetHours != 0.0
    ensures p <= 100.0
    ensures totalDuration >= 0.0 && targetHours > 0.0 ==> p >= 0.0
  {
    var completedHours := totalDuration / 3600.0;
    Min(100.0, (completedHours / targetHours) * 100.0)
  }

  /** The bar is full exactly when the completed hours reach the target, and
      below that it is the uncapped share. */
  lemma ProgressFullIffTargetReached(totalDuration: real, targetHours: real)
    requires targetHours > 0.0
    ensures ProgressPercent(totalDuration, targetHours) == 100.0 <==> totalDuration / 3600.0 >= targetHours
    ensures totalDuration / 3600.0 < targetHours ==>
              ProgressPercent(totalDuration, targetHours) * targetHours == totalDuration / 3600.0 * 100.0
  {
    var c := totalDuration / 3600.0;
    var q := c / targetHours;
    assert q * targetHours == c;
    if c >= targetHours {
      assert q >= 1.0;
    } else {
      assert q < 1.0;
    }
  }

  /** A material card's average focus: the mean session score as
      `toFixed(0)` shows it, or 0 before the first session. */
  function AverageFocus(totalFocusScore: int, totalSessions: int): (avg: int)
    ensures totalSessions <= 0 ==> avg == 0
    ensures totalSessions > 0 ==>
              var mean := totalFocusScore as real / totalSessions as real;
              && (mean >= 0.0 ==> mean - 0.5 < avg as real <= mean + 0.5)
              && (mean < 0.0 ==> mean - 0.5 <= avg as real < mean + 0.5)
  {
    if totalSessions > 0 then
      RoundHalfAwayFromZero(totalFocusScore as real / totalSessions as real)
    else
      0
  }

  /** When every session scored in [0, 100], so does the average. */
  lemma AverageFocusInScoreRange(totalFocusScore: int, totalSessions: int)
    requires totalSessions > 0
    requires 0 <= totalFocusScore <= 100 * totalSessions
    ensures 0 <= AverageFocus(totalFocusScore, totalSessions) <= 100
  {
    MeanInScoreRange(totalFocusScore as real, totalSessions as real);
    var avg := AverageFocus(totalFocusScore, totalSessions);
    assert -0.5 < avg as real < 101.0;
  }

  lemma MeanInScoreRange(total: real, n: real)
    requires n > 0.0 && 0.0 <= total <= 100.0 * n
    ensures 0.0 <= total / n <= 100.0
  {
    assert (total / n) * n == total;
  }

  /** The add-material form's fields. */
  datatype MaterialDraft = MaterialDraft(name: string, category: string, targetHours: int, notes: string)

  const DefaultCategory: string := "Mathematics"
  const DefaultTargetHours: int := 10
  const EmptyDraft: MaterialDraft := MaterialDraft("", DefaultCategory, DefaultTargetHours, "")

  /** The target-hours input: `parseInt(value) || 10`, so NaN and 0 both
      fall back to 10. */
  function TargetHoursFromInput(input: string): (hours: int)
    ensures hours != 0
    ensures ParseInt(input).None? ==> hours == DefaultTargetHours
    ensures ParseInt(input).Some? && ParseInt(input).value != 0 ==> hours == ParseInt(input).value
    ensures ParseInt(input) == Some(0) ==> hours == DefaultTargetHours
  {
    match ParseInt(input)
    case Some(n) => if n != 0 then n else DefaultTargetHours
    case None => DefaultTargetHours
  }

  /** A typed positive whole number of hours is kept, whatever non-digit
      text follows it ("12.5" gives 12); an empty input gives 10. */
  lemma TargetHoursOfTypedNumber(n: nat, rest: string)
    requires n > 0
    requires rest == [] || !IsDigit(rest[0])
    ensures TargetHoursFromInput(NatToString(n) + rest) == n
    ensures TargetHoursFromInput("") == DefaultTargetHours
  {
    ParseIntOfNumber(n, rest);
  }

  /** Which way `handleAddMaterial` ended. */
  datatype AddOutcome = NameRequired | NotSignedIn | InsertFailed | Added

  class MaterialsForm {
    var newMaterial: MaterialDraft
    var isAdding: bool
    /** The rows `handleAddMaterial` has asked the database to insert. */
    var insertRequests: seq<MaterialDraft>

    constructor ()
      ensures newMaterial == EmptyDraft && !isAdding && insertRequests == []
    {
      newMaterial := EmptyDraft;
      isAdding := false;
      insertRequests := [];
    }

    /** The "Add Material" header button toggles the form. */
    method ToggleAdding()
      modifies this
      ensures isAdding == !old(isAdding)
      ensures newMaterial == old(newMaterial) && insertRequests == old(insertRequests)
    {
      isAdding := !isAdding;
    }

    /** The form's Cancel button. */
    method CancelAdding()
      modifies this
      ensures !isAdding
      ensures newMaterial == old(newMaterial) && insertRequests == old(insertRequests)
    {
      isAdding := false;
    }

    method EditName(value: string)
      modifies this
      ensures newMaterial == old(newMaterial).(name := value)
      ensures isAdding == old(isAdding) && insertRequests == old(insertRequests)
    {
      newMaterial := newMaterial.(name := value);
    }

    method EditCategory(value: string)
      modifies this
      ensures newMaterial == old(newMaterial).(category := value)
      ensures isAdding == old(isAdding) && insertRequests == old(insertRequests)
    {
      newMaterial := newMaterial.(category := value);
    }

    method EditTargetHours(input: string)
      modifies this
      ensures newMaterial == old(newMaterial).(targetHours := TargetHoursFromInput(input))
      ensures newMaterial.targetHours != 0
      ensures isAdding == old(isAdding) && insertRequests == old(insertRequests)
    {
      newMaterial := newMaterial.(targetHours := TargetHoursFromInput(input));
    }

    method EditNotes(value: string)
      modifies this
      ensures newMaterial == old(newMaterial).(notes := value)
      ensures isAdding == old(isAdding) && insertRequests == old(insertRequests)
    {
      newMaterial := newMaterial.(notes := value);
    }

    /** `handleAddMaterial`. A blank name stops it before anything else; the
        signed-in check and the insert's result are supplied by the caller.
        Only a successful insert resets the form and closes it. */
    method HandleAddMaterial(signedIn: bool, insertSucceeds: bool) returns (outcome: AddOutcome)
      modifies this
      ensures IsBlank(old(newMaterial).name) ==>
                outcome == NameRequired && insertRequests == old(insertRequests)
      ensures !IsBlank(old(newMaterial).name) && !signedIn ==>
                outcome == NotSignedIn && insertRequests == old(insertRequests)
      ensures !IsBlank(old(newMaterial).name) && signedIn ==>
                insertRequests == old(insertRequests) + [old(newMaterial)]
                && outcome == (if insertSucceeds then Added else InsertFailed)
      ensures outcome == Added ==> newMaterial == EmptyDraft && !isAdding
      ensures outcome != Added ==> newMaterial == old(newMaterial) && isAdding == old(isAdding)
    {
      if Trim(newMaterial.name) == [] {
        return NameRequired;
      }
      if !signedIn {
        return NotSignedIn;
      }
      insertRequests := insertRequests + [newMaterial];
      if !insertSucceeds {
        return InsertFailed;
      }
      newMaterial := EmptyDraft;
      isAdding := false;
      outcome := Added;
    }
  }
}
