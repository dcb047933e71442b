/** The investment-personality context: the three risk tiers, the PER/PBR/EPS
    preference thresholds each tier implies (`getPreferenceValues`), the
    default applied when nothing usable is stored, and `setPersonalityData`. */
module InvestmentPersonality {
  import opened Wrappers
  import opened BrowserStorage

  datatype Personality = Conservative | Moderate | Aggressive

  /** The stored spelling of a tier. */
  function Name(p: Personality): string {
    match p
    case Conservative => "conservative"
    case Moderate => "moderate"
    case Aggressive => "aggressive"
  }

  /** Reads a stored tier back; any other text is not a tier. */
  function ParsePersonality(text: string): (r: Option<Personality>)
    ensures r.Some? ==> Name(r.value) == text
  {
    if text == "conservative" then Some(Conservative)
    else if text == "moderate" then Some(Moderate)
    else if text == "aggressive" then Some(Aggressive)
    else None
  }

  /** Writing a tier and reading it back gives the same tier. */
  lemma ParseName(p: Personality)
    ensures ParsePersonality(Name(p)) == Some(p)
  {
  }

  /** Position of a tier on the risk scale, from conservative upwards. */
  function Rank(p: Personality): nat {
    match p
    case Conservative => 0
    case Moderate => 1
    case Aggressive => 2
  }

  /** Preference thresholds: PER and PBR are upper bounds, EPS a lower bound. */
  datatype Preferences = Preferences(per: real, pbr: real, eps: real)

  /** `getPreferenceValues`: the tier's row of the threshold table; a missing
      or unrecognised tier falls through to the moderate row. */
  function GetPreferenceValues(p: Option<Personality>): (r: Preferences)
    ensures r.per > 0.0 && r.pbr > 0.0 && r.eps > 0.0
    ensures p == Some(Conservative) ==> r == Preferences(10.0, 0.8, 2000.0)
    ensures p == Some(Aggressive) ==> r == Preferences(25.0, 2.0, 1000.0)
    ensures p == Some(Moderate) || p.None? ==> r == Preferences(15.0, 1.2, 1500.0)
  {
    match p
    case Some(Conservative) => Preferences(10.0, 0.8, 2000.0)
    case Some(Aggressive) => Preferences(25.0, 2.0, 1000.0)
    case _ => Preferences(15.0, 1.2, 1500.0)
  }

  /** A more aggressive tier tolerates higher PER and PBR and asks for less
      EPS: the table is strictly monotone along the risk scale. */
  lemma ThresholdsMonotone(a: Personality, b: Personality)
    requires Rank(a) < Rank(b)
    ensures GetPreferenceValues(Some(a)).per < GetPreferenceValues(Some(b)).per
    ensures GetPreferenceValues(Some(a)).pbr < GetPreferenceValues(Some(b)).pbr
    ensures GetPreferenceValues(Some(a)).eps > GetPreferenceValues(Some(b)).eps
  {
  }

  /** The context's state: the current tier (None stands for `null` and for
      a stored text that is not a tier) and the quiz answers behind it. */
  datatype PersonalityState = PersonalityState(personality: Option<Personality>, answers: seq<Option<int>>)

  /** The mount-time load. Any failure (storage unreadable or either value
      not decodable) leaves the answers empty and the tier moderate; with no
      stored tier the tier is moderate as well. */
  function LoadPersonality(storedTier: Stored<string>, storedAnswers: Stored<seq<Option<int>>>, readFails: bool): (r: PersonalityState)
    ensures readFails || storedTier.Malformed? || storedAnswers.Malformed? ==>
      r == PersonalityState(Some(Moderate), [])
    ensures !readFails && !storedTier.Malformed? && !storedAnswers.Malformed? ==>
      && (storedTier.Absent? ==> r.personality == Some(Moderate))
      && (storedTier.Present? ==> r.personality == ParsePersonality(storedTier.value))
      && (storedAnswers.Absent? ==> r.answers == [])
      && (storedAnswers.Present? ==> r.answers == storedAnswers.value)
  {
    if readFails || storedTier.Malformed? || storedAnswers.Malformed? then
      PersonalityState(Some(Moderate), [])
    else
      var tier := if storedTier.Present? then ParsePersonality(storedTier.value) else Some(Moderate);
      var answers := if storedAnswers.Present? then storedAnswers.value else [];
      PersonalityState(tier, answers)
  }

  /** Whatever was stored, the thresholds in force after loading are a row
      of the table, and the moderate row unless a tier was actually read. */
  lemma LoadedPreferencesDefaultModerate(storedTier: Stored<string>, storedAnswers: Stored<seq<Option<int>>>, readFails: bool)
    ensures var prefs := GetPreferenceValues(LoadPersonality(storedTier, storedAnswers, readFails).personality);
      !(storedTier.Present? && !readFails && !storedAnswers.Malformed?) ==> prefs == Preferences(15.0, 1.2, 1500.0)
  {
  }

  /** `setPersonalityData`: both values are written to storage first; only
      if that succeeds are answers and tier replaced, together. */
  function SetPersonalityData(st: PersonalityState, answers: seq<Option<int>>, p: Personality, storageOk: bool): (r: PersonalityState)
    ensures storageOk ==> r.personality == Some(p) && r.answers == answers
    ensures !storageOk ==> r == st
  {
    if storageOk then PersonalityState(Some(p), answers) else st
  }
}
