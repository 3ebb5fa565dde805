/**
 * Validation of the payout profiles loaded from the profiles file
 * (src/profiles.ts). Each property's JSON value is coerced with `Number(...)`
 * before it is checked; the raw profile holds those coerced numbers, and a
 * property missing from the file reads as NaN.
 */
module Profiles {
  import opened Wrappers
  import opened JsValues

  datatype Property =
    | Amount
    | ChallengesNeeded
    | ChallengesNeededWithCaptcha
    | Difficulty
    | DifficultyWithCaptcha

  function Name(p: Property): string {
    match p
    case Amount => "amount"
    case ChallengesNeeded => "challengesNeeded"
    case ChallengesNeededWithCaptcha => "challengesNeededWithCaptcha"
    case Difficulty => "difficulty"
    case DifficultyWithCaptcha => "difficultyWithCaptcha"
  }

  /** `Number(profile[property])` for each property the file gives. */
  type RawProfile = map<Property, Num>

  /** A validated profile: the properties that were checked, with their values. */
  type ProfileConfig = map<Property, real>

  datatype ProfileError = NotANumber(property: Property) | NotPositive(property: Property)

  function Message(e: ProfileError): string {
    match e
    case NotANumber(p) => "Profile '" + Name(p) + "' must be a number"
    case NotPositive(p) => "Profile '" + Name(p) + "' must be greater than 0"
  }

  function Coerced(profile: RawProfile, property: Property): Num {
    if property in profile then profile[property] else NaN
  }

  /**
   * validateProperty: the number, which must not be NaN and, when it is the
   * amount or challenges are enabled, must be greater than 0.
   */
  function ValidateProperty(disableChallenges: bool, profile: RawProfile, property: Property)
    : (r: Result<real, ProfileError>)
    ensures r.Success? <==>
      && Coerced(profile, property).Finite?
      && ((property == Amount || !disableChallenges) ==> Coerced(profile, property).value > 0.0)
    ensures r.Success? ==> Coerced(profile, property) == Finite(r.value)
    ensures Coerced(profile, property).NaN? ==> r == Failure(NotANumber(property))
  {
    var value := Coerced(profile, property);
    if value.NaN? then Failure(NotANumber(property))
    else if (property == Amount || !disableChallenges) && value.value <= 0.0 then
      Failure(NotPositive(property))
    else Success(value.value)
  }

  /** The properties a profile must have: only the amount when challenges are disabled. */
  function PropertiesToCheck(disableChallenges: bool): seq<Property> {
    if disableChallenges then [Amount]
    else [Amount, ChallengesNeeded, ChallengesNeededWithCaptcha, Difficulty, DifficultyWithCaptcha]
  }

  /** The `reduce` over the properties: each validated value is stored in the accumulator. */
  function Fold(disableChallenges: bool, profile: RawProfile, properties: seq<Property>,
                acc: ProfileConfig): (r: Result<ProfileConfig, ProfileError>)
    ensures r.Success? <==>
      forall i :: 0 <= i < |properties| ==> ValidateProperty(disableChallenges, profile, properties[i]).Success?
    ensures r.Success? ==> r.value.Keys == acc.Keys + set p | p in properties
    ensures r.Success? ==> forall p :: p in properties ==>
      Coerced(profile, p) == Finite(r.value[p])
    ensures r.Success? ==> forall p :: p in acc && p !in properties ==> r.value[p] == acc[p]
  {
    if properties == [] then Success(acc)
    else
      var v := ValidateProperty(disableChallenges, profile, properties[0]);
      if v.Failure? then Failure(v.error)
      else
        var r := Fold(disableChallenges, profile, properties[1..], acc[properties[0] := v.value]);
        assert forall i :: 1 <= i < |properties| ==> properties[i] == properties[1..][i - 1];
        assert forall p :: p in properties ==> p == properties[0] || p in properties[1..];
        r
  }

  /** validateProfile */
  function ValidateProfile(disableChallenges: bool, profile: RawProfile): Result<ProfileConfig, ProfileError> {
    Fold(disableChallenges, profile, PropertiesToCheck(disableChallenges), map[])
  }

  /** validatedProfiles: profiles under their upper-cased names; the last of equal names wins. */
  function ValidatedProfiles(disableChallenges: bool, entries: seq<(string, RawProfile)>)
    : Result<map<string, ProfileConfig>, ProfileError>
  {
    if entries == [] then Success(map[])
    else
      var acc :- ValidatedProfiles(disableChallenges, entries[..|entries| - 1]);
      var last := entries[|entries| - 1];
      var profile :- ValidateProfile(disableChallenges, last.1);
      Success(acc[ToUpperCase(last.0) := profile])
  }

  // ---------------------------------------------------------------------------
  // Properties

  /** The amount must always be positive. */
  lemma AmountMustBePositive(disableChallenges: bool, profile: RawProfile)
    requires Amount in profile && profile[Amount].Finite? && profile[Amount].value <= 0.0
    ensures ValidateProperty(disableChallenges, profile, Amount) == Failure(NotPositive(Amount))
    ensures ValidateProfile(disableChallenges, profile) == Failure(NotPositive(Amount))
  {
  }

  /** With challenges enabled, a profile validates exactly when all five properties are positive numbers. */
  lemma EnabledProfileRule(profile: RawProfile)
    ensures ValidateProfile(false, profile).Success? <==>
      forall p: Property :: Coerced(profile, p).Finite? && Coerced(profile, p).value > 0.0
    ensures ValidateProfile(false, profile).Success? ==>
      ValidateProfile(false, profile).value.Keys ==
        {Amount, ChallengesNeeded, ChallengesNeededWithCaptcha, Difficulty, DifficultyWithCaptcha}
    ensures ValidateProfile(false, profile).Success? ==> forall p: Property ::
      p in ValidateProfile(false, profile).value &&
      Coerced(profile, p) == Finite(ValidateProfile(false, profile).value[p])
  {
    var props := PropertiesToCheck(false);
    forall p: Property ensures p in props {
      var i := if p == Amount then 0 else if p == ChallengesNeeded then 1
               else if p == ChallengesNeededWithCaptcha then 2 else if p == Difficulty then 3 else 4;
      assert props[i] == p;
    }
  }

  /** With challenges disabled only the amount is checked, and only the amount is kept. */
  lemma DisabledProfileRule(profile: RawProfile)
    ensures ValidateProfile(true, profile).Success? <==>
      Coerced(profile, Amount).Finite? && Coerced(profile, Amount).value > 0.0
    ensures ValidateProfile(true, profile).Success? ==>
      ValidateProfile(true, profile).value == map[Amount := Coerced(profile, Amount).value]
  {
    var props := PropertiesToCheck(true);
    assert props[0] == Amount;
  }

  /** One invalid profile makes the whole load fail. */
  lemma {:induction false} OneInvalidFailsAll(disableChallenges: bool, entries: seq<(string, RawProfile)>, i: nat)
    requires i < |entries| && ValidateProfile(disableChallenges, entries[i].1).Failure?
    ensures ValidatedProfiles(disableChallenges, entries).Failure?
  {
    if i < |entries| - 1 {
      OneInvalidFailsAll(disableChallenges, entries[..|entries| - 1], i);
    }
  }

  /** The loaded names: the upper-cased names of the entries. */
  function LoadedNames(entries: seq<(string, RawProfile)>): set<string> {
    set i | 0 <= i < |entries| :: ToUpperCase(entries[i].0)
  }

  /** Entry `i` is the last entry whose name upper-cases to its name. */
  predicate LastWithName(entries: seq<(string, RawProfile)>, i: int) {
    && 0 <= i < |entries|
    && forall j :: i < j < |entries| ==> ToUpperCase(entries[j].0) != ToUpperCase(entries[i].0)
  }

  lemma LoadedNamesSnoc(entries: seq<(string, RawProfile)>)
    requires entries != []
    ensures LoadedNames(entries)
      == LoadedNames(entries[..|entries| - 1]) + {ToUpperCase(entries[|entries| - 1].0)}
  {
    var init := entries[..|entries| - 1];
    forall i | 0 <= i < |init| ensures init[i] == entries[i] { }
  }

  /** A successful load is keyed by the upper-cased names of the entries. */
  lemma {:induction false} LoadedKeys(disableChallenges: bool, entries: seq<(string, RawProfile)>)
    requires ValidatedProfiles(disableChallenges, entries).Success?
    ensures ValidatedProfiles(disableChallenges, entries).value.Keys == LoadedNames(entries)
  {
    if entries != [] {
      LoadedKeys(disableChallenges, entries[..|entries| - 1]);
      LoadedNamesSnoc(entries);
    }
  }

  /** A successful load is the load of all but the last entry, with the last one's profile added. */
  lemma LoadSnoc(disableChallenges: bool, entries: seq<(string, RawProfile)>)
    requires entries != [] && ValidatedProfiles(disableChallenges, entries).Success?
    ensures ValidatedProfiles(disableChallenges, entries[..|entries| - 1]).Success?
    ensures ValidateProfile(disableChallenges, entries[|entries| - 1].1).Success?
    ensures ValidatedProfiles(disableChallenges, entries).value
         == ValidatedProfiles(disableChallenges, entries[..|entries| - 1]).value[
              ToUpperCase(entries[|entries| - 1].0) := ValidateProfile(disableChallenges, entries[|entries| - 1].1).value]
  {
  }

  /** Under each name a successful load holds the profile of the last entry with that name. */
  lemma {:induction false} LoadedValues(disableChallenges: bool, entries: seq<(string, RawProfile)>, i: int)
    requires ValidatedProfiles(disableChallenges, entries).Success?
    requires LastWithName(entries, i)
    ensures ToUpperCase(entries[i].0) in ValidatedProfiles(disableChallenges, entries).value
    ensures ValidateProfile(disableChallenges, entries[i].1)
      == Success(ValidatedProfiles(disableChallenges, entries).value[ToUpperCase(entries[i].0)])
  {
    var n := |entries| - 1;
    var init := entries[..n];
    LoadSnoc(disableChallenges, entries);
    if i < n {
      assert init[i] == entries[i];
      assert LastWithName(init, i) by {
        forall j | i < j < |init| ensures init[j] == entries[j] { }
      }
      LoadedValues(disableChallenges, init, i);
    }
  }
}
