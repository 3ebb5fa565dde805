/**
 * The parts of dist/Tezos.js that decide without touching the chain: the
 * payout amount per profile, and the balance rule that refuses a payout to
 * an address that already holds enough. The balance itself comes from the
 * chain and is a parameter here.
 */
module Tezos {
  import opened Wrappers
  import opened JsValues

  const DefaultUserAmount := 1
  const DefaultBakerAmount := 6000
  const DefaultMaxBalance := 6000.0
  const MutezPerTez := 1000000

  /** The environment settings the lookup and the balance rule read. */
  datatype FaucetEnv = FaucetEnv(
    faucetAmountUser: Option<string>,
    faucetAmountBaker: Option<string>,
    maxBalance: Option<Num>)  // `Number(MAX_BALANCE)`, or `None` when unset or empty

  /** An amount as the lookup returns it: the setting's own text, or a numeric default. */
  datatype TezAmount = FromSetting(text: string) | DefaultTez(tez: int)

  /** `process.env.X || default`. */
  function SettingOr(setting: Option<string>, default: int): TezAmount {
    if Truthy(setting) then FromSetting(setting.value) else DefaultTez(default)
  }

  /** getTezAmountForProfile */
  function GetTezAmountForProfile(env: FaucetEnv, profile: string): (r: Result<TezAmount, string>)
    ensures r.Failure? <==> profile != "USER" && profile != "BAKER"
    ensures r.Failure? ==> r.error == "Unknown profile " + profile
  {
    match profile
    case "USER" => Success(SettingOr(env.faucetAmountUser, DefaultUserAmount))
    case "BAKER" => Success(SettingOr(env.faucetAmountBaker, DefaultBakerAmount))
    case _ => Failure("Unknown profile " + profile)
  }

  /** The balance rule inside `send`: refuse when the balance (mutez) exceeds the maximum (tez) in mutez. */
  predicate BalanceTooHigh(env: FaucetEnv, balanceMutez: int) {
    var maxBalance := if env.maxBalance.Some? then env.maxBalance.value else Finite(DefaultMaxBalance);
    maxBalance.Finite? && balanceMutez as real > maxBalance.value * MutezPerTez as real
  }

  // ---------------------------------------------------------------------------
  // Properties

  /** USER gets FAUCET_AMOUNT_USER when it is set, 1 otherwise. */
  lemma UserAmount(env: FaucetEnv)
    ensures Truthy(env.faucetAmountUser) ==>
      GetTezAmountForProfile(env, "USER") == Success(FromSetting(env.faucetAmountUser.value))
    ensures !Truthy(env.faucetAmountUser) ==> GetTezAmountForProfile(env, "USER") == Success(DefaultTez(1))
  {
  }

  /** BAKER gets FAUCET_AMOUNT_BAKER when it is set, 6000 otherwise. */
  lemma BakerAmount(env: FaucetEnv)
    ensures Truthy(env.faucetAmountBaker) ==>
      GetTezAmountForProfile(env, "BAKER") == Success(FromSetting(env.faucetAmountBaker.value))
    ensures !Truthy(env.faucetAmountBaker) ==> GetTezAmountForProfile(env, "BAKER") == Success(DefaultTez(6000))
  {
  }

  /** Matching is exact: other spellings of the profile names are unknown. */
  lemma LookupIsCaseSensitive(env: FaucetEnv)
    ensures GetTezAmountForProfile(env, "user") == Failure("Unknown profile " + "user")
    ensures GetTezAmountForProfile(env, "Baker") == Failure("Unknown profile " + "Baker")
  {
    assert "user"[0] != "USER"[0] && "user"[0] != "BAKER"[0];
    assert "Baker"[1] != "BAKER"[1] && |"Baker"| != |"USER"|;
  }

  /** With MAX_BALANCE unset a payout is refused exactly above 6000 tez. */
  lemma DefaultBalanceLimit(env: FaucetEnv, balanceMutez: int)
    requires env.maxBalance.None?
    ensures BalanceTooHigh(env, balanceMutez) <==> balanceMutez > 6000000000
  {
  }

  /** A higher balance is refused whenever a lower one is. */
  lemma BalanceRuleMonotone(env: FaucetEnv, lower: int, higher: int)
    requires lower <= higher && BalanceTooHigh(env, lower)
    ensures BalanceTooHigh(env, higher)
  {
  }

  /** A MAX_BALANCE that is not a number never refuses: every comparison with NaN is false. */
  lemma NaNMaxBalanceNeverRefuses(env: FaucetEnv, balanceMutez: int)
    requires env.maxBalance == Some(NaN)
    ensures !BalanceTooHigh(env, balanceMutez)
  {
  }
}
