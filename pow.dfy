/**
 * The proof-of-work engine of src/pow.ts: the per-address store key, the
 * policy calculator (challenge size, difficulty, number of rounds), challenge
 * creation from random bytes, the store adapter that writes and reads a
 * challenge record as a hash of string fields, and the solution verifier.
 * SHA-256 and the random bytes are parameters.
 */
module Pow {
  import opened Wrappers
  import opened JsValues
  import Env
  import Redis

  // ---------------------------------------------------------------------------
  // Store key

  const KeyPrefix := "address:"

  /** getChallengeKey: the address, unchanged, behind a fixed prefix. */
  function ChallengeKey(address: string): (key: string)
    ensures |key| == |KeyPrefix| + |address|
    ensures key[..|KeyPrefix|] == KeyPrefix && key[|KeyPrefix|..] == address
  {
    KeyPrefix + address
  }

  /** Distinct addresses get distinct keys. */
  lemma ChallengeKeyInjective(a: string, b: string)
    requires ChallengeKey(a) == ChallengeKey(b)
    ensures a == b
  {
    assert a == ChallengeKey(a)[|KeyPrefix|..];
  }

  // ---------------------------------------------------------------------------
  // Policy calculator

  /** The size in bytes of every challenge: fixed, whatever CHALLENGE_SIZE says. */
  const ChallengeSize := 32

  datatype DifficultyPolicy = DifficultyPolicy(challengeSize: nat, difficulty: real)

  /** determineDifficulty */
  function DetermineDifficulty(cfg: Env.Config): DifficultyPolicy {
    DifficultyPolicy(ChallengeSize, cfg.difficulty)
  }

  /** The challenge size is 32 and the difficulty is DIFFICULTY; CHALLENGE_SIZE plays no part. */
  lemma DetermineDifficultyIgnoresChallengeSize(cfg: Env.Config, size: real)
    ensures DetermineDifficulty(cfg.(challengeSize := size)) == DetermineDifficulty(cfg)
    ensures DetermineDifficulty(cfg).challengeSize == 32
    ensures DetermineDifficulty(cfg).difficulty == cfg.difficulty
  {
  }

  /** Math.ceil on a real: the least integer not below `x`. */
  function Ceil(x: real): (n: int)
    ensures n as real - 1.0 < x <= n as real
  {
    var f := x.Floor;
    if f as real == x then f else f + 1
  }

  /** The round count before any captcha reduction: linear in the amount between the bounds. */
  function BaseChallenges(cfg: Env.Config, amount: real): real
    requires cfg.maxTez != cfg.minTez
  {
    var tezProportion := (amount - cfg.minTez) / (cfg.maxTez - cfg.minTez);
    (cfg.maxChallenges - cfg.minChallenges) * tezProportion + cfg.minChallenges
  }

  /** determineChallengesNeeded: the base count, reduced by the ratio when a captcha was used, rounded up. */
  function DetermineChallengesNeeded(cfg: Env.Config, usedCaptcha: bool, amount: real): int
    requires cfg.maxTez != cfg.minTez
  {
    var baseChallenges := BaseChallenges(cfg, amount);
    var reduced := if usedCaptcha then baseChallenges * (1.0 - cfg.reductionRatio) else baseChallenges;
    Ceil(reduced)
  }

  predicate IsIntegral(x: real) {
    x.Floor as real == x
  }

  lemma CeilOfIntegral(x: real)
    requires IsIntegral(x)
    ensures Ceil(x) == x.Floor
  {
  }

  lemma CeilMonotone(x: real, y: real)
    requires x <= y
    ensures Ceil(x) <= Ceil(y)
  {
  }

  /** At the smallest amount, the count without captcha is MIN_CHALLENGES. */
  lemma ChallengesAtMinTez(cfg: Env.Config)
    requires cfg.maxTez != cfg.minTez && IsIntegral(cfg.minChallenges)
    ensures DetermineChallengesNeeded(cfg, false, cfg.minTez) == cfg.minChallenges.Floor
  {
    assert BaseChallenges(cfg, cfg.minTez) == cfg.minChallenges;
  }

  /** At the largest amount, the count without captcha is MAX_CHALLENGES. */
  lemma ChallengesAtMaxTez(cfg: Env.Config)
    requires cfg.maxTez != cfg.minTez && IsIntegral(cfg.maxChallenges)
    ensures DetermineChallengesNeeded(cfg, false, cfg.maxTez) == cfg.maxChallenges.Floor
  {
    assert (cfg.maxTez - cfg.minTez) / (cfg.maxTez - cfg.minTez) == 1.0;
    assert BaseChallenges(cfg, cfg.maxTez) == cfg.maxChallenges;
  }

  lemma BaseMonotone(cfg: Env.Config, lower: real, higher: real)
    requires cfg.maxTez > cfg.minTez && cfg.maxChallenges >= cfg.minChallenges
    requires lower <= higher
    ensures BaseChallenges(cfg, lower) <= BaseChallenges(cfg, higher)
  {
    var d := cfg.maxTez - cfg.minTez;
    var p, q := (lower - cfg.minTez) / d, (higher - cfg.minTez) / d;
    assert p <= q by {
      assert p * d == lower - cfg.minTez && q * d == higher - cfg.minTez;
      assert (q - p) * d >= 0.0;
    }
    var k := cfg.maxChallenges - cfg.minChallenges;
    assert k * p <= k * q by {
      assert k * q - k * p == k * (q - p);
    }
  }

  lemma ScaleMonotone(a: real, b: real, f: real)
    requires a <= b && f >= 0.0
    ensures a * f <= b * f
  {
    assert b * f - a * f == (b - a) * f;
  }

  /** A larger amount never needs fewer rounds, with or without captcha. */
  lemma ChallengesMonotoneInAmount(cfg: Env.Config, usedCaptcha: bool, lower: real, higher: real)
    requires cfg.maxTez > cfg.minTez && cfg.maxChallenges >= cfg.minChallenges
    requires cfg.reductionRatio <= 1.0
    requires lower <= higher
    ensures DetermineChallengesNeeded(cfg, usedCaptcha, lower) <= DetermineChallengesNeeded(cfg, usedCaptcha, higher)
  {
    var b1, b2 := BaseChallenges(cfg, lower), BaseChallenges(cfg, higher);
    BaseMonotone(cfg, lower, higher);
    var f := 1.0 - cfg.reductionRatio;
    var r1 := if usedCaptcha then b1 * f else b1;
    var r2 := if usedCaptcha then b2 * f else b2;
    assert r1 <= r2 by {
      if usedCaptcha {
        ScaleMonotone(b1, b2, f);
      }
    }
    ChallengesFromReduced(cfg, usedCaptcha, lower, r1);
    ChallengesFromReduced(cfg, usedCaptcha, higher, r2);
    CeilMonotone(r1, r2);
  }

  lemma BaseAtLeastMin(cfg: Env.Config, amount: real)
    requires cfg.maxTez > cfg.minTez && cfg.maxChallenges >= cfg.minChallenges
    requires amount >= cfg.minTez
    ensures BaseChallenges(cfg, amount) >= cfg.minChallenges
  {
    BaseMonotone(cfg, cfg.minTez, amount);
    assert BaseChallenges(cfg, cfg.minTez) == cfg.minChallenges;
  }

  /**
   * For an amount at or above MIN_TEZ, a captcha never raises the round
   * count, and with MIN_CHALLENGES positive both counts are at least 1.
   */
  lemma CaptchaNeverIncreasesChallenges(cfg: Env.Config, amount: real)
    requires cfg.maxTez > cfg.minTez && 0.0 <= cfg.minChallenges <= cfg.maxChallenges
    requires 0.0 <= cfg.reductionRatio < 1.0
    requires amount >= cfg.minTez
    ensures DetermineChallengesNeeded(cfg, true, amount) <= DetermineChallengesNeeded(cfg, false, amount)
    ensures cfg.minChallenges > 0.0 ==> DetermineChallengesNeeded(cfg, true, amount) >= 1
    ensures cfg.minChallenges > 0.0 ==> DetermineChallengesNeeded(cfg, false, amount) >= 1
  {
    var b := BaseChallenges(cfg, amount);
    BaseAtLeastMin(cfg, amount);
    var f := 1.0 - cfg.reductionRatio;
    ChallengesFromReduced(cfg, true, amount, b * f);
    ChallengesFromReduced(cfg, false, amount, b);
    assert b * f <= b by {
      ScaleMonotone(f, 1.0, b);
    }
    CeilMonotone(b * f, b);
    if cfg.minChallenges > 0.0 {
      assert b * f > 0.0 by {
        ScaleMonotone(0.0, b, f);
        assert b * f != 0.0;
      }
    }
  }

  /** The policy bounds of the default settings; the other settings do not enter the count. */
  predicate DefaultBounds(cfg: Env.Config) {
    && cfg.minTez == Env.DefaultConfig.minTez && cfg.maxTez == Env.DefaultConfig.maxTez
    && cfg.minChallenges == Env.DefaultConfig.minChallenges
    && cfg.maxChallenges == Env.DefaultConfig.maxChallenges
    && cfg.reductionRatio == Env.DefaultConfig.reductionRatio
  }

  lemma ChallengesFromReduced(cfg: Env.Config, usedCaptcha: bool, amount: real, reduced: real)
    requires cfg.maxTez != cfg.minTez
    requires reduced == if usedCaptcha then BaseChallenges(cfg, amount) * (1.0 - cfg.reductionRatio)
                        else BaseChallenges(cfg, amount)
    ensures DetermineChallengesNeeded(cfg, usedCaptcha, amount) == Ceil(reduced)
  {
  }

  /** Under the default bounds the full 6000 tez needs 120 rounds, or 60 with a captcha. */
  lemma DefaultChallengesAtMaxTez(cfg: Env.Config)
    requires DefaultBounds(cfg)
    ensures DetermineChallengesNeeded(cfg, false, 6000.0) == 120
    ensures DetermineChallengesNeeded(cfg, true, 6000.0) == 60
  {
    assert BaseChallenges(cfg, 6000.0) == 120.0 by {
      assert (6000.0 - 1.0) / (6000.0 - 1.0) == 1.0;
    }
    ChallengesFromReduced(cfg, false, 6000.0, 120.0);
    ChallengesFromReduced(cfg, true, 6000.0, 60.0);
    assert Ceil(120.0) == 120 && Ceil(60.0) == 60;
  }

  /** Under the default bounds 1 tez needs a single round, captcha or not. */
  lemma DefaultChallengesAtMinTez(cfg: Env.Config)
    requires DefaultBounds(cfg)
    ensures DetermineChallengesNeeded(cfg, false, 1.0) == 1
    ensures DetermineChallengesNeeded(cfg, true, 1.0) == 1
  {
    assert BaseChallenges(cfg, 1.0) == 1.0 by {
      assert (1.0 - 1.0) / (6000.0 - 1.0) == 0.0;
    }
    ChallengesFromReduced(cfg, false, 1.0, 1.0);
    ChallengesFromReduced(cfg, true, 1.0, 0.5);
    assert Ceil(1.0) == 1 && Ceil(0.5) == 1;
  }

  /**
   * Under a configuration that passes the start-up checks with MAX_TEZ above
   * MIN_TEZ, every amount from MIN_TEZ up needs at least one round.
   */
  lemma ValidatedPolicyNeedsARound(v: Env.EnvValues, usedCaptcha: bool, amount: real)
    requires Env.ValidateStrict(v).Success?
    requires amount >= Env.ValidateStrict(v).value.minTez
    ensures DetermineChallengesNeeded(Env.ValidateStrict(v).value, usedCaptcha, amount) >= 1
  {
    Env.AcceptedBounds(v);
    CaptchaNeverIncreasesChallenges(Env.ValidateStrict(v).value, amount);
  }

  // ---------------------------------------------------------------------------
  // Challenge creation

  /** generateChallenge: the hex text of `bytesSize` random bytes (the bytes are the oracle's). */
  function GenerateChallenge(bytesSize: nat, randomBytes: seq<Byte>): (challenge: string)
    requires |randomBytes| == bytesSize
    ensures |challenge| == 2 * bytesSize && IsLowerHex(challenge)
    ensures FromHex(challenge) == randomBytes
  {
    HexRoundTrip(randomBytes);
    ToHex(randomBytes)
  }

  datatype NewChallenge = NewChallenge(amount: real, challenge: string, challengesNeeded: int, difficulty: real)

  /** createChallenge: a fresh 32-byte challenge with the round count and difficulty the policy gives. */
  function CreateChallenge(cfg: Env.Config, amount: real, usedCaptcha: bool, randomBytes: seq<Byte>)
    : (r: NewChallenge)
    requires cfg.maxTez != cfg.minTez
    requires |randomBytes| == ChallengeSize
    ensures r.amount == amount && r.difficulty == cfg.difficulty
    ensures |r.challenge| == 64 && IsLowerHex(r.challenge) && FromHex(r.challenge) == randomBytes
    ensures r.challengesNeeded == DetermineChallengesNeeded(cfg, usedCaptcha, amount)
  {
    var challengesNeeded := DetermineChallengesNeeded(cfg, usedCaptcha, amount);
    var policy := DetermineDifficulty(cfg);
    var challenge := GenerateChallenge(policy.challengeSize, randomBytes);
    NewChallenge(amount, challenge, challengesNeeded, policy.difficulty)
  }

  // ---------------------------------------------------------------------------
  // Store adapter

  const DefaultExpiration := 1800

  /**
   * The arguments of saveChallenge. A field left `None` is not written, so
   * the stored one (if any) survives; numbers are written as decimal text.
   */
  datatype SaveArgs = SaveArgs(
    amount: Option<int>,
    challenge: Option<string>,
    challengeCounter: Option<int>,
    challengesNeeded: Option<int>,
    difficulty: Option<int>,
    usedCaptcha: Option<bool>,
    expiration: Option<int>)

  predicate WritesSomeField(args: SaveArgs) {
    || args.amount.Some? || args.challenge.Some? || args.challengeCounter.Some?
    || args.challengesNeeded.Some? || args.difficulty.Some? || args.usedCaptcha.Some?
  }

  function NumberText(n: Option<int>): Option<string> {
    if n.Some? then Some(IntToDecimal(n.value)) else None
  }

  function BoolText(b: Option<bool>): Option<string> {
    if b.Some? then Some(if b.value then "true" else "false") else None
  }

  function Put(h: Redis.Hash, field: string, value: Option<string>): Redis.Hash {
    if value.Some? then h[field := value.value] else h
  }

  /** The fields the HSET of saveChallenge writes. */
  function Fields(args: SaveArgs): Redis.Hash {
    var h := Put(map[], "amount", NumberText(args.amount));
    var h := Put(h, "challenge", args.challenge);
    var h := Put(h, "challengeCounter", NumberText(args.challengeCounter));
    var h := Put(h, "challengesNeeded", NumberText(args.challengesNeeded));
    var h := Put(h, "difficulty", NumberText(args.difficulty));
    Put(h, "usedCaptcha", BoolText(args.usedCaptcha))
  }

  lemma FieldsNonEmpty(args: SaveArgs)
    requires WritesSomeField(args)
    ensures Fields(args) != map[]
  {
    FieldsKeys(args);
  }

  /** saveChallenge on the store's contents: HSET the given fields, then EXPIRE the key. */
  function SaveChallengeSpec(db: Redis.Db, key: string, args: SaveArgs): Redis.Db
    requires WritesSomeField(args)
  {
    FieldsNonEmpty(args);
    Redis.ExpireSpec(Redis.HSetSpec(db, key, Fields(args)), key, args.expiration.GetOr(DefaultExpiration))
  }

  /** saveChallenge */
  method SaveChallenge(redis: Redis.RedisClient, key: string, args: SaveArgs)
    requires WritesSomeField(args)
    modifies redis
    ensures redis.db == SaveChallengeSpec(old(redis.db), key, args)
  {
    FieldsNonEmpty(args);
    redis.HSet(key, Fields(args));
    redis.Expire(key, args.expiration.GetOr(DefaultExpiration));
  }

  /** A challenge record as read back; a number that does not parse is NaN (`None`). */
  datatype ChallengeState = ChallengeState(
    amount: Option<int>,
    challenge: Option<string>,
    challengeCounter: Option<int>,
    challengesNeeded: Option<int>,
    difficulty: Option<int>,
    usedCaptcha: bool)

  /** `Number(data[field])`: a missing field is NaN. */
  function NumberField(h: Redis.Hash, field: string): Option<int> {
    if field in h then ParseInteger(h[field]) else None
  }

  /** getChallenge: no record when the key has no fields; otherwise every field parsed. */
  function GetChallenge(db: Redis.Db, key: string): (r: Option<ChallengeState>)
    ensures r.None? <==> Redis.HGetAll(db, key) == map[]
    ensures r.Some? ==> (r.value.usedCaptcha <==> Redis.HGet(db, key, "usedCaptcha") == Some("true"))
    ensures r.Some? ==> r.value.challenge == Redis.HGet(db, key, "challenge")
  {
    var data := Redis.HGetAll(db, key);
    if data == map[] then None
    else
      Some(ChallengeState(
        amount := NumberField(data, "amount"),
        challenge := Redis.HGet(db, key, "challenge"),
        challengeCounter := NumberField(data, "challengeCounter"),
        challengesNeeded := NumberField(data, "challengesNeeded"),
        difficulty := NumberField(data, "difficulty"),
        usedCaptcha := "usedCaptcha" in data && data["usedCaptcha"] == "true"))
  }

  /** The six field names of a record. */
  const RecordFields := {"amount", "challenge", "challengeCounter", "challengesNeeded", "difficulty", "usedCaptcha"}

  lemma FieldNamesDistinct()
    ensures "challengeCounter" != "challengesNeeded"
    ensures "challenge" != "challengeCounter" && "challenge" != "challengesNeeded"
  {
    assert "challengeCounter"[9] != "challengesNeeded"[9];
  }

  /** The field names the HSET of saveChallenge writes: one for each given value. */
  lemma FieldsKeys(args: SaveArgs)
    ensures var h := Fields(args);
      && ("amount" in h <==> args.amount.Some?)
      && ("challenge" in h <==> args.challenge.Some?)
      && ("challengeCounter" in h <==> args.challengeCounter.Some?)
      && ("challengesNeeded" in h <==> args.challengesNeeded.Some?)
      && ("difficulty" in h <==> args.difficulty.Some?)
      && ("usedCaptcha" in h <==> args.usedCaptcha.Some?)
      && h.Keys <= RecordFields
      && (h != map[] <==> WritesSomeField(args))
  {
    FieldNamesDistinct();
  }

  /** The text written for each given value: numbers in decimal, the flag as "true" or "false". */
  lemma FieldsValues(args: SaveArgs)
    ensures var h := Fields(args);
      && (args.amount.Some? ==> "amount" in h && h["amount"] == IntToDecimal(args.amount.value))
      && (args.challenge.Some? ==> "challenge" in h && h["challenge"] == args.challenge.value)
      && (args.challengeCounter.Some? ==>
            "challengeCounter" in h && h["challengeCounter"] == IntToDecimal(args.challengeCounter.value))
      && (args.challengesNeeded.Some? ==>
            "challengesNeeded" in h && h["challengesNeeded"] == IntToDecimal(args.challengesNeeded.value))
      && (args.difficulty.Some? ==> "difficulty" in h && h["difficulty"] == IntToDecimal(args.difficulty.value))
      && (args.usedCaptcha.Some? ==>
            "usedCaptcha" in h && h["usedCaptcha"] == if args.usedCaptcha.value then "true" else "false")
  {
    FieldNamesDistinct();
  }

  /** The record a save leaves: the hash before the save, overwritten by the fields written. */
  lemma SavedHash(db: Redis.Db, key: string, args: SaveArgs)
    requires WritesSomeField(args) && args.expiration.GetOr(DefaultExpiration) > 0
    ensures Redis.HGetAll(SaveChallengeSpec(db, key, args), key) == Redis.HGetAll(db, key) + Fields(args)
    ensures forall k :: k != key ==> Redis.HGetAll(SaveChallengeSpec(db, key, args), k) == Redis.HGetAll(db, k)
  {
    FieldsKeys(args);
    FieldsValues(args);
    var written := Redis.HSetSpec(db, key, Fields(args));
    assert key in written.hashes;
  }

  /** What a number field reads as once the hash was merged with `fields`. */
  lemma NumberFieldAfterMerge(before: Redis.Hash, fields: Redis.Hash, field: string, given: Option<int>)
    requires field in fields <==> given.Some?
    requires given.Some? ==> fields[field] == IntToDecimal(given.value)
    ensures NumberField(before + fields, field) == if given.Some? then given else NumberField(before, field)
  {
    if given.Some? {
      IntToDecimalRoundTrip(given.value);
    }
  }

  /**
   * Reading a key back after a save: a record is there; each field the save
   * was given reads as given, each other field as it read before; no other
   * key reads differently.
   */
  lemma GetAfterSave(db: Redis.Db, key: string, args: SaveArgs)
    requires WritesSomeField(args) && args.expiration.GetOr(DefaultExpiration) > 0
    ensures var r := GetChallenge(SaveChallengeSpec(db, key, args), key);
      var before := Redis.HGetAll(db, key);
      && r.Some?
      && r.value.amount == (if args.amount.Some? then args.amount else NumberField(before, "amount"))
      && r.value.challenge == (if args.challenge.Some? then args.challenge else Redis.HGet(db, key, "challenge"))
      && r.value.challengeCounter ==
           (if args.challengeCounter.Some? then args.challengeCounter else NumberField(before, "challengeCounter"))
      && r.value.challengesNeeded ==
           (if args.challengesNeeded.Some? then args.challengesNeeded else NumberField(before, "challengesNeeded"))
      && r.value.difficulty == (if args.difficulty.Some? then args.difficulty else NumberField(before, "difficulty"))
      && r.value.usedCaptcha == (if args.usedCaptcha.Some? then args.usedCaptcha.value
                                 else "usedCaptcha" in before && before["usedCaptcha"] == "true")
    ensures forall k :: k != key ==> GetChallenge(SaveChallengeSpec(db, key, args), k) == GetChallenge(db, k)
  {
    SavedHash(db, key, args);
    MergedFields(Redis.HGetAll(db, key), args);
  }

  /** A hash overwritten by the fields of a save: each given field reads as given, the others as before. */
  lemma MergedFields(before: Redis.Hash, args: SaveArgs)
    requires WritesSomeField(args)
    ensures var merged := before + Fields(args);
      && merged != map[]
      && NumberField(merged, "amount") == (if args.amount.Some? then args.amount else NumberField(before, "amount"))
      && ("challenge" in merged <==> args.challenge.Some? || "challenge" in before)
      && ("challenge" in merged ==>
            merged["challenge"] == if args.challenge.Some? then args.challenge.value else before["challenge"])
      && NumberField(merged, "challengeCounter") ==
           (if args.challengeCounter.Some? then args.challengeCounter else NumberField(before, "challengeCounter"))
      && NumberField(merged, "challengesNeeded") ==
           (if args.challengesNeeded.Some? then args.challengesNeeded else NumberField(before, "challengesNeeded"))
      && NumberField(merged, "difficulty") ==
           (if args.difficulty.Some? then args.difficulty else NumberField(before, "difficulty"))
      && ("usedCaptcha" in merged && merged["usedCaptcha"] == "true" <==>
           if args.usedCaptcha.Some? then args.usedCaptcha.value
           else "usedCaptcha" in before && before["usedCaptcha"] == "true")
  {
    var fields := Fields(args);
    FieldsKeys(args);
    FieldsValues(args);
    NumberFieldAfterMerge(before, fields, "amount", args.amount);
    NumberFieldAfterMerge(before, fields, "challengeCounter", args.challengeCounter);
    NumberFieldAfterMerge(before, fields, "challengesNeeded", args.challengesNeeded);
    NumberFieldAfterMerge(before, fields, "difficulty", args.difficulty);
    assert before + fields != map[] by {
      var f :| f in fields;
      assert f in before + fields;
    }
  }

  /** A read record with every field the save was given replaced by the given value. */
  function Updated(st: ChallengeState, args: SaveArgs): ChallengeState {
    ChallengeState(
      amount := if args.amount.Some? then args.amount else st.amount,
      challenge := if args.challenge.Some? then args.challenge else st.challenge,
      challengeCounter := if args.challengeCounter.Some? then args.challengeCounter else st.challengeCounter,
      challengesNeeded := if args.challengesNeeded.Some? then args.challengesNeeded else st.challengesNeeded,
      difficulty := if args.difficulty.Some? then args.difficulty else st.difficulty,
      usedCaptcha := if args.usedCaptcha.Some? then args.usedCaptcha.value else st.usedCaptcha)
  }

  /** Saving over an existing record reads back as that record with the saved fields replaced. */
  lemma SaveUpdatesRecord(db: Redis.Db, key: string, args: SaveArgs, st: ChallengeState)
    requires WritesSomeField(args) && args.expiration.GetOr(DefaultExpiration) > 0
    requires GetChallenge(db, key) == Some(st)
    ensures GetChallenge(SaveChallengeSpec(db, key, args), key) == Some(Updated(st, args))
  {
    var r := GetChallenge(SaveChallengeSpec(db, key, args), key);
    var u := Updated(st, args);
    assert r.Some? && r.value.amount == u.amount && r.value.usedCaptcha == u.usedCaptcha by {
      GetAfterSave(db, key, args);
    }
    assert r.value.challenge == u.challenge by {
      GetAfterSave(db, key, args);
    }
    assert r.value.challengeCounter == u.challengeCounter by {
      GetAfterSave(db, key, args);
    }
    assert r.value.challengesNeeded == u.challengesNeeded by {
      GetAfterSave(db, key, args);
    }
    assert r.value.difficulty == u.difficulty by {
      GetAfterSave(db, key, args);
    }
  }

  /** A record saved with every field is read back as saved. */
  lemma SaveThenGet(db: Redis.Db, key: string, args: SaveArgs)
    requires args.amount.Some? && args.challenge.Some? && args.challengeCounter.Some?
    requires args.challengesNeeded.Some? && args.difficulty.Some? && args.usedCaptcha.Some?
    requires args.expiration.GetOr(DefaultExpiration) > 0
    ensures GetChallenge(SaveChallengeSpec(db, key, args), key)
      == Some(ChallengeState(args.amount, args.challenge, args.challengeCounter,
                             args.challengesNeeded, args.difficulty, args.usedCaptcha.value))
  {
    GetAfterSave(db, key, args);
  }

  /**
   * Saving writes the given fields and keeps every field it was not given,
   * sets the key's expiry, and touches no other key.
   */
  lemma SaveMergesFields(db: Redis.Db, key: string, args: SaveArgs, field: string)
    requires WritesSomeField(args) && args.expiration.GetOr(DefaultExpiration) > 0
    ensures var after := SaveChallengeSpec(db, key, args);
      && (field in Fields(args) ==> Redis.HGet(after, key, field) == Some(Fields(args)[field]))
      && (field !in Fields(args) ==> Redis.HGet(after, key, field) == Redis.HGet(db, key, field))
      && key in after.ttl && after.ttl[key] == args.expiration.GetOr(DefaultExpiration)
      && forall k :: k != key ==> Redis.HGetAll(after, k) == Redis.HGetAll(db, k)
  {
    FieldsKeys(args);
    FieldsValues(args);
    var written := Redis.HSetSpec(db, key, Fields(args));
    assert Redis.HGetAll(SaveChallengeSpec(db, key, args), key) == Redis.HGetAll(written, key);
    assert key in written.hashes;
  }

  /** In particular a save that leaves out `usedCaptcha` keeps the flag as it was. */
  lemma SaveKeepsUsedCaptcha(db: Redis.Db, key: string, args: SaveArgs)
    requires WritesSomeField(args) && args.expiration.GetOr(DefaultExpiration) > 0
    requires args.usedCaptcha.None? && GetChallenge(db, key).Some?
    ensures GetChallenge(SaveChallengeSpec(db, key, args), key).Some?
    ensures GetChallenge(SaveChallengeSpec(db, key, args), key).value.usedCaptcha
         == GetChallenge(db, key).value.usedCaptcha
  {
    GetAfterSave(db, key, args);
  }

  // ---------------------------------------------------------------------------
  // Solution verifier

  /** The text of a SHA-256 digest: 64 lowercase hex digits. */
  type Digest = s: string | |s| == 64 && IsLowerHex(s)
    witness ToHex(seq(32, _ => 0 as Byte))

  /** getSolution: the digest of `challenge:nonce`. */
  function GetSolution(sha256: string -> Digest, challenge: string, nonce: int): Digest {
    sha256(challenge + ":" + IntToDecimal(nonce))
  }

  /** `"0".repeat(n)` */
  function Zeros(n: nat): (s: string)
    ensures |s| == n && forall i :: 0 <= i < n ==> s[i] == '0'
  {
    seq(n, _ => '0')
  }

  predicate StartsWith(s: string, prefix: string) {
    |prefix| <= |s| && s[..|prefix|] == prefix
  }

  /** verifySolution: the solution is the digest, and the digest starts with `difficulty` zeros. */
  function VerifySolution(sha256: string -> Digest, challenge: string, difficulty: nat, nonce: int,
                          solution: string): bool
  {
    var hash := GetSolution(sha256, challenge, nonce);
    hash == solution && StartsWith(hash, Zeros(difficulty))
  }

  /**
   * verifySolution on a difficulty read from the store, in the order it is
   * evaluated: `&&` compares the digest first, so the zeros are built only
   * for a matching digest, and `repeat` throws (`None`) on a negative count.
   */
  function CheckSolution(sha256: string -> Digest, challenge: string, difficulty: Option<int>, nonce: int,
                         solution: string): (r: Option<bool>)
    ensures r.None? <==> GetSolution(sha256, challenge, nonce) == solution && RepeatCount(difficulty).None?
    ensures GetSolution(sha256, challenge, nonce) != solution ==> r == Some(false)
    ensures r == Some(true) <==>
      RepeatCount(difficulty).Some? && VerifySolution(sha256, challenge, RepeatCount(difficulty).value, nonce, solution)
  {
    var hash := GetSolution(sha256, challenge, nonce);
    if hash != solution then Some(false)
    else
      var zeros := RepeatCount(difficulty);
      if zeros.None? then None else Some(StartsWith(hash, Zeros(zeros.value)))
  }

  /** The number of `'0'` characters a string starts with. */
  function LeadingZeros(s: string): (n: nat)
    ensures n <= |s|
  {
    if s == [] || s[0] != '0' then 0 else 1 + LeadingZeros(s[1..])
  }

  lemma {:induction false} StartsWithZerosIff(s: string, n: nat)
    ensures StartsWith(s, Zeros(n)) <==> LeadingZeros(s) >= n
  {
    if n > 0 && s != [] {
      StartsWithZerosIff(s[1..], n - 1);
      if s[0] == '0' && StartsWith(s[1..], Zeros(n - 1)) {
        assert s[..n] == [s[0]] + s[1..][..n - 1];
      }
      if StartsWith(s, Zeros(n)) {
        assert s[1..][..n - 1] == s[..n][1..];
      }
    }
  }

  /**
   * The verifier accepts exactly the solution that is the digest of
   * `challenge:nonce` and has at least `difficulty` leading zeros.
   */
  lemma VerifySolutionMeaning(sha256: string -> Digest, challenge: string, difficulty: nat, nonce: int,
                              solution: string)
    ensures VerifySolution(sha256, challenge, difficulty, nonce, solution) <==>
      solution == sha256(challenge + ":" + IntToDecimal(nonce)) && LeadingZeros(solution) >= difficulty
  {
    StartsWithZerosIff(GetSolution(sha256, challenge, nonce), difficulty);
  }

  /** An accepted solution is accepted at every lower difficulty. */
  lemma DifficultyMonotone(sha256: string -> Digest, challenge: string, difficulty: nat, lower: nat,
                           nonce: int, solution: string)
    requires lower <= difficulty
    requires VerifySolution(sha256, challenge, difficulty, nonce, solution)
    ensures VerifySolution(sha256, challenge, lower, nonce, solution)
  {
    VerifySolutionMeaning(sha256, challenge, difficulty, nonce, solution);
    VerifySolutionMeaning(sha256, challenge, lower, nonce, solution);
  }

  /** No solution passes a difficulty beyond the 64 digits of a digest. */
  lemma NothingPassesAbove64(sha256: string -> Digest, challenge: string, difficulty: nat, nonce: int,
                             solution: string)
    requires difficulty > 64
    ensures !VerifySolution(sha256, challenge, difficulty, nonce, solution)
  {
    VerifySolutionMeaning(sha256, challenge, difficulty, nonce, solution);
  }
}
