# Proof-of-work faucet backend: a Dafny model

This project models the challenge engine of a Tezos testnet faucet backend.
A client asks `/challenge` for a random hex challenge. It then searches for a
nonce whose SHA-256 digest of `challenge:nonce` starts with enough zeros, and
posts it to `/verify`. Each correct solution either advances the client to a
new round or, on the last round, pays out.

Two generations of the code are modelled:

- **Current:** `src/pow.ts` and `src/api.ts` (modules `Pow` and `Api`). The
  round count and the difficulty come from a policy. The store record holds
  the amount, the challenge, a counter, the round count, the difficulty and
  the captcha flag. Before paying, the record is deleted.
- **Compiled:** `dist/pow.js` and `dist/api.js` (modules `LegacyPow` and
  `LegacyApi`). There are a fixed 4 rounds at difficulty 3, and the verifier
  wants an `8` right after the zeros. The record holds only `challenge` and
  `counter`, and the reply is sent before the delete.

Supporting modules:

- `Env`: start-up checks of `src/env.ts`.
- `Profiles`: profile validation of `src/profiles.ts`.
- `Tezos`: the profile amount lookup and the balance rule of `dist/Tezos.js`.
- `Redis`: the store, reduced to the hash commands the code issues.
- `JsValues`: the JavaScript conversions the code relies on. These are
  truthiness, `String(n)`/`Number(s)` on decimal integers, hex encoding,
  `repeat` counts and ASCII upper-casing.

Each HTTP handler is a pure function from the store's contents and the
request to the reply and the new store (`ChallengeSpec`, `VerifySpec`). The
classes `Api.Faucet` and `LegacyApi.LegacyFaucet` run the same steps
imperatively against a shared `Redis.RedisClient`, and their `ensures` tie
the reply and the new store to those functions. Things outside the program
are parameters:

- SHA-256 is a function from text to 64 lowercase hex digits.
- The random bytes are given as input.
- The captcha verdict and whether the final `DEL` succeeds are booleans.
- `Number()` on environment text is a function to a number or NaN.

## Model

| member | source | states |
|---|---|---|
| JsValues.IntToDecimalRoundTrip | src/pow.ts:82-87 | reading back a stored integer with `Number` gives the integer that `String` wrote |
| JsValues.IntToDecimalInjective | src/pow.ts:85 | distinct integers are stored as distinct texts |
| JsValues.ParseInteger | src/pow.ts:83-87 | `Number` of a digit string is its decimal value; the empty string is 0 |
| JsValues.RepeatCount | src/pow.ts:110 | `"0".repeat(d)` fails (RangeError) exactly for a negative count; NaN counts as 0 |
| JsValues.ToHex | src/pow.ts:34-35 | hex encoding gives two lowercase hex digits per byte |
| JsValues.HexRoundTrip | src/pow.ts:34-35 | decoding the hex text gives back the random bytes |
| JsValues.HexInjective | dist/pow.js:7 | different random bytes give different challenges |
| JsValues.ToUpperCase | src/profiles.ts:52 | upper-casing keeps the length, leaves no lower-case ASCII letter and keeps every other character |
| JsValues.ToUpperCaseIdempotent | src/profiles.ts:52 | upper-casing twice is upper-casing once |
| Redis.HGet | src/pow.ts:78-88 | a field is read exactly when the hash holds it, with its stored text |
| Redis.HSetSpec | src/pow.ts:66-71 | HSET overwrites the given fields, keeps all other fields, keys and expiries |
| Redis.ExpireSpec | src/pow.ts:72 | EXPIRE sets the key's time to live and touches no other key |
| Redis.DelSpec | src/api.ts:184 | DEL removes the key and its expiry, reports whether it existed, and touches no other key |
| Redis.RedisClient.HSet | src/pow.ts:66-71 | the client's store becomes the HSET result |
| Redis.RedisClient.Expire | src/pow.ts:72 | the client's store becomes the EXPIRE result |
| Redis.RedisClient.Del | src/api.ts:184-187 | the client's store and the removed count are the DEL result |
| Env.CheckVars | src/env.ts:46-55 | the loop passes exactly when every one of the eight settings is a number, and positive where it must be |
| Env.ValidateAcceptsExactly | src/env.ts:46-80 | the settings are accepted exactly when each meets its rule: numbers; size and difficulty > 0; ratio in [0, 1); challenge bounds > 0 and ordered; tez bounds > 0 and ordered |
| Env.DefaultsWhenUnset | src/env.ts:19-33 | unset settings take MAX_BALANCE 6000, MIN_TEZ 1, MAX_TEZ 6000, MIN_CHALLENGES 1, MAX_CHALLENGES 120, CHALLENGE_SIZE 32, DIFFICULTY 5, ratio 0.5 |
| Env.DefaultsAccepted | src/env.ts:23-80 | the all-defaults configuration passes every check |
| Env.FlagsDecoding | src/env.ts:21-22 | DISABLE_CHALLENGES holds only for `"true"`; ENABLE_CAPTCHA fails only for `"false"` and holds when unset |
| Env.NotANumberRejected | src/env.ts:46-48 | any of the eight numeric settings that is NaN stops start-up |
| Env.NonPositiveSizeOrDifficultyRejected | src/env.ts:50-54 | CHALLENGE_SIZE or DIFFICULTY at or below 0 stops start-up |
| Env.ReductionRatioOutOfRangeRejected | src/env.ts:57-64 | a reduction ratio below 0 or at least 1 stops start-up |
| Env.AcceptedBounds | src/env.ts:57-80 | an accepted configuration has positive, ordered challenge and tez bounds and a ratio in [0, 1) |
| Env.EqualTezBoundsAccepted | src/env.ts:76 | MAX_TEZ equal to MIN_TEZ passes the checks |
| Env.ValidateStrict | src/env.ts:76 | the checks with MAX_TEZ required to be above MIN_TEZ: accepted exactly when the original accepts and the bounds differ (with src/pow.ts:18) |
| Env.DefaultsAcceptedStrict | src/env.ts:23-80 | the defaults also pass the stricter check |
| Profiles.ValidateProperty | src/profiles.ts:14-31 | a property is accepted exactly when it is a number, and positive if it is the amount or challenges are enabled; the value returned is `Number(value)` |
| Profiles.Fold | src/profiles.ts:44-47 | the reduce succeeds exactly when every listed property validates, and then holds exactly those properties with their values |
| Profiles.AmountMustBePositive | src/profiles.ts:26-28 | an amount at or below 0 is always rejected |
| Profiles.EnabledProfileRule | src/profiles.ts:26-47 | with challenges enabled, a profile validates exactly when all five properties are positive numbers, and the result has exactly those five |
| Profiles.DisabledProfileRule | src/profiles.ts:34-47 | with challenges disabled, only the amount is checked and kept |
| Profiles.OneInvalidFailsAll | src/profiles.ts:50-56 | one invalid profile makes the whole load fail |
| Profiles.LoadedNamesSnoc | src/profiles.ts:50-56 | the loaded names of a list are those of its prefix plus the upper-cased last name |
| Profiles.LoadSnoc | src/profiles.ts:50-56 | a successful load is the load of all entries but the last, with the last entry's validated profile under its upper-cased name |
| Profiles.LoadedKeys | src/profiles.ts:50-56 | a successful load is keyed by exactly the upper-cased entry names |
| Profiles.LoadedValues | src/profiles.ts:50-56 | under each name sits the validated profile of the last entry with that upper-cased name |
| Tezos.GetTezAmountForProfile | dist/Tezos.js:20-33 | the lookup fails exactly for a profile other than `USER` and `BAKER`, with "Unknown profile \<p\>" |
| Tezos.UserAmount | dist/Tezos.js:18-25 | `USER` yields FAUCET_AMOUNT_USER when set, otherwise 1 |
| Tezos.BakerAmount | dist/Tezos.js:19-28 | `BAKER` yields FAUCET_AMOUNT_BAKER when set, otherwise 6000 |
| Tezos.LookupIsCaseSensitive | dist/Tezos.js:22-28 | other spellings such as `user` or `Baker` are unknown |
| Tezos.DefaultBalanceLimit | dist/Tezos.js:56-58 | with MAX_BALANCE unset, a payout is refused exactly above 6000 tez (6,000,000,000 mutez) (with dist/Tezos.js:17) |
| Tezos.BalanceRuleMonotone | dist/Tezos.js:58 | a higher balance is refused whenever a lower one is |
| Tezos.NaNMaxBalanceNeverRefuses | dist/Tezos.js:57-58 | a MAX_BALANCE that is not a number never refuses |
| Pow.ChallengeKey | src/pow.ts:6 | the key is `address:` followed by the address unchanged |
| Pow.ChallengeKeyInjective | src/pow.ts:6 | distinct addresses get distinct keys |
| Pow.DetermineDifficultyIgnoresChallengeSize | src/pow.ts:8-12 | the challenge size is always 32 whatever CHALLENGE_SIZE says, and the difficulty is DIFFICULTY |
| Pow.Ceil | src/pow.ts:29 | `Math.ceil`: the least integer at or above x |
| Pow.CeilMonotone | src/pow.ts:29 | the ceiling keeps order |
| Pow.ChallengesAtMinTez | src/pow.ts:14-31 | without captcha, MIN_TEZ asks for MIN_CHALLENGES rounds |
| Pow.ChallengesAtMaxTez | src/pow.ts:14-31 | without captcha, MAX_TEZ asks for MAX_CHALLENGES rounds |
| Pow.BaseMonotone | src/pow.ts:18-21 | the unrounded count does not decrease with the amount |
| Pow.ChallengesMonotoneInAmount | src/pow.ts:14-31 | the round count does not decrease with the amount, with or without captcha |
| Pow.BaseAtLeastMin | src/pow.ts:18-21 | from MIN_TEZ up, the unrounded count is at least MIN_CHALLENGES |
| Pow.CaptchaNeverIncreasesChallenges | src/pow.ts:24-29 | with the ratio in [0, 1), the captcha count is never above the plain count, and both are at least 1 when MIN_CHALLENGES > 0 (with src/env.ts:57-74) |
| Pow.ChallengesFromReduced | src/pow.ts:24-29 | the count is the ceiling of the base count, reduced by the ratio when a captcha was used |
| Pow.DefaultChallengesAtMaxTez | src/pow.ts:14-31 | with the default bounds, 6000 tez asks for 120 rounds without captcha and 60 with (with src/env.ts:24-32) |
| Pow.DefaultChallengesAtMinTez | src/pow.ts:14-31 | with the default bounds, 1 tez asks for one round either way (with src/env.ts:24-32) |
| Pow.ValidatedPolicyNeedsARound | src/pow.ts:14-31 | under an accepted configuration with MAX_TEZ above MIN_TEZ, any amount from MIN_TEZ up asks for at least one round (with src/env.ts:57-80) |
| Pow.GenerateChallenge | src/pow.ts:34-35 | n random bytes give 2n lowercase hex digits that decode back to the bytes (with dist/pow.js:7) |
| Pow.CreateChallenge | src/pow.ts:37-42 | the amount is returned unchanged, the difficulty is DIFFICULTY, the challenge has 64 hex digits, and the round count is the calculator's |
| Pow.FieldsNonEmpty | src/pow.ts:66-71 | a save that passes a field writes at least one field |
| Pow.SaveChallenge | src/pow.ts:58-73 | the store becomes the merging HSET of the stringified fields followed by EXPIRE with the given time, 1800 by default |
| Pow.GetChallenge | src/pow.ts:75-90 | null exactly when the key has no fields; `usedCaptcha` holds only for the stored text `"true"`; the challenge is the stored text |
| Pow.FieldsKeys | src/pow.ts:66-71 | the HSET writes a field exactly when its value is passed, only record field names, and at least one field when any value is passed |
| Pow.FieldsValues | src/pow.ts:66-71 | each written number is its decimal text and the captcha flag is "true" or "false" |
| Pow.SavedHash | src/pow.ts:66-72 | after a save the key holds its old fields merged with the written ones; other keys are unchanged |
| Pow.NumberFieldAfterMerge | src/pow.ts:66-87 | after a merge, a numeric field reads back as written, or as before when not written |
| Pow.MergedFields | src/pow.ts:66-88 | a hash overwritten by a save is non-empty and each field reads as saved, or as before when not passed |
| Pow.GetAfterSave | src/pow.ts:58-90 | each field of the record read back is the one saved, or the old one when not passed; other keys' records are unchanged |
| Pow.SaveUpdatesRecord | src/pow.ts:58-90 | saving over a record gives that record with the passed fields replaced |
| Pow.SaveThenGet | src/pow.ts:58-90 | saving every field and reading back gives exactly the saved record |
| Pow.SaveMergesFields | src/pow.ts:66-72 | a field not passed keeps its stored text; the key gets the given expiry; other keys are unchanged |
| Pow.SaveKeepsUsedCaptcha | src/pow.ts:68-70 | a save without `usedCaptcha` keeps the stored captcha flag |
| Pow.Zeros | src/pow.ts:110 | `"0".repeat(n)` is n zeros |
| Pow.StartsWithZerosIff | src/pow.ts:110 | the text starts with n zeros exactly when it has at least n leading zeros |
| Pow.CheckSolution | src/pow.ts:101-111 | on a stored difficulty: a wrong digest is refused whatever the difficulty; a matching digest with a negative difficulty makes `repeat` throw (no verdict); otherwise it is the verifier at that difficulty |
| Pow.VerifySolutionMeaning | src/pow.ts:92-111 | a solution is accepted exactly when it is the digest of `challenge:nonce` and has at least `difficulty` leading zeros |
| Pow.DifficultyMonotone | src/pow.ts:110 | a solution accepted at a difficulty is accepted at every lower one |
| Pow.NothingPassesAbove64 | src/pow.ts:92-93 | no digest passes a difficulty above 64 (with src/pow.ts:110) |
| LegacyPow.StartsWithZerosEight | dist/pow.js:12 | starting with n zeros and an `8` means n zeros followed by an `8` at index n |
| LegacyPow.VerifySolutionMeaning | dist/pow.js:9-13 | accepted exactly when the solution is the digest of `challenge:nonce`, has exactly `difficulty` leading zeros, and the next digit is `8` |
| LegacyPow.ExactZeros | dist/pow.js:12 | at least n leading zeros followed by a non-zero digit means exactly n |
| LegacyPow.AcceptedByCurrentVerifier | dist/pow.js:12 | what this verifier accepts, the current one accepts at the same difficulty (with src/pow.ts:110) |
| LegacyPow.NeverAtTwoDifficulties | dist/pow.js:12 | no solution is accepted at both d and d+1 |
| Api.FreshChallenge | src/api.ts:101-102 | `createChallenge(usedCaptcha)`: a 64-digit hex challenge of the random bytes, and the policy's round count and difficulty for the flag (with src/api.ts:168) |
| Api.PowPolicyOk | src/pow.ts:37-42 | under accepted settings, the policy from `src/pow.ts` asks for at least one round and agrees with its `createChallenge` (with src/env.ts:57-80) |
| Api.Faucet.Challenge | src/api.ts:74-126 | the imperative handler gives the reply and store of the /challenge function |
| Api.Faucet.Verify | src/api.ts:128-205 | the imperative handler gives the reply and store of the /verify function |
| Api.Faucet.SaveNextRound | src/api.ts:167-180 | the round-advance write and reply are those of the round-advance function |
| Api.ChallengeRejections | src/api.ts:77-91 | missing address or profile, a rejected captcha token, or an unknown profile is refused and leaves the store; otherwise a challenge is issued |
| Api.ChallengeReusesStored | src/api.ts:94-120 | with a challenge stored, the reply is that challenge, counter and difficulty, and nothing is written |
| Api.ChallengeStartsFresh | src/api.ts:98-120 | with none stored, a record with counter 1, policy values and `usedCaptcha` set to whether a token came is written with 1800 s expiry; no other key changes |
| Api.ChallengeIdempotent | src/api.ts:94-120 | a second identical call gives the same reply and leaves the store as the first left it |
| Api.ChallengeTakesStart | src/api.ts:98-111 | with no challenge stored an admitted request takes the start branch |
| Api.StartChallengeRecord | src/api.ts:98-111 | the start branch leaves exactly that record, the 1800 s expiry and all other keys (with src/pow.ts:58-73) |
| Api.VerifyRejections | src/api.ts:131-165 | missing fields or no record are refused with their messages; a solution that is not the digest is refused for every stored record, a digest with too few zeros too, and a digest under a negative difficulty gets the 500 the `catch` sends; the store is unchanged in all these cases (with src/api.ts:199-203) |
| Api.NextRoundReply | src/api.ts:167-179 | the advance branch replies with the new challenge, counter+1 and the policy's difficulty |
| Api.NextRoundWrites | src/api.ts:175-178 | the advance branch saves the new challenge, counter+1 and policy values, without `usedCaptcha` |
| Api.NextRoundRecord | src/api.ts:167-179 | after advancing, the record has the new challenge, counter+1, policy values and the old captcha flag; other keys are unchanged (with src/pow.ts:68-70) |
| Api.VerifyTakesNextRound | src/api.ts:152-179 | a correct solution before the last round takes the advance branch |
| Api.VerifyAdvances | src/api.ts:167-179 | a correct solution before the last round stores and returns the next round and keeps the captcha flag |
| Api.VerifyPaysOnlyAfterDelete | src/api.ts:182-198 | "Tez sent" exactly for a correct last-round solution whose DEL succeeded; then the record is gone and no other key changed |
| Api.VerifyTakesPayout | src/api.ts:182-198 | a correct last-round solution with a successful DEL pays and deletes |
| Api.GetChallengeFollowsHash | src/pow.ts:75-90 | the record read depends only on the key's hash |
| Api.InvAfterWrite | src/api.ts:104-110 | a write to one key that leaves a good record keeps the invariant (with src/api.ts:175-178) |
| Api.ChallengeKeepsInv | src/api.ts:98-111 | /challenge keeps every record with 1 ≤ counter ≤ round count and policy values |
| Api.VerifyKeepsInv | src/api.ts:167-187 | /verify keeps the same invariant |
| Api.NextRoundKeepsWellFormed | src/api.ts:175-178 | the advance write keeps the store well formed |
| Api.Session | src/api.ts:128-205 | a run of /verify calls has one reply per call |
| Api.SolvedNonceAccepted | src/api.ts:152-157 | a nonce that meets the stored difficulty, sent with its digest, is accepted (with src/pow.ts:101-111) |
| Api.SubmitAdvances | src/api.ts:167-179 | a solved round before the last issues a challenge, keeps the invariant and leaves one round fewer |
| Api.SubmitPays | src/api.ts:182-198 | a solved last round pays |
| Api.PaidExactlyAtCons | src/api.ts:167-198 | a challenge reply followed by replies paid at index k is paid at index k+1 |
| Api.SessionPaysOnLastRound | src/api.ts:167-198 | from counter c of n, solving every round pays on exactly the (n-c+1)-th call and issues a challenge on each before (with src/api.ts:103) |
| Api.FreshSessionPaysOnLastRound | src/api.ts:167-198 | after a fresh /challenge, exactly the policy's round count of correct solutions reaches the payout, on the last call (with src/api.ts:98-111) |
| Api.ChallengeOpensSession | src/api.ts:98-111 | /challenge for an address with no stored challenge keeps the invariant and leaves a record at its first round with all the policy's rounds to go |
| LegacyApi.RoundFields | dist/api.js:91-94 | the round write sets the challenge field to the new challenge (with dist/api.js:140-143) |
| LegacyApi.RoundFieldsRead | dist/api.js:136-143 | after a round write, the challenge and `Number(counter)` read back as written (with dist/api.js:91-94) |
| LegacyApi.LegacyFaucet.Challenge | dist/api.js:68-106 | the imperative handler gives the reply and store of the /challenge function |
| LegacyApi.LegacyFaucet.Verify | dist/api.js:107-160 | the imperative handler gives the reply and store of the corrected /verify function |
| LegacyApi.LegacyFaucet.SaveNextRound | dist/api.js:136-145 | the round-advance HSET and reply are those of the round-advance function |
| LegacyApi.ChallengeRejections | dist/api.js:70-84 | missing address or profile, a rejected captcha or an unknown profile is refused and leaves the store; otherwise a challenge at difficulty 3 is issued |
| LegacyApi.ChallengeStartsFresh | dist/api.js:86-99 | with no challenge stored, the new challenge with counter 1 is stored with 1800 s expiry and returned; no other key changes |
| LegacyApi.ChallengeReusesStored | dist/api.js:87-99 | with a challenge stored, it is returned at difficulty 3 and nothing is written |
| LegacyApi.ChallengeIdempotent | dist/api.js:86-99 | a second identical call gives the same reply and writes nothing |
| LegacyApi.NoRecordPaysAsWritten | dist/api.js:120-153 | as compiled, an address with no record is paid for a digest of `undefined:<nonce>` that passes the verifier |
| LegacyApi.NoRecordRefused | dist/api.js:120-134 | with the record check added, an address without a record is refused with "No challenge found", never paid, and the store is unchanged |
| LegacyApi.AgreesWithRecord | dist/api.js:107-160 | when a record exists the corrected handler is the compiled one |
| LegacyApi.VerifyRejections | dist/api.js:109-134 | missing fields, a rejected captcha or an incorrect solution is refused and leaves the store |
| LegacyApi.VerifyAdvances | dist/api.js:121-145 | a correct solution with counter below 4 takes the round-advance branch |
| LegacyApi.NextRoundRecord | dist/api.js:136-145 | the round-advance branch stores the new challenge and counter+1, keeps the expiry, touches no other key, and returns the challenge at difficulty 3 |
| LegacyApi.VerifyPays | dist/api.js:147-154 | with counter not below 4, "Tez sent" whether or not the DEL succeeds; a failed DEL keeps the record, so the same request pays again |
| LegacyApi.PaysOnlyOnLastRound | dist/api.js:131-153 | "Tez sent" exactly for an admitted, accepted solution whose counter is not below 4 |
| LegacyApi.InvAfterWrite | dist/api.js:91-96 | a write to one key that leaves a good record keeps the invariant (with dist/api.js:140-143) |
| LegacyApi.RoundWriteOk | dist/api.js:91-94 | a round write with a counter from 1 to 4 leaves a good record (with dist/api.js:140-143) |
| LegacyApi.ChallengeKeepsInv | dist/api.js:86-97 | /challenge keeps every record with a challenge and a counter from 1 to 4 |
| LegacyApi.VerifyKeepsInv | dist/api.js:136-154 | /verify keeps the same invariant |
| LegacyApi.Session | dist/api.js:107-160 | a run of /verify calls has one reply per call |
| LegacyApi.SolvedNonceAccepted | dist/api.js:121-129 | a nonce whose digest has exactly three zeros and then an `8` is accepted (with dist/pow.js:10-13) |
| LegacyApi.SubmitAdvances | dist/api.js:136-145 | a solved round before the fourth issues a challenge, keeps the invariant and leaves one round fewer |
| LegacyApi.SubmitPays | dist/api.js:147-153 | a solved fourth round pays |
| LegacyApi.PaidExactlyAtCons | dist/api.js:136-153 | a challenge reply followed by replies paid at index k is paid at index k+1 |
| LegacyApi.SessionPaysOnLastRound | dist/api.js:136-153 | from counter c, solving every round pays on exactly the (5-c)-th call and issues a challenge on each before (with dist/api.js:67) |
| LegacyApi.FreshSessionPaysOnFourthRound | dist/api.js:137-153 | after a fresh /challenge, exactly four correct solutions reach the payout, on the fourth call (with dist/api.js:67, dist/api.js:93) |

## Left out

- HTTP plumbing is not modelled: CORS, `/info`, body parsing and `listen`. Reply bodies are reduced to their kind and message. The compiled `/challenge` sends its missing-field message as plain text, and that is not distinguished.
- Address validation (`validateAddress`) calls a foreign key-hash check. Addresses are taken as valid. Only the empty address, which is refused as missing, is handled.
- The captcha check is a network call, so its verdict is an input. `src/Captcha.ts` does not define `validateCaptcha`, and `dist/Captcha.js` exports only `checkCaptcha`. The model assumes a function that answers true or false and sends its own reply on false.
- SHA-256 and `randomBytes` are foreign. They are an uninterpreted function and an input byte sequence.
- Time is not modelled: EXPIRE records the time to live as data and keys never lapse. Redis connection errors are not modelled either. The only store failure modelled is the final DEL, which `src/api.ts` catches and `dist/api.js` only logs. Other failed commands are left out. In `src/api.ts` they would give the 500 "Error getting challenge" (`/challenge`) or "An error occurred" (`/verify`); in `dist/api.js` the `/challenge` commands would give the 500 "Error getting challenge", while the `/verify` HGETALL sits outside any `try`, so its failure rejects the handler's promise and no reply is sent.
- Concurrency is not modelled. `redis.del`'s removed count is not inspected by the code, so no at-most-one-payout property is claimed across parallel requests.
- Numbers:
  - Env and profile values are exact reals.
  - Store numbers are integers written by `String(n)` and read by `Number(s)` on an optional sign plus decimal digits. Hex, exponents, whitespace, fractions and IEEE-754 rounding are left out.
  - Nonces are integers. A nonce sent as text other than an integer's decimal form is not modelled.
- Api.PowPolicy: the difficulty from `src/pow.ts` is a real (DIFFICULTY); the handlers store and repeat it as an integer, so the policy takes its floor.
- `src/api.ts` is written against an older `pow` interface. It calls `createChallenge(usedCaptcha)` and reads a `counter` field, while `src/pow.ts` has `createChallenge(amount, usedCaptcha)` and stores `challengeCounter`. The model uses one counter field, `challengeCounter`, and takes the policy (captcha flag → rounds, difficulty) as a parameter of `Api.Faucet`. `Api.PowPolicy` connects it to `src/pow.ts`.
- In `src/api.ts`, `getTezAmountForProfile("BAKER")` during payout has no effect on the reply, and `send` is commented out. The transfer and its RPC calls are not modelled; the balance rule of `send` is `Tezos.BalanceTooHigh`.
- `src/Tezos.ts` does not export `getTezAmountForProfile`. The compiled `dist/Tezos.js` version is the one modelled, for both handler generations.
- `src/middleware.ts`, `src/redis.ts`, `src/logging.ts`, `src/Types.ts` and `src/environment.d.ts` are not part of this model: framework glue, connection setup, logging and type declarations.
- Unicode case mapping: upper-casing of profile names covers ASCII letters only.

## Findings

| source | as written | input that shows it | evidently intended | confidence | as-written member | corrected member |
|---|---|---|---|---|---|---|
| src/env.ts:76, src/pow.ts:18 | MAX_TEZ equal to MIN_TEZ passes start-up, and the round calculation then divides by MAX_TEZ − MIN_TEZ = 0 | MIN_TEZ=1, MAX_TEZ=1, every other setting at its default | start-up rejects MAX_TEZ ≤ MIN_TEZ, so the calculator is always defined | not executed | Env.EqualTezBoundsAccepted | Env.ValidateStrict |
| dist/api.js:120-153 | /verify reads the record without checking it exists. The challenge is then undefined, hashed as the text "undefined", and the counter is NaN, which is not below 4, so the request is answered "Tez sent" | an address with no record, a nonce n whose SHA-256 of `undefined:n` has exactly three leading zeros and then an `8`, and that digest as the solution | refuse with "No challenge found", as `src/api.ts:142-147` does | not executed | LegacyApi.NoRecordPaysAsWritten | LegacyApi.NoRecordRefused |
