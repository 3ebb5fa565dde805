/**
 * The /challenge and /verify handlers of src/api.ts. Each handler is given
 * as a function from the store's contents and the request to the reply and
 * the new contents (ChallengeSpec, VerifySpec); the Faucet class runs them
 * step by step against the shared store client. The captcha verdict, the
 * random bytes and whether the final DEL succeeds are inputs; SHA-256 and the
 * round policy are fixed when the faucet is built.
 */
module Api {
  import opened Wrappers
  import opened JsValues
  import Redis
  import Tezos
  import Pow
  import Env

  /** What `createChallenge(usedCaptcha)` decides besides the challenge text. */
  datatype Policy = Policy(challengesNeeded: int, difficulty: int)

  /** A policy that always asks for at least one round at a difficulty `repeat` accepts. */
  predicate PolicyOk(policy: bool -> Policy) {
    forall usedCaptcha: bool :: policy(usedCaptcha).challengesNeeded >= 1 && policy(usedCaptcha).difficulty >= 0
  }

  datatype Fresh = Fresh(challenge: string, challengesNeeded: int, difficulty: int)

  /** createChallenge as the handlers call it: 32 random bytes in hex, and the policy for the captcha flag. */
  function FreshChallenge(policy: bool -> Policy, usedCaptcha: bool, randomBytes: seq<Byte>): (r: Fresh)
    requires |randomBytes| == Pow.ChallengeSize
    ensures |r.challenge| == 64 && IsLowerHex(r.challenge) && FromHex(r.challenge) == randomBytes
    ensures Policy(r.challengesNeeded, r.difficulty) == policy(usedCaptcha)
  {
    var p := policy(usedCaptcha);
    Fresh(Pow.GenerateChallenge(Pow.ChallengeSize, randomBytes), p.challengesNeeded, p.difficulty)
  }

  /** The policy src/pow.ts computes for a fixed amount, with the difficulty taken as an integer. */
  function PowPolicy(cfg: Env.Config, amount: real): bool -> Policy
    requires cfg.maxTez != cfg.minTez
  {
    usedCaptcha => Policy(Pow.DetermineChallengesNeeded(cfg, usedCaptcha, amount), cfg.difficulty.Floor)
  }

  /**
   * Under a configuration that passes the start-up checks (MAX_TEZ above
   * MIN_TEZ) and an amount from MIN_TEZ up, that policy is one the handlers
   * can run, and it yields what createChallenge of src/pow.ts yields.
   */
  lemma PowPolicyOk(v: Env.EnvValues, amount: real, usedCaptcha: bool, randomBytes: seq<Byte>)
    requires Env.ValidateStrict(v).Success?
    requires amount >= Env.ValidateStrict(v).value.minTez
    requires |randomBytes| == Pow.ChallengeSize
    ensures PolicyOk(PowPolicy(Env.ValidateStrict(v).value, amount))
    ensures var cfg := Env.ValidateStrict(v).value;
      var issued := FreshChallenge(PowPolicy(cfg, amount), usedCaptcha, randomBytes);
      var created := Pow.CreateChallenge(cfg, amount, usedCaptcha, randomBytes);
      && issued.challenge == created.challenge
      && issued.challengesNeeded == created.challengesNeeded
      && issued.difficulty == created.difficulty.Floor
  {
    var cfg := Env.ValidateStrict(v).value;
    Env.AcceptedBounds(v);
    forall b: bool ensures PowPolicy(cfg, amount)(b).challengesNeeded >= 1 && PowPolicy(cfg, amount)(b).difficulty >= 0 {
      Pow.ValidatedPolicyNeedsARound(v, b, amount);
    }
  }

  // ---------------------------------------------------------------------------
  // Replies

  datatype Reply =
    | ChallengeIssued(challenge: string, counter: Option<int>, difficulty: Option<int>)  // 200
    | BadRequest(message: string)                                                       // 400
    | CaptchaRejected                                       // the reply validateCaptcha sends itself
    | TezSent(txHash: string)                                                           // 200
    | ServerError(message: string)                                                      // 500

  const ChallengeFieldsRequired := "'address' and 'profile' fields are required"
  const VerifyFieldsRequired := "'address', 'solution', and 'nonce' fields are required"
  const NoChallengeFound := "No challenge found"
  const IncorrectSolution := "Incorrect solution"
  const AnErrorOccurred := "An error occurred"
  /** The placeholder transaction hash the handler replies with; no transfer is made. */
  const PlaceholderTxHash := "hash"

  // ---------------------------------------------------------------------------
  // The handlers on the store's contents

  /** The stored challenge text `/challenge` looks at; none when there is no record. */
  function StoredChallenge(db: Redis.Db, key: string): Option<string> {
    var stored := Pow.GetChallenge(db, key);
    if stored.Some? then stored.value.challenge else None
  }

  /** The write /challenge makes when no challenge is stored: counter 1, and the captcha flag. */
  function StartArgs(issued: Fresh, usedCaptcha: bool): Pow.SaveArgs {
    Pow.SaveArgs(None, Some(issued.challenge), Some(1), Some(issued.challengesNeeded),
                 Some(issued.difficulty), Some(usedCaptcha), None)
  }

  /** /challenge with no challenge stored: save a new one and reply with it. */
  function StartChallenge(policy: bool -> Policy, db: Redis.Db, key: string, usedCaptcha: bool,
                          randomBytes: seq<Byte>): (Reply, Redis.Db)
    requires |randomBytes| == Pow.ChallengeSize
  {
    var issued := FreshChallenge(policy, usedCaptcha, randomBytes);
    (ChallengeIssued(issued.challenge, Some(1), Some(issued.difficulty)),
     Pow.SaveChallengeSpec(db, key, StartArgs(issued, usedCaptcha)))
  }

  /** The write /verify makes on a round before the last; the captcha flag is not written. */
  function NextRoundArgs(issued: Fresh, counter: int): Pow.SaveArgs {
    Pow.SaveArgs(None, Some(issued.challenge), Some(counter), Some(issued.challengesNeeded),
                 Some(issued.difficulty), None, None)
  }

  /** /verify after a correct solution to a round before the last: save the next round, reply with it. */
  function NextRound(policy: bool -> Policy, db: Redis.Db, key: string, st: Pow.ChallengeState,
                     randomBytes: seq<Byte>): (Reply, Redis.Db)
    requires |randomBytes| == Pow.ChallengeSize && st.challengeCounter.Some?
  {
    var issued := FreshChallenge(policy, st.usedCaptcha, randomBytes);
    var counter := st.challengeCounter.value + 1;
    (ChallengeIssued(issued.challenge, Some(counter), Some(issued.difficulty)),
     Pow.SaveChallengeSpec(db, key, NextRoundArgs(issued, counter)))
  }

  /** POST /challenge */
  function ChallengeSpec(policy: bool -> Policy, tezos: Tezos.FaucetEnv, db: Redis.Db,
                         address: Option<string>, captchaToken: Option<string>, profile: Option<string>,
                         captchaOk: bool, randomBytes: seq<Byte>): (Reply, Redis.Db)
    requires |randomBytes| == Pow.ChallengeSize
  {
    if !Truthy(address) || !Truthy(profile) then (BadRequest(ChallengeFieldsRequired), db)
    else if Truthy(captchaToken) && !captchaOk then (CaptchaRejected, db)
    else if Tezos.GetTezAmountForProfile(tezos, profile.value).Failure? then
      (BadRequest(Tezos.GetTezAmountForProfile(tezos, profile.value).error), db)
    else
      var key := Pow.ChallengeKey(address.value);
      var challenge := StoredChallenge(db, key);
      if !Truthy(challenge) then StartChallenge(policy, db, key, Truthy(captchaToken), randomBytes)
      else
        var stored := Pow.GetChallenge(db, key).value;
        (ChallengeIssued(challenge.value, stored.challengeCounter, stored.difficulty), db)
  }

  /** POST /verify */
  function VerifySpec(policy: bool -> Policy, sha256: string -> Pow.Digest, db: Redis.Db,
                      address: Option<string>, solution: Option<string>, nonce: Option<int>,
                      randomBytes: seq<Byte>, delOk: bool): (Reply, Redis.Db)
    requires |randomBytes| == Pow.ChallengeSize
  {
    if !Truthy(address) || !Truthy(solution) || !TruthyNumber(nonce) then (BadRequest(VerifyFieldsRequired), db)
    else
      var key := Pow.ChallengeKey(address.value);
      var stored := Pow.GetChallenge(db, key);
      if stored.None? then (BadRequest(NoChallengeFound), db)
      else
        var st := stored.value;
        var valid := Pow.CheckSolution(sha256, st.challenge.GetOr("undefined"), st.difficulty, nonce.value, solution.value);
        if valid.None? then (ServerError(AnErrorOccurred), db)
        else if !valid.value then (BadRequest(IncorrectSolution), db)
        else if NumberBelow(st.challengeCounter, st.challengesNeeded) then
          NextRound(policy, db, key, st, randomBytes)
        else if !delOk then (ServerError(AnErrorOccurred), db)
        else (TezSent(PlaceholderTxHash), Redis.DelSpec(db, key).0)
  }

  // ---------------------------------------------------------------------------
  // The faucet object

  class Faucet {
    const redis: Redis.RedisClient
    const policy: bool -> Policy
    const sha256: string -> Pow.Digest
    const tezos: Tezos.FaucetEnv

    constructor (redis: Redis.RedisClient, policy: bool -> Policy, sha256: string -> Pow.Digest,
                 tezos: Tezos.FaucetEnv)
      ensures this.redis == redis && this.policy == policy && this.sha256 == sha256 && this.tezos == tezos
    {
      this.redis := redis;
      this.policy := policy;
      this.sha256 := sha256;
      this.tezos := tezos;
    }

    /** POST /challenge: start a challenge for the address, or repeat the one it has. */
    method Challenge(address: Option<string>, captchaToken: Option<string>, profile: Option<string>,
                     captchaOk: bool, randomBytes: seq<Byte>) returns (reply: Reply)
      requires |randomBytes| == Pow.ChallengeSize
      modifies redis
      ensures (reply, redis.db)
           == ChallengeSpec(policy, tezos, old(redis.db), address, captchaToken, profile, captchaOk, randomBytes)
    {
      if !Truthy(address) || !Truthy(profile) {
        return BadRequest(ChallengeFieldsRequired);
      }
      if Truthy(captchaToken) && !captchaOk {
        return CaptchaRejected;
      }
      var amount := Tezos.GetTezAmountForProfile(tezos, profile.value);
      if amount.Failure? {
        return BadRequest(amount.error);
      }
      var key := Pow.ChallengeKey(address.value);
      var stored := Pow.GetChallenge(redis.db, key);
      var challenge := if stored.Some? then stored.value.challenge else None;
      var counter := if stored.Some? then stored.value.challengeCounter else None;
      var difficulty := if stored.Some? then stored.value.difficulty else None;
      if !Truthy(challenge) {
        var usedCaptcha := Truthy(captchaToken);
        var issued := FreshChallenge(policy, usedCaptcha, randomBytes);
        challenge, difficulty := Some(issued.challenge), Some(issued.difficulty);
        counter := Some(1);
        Pow.SaveChallenge(redis, key, StartArgs(issued, usedCaptcha));
      }
      return ChallengeIssued(challenge.value, counter, difficulty);
    }

    /** A correct solution to a round before the last: save the next round's challenge and reply with it. */
    method SaveNextRound(key: string, st: Pow.ChallengeState, randomBytes: seq<Byte>) returns (reply: Reply)
      requires |randomBytes| == Pow.ChallengeSize && st.challengeCounter.Some?
      modifies redis
      ensures (reply, redis.db) == NextRound(policy, old(redis.db), key, st, randomBytes)
    {
      var issued := FreshChallenge(policy, st.usedCaptcha, randomBytes);
      var counter := st.challengeCounter.value + 1;
      Pow.SaveChallenge(redis, key, NextRoundArgs(issued, counter));
      return ChallengeIssued(issued.challenge, Some(counter), Some(issued.difficulty));
    }

    /** POST /verify: check one round's solution, then advance or pay out. */
    method Verify(address: Option<string>, solution: Option<string>, nonce: Option<int>,
                  randomBytes: seq<Byte>, delOk: bool) returns (reply: Reply)
      requires |randomBytes| == Pow.ChallengeSize
      modifies redis
      ensures (reply, redis.db)
           == VerifySpec(policy, sha256, old(redis.db), address, solution, nonce, randomBytes, delOk)
    {
      if !Truthy(address) || !Truthy(solution) || !TruthyNumber(nonce) {
        return BadRequest(VerifyFieldsRequired);
      }
      var key := Pow.ChallengeKey(address.value);
      var stored := Pow.GetChallenge(redis.db, key);
      if stored.None? {
        return BadRequest(NoChallengeFound);
      }
      var st := stored.value;
      var isValidSolution :=
        Pow.CheckSolution(sha256, st.challenge.GetOr("undefined"), st.difficulty, nonce.value, solution.value);
      if isValidSolution.None? {
        return ServerError(AnErrorOccurred);
      }
      if !isValidSolution.value {
        return BadRequest(IncorrectSolution);
      }
      if NumberBelow(st.challengeCounter, st.challengesNeeded) {
        VerifyTakesNextRound(policy, sha256, redis.db, address.value, solution.value, nonce.value, randomBytes, delOk, st);
        reply := SaveNextRound(key, st, randomBytes);
        return;
      }
      if !delOk {
        return ServerError(AnErrorOccurred);
      }
      VerifyTakesPayout(policy, sha256, redis.db, address.value, solution.value, nonce.value, randomBytes, st);
      var _ := redis.Del(key);
      return TezSent(PlaceholderTxHash);
    }
  }

  // ---------------------------------------------------------------------------
  // Properties of /challenge

  /** The checks that pass before /challenge looks at the store. */
  predicate ChallengeAdmitted(tezos: Tezos.FaucetEnv, address: Option<string>, captchaToken: Option<string>,
                              profile: Option<string>, captchaOk: bool)
  {
    && Truthy(address) && Truthy(profile)
    && (Truthy(captchaToken) ==> captchaOk)
    && (profile.value == "USER" || profile.value == "BAKER")
  }

  /**
   * /challenge refuses a request without address or profile, with a captcha
   * token that does not validate, or with an unknown profile, and in each
   * case leaves the store as it was; otherwise it issues a challenge.
   */
  lemma ChallengeRejections(policy: bool -> Policy, tezos: Tezos.FaucetEnv, db: Redis.Db,
                            address: Option<string>, captchaToken: Option<string>, profile: Option<string>,
                            captchaOk: bool, randomBytes: seq<Byte>)
    requires |randomBytes| == Pow.ChallengeSize
    ensures var result := ChallengeSpec(policy, tezos, db, address, captchaToken, profile, captchaOk, randomBytes);
      var reply, after := result.0, result.1;
      && (!Truthy(address) || !Truthy(profile) ==> reply == BadRequest(ChallengeFieldsRequired))
      && (Truthy(address) && Truthy(profile) && Truthy(captchaToken) && !captchaOk ==> reply == CaptchaRejected)
      && (Truthy(address) && Truthy(profile) && (Truthy(captchaToken) ==> captchaOk)
          && profile.value != "USER" && profile.value != "BAKER"
          ==> reply == BadRequest("Unknown profile " + profile.value))
      && (!ChallengeAdmitted(tezos, address, captchaToken, profile, captchaOk) ==> after == db)
      && (ChallengeAdmitted(tezos, address, captchaToken, profile, captchaOk) <==> reply.ChallengeIssued?)
  {
  }

  /** With a challenge already stored, /challenge repeats it and writes nothing. */
  lemma ChallengeReusesStored(policy: bool -> Policy, tezos: Tezos.FaucetEnv, db: Redis.Db,
                              address: Option<string>, captchaToken: Option<string>, profile: Option<string>,
                              captchaOk: bool, randomBytes: seq<Byte>)
    requires |randomBytes| == Pow.ChallengeSize
    requires ChallengeAdmitted(tezos, address, captchaToken, profile, captchaOk)
    requires Truthy(StoredChallenge(db, Pow.ChallengeKey(address.value)))
    ensures var stored := Pow.GetChallenge(db, Pow.ChallengeKey(address.value)).value;
      ChallengeSpec(policy, tezos, db, address, captchaToken, profile, captchaOk, randomBytes)
      == (ChallengeIssued(stored.challenge.value, stored.challengeCounter, stored.difficulty), db)
  {
  }

  /**
   * With no challenge stored, /challenge stores the new challenge with
   * counter 1, the policy's round count and difficulty, the captcha flag set
   * to whether a token came, and a 30-minute expiry; no other key changes.
   */
  lemma ChallengeStartsFresh(policy: bool -> Policy, tezos: Tezos.FaucetEnv, db: Redis.Db,
                             address: Option<string>, captchaToken: Option<string>, profile: Option<string>,
                             captchaOk: bool, randomBytes: seq<Byte>)
    requires |randomBytes| == Pow.ChallengeSize
    requires ChallengeAdmitted(tezos, address, captchaToken, profile, captchaOk)
    requires !Truthy(StoredChallenge(db, Pow.ChallengeKey(address.value)))
    ensures var key := Pow.ChallengeKey(address.value);
      var result := ChallengeSpec(policy, tezos, db, address, captchaToken, profile, captchaOk, randomBytes);
      var reply, after := result.0, result.1;
      var p := policy(Truthy(captchaToken));
      && reply == ChallengeIssued(ToHex(randomBytes), Some(1), Some(p.difficulty))
      && Pow.GetChallenge(after, key) == Some(Pow.ChallengeState(
           Pow.NumberField(Redis.HGetAll(db, key), "amount"), Some(ToHex(randomBytes)), Some(1),
           Some(p.challengesNeeded), Some(p.difficulty), Truthy(captchaToken)))
      && key in after.ttl && after.ttl[key] == Pow.DefaultExpiration
      && forall k :: k != key ==> Redis.HGetAll(after, k) == Redis.HGetAll(db, k)
  {
    var key := Pow.ChallengeKey(address.value);
    var usedCaptcha := Truthy(captchaToken);
    var args := StartArgs(FreshChallenge(policy, usedCaptcha, randomBytes), usedCaptcha);
    Pow.GetAfterSave(db, key, args);
    Pow.SaveMergesFields(db, key, args, "challenge");
  }

  /**
   * Calling /challenge again with the same request gives the same reply and
   * leaves the store as the first call left it, whatever random bytes the
   * second call draws.
   */
  lemma ChallengeIdempotent(policy: bool -> Policy, tezos: Tezos.FaucetEnv, db: Redis.Db,
                            address: Option<string>, captchaToken: Option<string>, profile: Option<string>,
                            captchaOk: bool, randomBytes: seq<Byte>, otherBytes: seq<Byte>)
    requires |randomBytes| == Pow.ChallengeSize && |otherBytes| == Pow.ChallengeSize
    ensures var result := ChallengeSpec(policy, tezos, db, address, captchaToken, profile, captchaOk, randomBytes);
      var first, after := result.0, result.1;
      ChallengeSpec(policy, tezos, after, address, captchaToken, profile, captchaOk, otherBytes) == (first, after)
  {
    if ChallengeAdmitted(tezos, address, captchaToken, profile, captchaOk) {
      var key := Pow.ChallengeKey(address.value);
      if !Truthy(StoredChallenge(db, key)) {
        ChallengeStartsFresh(policy, tezos, db, address, captchaToken, profile, captchaOk, randomBytes);
        var after := ChallengeSpec(policy, tezos, db, address, captchaToken, profile, captchaOk, randomBytes).1;
        assert Truthy(StoredChallenge(after, key));
        ChallengeReusesStored(policy, tezos, after, address, captchaToken, profile, captchaOk, otherBytes);
      }
    }
  }

  // ---------------------------------------------------------------------------
  // Properties of /verify

  /** The record /verify would find for the address. */
  function RecordFor(db: Redis.Db, address: string): Option<Pow.ChallengeState> {
    Pow.GetChallenge(db, Pow.ChallengeKey(address))
  }

  /** A submitted solution that the stored challenge accepts. */
  predicate SolutionAccepted(sha256: string -> Pow.Digest, st: Pow.ChallengeState, nonce: int, solution: string) {
    && RepeatCount(st.difficulty).Some?
    && Pow.VerifySolution(sha256, st.challenge.GetOr("undefined"), RepeatCount(st.difficulty).value, nonce, solution)
  }

  /**
   * /verify refuses a request without address, solution or a non-zero
   * nonce, and one for an address without a record. A solution that is
   * not the digest is refused whatever difficulty is stored; the digest is
   * refused when it has too few zeros, and answered with a server error
   * when the stored difficulty is negative, so that `repeat` throws. In
   * each case the store is left as it was, so the round can be tried again.
   */
  lemma VerifyRejections(policy: bool -> Policy, sha256: string -> Pow.Digest, db: Redis.Db,
                         address: Option<string>, solution: Option<string>, nonce: Option<int>,
                         randomBytes: seq<Byte>, delOk: bool)
    requires |randomBytes| == Pow.ChallengeSize
    ensures var result := VerifySpec(policy, sha256, db, address, solution, nonce, randomBytes, delOk);
      var reply, after := result.0, result.1;
      && (!Truthy(address) || !Truthy(solution) || !TruthyNumber(nonce) ==> (reply, after) == (BadRequest(VerifyFieldsRequired), db))
      && (Truthy(address) && Truthy(solution) && TruthyNumber(nonce) && RecordFor(db, address.value).None?
          ==> (reply, after) == (BadRequest(NoChallengeFound), db))
      && (Truthy(address) && Truthy(solution) && TruthyNumber(nonce) && RecordFor(db, address.value).Some?
          && solution.value != Pow.GetSolution(sha256, RecordFor(db, address.value).value.challenge.GetOr("undefined"), nonce.value)
          ==> (reply, after) == (BadRequest(IncorrectSolution), db))
      && (Truthy(address) && Truthy(solution) && TruthyNumber(nonce) && RecordFor(db, address.value).Some?
          && RepeatCount(RecordFor(db, address.value).value.difficulty).Some?
          && !SolutionAccepted(sha256, RecordFor(db, address.value).value, nonce.value, solution.value)
          ==> (reply, after) == (BadRequest(IncorrectSolution), db))
      && (Truthy(address) && Truthy(solution) && TruthyNumber(nonce) && RecordFor(db, address.value).Some?
          && solution.value == Pow.GetSolution(sha256, RecordFor(db, address.value).value.challenge.GetOr("undefined"), nonce.value)
          && RepeatCount(RecordFor(db, address.value).value.difficulty).None?
          ==> (reply, after) == (ServerError(AnErrorOccurred), db))
      && (reply.BadRequest? || reply.ServerError? ==> after == db)
  {
  }

  /** The reply of the round-advance branch, for any record it starts from. */
  lemma NextRoundReply(policy: bool -> Policy, db: Redis.Db, key: string, st: Pow.ChallengeState,
                       randomBytes: seq<Byte>)
    requires |randomBytes| == Pow.ChallengeSize && st.challengeCounter.Some?
    ensures NextRound(policy, db, key, st, randomBytes).0
         == ChallengeIssued(ToHex(randomBytes), Some(st.challengeCounter.value + 1), Some(policy(st.usedCaptcha).difficulty))
  {
    var issued := FreshChallenge(policy, st.usedCaptcha, randomBytes);
    assert issued.challenge == ToHex(randomBytes);
  }

  lemma NextRoundWrites(policy: bool -> Policy, db: Redis.Db, key: string, st: Pow.ChallengeState,
                        randomBytes: seq<Byte>)
    requires |randomBytes| == Pow.ChallengeSize && st.challengeCounter.Some?
    ensures NextRound(policy, db, key, st, randomBytes).1 == Pow.SaveChallengeSpec(db, key,
              NextRoundArgs(FreshChallenge(policy, st.usedCaptcha, randomBytes), st.challengeCounter.value + 1))
  {
  }

  /** The record the round-advance branch leaves, and the keys it does not touch. */
  lemma NextRoundRecord(policy: bool -> Policy, db: Redis.Db, key: string, st: Pow.ChallengeState,
                        randomBytes: seq<Byte>)
    requires |randomBytes| == Pow.ChallengeSize && st.challengeCounter.Some?
    requires Pow.GetChallenge(db, key) == Some(st)
    ensures var after := NextRound(policy, db, key, st, randomBytes).1;
      var p := policy(st.usedCaptcha);
      && Pow.GetChallenge(after, key) == Some(Pow.ChallengeState(st.amount, Some(ToHex(randomBytes)),
           Some(st.challengeCounter.value + 1), Some(p.challengesNeeded), Some(p.difficulty), st.usedCaptcha))
      && forall k :: k != key ==> Redis.HGetAll(after, k) == Redis.HGetAll(db, k)
  {
    var args := NextRoundArgs(FreshChallenge(policy, st.usedCaptcha, randomBytes), st.challengeCounter.value + 1);
    NextRoundWrites(policy, db, key, st, randomBytes);
    Pow.SaveUpdatesRecord(db, key, args, st);
    Pow.SavedHash(db, key, args);
  }

  /** Which branch /verify takes on a correct solution to a round before the last. */
  lemma VerifyTakesNextRound(policy: bool -> Policy, sha256: string -> Pow.Digest, db: Redis.Db,
                             address: string, solution: string, nonce: int, randomBytes: seq<Byte>, delOk: bool,
                             st: Pow.ChallengeState)
    requires |randomBytes| == Pow.ChallengeSize
    requires address != "" && solution != "" && nonce != 0
    requires RecordFor(db, address) == Some(st)
    requires SolutionAccepted(sha256, st, nonce, solution)
    requires NumberBelow(st.challengeCounter, st.challengesNeeded)
    ensures VerifySpec(policy, sha256, db, Some(address), Some(solution), Some(nonce), randomBytes, delOk)
         == NextRound(policy, db, Pow.ChallengeKey(address), st, randomBytes)
  {
  }

  /**
   * A correct solution to a round before the last stores a new challenge
   * with the counter one higher and the policy's values, keeps the captcha
   * flag, and replies with the new challenge.
   */
  lemma VerifyAdvances(policy: bool -> Policy, sha256: string -> Pow.Digest, db: Redis.Db,
                       address: string, solution: string, nonce: int, randomBytes: seq<Byte>, delOk: bool,
                       st: Pow.ChallengeState)
    requires |randomBytes| == Pow.ChallengeSize
    requires address != "" && solution != "" && nonce != 0
    requires RecordFor(db, address) == Some(st)
    requires SolutionAccepted(sha256, st, nonce, solution)
    requires NumberBelow(st.challengeCounter, st.challengesNeeded)
    ensures var result := VerifySpec(policy, sha256, db, Some(address), Some(solution), Some(nonce), randomBytes, delOk);
      var p := policy(st.usedCaptcha);
      var counter := st.challengeCounter.value + 1;
      && result.0 == ChallengeIssued(ToHex(randomBytes), Some(counter), Some(p.difficulty))
      && RecordFor(result.1, address) == Some(Pow.ChallengeState(st.amount, Some(ToHex(randomBytes)), Some(counter),
                                                                Some(p.challengesNeeded), Some(p.difficulty), st.usedCaptcha))
      && forall k :: k != Pow.ChallengeKey(address) ==> Redis.HGetAll(result.1, k) == Redis.HGetAll(db, k)
  {
    var key := Pow.ChallengeKey(address);
    VerifyTakesNextRound(policy, sha256, db, address, solution, nonce, randomBytes, delOk, st);
    NextRoundReply(policy, db, key, st, randomBytes);
    NextRoundRecord(policy, db, key, st, randomBytes);
  }

  /**
   * A correct solution to the last round deletes the record and then replies
   * "Tez sent"; when the delete fails the reply is an error and the store is
   * unchanged. Tez is never reported sent in any other way.
   */
  lemma VerifyPaysOnlyAfterDelete(policy: bool -> Policy, sha256: string -> Pow.Digest, db: Redis.Db,
                                  address: Option<string>, solution: Option<string>, nonce: Option<int>,
                                  randomBytes: seq<Byte>, delOk: bool)
    requires |randomBytes| == Pow.ChallengeSize
    ensures var result := VerifySpec(policy, sha256, db, address, solution, nonce, randomBytes, delOk);
      var reply, after := result.0, result.1;
      reply.TezSent? <==>
        && Truthy(address) && Truthy(solution) && TruthyNumber(nonce)
        && RecordFor(db, address.value).Some?
        && SolutionAccepted(sha256, RecordFor(db, address.value).value, nonce.value, solution.value)
        && !NumberBelow(RecordFor(db, address.value).value.challengeCounter,
                        RecordFor(db, address.value).value.challengesNeeded)
        && delOk
    ensures var result := VerifySpec(policy, sha256, db, address, solution, nonce, randomBytes, delOk);
      var reply, after := result.0, result.1;
      reply.TezSent? ==>
        && reply == TezSent(PlaceholderTxHash)
        && RecordFor(after, address.value).None? && Pow.ChallengeKey(address.value) !in after.ttl
        && forall k :: k != Pow.ChallengeKey(address.value) ==> Redis.HGetAll(after, k) == Redis.HGetAll(db, k)
  {
  }

  /** Which branch /verify takes on a correct solution to the last round. */
  lemma VerifyTakesPayout(policy: bool -> Policy, sha256: string -> Pow.Digest, db: Redis.Db,
                          address: string, solution: string, nonce: int, randomBytes: seq<Byte>,
                          st: Pow.ChallengeState)
    requires |randomBytes| == Pow.ChallengeSize
    requires address != "" && solution != "" && nonce != 0
    requires RecordFor(db, address) == Some(st)
    requires SolutionAccepted(sha256, st, nonce, solution)
    requires !NumberBelow(st.challengeCounter, st.challengesNeeded)
    ensures VerifySpec(policy, sha256, db, Some(address), Some(solution), Some(nonce), randomBytes, true)
         == (TezSent(PlaceholderTxHash), Redis.DelSpec(db, Pow.ChallengeKey(address)).0)
  {
  }

  // ---------------------------------------------------------------------------
  // The record invariant

  /**
   * A record as the handlers write it: a challenge, a counter between 1 and
   * the round count, and the round count and difficulty the policy gives for
   * its captcha flag.
   */
  predicate RecordOk(policy: bool -> Policy, r: Option<Pow.ChallengeState>) {
    && r.Some?
    && Truthy(r.value.challenge)
    && r.value.challengeCounter.Some? && r.value.challengesNeeded.Some? && r.value.difficulty.Some?
    && 1 <= r.value.challengeCounter.value <= r.value.challengesNeeded.value
    && policy(r.value.usedCaptcha) == Policy(r.value.challengesNeeded.value, r.value.difficulty.value)
  }

  /** Every key of the store holds such a record. */
  predicate Inv(policy: bool -> Policy, db: Redis.Db) {
    && Redis.WellFormed(db)
    && forall key :: key in db.hashes ==> RecordOk(policy, Pow.GetChallenge(db, key))
  }

  lemma GetChallengeFollowsHash(db: Redis.Db, other: Redis.Db, key: string)
    requires Redis.HGetAll(db, key) == Redis.HGetAll(other, key)
    ensures Pow.GetChallenge(db, key) == Pow.GetChallenge(other, key)
  {
    assert Redis.HGet(db, key, "challenge") == Redis.HGet(other, key, "challenge");
  }

  /** A write that touches one key keeps the invariant when it leaves a good record (or none) there. */
  lemma InvAfterWrite(policy: bool -> Policy, db: Redis.Db, after: Redis.Db, key: string)
    requires Inv(policy, db) && Redis.WellFormed(after)
    requires forall k :: k != key ==> Redis.HGetAll(after, k) == Redis.HGetAll(db, k)
    requires key in after.hashes ==> RecordOk(policy, Pow.GetChallenge(after, key))
    ensures Inv(policy, after)
  {
    forall k | k in after.hashes
      ensures RecordOk(policy, Pow.GetChallenge(after, k))
    {
      if k != key {
        assert Redis.HGetAll(after, k) == Redis.HGetAll(db, k);
        assert k in db.hashes;
        GetChallengeFollowsHash(after, db, k);
      }
    }
  }

  /** The record /challenge starts, for any store it starts from. */
  lemma StartChallengeRecord(policy: bool -> Policy, db: Redis.Db, key: string, usedCaptcha: bool,
                             randomBytes: seq<Byte>)
    requires |randomBytes| == Pow.ChallengeSize
    ensures var after := StartChallenge(policy, db, key, usedCaptcha, randomBytes).1;
      var p := policy(usedCaptcha);
      && Pow.GetChallenge(after, key) == Some(Pow.ChallengeState(
           Pow.NumberField(Redis.HGetAll(db, key), "amount"), Some(ToHex(randomBytes)), Some(1),
           Some(p.challengesNeeded), Some(p.difficulty), usedCaptcha))
      && key in after.ttl && after.ttl[key] == Pow.DefaultExpiration
      && (Redis.WellFormed(db) ==> Redis.WellFormed(after))
      && forall k :: k != key ==> Redis.HGetAll(after, k) == Redis.HGetAll(db, k)
  {
    var args := StartArgs(FreshChallenge(policy, usedCaptcha, randomBytes), usedCaptcha);
    assert StartChallenge(policy, db, key, usedCaptcha, randomBytes).1 == Pow.SaveChallengeSpec(db, key, args);
    Pow.GetAfterSave(db, key, args);
    Pow.SaveMergesFields(db, key, args, "challenge");
  }

  /** Which branch /challenge takes when no challenge is stored. */
  lemma ChallengeTakesStart(policy: bool -> Policy, tezos: Tezos.FaucetEnv, db: Redis.Db,
                            address: Option<string>, captchaToken: Option<string>, profile: Option<string>,
                            captchaOk: bool, randomBytes: seq<Byte>)
    requires |randomBytes| == Pow.ChallengeSize
    requires ChallengeAdmitted(tezos, address, captchaToken, profile, captchaOk)
    requires !Truthy(StoredChallenge(db, Pow.ChallengeKey(address.value)))
    ensures ChallengeSpec(policy, tezos, db, address, captchaToken, profile, captchaOk, randomBytes)
         == StartChallenge(policy, db, Pow.ChallengeKey(address.value), Truthy(captchaToken), randomBytes)
  {
  }

  /** /challenge keeps the invariant under a policy that asks for at least one round. */
  lemma ChallengeKeepsInv(policy: bool -> Policy, tezos: Tezos.FaucetEnv, db: Redis.Db,
                          address: Option<string>, captchaToken: Option<string>, profile: Option<string>,
                          captchaOk: bool, randomBytes: seq<Byte>)
    requires |randomBytes| == Pow.ChallengeSize
    requires PolicyOk(policy) && Inv(policy, db)
    ensures Inv(policy, ChallengeSpec(policy, tezos, db, address, captchaToken, profile, captchaOk, randomBytes).1)
  {
    if ChallengeAdmitted(tezos, address, captchaToken, profile, captchaOk) {
      var key := Pow.ChallengeKey(address.value);
      if !Truthy(StoredChallenge(db, key)) {
        ChallengeTakesStart(policy, tezos, db, address, captchaToken, profile, captchaOk, randomBytes);
        StartChallengeRecord(policy, db, key, Truthy(captchaToken), randomBytes);
        assert policy(Truthy(captchaToken)).challengesNeeded >= 1;
        InvAfterWrite(policy, db, StartChallenge(policy, db, key, Truthy(captchaToken), randomBytes).1, key);
      }
    }
  }

  /** /verify keeps the invariant under a policy that asks for at least one round. */
  lemma VerifyKeepsInv(policy: bool -> Policy, sha256: string -> Pow.Digest, db: Redis.Db,
                       address: Option<string>, solution: Option<string>, nonce: Option<int>,
                       randomBytes: seq<Byte>, delOk: bool)
    requires |randomBytes| == Pow.ChallengeSize
    requires PolicyOk(policy) && Inv(policy, db)
    ensures Inv(policy, VerifySpec(policy, sha256, db, address, solution, nonce, randomBytes, delOk).1)
  {
    var after := VerifySpec(policy, sha256, db, address, solution, nonce, randomBytes, delOk).1;
    if after != db {
      var key := Pow.ChallengeKey(address.value);
      var st := RecordFor(db, address.value).value;
      if NumberBelow(st.challengeCounter, st.challengesNeeded) {
        VerifyTakesNextRound(policy, sha256, db, address.value, solution.value, nonce.value, randomBytes, delOk, st);
        NextRoundRecord(policy, db, key, st, randomBytes);
        NextRoundKeepsWellFormed(policy, db, key, st, randomBytes);
        InvAfterWrite(policy, db, after, key);
      } else {
        assert after == Redis.DelSpec(db, key).0;
        InvAfterWrite(policy, db, after, key);
      }
    }
  }

  lemma NextRoundKeepsWellFormed(policy: bool -> Policy, db: Redis.Db, key: string, st: Pow.ChallengeState,
                                 randomBytes: seq<Byte>)
    requires |randomBytes| == Pow.ChallengeSize && st.challengeCounter.Some?
    requires Redis.WellFormed(db)
    ensures Redis.WellFormed(NextRound(policy, db, key, st, randomBytes).1)
  {
    NextRoundWrites(policy, db, key, st, randomBytes);
  }

  // ---------------------------------------------------------------------------
  // A client that solves every round

  datatype Attempt = Attempt(nonce: int, randomBytes: seq<Byte>)

  predicate BytesOk(attempts: seq<Attempt>) {
    forall i :: 0 <= i < |attempts| ==> |attempts[i].randomBytes| == Pow.ChallengeSize
  }

  /** The solution a client sends with a nonce: the digest for the challenge it holds. */
  function SolutionFor(sha256: string -> Pow.Digest, db: Redis.Db, address: string, nonce: int): string {
    Pow.GetSolution(sha256, StoredChallenge(db, Pow.ChallengeKey(address)).GetOr("undefined"), nonce)
  }

  /** One /verify call for the address with a nonce and its solution; the final DEL succeeds. */
  function Submit(policy: bool -> Policy, sha256: string -> Pow.Digest, db: Redis.Db, address: string,
                  attempt: Attempt): (Reply, Redis.Db)
    requires |attempt.randomBytes| == Pow.ChallengeSize
  {
    VerifySpec(policy, sha256, db, Some(address), Some(SolutionFor(sha256, db, address, attempt.nonce)),
               Some(attempt.nonce), attempt.randomBytes, true)
  }

  /**
   * The replies to a sequence of /verify calls. Its contract only counts
   * the replies; which of them pays is SessionPaysOnLastRound.
   */
  function Session(policy: bool -> Policy, sha256: string -> Pow.Digest, db: Redis.Db, address: string,
                   attempts: seq<Attempt>): (replies: seq<Reply>)
    requires BytesOk(attempts)
    ensures |replies| == |attempts|
    decreases |attempts|
  {
    if attempts == [] then []
    else
      var step := Submit(policy, sha256, db, address, attempts[0]);
      [step.0] + Session(policy, sha256, step.1, address, attempts[1..])
  }

  /** The nonce meets the difficulty of the challenge stored for the address. */
  predicate NonceSolves(sha256: string -> Pow.Digest, db: Redis.Db, address: string, nonce: int) {
    var r := RecordFor(db, address);
    && nonce != 0
    && r.Some? && r.value.challenge.Some? && r.value.difficulty.Some? && r.value.difficulty.value >= 0
    && Pow.LeadingZeros(Pow.GetSolution(sha256, r.value.challenge.value, nonce)) >= r.value.difficulty.value
  }

  /** Every attempt's nonce solves the challenge stored when it is sent. */
  predicate AllSolve(policy: bool -> Policy, sha256: string -> Pow.Digest, db: Redis.Db, address: string,
                     attempts: seq<Attempt>)
    requires BytesOk(attempts)
    decreases |attempts|
  {
    attempts != [] ==>
      && NonceSolves(sha256, db, address, attempts[0].nonce)
      && AllSolve(policy, sha256, Submit(policy, sha256, db, address, attempts[0]).1, address, attempts[1..])
  }

  lemma SolvedNonceAccepted(sha256: string -> Pow.Digest, db: Redis.Db, address: string, nonce: int,
                            st: Pow.ChallengeState)
    requires RecordFor(db, address) == Some(st)
    requires NonceSolves(sha256, db, address, nonce)
    ensures SolutionAccepted(sha256, st, nonce, SolutionFor(sha256, db, address, nonce))
    ensures SolutionFor(sha256, db, address, nonce) != ""
  {
    Pow.VerifySolutionMeaning(sha256, st.challenge.value, st.difficulty.value, nonce,
                              SolutionFor(sha256, db, address, nonce));
  }

  /** Rounds left after the current one, for a record as the handlers write it. */
  function RoundsLeft(st: Pow.ChallengeState): int
    requires st.challengeCounter.Some? && st.challengesNeeded.Some?
  {
    st.challengesNeeded.value - st.challengeCounter.value
  }

  /** A solved round before the last issues the next challenge and leaves one round fewer. */
  lemma SubmitAdvances(policy: bool -> Policy, sha256: string -> Pow.Digest, db: Redis.Db, address: string,
                       attempt: Attempt, st: Pow.ChallengeState)
    requires PolicyOk(policy) && Inv(policy, db) && address != ""
    requires |attempt.randomBytes| == Pow.ChallengeSize
    requires RecordFor(db, address) == Some(st) && RecordOk(policy, Some(st))
    requires NonceSolves(sha256, db, address, attempt.nonce)
    requires RoundsLeft(st) > 0
    ensures var step := Submit(policy, sha256, db, address, attempt);
      && step.0.ChallengeIssued?
      && Inv(policy, step.1)
      && RecordFor(step.1, address).Some?
      && RecordOk(policy, RecordFor(step.1, address))
      && RoundsLeft(RecordFor(step.1, address).value) == RoundsLeft(st) - 1
  {
    var solution := SolutionFor(sha256, db, address, attempt.nonce);
    SolvedNonceAccepted(sha256, db, address, attempt.nonce, st);
    VerifyAdvances(policy, sha256, db, address, solution, attempt.nonce, attempt.randomBytes, true, st);
    VerifyKeepsInv(policy, sha256, db, Some(address), Some(solution), Some(attempt.nonce), attempt.randomBytes, true);
  }

  /** A solved last round pays. */
  lemma SubmitPays(policy: bool -> Policy, sha256: string -> Pow.Digest, db: Redis.Db, address: string,
                   attempt: Attempt, st: Pow.ChallengeState)
    requires |attempt.randomBytes| == Pow.ChallengeSize && address != ""
    requires RecordFor(db, address) == Some(st) && RecordOk(policy, Some(st))
    requires NonceSolves(sha256, db, address, attempt.nonce)
    requires RoundsLeft(st) == 0
    ensures Submit(policy, sha256, db, address, attempt).0 == TezSent(PlaceholderTxHash)
  {
    var solution := SolutionFor(sha256, db, address, attempt.nonce);
    SolvedNonceAccepted(sha256, db, address, attempt.nonce, st);
    VerifyTakesPayout(policy, sha256, db, address, solution, attempt.nonce, attempt.randomBytes, st);
  }

  /** Only reply `last` reports tez sent; every other reply issues a challenge. */
  predicate PaidExactlyAt(replies: seq<Reply>, last: int) {
    forall i :: 0 <= i < |replies| ==>
      && (replies[i] == TezSent(PlaceholderTxHash) <==> i == last)
      && (!replies[i].TezSent? ==> replies[i].ChallengeIssued?)
  }

  lemma PaidExactlyAtCons(first: Reply, rest: seq<Reply>, last: int)
    requires first.ChallengeIssued? && last >= 1
    requires PaidExactlyAt(rest, last - 1)
    ensures PaidExactlyAt([first] + rest, last)
  {
    var replies := [first] + rest;
    forall i | 0 <= i < |replies|
      ensures (replies[i] == TezSent(PlaceholderTxHash) <==> i == last)
      ensures !replies[i].TezSent? ==> replies[i].ChallengeIssued?
    {
      if i > 0 {
        assert replies[i] == rest[i - 1];
      }
    }
  }

  /**
   * From a record at counter c of n rounds, a client that solves every round
   * is paid on exactly its (n - c + 1)-th call and is given a new challenge
   * on every call before.
   */
  lemma {:induction false} SessionPaysOnLastRound(policy: bool -> Policy, sha256: string -> Pow.Digest,
                                                  db: Redis.Db, address: string, attempts: seq<Attempt>)
    requires PolicyOk(policy) && Inv(policy, db) && address != ""
    requires RecordOk(policy, RecordFor(db, address))
    requires BytesOk(attempts) && AllSolve(policy, sha256, db, address, attempts)
    requires |attempts| <= RoundsLeft(RecordFor(db, address).value) + 1
    ensures PaidExactlyAt(Session(policy, sha256, db, address, attempts), RoundsLeft(RecordFor(db, address).value))
    decreases |attempts|
  {
    if attempts != [] {
      var st := RecordFor(db, address).value;
      var step := Submit(policy, sha256, db, address, attempts[0]);
      var rest := Session(policy, sha256, step.1, address, attempts[1..]);
      assert Session(policy, sha256, db, address, attempts) == [step.0] + rest;
      if RoundsLeft(st) > 0 {
        SubmitAdvances(policy, sha256, db, address, attempts[0], st);
        SessionPaysOnLastRound(policy, sha256, step.1, address, attempts[1..]);
        PaidExactlyAtCons(step.0, rest, RoundsLeft(st));
      } else {
        SubmitPays(policy, sha256, db, address, attempts[0], st);
        assert rest == [];
      }
    }
  }

  /**
   * A client that asks /challenge for a new challenge and then solves every
   * round is paid on exactly the n-th /verify call, where n is the round
   * count the policy gives for whether it sent a captcha token, and is given
   * a new challenge on every call before.
   */
  lemma FreshSessionPaysOnLastRound(policy: bool -> Policy, tezos: Tezos.FaucetEnv, sha256: string -> Pow.Digest,
                                    db: Redis.Db, address: string, captchaToken: Option<string>,
                                    profile: Option<string>, captchaOk: bool, randomBytes: seq<Byte>,
                                    attempts: seq<Attempt>)
    requires |randomBytes| == Pow.ChallengeSize
    requires PolicyOk(policy) && Inv(policy, db)
    requires ChallengeAdmitted(tezos, Some(address), captchaToken, profile, captchaOk)
    requires !Truthy(StoredChallenge(db, Pow.ChallengeKey(address)))
    requires var started := ChallengeSpec(policy, tezos, db, Some(address), captchaToken, profile, captchaOk, randomBytes).1;
      BytesOk(attempts) && AllSolve(policy, sha256, started, address, attempts)
    requires |attempts| == policy(Truthy(captchaToken)).challengesNeeded
    ensures var started := ChallengeSpec(policy, tezos, db, Some(address), captchaToken, profile, captchaOk, randomBytes).1;
      PaidExactlyAt(Session(policy, sha256, started, address, attempts), |attempts| - 1)
  {
    var started := ChallengeSpec(policy, tezos, db, Some(address), captchaToken, profile, captchaOk, randomBytes).1;
    ChallengeOpensSession(policy, tezos, db, address, captchaToken, profile, captchaOk, randomBytes);
    SessionPaysOnLastRound(policy, sha256, started, address, attempts);
  }

  /**
   * /challenge for an address with no challenge stored leaves the invariant
   * and a record at its first round, with every round the policy asks for
   * still to solve.
   */
  lemma ChallengeOpensSession(policy: bool -> Policy, tezos: Tezos.FaucetEnv, db: Redis.Db, address: string,
                              captchaToken: Option<string>, profile: Option<string>, captchaOk: bool,
                              randomBytes: seq<Byte>)
    requires |randomBytes| == Pow.ChallengeSize
    requires PolicyOk(policy) && Inv(policy, db)
    requires ChallengeAdmitted(tezos, Some(address), captchaToken, profile, captchaOk)
    requires !Truthy(StoredChallenge(db, Pow.ChallengeKey(address)))
    ensures var started := ChallengeSpec(policy, tezos, db, Some(address), captchaToken, profile, captchaOk, randomBytes).1;
      && Inv(policy, started)
      && RecordOk(policy, RecordFor(started, address))
      && RoundsLeft(RecordFor(started, address).value) == policy(Truthy(captchaToken)).challengesNeeded - 1
  {
    ChallengeStartsFresh(policy, tezos, db, Some(address), captchaToken, profile, captchaOk, randomBytes);
    ChallengeKeepsInv(policy, tezos, db, Some(address), captchaToken, profile, captchaOk, randomBytes);
  }
}
