/**
 * The /challenge and /verify handlers of the compiled dist/api.js: a fixed
 * difficulty of 3 and four rounds per address, a record holding only the
 * current challenge and a round counter, and the verifier of dist/pow.js.
 * The captcha verdict is asked for on both routes. As in Api, each handler
 * is a function from the store's contents and the request to the reply and
 * the new contents, and the LegacyFaucet class runs them step by step.
 *
 * /verify as compiled (VerifyAsWritten) does not check that a record exists;
 * VerifySpec is the handler with that check added, and the rest of the model
 * uses it.
 */
module LegacyApi {
  import opened Wrappers
  import opened JsValues
  import Redis
  import Tezos
  import Pow
  import LegacyPow
  import Api

  const Difficulty := 3
  const ChallengesNeeded := 4
  /** The lifetime /challenge gives a new record, in seconds. */
  const Expiration := 1800

  datatype Reply =
    | ChallengeIssued(challenge: string, difficulty: int)  // 200
    | BadRequest(message: string)                          // 400
    | CaptchaRejected                                      // the reply the captcha check sends itself
    | TezSent                                              // 200, "Tez sent"
    | ServerError(message: string)                         // 500

  /** The key's challenge text; none when the record or the field is missing. */
  function StoredChallenge(db: Redis.Db, key: string): Option<string> {
    Redis.HGet(db, key, "challenge")
  }

  /** Number(counter): none (NaN) when the field is missing or is not a number. */
  function Counter(db: Redis.Db, key: string): Option<int> {
    Pow.NumberField(Redis.HGetAll(db, key), "counter")
  }

  /** The two fields a round writes: its challenge and its counter. */
  function RoundFields(challenge: string, counter: int): (fields: Redis.Hash)
    ensures "challenge" in fields && fields["challenge"] == challenge
  {
    map["challenge" := challenge, "counter" := IntToDecimal(counter)]
  }

  lemma RoundFieldsRead(db: Redis.Db, key: string, challenge: string, counter: int)
    ensures var after := Redis.HSetSpec(db, key, RoundFields(challenge, counter));
      && StoredChallenge(after, key) == Some(challenge)
      && Counter(after, key) == Some(counter)
      && Redis.HGetAll(after, key) != map[]
  {
    var after := Redis.HSetSpec(db, key, RoundFields(challenge, counter));
    assert Redis.HGet(after, key, "counter") == Some(IntToDecimal(counter));
    IntToDecimalRoundTrip(counter);
  }

  // ---------------------------------------------------------------------------
  // The handlers on the store's contents

  /** /verify after a correct solution to a round before the fourth: the next round's challenge and counter. */
  function NextRound(db: Redis.Db, key: string, randomBytes: seq<Byte>): (Reply, Redis.Db)
    requires |randomBytes| == Pow.ChallengeSize && Counter(db, key).Some?
  {
    var issued := Pow.GenerateChallenge(Pow.ChallengeSize, randomBytes);
    (ChallengeIssued(issued, Difficulty), Redis.HSetSpec(db, key, RoundFields(issued, Counter(db, key).value + 1)))
  }

  /** POST /challenge */
  function ChallengeSpec(tezos: Tezos.FaucetEnv, db: Redis.Db, address: Option<string>, profile: Option<string>,
                         captchaOk: bool, randomBytes: seq<Byte>): (Reply, Redis.Db)
    requires |randomBytes| == Pow.ChallengeSize
  {
    if !Truthy(address) || !Truthy(profile) then (BadRequest(Api.ChallengeFieldsRequired), db)
    else if !captchaOk then (CaptchaRejected, db)
    else if Tezos.GetTezAmountForProfile(tezos, profile.value).Failure? then
      (BadRequest(Tezos.GetTezAmountForProfile(tezos, profile.value).error), db)
    else
      var key := Pow.ChallengeKey(address.value);
      var challenge := StoredChallenge(db, key);
      if !Truthy(challenge) then
        var issued := Pow.GenerateChallenge(Pow.ChallengeSize, randomBytes);
        (ChallengeIssued(issued, Difficulty),
         Redis.ExpireSpec(Redis.HSetSpec(db, key, RoundFields(issued, 1)), key, Expiration))
      else (ChallengeIssued(challenge.value, Difficulty), db)
  }

  /**
   * POST /verify as compiled: with no record the challenge is undefined
   * (hashed as the text "undefined") and the counter is NaN, which is not
   * below four. The reply is decided before the DEL; a failed DEL is only
   * logged and leaves the record.
   */
  function VerifyAsWritten(sha256: string -> Pow.Digest, db: Redis.Db, address: Option<string>,
                           solution: Option<string>, nonce: Option<int>, captchaOk: bool,
                           randomBytes: seq<Byte>, delOk: bool): (Reply, Redis.Db)
    requires |randomBytes| == Pow.ChallengeSize
  {
    if !Truthy(address) || !Truthy(solution) || !TruthyNumber(nonce) then (BadRequest(Api.VerifyFieldsRequired), db)
    else if !captchaOk then (CaptchaRejected, db)
    else
      var key := Pow.ChallengeKey(address.value);
      var challenge := StoredChallenge(db, key);
      var counter := Counter(db, key);
      if !LegacyPow.VerifySolution(sha256, challenge.GetOr("undefined"), Difficulty, nonce.value, solution.value)
      then (BadRequest(Api.IncorrectSolution), db)
      else if NumberBelow(counter, Some(ChallengesNeeded)) then NextRound(db, key, randomBytes)
      else (TezSent, if delOk then Redis.DelSpec(db, key).0 else db)
  }

  /** POST /verify with the missing check added: an address without a record is refused. */
  function VerifySpec(sha256: string -> Pow.Digest, db: Redis.Db, address: Option<string>,
                      solution: Option<string>, nonce: Option<int>, captchaOk: bool,
                      randomBytes: seq<Byte>, delOk: bool): (Reply, Redis.Db)
    requires |randomBytes| == Pow.ChallengeSize
  {
    if Truthy(address) && Truthy(solution) && TruthyNumber(nonce) && captchaOk
       && Redis.HGetAll(db, Pow.ChallengeKey(address.value)) == map[]
    then (BadRequest(Api.NoChallengeFound), db)
    else VerifyAsWritten(sha256, db, address, solution, nonce, captchaOk, randomBytes, delOk)
  }

  // ---------------------------------------------------------------------------
  // The faucet object

  class LegacyFaucet {
    const redis: Redis.RedisClient
    const sha256: string -> Pow.Digest
    const tezos: Tezos.FaucetEnv

    constructor (redis: Redis.RedisClient, sha256: string -> Pow.Digest, tezos: Tezos.FaucetEnv)
      ensures this.redis == redis && this.sha256 == sha256 && this.tezos == tezos
    {
      this.redis := redis;
      this.sha256 := sha256;
      this.tezos := tezos;
    }

    /** POST /challenge: start a challenge for the address, or repeat the one it has. */
    method Challenge(address: Option<string>, profile: Option<string>, captchaOk: bool, randomBytes: seq<Byte>)
      returns (reply: Reply)
      requires |randomBytes| == Pow.ChallengeSize
      modifies redis
      ensures (reply, redis.db) == ChallengeSpec(tezos, old(redis.db), address, profile, captchaOk, randomBytes)
    {
      if !Truthy(address) || !Truthy(profile) {
        return BadRequest(Api.ChallengeFieldsRequired);
      }
      if !captchaOk {
        return CaptchaRejected;
      }
      var amount := Tezos.GetTezAmountForProfile(tezos, profile.value);
      if amount.Failure? {
        return BadRequest(amount.error);
      }
      var key := Pow.ChallengeKey(address.value);
      var challenge := Redis.HGet(redis.db, key, "challenge");
      if !Truthy(challenge) {
        var issued := Pow.GenerateChallenge(Pow.ChallengeSize, randomBytes);
        challenge := Some(issued);
        redis.HSet(key, RoundFields(issued, 1));
        redis.Expire(key, Expiration);
      }
      return ChallengeIssued(challenge.value, Difficulty);
    }

    /** A correct solution to a round before the last: store a new challenge and the counter one up. */
    method SaveNextRound(key: string, randomBytes: seq<Byte>) returns (reply: Reply)
      requires |randomBytes| == Pow.ChallengeSize && Counter(redis.db, key).Some?
      modifies redis
      ensures (reply, redis.db) == NextRound(old(redis.db), key, randomBytes)
    {
      var issued := Pow.GenerateChallenge(Pow.ChallengeSize, randomBytes);
      redis.HSet(key, RoundFields(issued, Counter(redis.db, key).value + 1));
      return ChallengeIssued(issued, Difficulty);
    }

    /** POST /verify: check one round's solution, then advance or pay out. */
    method Verify(address: Option<string>, solution: Option<string>, nonce: Option<int>, captchaOk: bool,
                  randomBytes: seq<Byte>, delOk: bool) returns (reply: Reply)
      requires |randomBytes| == Pow.ChallengeSize
      modifies redis
      ensures (reply, redis.db)
           == VerifySpec(sha256, old(redis.db), address, solution, nonce, captchaOk, randomBytes, delOk)
    {
      if !Truthy(address) || !Truthy(solution) || !TruthyNumber(nonce) {
        return BadRequest(Api.VerifyFieldsRequired);
      }
      if !captchaOk {
        return CaptchaRejected;
      }
      var key := Pow.ChallengeKey(address.value);
      var data := Redis.HGetAll(redis.db, key);
      if data == map[] {
        return BadRequest(Api.NoChallengeFound);
      }
      var challenge := Redis.HGet(redis.db, key, "challenge");
      var counter := Pow.NumberField(data, "counter");
      var isValidSolution :=
        LegacyPow.VerifySolution(sha256, challenge.GetOr("undefined"), Difficulty, nonce.value, solution.value);
      if !isValidSolution {
        return BadRequest(Api.IncorrectSolution);
      }
      if NumberBelow(counter, Some(ChallengesNeeded)) {
        reply := SaveNextRound(key, randomBytes);
        return;
      }
      reply := TezSent;
      if delOk {
        var _ := redis.Del(key);
      }
    }
  }

  // ---------------------------------------------------------------------------
  // Properties of /challenge

  /** The checks that pass before /challenge looks at the store. */
  predicate ChallengeAdmitted(tezos: Tezos.FaucetEnv, address: Option<string>, profile: Option<string>,
                              captchaOk: bool)
  {
    Truthy(address) && Truthy(profile) && captchaOk && (profile.value == "USER" || profile.value == "BAKER")
  }

  /**
   * /challenge refuses a request without address or profile, with a captcha
   * that does not validate (a token is always asked for), or with an unknown
   * profile, and then leaves the store as it was; otherwise it issues a
   * challenge at difficulty 3.
   */
  lemma ChallengeRejections(tezos: Tezos.FaucetEnv, db: Redis.Db, address: Option<string>, profile: Option<string>,
                            captchaOk: bool, randomBytes: seq<Byte>)
    requires |randomBytes| == Pow.ChallengeSize
    ensures var result := ChallengeSpec(tezos, db, address, profile, captchaOk, randomBytes);
      var reply, after := result.0, result.1;
      && (!Truthy(address) || !Truthy(profile) ==> reply == BadRequest(Api.ChallengeFieldsRequired))
      && (Truthy(address) && Truthy(profile) && !captchaOk ==> reply == CaptchaRejected)
      && (Truthy(address) && Truthy(profile) && captchaOk && profile.value != "USER" && profile.value != "BAKER"
          ==> reply == BadRequest("Unknown profile " + profile.value))
      && (!ChallengeAdmitted(tezos, address, profile, captchaOk) ==> after == db)
      && (ChallengeAdmitted(tezos, address, profile, captchaOk) <==> reply.ChallengeIssued?)
      && (reply.ChallengeIssued? ==> reply.difficulty == Difficulty)
  {
  }

  /**
   * With no challenge stored, /challenge stores a new one with counter 1 and
   * a 30-minute expiry, and replies with it; no other key changes.
   */
  lemma ChallengeStartsFresh(tezos: Tezos.FaucetEnv, db: Redis.Db, address: Option<string>, profile: Option<string>,
                             captchaOk: bool, randomBytes: seq<Byte>)
    requires |randomBytes| == Pow.ChallengeSize
    requires ChallengeAdmitted(tezos, address, profile, captchaOk)
    requires !Truthy(StoredChallenge(db, Pow.ChallengeKey(address.value)))
    ensures var key := Pow.ChallengeKey(address.value);
      var result := ChallengeSpec(tezos, db, address, profile, captchaOk, randomBytes);
      var reply, after := result.0, result.1;
      && reply == ChallengeIssued(ToHex(randomBytes), Difficulty)
      && StoredChallenge(after, key) == Some(ToHex(randomBytes))
      && Counter(after, key) == Some(1)
      && key in after.ttl && after.ttl[key] == Expiration
      && forall k :: k != key ==> Redis.HGetAll(after, k) == Redis.HGetAll(db, k)
  {
    var key := Pow.ChallengeKey(address.value);
    var written := Redis.HSetSpec(db, key, RoundFields(ToHex(randomBytes), 1));
    RoundFieldsRead(db, key, ToHex(randomBytes), 1);
    assert written.hashes[key] == Redis.HGetAll(written, key);
  }

  /** With a challenge stored, /challenge repeats it and writes nothing. */
  lemma ChallengeReusesStored(tezos: Tezos.FaucetEnv, db: Redis.Db, address: Option<string>, profile: Option<string>,
                              captchaOk: bool, randomBytes: seq<Byte>)
    requires |randomBytes| == Pow.ChallengeSize
    requires ChallengeAdmitted(tezos, address, profile, captchaOk)
    requires Truthy(StoredChallenge(db, Pow.ChallengeKey(address.value)))
    ensures ChallengeSpec(tezos, db, address, profile, captchaOk, randomBytes)
         == (ChallengeIssued(StoredChallenge(db, Pow.ChallengeKey(address.value)).value, Difficulty), db)
  {
  }

  /** A second identical /challenge gives the same reply and writes nothing, whatever bytes it draws. */
  lemma ChallengeIdempotent(tezos: Tezos.FaucetEnv, db: Redis.Db, address: Option<string>, profile: Option<string>,
                            captchaOk: bool, randomBytes: seq<Byte>, otherBytes: seq<Byte>)
    requires |randomBytes| == Pow.ChallengeSize && |otherBytes| == Pow.ChallengeSize
    ensures var result := ChallengeSpec(tezos, db, address, profile, captchaOk, randomBytes);
      var first, after := result.0, result.1;
      ChallengeSpec(tezos, after, address, profile, captchaOk, otherBytes) == (first, after)
  {
    if ChallengeAdmitted(tezos, address, profile, captchaOk) && !Truthy(StoredChallenge(db, Pow.ChallengeKey(address.value))) {
      ChallengeStartsFresh(tezos, db, address, profile, captchaOk, randomBytes);
    }
  }

  // ---------------------------------------------------------------------------
  // Properties of /verify

  /**
   * As compiled, /verify pays an address that has no record at all: the
   * solution is checked against the digest of "undefined:<nonce>", and the
   * missing counter is not below four.
   */
  lemma NoRecordPaysAsWritten(sha256: string -> Pow.Digest, db: Redis.Db, address: string, nonce: int,
                              randomBytes: seq<Byte>, delOk: bool)
    requires |randomBytes| == Pow.ChallengeSize
    requires address != "" && nonce != 0
    requires Redis.HGetAll(db, Pow.ChallengeKey(address)) == map[]
    requires var digest := Pow.GetSolution(sha256, "undefined", nonce);
      Pow.LeadingZeros(digest) == Difficulty && digest[Difficulty] == '8'
    ensures var solution := Pow.GetSolution(sha256, "undefined", nonce);
      VerifyAsWritten(sha256, db, Some(address), Some(solution), Some(nonce), true, randomBytes, delOk).0 == TezSent
  {
    var solution := Pow.GetSolution(sha256, "undefined", nonce);
    LegacyPow.VerifySolutionMeaning(sha256, "undefined", Difficulty, nonce, solution);
  }

  /** With the check added, /verify never pays, and writes nothing, for an address without a record. */
  lemma NoRecordRefused(sha256: string -> Pow.Digest, db: Redis.Db, address: Option<string>,
                        solution: Option<string>, nonce: Option<int>, captchaOk: bool,
                        randomBytes: seq<Byte>, delOk: bool)
    requires |randomBytes| == Pow.ChallengeSize
    requires Truthy(address) && Redis.HGetAll(db, Pow.ChallengeKey(address.value)) == map[]
    ensures var result := VerifySpec(sha256, db, address, solution, nonce, captchaOk, randomBytes, delOk);
      && result.1 == db
      && (Truthy(solution) && TruthyNumber(nonce) && captchaOk ==> result.0 == BadRequest(Api.NoChallengeFound))
      && !result.0.TezSent? && !result.0.ChallengeIssued?
  {
  }

  /** Where a record exists the added check changes nothing. */
  lemma AgreesWithRecord(sha256: string -> Pow.Digest, db: Redis.Db, address: Option<string>,
                         solution: Option<string>, nonce: Option<int>, captchaOk: bool,
                         randomBytes: seq<Byte>, delOk: bool)
    requires |randomBytes| == Pow.ChallengeSize
    requires !Truthy(address) || Redis.HGetAll(db, Pow.ChallengeKey(address.value)) != map[]
    ensures VerifySpec(sha256, db, address, solution, nonce, captchaOk, randomBytes, delOk)
         == VerifyAsWritten(sha256, db, address, solution, nonce, captchaOk, randomBytes, delOk)
  {
  }

  /**
   * /verify refuses a request without address, solution or a non-zero
   * nonce, one whose captcha does not validate, and an incorrect solution;
   * each refusal leaves the store as it was.
   */
  lemma VerifyRejections(sha256: string -> Pow.Digest, db: Redis.Db, address: Option<string>,
                         solution: Option<string>, nonce: Option<int>, captchaOk: bool,
                         randomBytes: seq<Byte>, delOk: bool)
    requires |randomBytes| == Pow.ChallengeSize
    ensures var result := VerifySpec(sha256, db, address, solution, nonce, captchaOk, randomBytes, delOk);
      var reply, after := result.0, result.1;
      && (!Truthy(address) || !Truthy(solution) || !TruthyNumber(nonce) ==> reply == BadRequest(Api.VerifyFieldsRequired))
      && (Truthy(address) && Truthy(solution) && TruthyNumber(nonce) && !captchaOk ==> reply == CaptchaRejected)
      && (Truthy(address) && Truthy(solution) && TruthyNumber(nonce) && captchaOk
          && Redis.HGetAll(db, Pow.ChallengeKey(address.value)) != map[]
          && !LegacyPow.VerifySolution(sha256, StoredChallenge(db, Pow.ChallengeKey(address.value)).GetOr("undefined"),
                                       Difficulty, nonce.value, solution.value)
          ==> reply == BadRequest(Api.IncorrectSolution))
      && (reply.BadRequest? || reply.CaptchaRejected? ==> after == db)
  {
  }

  /** The record a request is answered from, and whether its solution is accepted. */
  predicate Accepted(sha256: string -> Pow.Digest, db: Redis.Db, address: string, solution: string, nonce: int) {
    var key := Pow.ChallengeKey(address);
    && Redis.HGetAll(db, key) != map[]
    && LegacyPow.VerifySolution(sha256, StoredChallenge(db, key).GetOr("undefined"), Difficulty, nonce, solution)
  }

  /**
   * The round-advance branch stores a new challenge with the counter one
   * higher, keeps the expiry, and replies with the new challenge; no other
   * key changes.
   */
  lemma NextRoundRecord(db: Redis.Db, key: string, randomBytes: seq<Byte>)
    requires |randomBytes| == Pow.ChallengeSize && Counter(db, key).Some?
    ensures var result := NextRound(db, key, randomBytes);
      && result.0 == ChallengeIssued(ToHex(randomBytes), Difficulty)
      && StoredChallenge(result.1, key) == Some(ToHex(randomBytes))
      && Counter(result.1, key) == Some(Counter(db, key).value + 1)
      && result.1.ttl == db.ttl
      && forall k :: k != key ==> Redis.HGetAll(result.1, k) == Redis.HGetAll(db, k)
  {
    RoundFieldsRead(db, key, ToHex(randomBytes), Counter(db, key).value + 1);
  }

  /** A correct solution to a round before the fourth takes the round-advance branch. */
  lemma VerifyAdvances(sha256: string -> Pow.Digest, db: Redis.Db, address: string, solution: string, nonce: int,
                       randomBytes: seq<Byte>, delOk: bool)
    requires |randomBytes| == Pow.ChallengeSize
    requires address != "" && solution != "" && nonce != 0
    requires Accepted(sha256, db, address, solution, nonce)
    requires NumberBelow(Counter(db, Pow.ChallengeKey(address)), Some(ChallengesNeeded))
    ensures VerifySpec(sha256, db, Some(address), Some(solution), Some(nonce), true, randomBytes, delOk)
         == NextRound(db, Pow.ChallengeKey(address), randomBytes)
  {
  }

  /**
   * A correct solution to the fourth round (or to a record whose counter is
   * not a number) is answered "Tez sent" whether or not the DEL succeeds; a
   * failed DEL leaves the record in place, so the same request is paid again.
   */
  lemma VerifyPays(sha256: string -> Pow.Digest, db: Redis.Db, address: string, solution: string, nonce: int,
                   randomBytes: seq<Byte>, otherBytes: seq<Byte>, delOk: bool)
    requires |randomBytes| == Pow.ChallengeSize && |otherBytes| == Pow.ChallengeSize
    requires address != "" && solution != "" && nonce != 0
    requires Accepted(sha256, db, address, solution, nonce)
    requires !NumberBelow(Counter(db, Pow.ChallengeKey(address)), Some(ChallengesNeeded))
    ensures var key := Pow.ChallengeKey(address);
      var result := VerifySpec(sha256, db, Some(address), Some(solution), Some(nonce), true, randomBytes, delOk);
      && result.0 == TezSent
      && (delOk ==> Redis.HGetAll(result.1, key) == map[] && key !in result.1.ttl
                    && forall k :: k != key ==> Redis.HGetAll(result.1, k) == Redis.HGetAll(db, k))
      && (!delOk ==> result.1 == db
                     && VerifySpec(sha256, result.1, Some(address), Some(solution), Some(nonce), true, otherBytes, true).0
                        == TezSent)
  {
  }

  /** Every reply that reports tez sent answers a correct solution to a round that is not before the fourth. */
  lemma PaysOnlyOnLastRound(sha256: string -> Pow.Digest, db: Redis.Db, address: Option<string>,
                            solution: Option<string>, nonce: Option<int>, captchaOk: bool,
                            randomBytes: seq<Byte>, delOk: bool)
    requires |randomBytes| == Pow.ChallengeSize
    ensures VerifySpec(sha256, db, address, solution, nonce, captchaOk, randomBytes, delOk).0 == TezSent <==>
      && Truthy(address) && Truthy(solution) && TruthyNumber(nonce) && captchaOk
      && Accepted(sha256, db, address.value, solution.value, nonce.value)
      && !NumberBelow(Counter(db, Pow.ChallengeKey(address.value)), Some(ChallengesNeeded))
  {
  }

  // ---------------------------------------------------------------------------
  // The record invariant

  /** A record as the handlers write it: a challenge and a counter from 1 to 4. */
  predicate RecordOk(h: Redis.Hash) {
    && "challenge" in h && h["challenge"] != ""
    && Pow.NumberField(h, "counter").Some?
    && 1 <= Pow.NumberField(h, "counter").value <= ChallengesNeeded
  }

  predicate Inv(db: Redis.Db) {
    && Redis.WellFormed(db)
    && forall key :: key in db.hashes ==> RecordOk(Redis.HGetAll(db, key))
  }

  lemma InvAfterWrite(db: Redis.Db, after: Redis.Db, key: string)
    requires Inv(db) && Redis.WellFormed(after)
    requires forall k :: k != key ==> Redis.HGetAll(after, k) == Redis.HGetAll(db, k)
    requires key in after.hashes ==> RecordOk(Redis.HGetAll(after, key))
    ensures Inv(after)
  {
    forall k | k in after.hashes
      ensures RecordOk(Redis.HGetAll(after, k))
    {
      if k != key {
        assert Redis.HGetAll(after, k) == Redis.HGetAll(db, k);
        assert k in db.hashes;
      }
    }
  }

  /** A round write leaves a good record when the counter is from 1 to 4. */
  lemma RoundWriteOk(db: Redis.Db, key: string, challenge: string, counter: int)
    requires Redis.WellFormed(db) && challenge != "" && 1 <= counter <= ChallengesNeeded
    ensures var after := Redis.HSetSpec(db, key, RoundFields(challenge, counter));
      && Redis.WellFormed(after)
      && RecordOk(Redis.HGetAll(after, key))
      && forall k :: k != key ==> Redis.HGetAll(after, k) == Redis.HGetAll(db, k)
  {
    RoundFieldsRead(db, key, challenge, counter);
  }

  lemma ChallengeKeepsInv(tezos: Tezos.FaucetEnv, db: Redis.Db, address: Option<string>, profile: Option<string>,
                          captchaOk: bool, randomBytes: seq<Byte>)
    requires |randomBytes| == Pow.ChallengeSize && Inv(db)
    ensures Inv(ChallengeSpec(tezos, db, address, profile, captchaOk, randomBytes).1)
  {
    if ChallengeAdmitted(tezos, address, profile, captchaOk) {
      var key := Pow.ChallengeKey(address.value);
      if !Truthy(StoredChallenge(db, key)) {
        var written := Redis.HSetSpec(db, key, RoundFields(ToHex(randomBytes), 1));
        RoundWriteOk(db, key, ToHex(randomBytes), 1);
        InvAfterWrite(db, written, key);
        assert written.hashes[key] == Redis.HGetAll(written, key);
        InvAfterWrite(written, Redis.ExpireSpec(written, key, Expiration), key);
      }
    }
  }

  lemma VerifyKeepsInv(sha256: string -> Pow.Digest, db: Redis.Db, address: Option<string>,
                       solution: Option<string>, nonce: Option<int>, captchaOk: bool,
                       randomBytes: seq<Byte>, delOk: bool)
    requires |randomBytes| == Pow.ChallengeSize && Inv(db)
    ensures Inv(VerifySpec(sha256, db, address, solution, nonce, captchaOk, randomBytes, delOk).1)
  {
    var after := VerifySpec(sha256, db, address, solution, nonce, captchaOk, randomBytes, delOk).1;
    if after != db {
      var key := Pow.ChallengeKey(address.value);
      if NumberBelow(Counter(db, key), Some(ChallengesNeeded)) {
        assert key in db.hashes;
        RoundWriteOk(db, key, ToHex(randomBytes), Counter(db, key).value + 1);
      }
      InvAfterWrite(db, after, key);
    }
  }

  // ---------------------------------------------------------------------------
  // A client that solves every round

  datatype Attempt = Attempt(nonce: int, randomBytes: seq<Byte>)

  predicate BytesOk(attempts: seq<Attempt>) {
    forall i :: 0 <= i < |attempts| ==> |attempts[i].randomBytes| == Pow.ChallengeSize
  }

  /** The solution a client sends with a nonce: the digest for the challenge it holds. */
  function SolutionFor(sha256: string -> Pow.Digest, db: Redis.Db, address: string, nonce: int): string {
    Pow.GetSolution(sha256, StoredChallenge(db, Pow.ChallengeKey(address)).GetOr("undefined"), nonce)
  }

  /** One /verify call with a nonce and its solution; the captcha validates and the DEL succeeds. */
  function Submit(sha256: string -> Pow.Digest, db: Redis.Db, address: string, attempt: Attempt): (Reply, Redis.Db)
    requires |attempt.randomBytes| == Pow.ChallengeSize
  {
    VerifySpec(sha256, db, Some(address), Some(SolutionFor(sha256, db, address, attempt.nonce)),
               Some(attempt.nonce), true, attempt.randomBytes, true)
  }

  /**
   * The replies to a sequence of /verify calls. Its contract only counts
   * the replies; which of them pays is SessionPaysOnLastRound.
   */
  function Session(sha256: string -> Pow.Digest, db: Redis.Db, address: string, attempts: seq<Attempt>)
    : (replies: seq<Reply>)
    requires BytesOk(attempts)
    ensures |replies| == |attempts|
    decreases |attempts|
  {
    if attempts == [] then []
    else
      var step := Submit(sha256, db, address, attempts[0]);
      [step.0] + Session(sha256, step.1, address, attempts[1..])
  }

  /** The digest for the stored challenge and the nonce has exactly three leading zeros and then an '8'. */
  predicate NonceSolves(sha256: string -> Pow.Digest, db: Redis.Db, address: string, nonce: int) {
    var digest := SolutionFor(sha256, db, address, nonce);
    nonce != 0 && Pow.LeadingZeros(digest) == Difficulty && digest[Difficulty] == '8'
  }

  predicate AllSolve(sha256: string -> Pow.Digest, db: Redis.Db, address: string, attempts: seq<Attempt>)
    requires BytesOk(attempts)
    decreases |attempts|
  {
    attempts != [] ==>
      && NonceSolves(sha256, db, address, attempts[0].nonce)
      && AllSolve(sha256, Submit(sha256, db, address, attempts[0]).1, address, attempts[1..])
  }

  /** Rounds left after the current one. */
  function RoundsLeft(db: Redis.Db, address: string): int
    requires Counter(db, Pow.ChallengeKey(address)).Some?
  {
    ChallengesNeeded - Counter(db, Pow.ChallengeKey(address)).value
  }

  lemma SolvedNonceAccepted(sha256: string -> Pow.Digest, db: Redis.Db, address: string, nonce: int)
    requires Redis.HGetAll(db, Pow.ChallengeKey(address)) != map[]
    requires NonceSolves(sha256, db, address, nonce)
    ensures Accepted(sha256, db, address, SolutionFor(sha256, db, address, nonce), nonce)
    ensures SolutionFor(sha256, db, address, nonce) != ""
  {
    var key := Pow.ChallengeKey(address);
    LegacyPow.VerifySolutionMeaning(sha256, StoredChallenge(db, key).GetOr("undefined"), Difficulty, nonce,
                                    SolutionFor(sha256, db, address, nonce));
  }

  lemma SubmitAdvances(sha256: string -> Pow.Digest, db: Redis.Db, address: string, attempt: Attempt)
    requires Inv(db) && address != "" && |attempt.randomBytes| == Pow.ChallengeSize
    requires Pow.ChallengeKey(address) in db.hashes
    requires NonceSolves(sha256, db, address, attempt.nonce)
    requires RoundsLeft(db, address) > 0
    ensures var step := Submit(sha256, db, address, attempt);
      && step.0.ChallengeIssued?
      && Inv(step.1)
      && Pow.ChallengeKey(address) in step.1.hashes
      && RoundsLeft(step.1, address) == RoundsLeft(db, address) - 1
  {
    var key := Pow.ChallengeKey(address);
    var solution := SolutionFor(sha256, db, address, attempt.nonce);
    SolvedNonceAccepted(sha256, db, address, attempt.nonce);
    VerifyAdvances(sha256, db, address, solution, attempt.nonce, attempt.randomBytes, true);
    NextRoundRecord(db, key, attempt.randomBytes);
    VerifyKeepsInv(sha256, db, Some(address), Some(solution), Some(attempt.nonce), true, attempt.randomBytes, true);
    var after := Submit(sha256, db, address, attempt).1;
    assert Redis.HGetAll(after, key) != map[];
  }

  lemma SubmitPays(sha256: string -> Pow.Digest, db: Redis.Db, address: string, attempt: Attempt)
    requires Inv(db) && address != "" && |attempt.randomBytes| == Pow.ChallengeSize
    requires Pow.ChallengeKey(address) in db.hashes
    requires NonceSolves(sha256, db, address, attempt.nonce)
    requires RoundsLeft(db, address) == 0
    ensures Submit(sha256, db, address, attempt).0 == TezSent
  {
    var solution := SolutionFor(sha256, db, address, attempt.nonce);
    SolvedNonceAccepted(sha256, db, address, attempt.nonce);
    VerifyPays(sha256, db, address, solution, attempt.nonce, attempt.randomBytes, attempt.randomBytes, true);
  }

  /** Only reply `last` reports tez sent; every other reply issues a challenge. */
  predicate PaidExactlyAt(replies: seq<Reply>, last: int) {
    forall i :: 0 <= i < |replies| ==>
      && (replies[i] == TezSent <==> i == last)
      && (!replies[i].TezSent? ==> replies[i].ChallengeIssued?)
  }

  lemma PaidExactlyAtCons(first: Reply, rest: seq<Reply>, last: int)
    requires first.ChallengeIssued? && last >= 1
    requires PaidExactlyAt(rest, last - 1)
    ensures PaidExactlyAt([first] + rest, last)
  {
    var replies := [first] + rest;
    forall i | 0 <= i < |replies|
      ensures (replies[i] == TezSent <==> i == last)
      ensures !replies[i].TezSent? ==> replies[i].ChallengeIssued?
    {
      if i > 0 {
        assert replies[i] == rest[i - 1];
      }
    }
  }

  /**
   * From a record at counter c, a client that solves every round is paid on
   * exactly its (5 - c)-th call and is given a new challenge on every call
   * before.
   */
  lemma {:induction false} SessionPaysOnLastRound(sha256: string -> Pow.Digest, db: Redis.Db, address: string,
                                                  attempts: seq<Attempt>)
    requires Inv(db) && address != "" && Pow.ChallengeKey(address) in db.hashes
    requires BytesOk(attempts) && AllSolve(sha256, db, address, attempts)
    requires |attempts| <= RoundsLeft(db, address) + 1
    ensures PaidExactlyAt(Session(sha256, db, address, attempts), RoundsLeft(db, address))
    decreases |attempts|
  {
    if attempts != [] {
      var step := Submit(sha256, db, address, attempts[0]);
      var rest := Session(sha256, step.1, address, attempts[1..]);
      assert Session(sha256, db, address, attempts) == [step.0] + rest;
      if RoundsLeft(db, address) > 0 {
        SubmitAdvances(sha256, db, address, attempts[0]);
        SessionPaysOnLastRound(sha256, step.1, address, attempts[1..]);
        PaidExactlyAtCons(step.0, rest, RoundsLeft(db, address));
      } else {
        SubmitPays(sha256, db, address, attempts[0]);
        assert rest == [];
      }
    }
  }

  /**
   * After /challenge starts a record, a client that solves every round is
   * paid on exactly its fourth /verify call and is given a new challenge on
   * each of the three before.
   */
  lemma FreshSessionPaysOnFourthRound(tezos: Tezos.FaucetEnv, sha256: string -> Pow.Digest, db: Redis.Db,
                                      address: string, profile: Option<string>, randomBytes: seq<Byte>,
                                      attempts: seq<Attempt>)
    requires |randomBytes| == Pow.ChallengeSize && Inv(db)
    requires ChallengeAdmitted(tezos, Some(address), profile, true)
    requires !Truthy(StoredChallenge(db, Pow.ChallengeKey(address)))
    requires var started := ChallengeSpec(tezos, db, Some(address), profile, true, randomBytes).1;
      BytesOk(attempts) && AllSolve(sha256, started, address, attempts)
    requires |attempts| == ChallengesNeeded
    ensures var started := ChallengeSpec(tezos, db, Some(address), profile, true, randomBytes).1;
      PaidExactlyAt(Session(sha256, started, address, attempts), ChallengesNeeded - 1)
  {
    var started := ChallengeSpec(tezos, db, Some(address), profile, true, randomBytes).1;
    var key := Pow.ChallengeKey(address);
    ChallengeStartsFresh(tezos, db, Some(address), profile, true, randomBytes);
    ChallengeKeepsInv(tezos, db, Some(address), profile, true, randomBytes);
    assert Redis.HGetAll(started, key) != map[];
    SessionPaysOnLastRound(sha256, started, address, attempts);
  }
}
