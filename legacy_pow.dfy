/**
 * The compiled dist/pow.js. Its key and challenge generation are the same
 * expressions as in src/pow.ts (Pow.ChallengeKey, Pow.GenerateChallenge); its
 * verifier additionally wants an '8' right after the leading zeros.
 */
module LegacyPow {
  import opened JsValues
  import Pow

  /** verifySolution of dist/pow.js: the digest starts with `difficulty` zeros and then an '8'. */
  function VerifySolution(sha256: string -> Pow.Digest, challenge: string, difficulty: nat, nonce: int,
                          solution: string): bool
  {
    var hash := Pow.GetSolution(sha256, challenge, nonce);
    hash == solution && Pow.StartsWith(hash, Pow.Zeros(difficulty) + "8")
  }

  lemma StartsWithZerosEight(s: string, n: nat)
    ensures Pow.StartsWith(s, Pow.Zeros(n) + "8") <==>
            Pow.StartsWith(s, Pow.Zeros(n)) && n < |s| && s[n] == '8'
  {
    var p := Pow.Zeros(n) + "8";
    if Pow.StartsWith(s, p) {
      assert s[..n] == s[..n + 1][..n] == p[..n] == Pow.Zeros(n);
      assert s[n] == s[..n + 1][n] == p[n];
    }
    if Pow.StartsWith(s, Pow.Zeros(n)) && n < |s| && s[n] == '8' {
      assert s[..n + 1] == s[..n] + [s[n]];
    }
  }

  /**
   * Accepted exactly when the solution is the digest of `challenge:nonce`,
   * has exactly `difficulty` leading zeros, and the next digit is '8'.
   */
  lemma VerifySolutionMeaning(sha256: string -> Pow.Digest, challenge: string, difficulty: nat, nonce: int,
                              solution: string)
    ensures VerifySolution(sha256, challenge, difficulty, nonce, solution) <==>
      && solution == sha256(challenge + ":" + IntToDecimal(nonce))
      && Pow.LeadingZeros(solution) == difficulty
      && difficulty < |solution| && solution[difficulty] == '8'
  {
    var hash := Pow.GetSolution(sha256, challenge, nonce);
    StartsWithZerosEight(hash, difficulty);
    Pow.StartsWithZerosIff(hash, difficulty);
    if Pow.LeadingZeros(hash) >= difficulty && difficulty < |hash| && hash[difficulty] == '8' {
      ExactZeros(hash, difficulty);
    }
  }

  lemma {:induction false} ExactZeros(s: string, n: nat)
    requires Pow.LeadingZeros(s) >= n && n < |s| && s[n] != '0'
    ensures Pow.LeadingZeros(s) == n
  {
    if n > 0 {
      ExactZeros(s[1..], n - 1);
    }
  }

  /** What this verifier accepts, the verifier of src/pow.ts accepts at the same difficulty. */
  lemma AcceptedByCurrentVerifier(sha256: string -> Pow.Digest, challenge: string, difficulty: nat,
                                  nonce: int, solution: string)
    requires VerifySolution(sha256, challenge, difficulty, nonce, solution)
    ensures Pow.VerifySolution(sha256, challenge, difficulty, nonce, solution)
  {
    VerifySolutionMeaning(sha256, challenge, difficulty, nonce, solution);
    Pow.VerifySolutionMeaning(sha256, challenge, difficulty, nonce, solution);
  }

  /** A solution is never accepted at two neighbouring difficulties. */
  lemma NeverAtTwoDifficulties(sha256: string -> Pow.Digest, challenge: string, difficulty: nat,
                               nonce: int, solution: string)
    ensures !(VerifySolution(sha256, challenge, difficulty, nonce, solution) &&
              VerifySolution(sha256, challenge, difficulty + 1, nonce, solution))
  {
    VerifySolutionMeaning(sha256, challenge, difficulty, nonce, solution);
    VerifySolutionMeaning(sha256, challenge, difficulty + 1, nonce, solution);
  }
}
