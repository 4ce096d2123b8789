/** The per-session lockout counter of `PasswordStageView.challenge_invalid`.

    The session is a key-value store; this stage only ever touches the key
    "user_invalid_tries". Every other key is carried through unchanged. */
module Lockout {
  import opened Flow

  /** The caller's session. Only the counter key matters here; the values of
      other keys are carried opaquely. */
  type Session = map<string, int>

  /** The session key of the consecutive-failure counter. */
  const InvalidTriesKey: string := "user_invalid_tries"

  /** The counter as `challenge_invalid` reads it: an absent key counts as 0. */
  function Tries(s: Session): int {
    if InvalidTriesKey in s then s[InvalidTriesKey] else 0
  }

  /** The session after one call of `challenge_invalid`, and what the stage
      returns. */
  datatype Verdict = Verdict(session: Session, result: StageResult)

  /** `challenge_invalid`: count one more failure; once the count strictly
      exceeds `threshold` (the stage's `failed_attempts_before_cancel`), drop
      the counter and cancel the flow, otherwise show the challenge again. */
  function ChallengeInvalid(s: Session, threshold: int): (v: Verdict)
    ensures v.result != Ok
    ensures v.result == Cancel <==> Tries(s) + 1 > threshold
    ensures v.result == Cancel ==> InvalidTriesKey !in v.session
    ensures v.result == Reprompt ==>
              InvalidTriesKey in v.session && Tries(v.session) == Tries(s) + 1 <= threshold
    ensures forall k :: k != InvalidTriesKey ==> (k in v.session <==> k in s)
    ensures forall k :: k != InvalidTriesKey && k in s ==> v.session[k] == s[k]
  {
    var count := Tries(s) + 1;
    if count > threshold then
      Verdict(s - {InvalidTriesKey}, Cancel)
    else
      Verdict(s[InvalidTriesKey := count], Reprompt)
  }

  /** `n` consecutive calls of `challenge_invalid`: none succeeds, and the
      session keys other than the counter are carried through unchanged. */
  function Failures(s: Session, threshold: int, n: nat): (t: Trace<Session>)
    ensures |t.results| == n
    ensures forall i :: 0 <= i < n ==> t.results[i] != Ok
    ensures t.last - {InvalidTriesKey} == s - {InvalidTriesKey}
    decreases n
  {
    if n == 0 then Trace([], s)
    else
      var v := ChallengeInvalid(s, threshold);
      var rest := Failures(v.session, threshold, n - 1);
      assert v.session - {InvalidTriesKey} == s - {InvalidTriesKey};
      Trace([v.result] + rest.results, rest.last)
  }

  /** While the count stays within the threshold every call re-prompts, and
      each raises the stored count by exactly one. */
  lemma {:induction false} RepromptsWithinThreshold(s: Session, threshold: int, n: nat)
    requires Tries(s) + n <= threshold
    ensures Failures(s, threshold, n).results == seq(n, _ => Reprompt)
    ensures Tries(Failures(s, threshold, n).last) == Tries(s) + n
    ensures n > 0 ==> InvalidTriesKey in Failures(s, threshold, n).last
    ensures Failures(s, threshold, n).last - {InvalidTriesKey} == s - {InvalidTriesKey}
    decreases n
  {
    if n > 0 {
      var v := ChallengeInvalid(s, threshold);
      RepromptsWithinThreshold(v.session, threshold, n - 1);
      assert v.session - {InvalidTriesKey} == s - {InvalidTriesKey};
      assert seq(n, _ => Reprompt) == [Reprompt] + seq(n - 1, _ => Reprompt);
    }
  }

  /** The lockout sequence: from a session without a counter, with threshold
      t, t + 1 consecutive failures re-prompt t times and then cancel, and
      afterwards the session is exactly as before (the counter key absent). */
  lemma LockoutSequence(s: Session, threshold: nat)
    requires InvalidTriesKey !in s
    ensures Failures(s, threshold, threshold + 1).results == seq(threshold, _ => Reprompt) + [Cancel]
    ensures Failures(s, threshold, threshold + 1).last == s
  {
    RepromptsWithinThreshold(s, threshold, threshold);
    FailuresSplit(s, threshold, threshold, 1);
    var mid := Failures(s, threshold, threshold).last;
    var v := ChallengeInvalid(mid, threshold);
    assert v.session == s;
  }

  /** Running m failures and then n more is the same as running m + n. */
  lemma {:induction false} FailuresSplit(s: Session, threshold: int, m: nat, n: nat)
    ensures
      var first := Failures(s, threshold, m);
      var second := Failures(first.last, threshold, n);
      Failures(s, threshold, m + n) == Trace(first.results + second.results, second.last)
    decreases m
  {
    if m > 0 {
      var v := ChallengeInvalid(s, threshold);
      FailuresSplit(v.session, threshold, m - 1, n);
      assert m + n - 1 == (m - 1) + n;
    }
  }
}
