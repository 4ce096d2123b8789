/** `PasswordStageView`: the challenge it shows, and how it handles one
    submitted response. The flow executor, the session store and the backends
    are outside; the stage sees them only through the values passed in. */
module PasswordStage {
  import opened Wrappers
  import opened Flow
  import opened Backends
  import opened Lockout

  /** The two plan-context keys this stage reads and writes:
      "pending_user" (the user an earlier stage identified) and
      "user_backend" (the path of the backend that authenticated it). */
  datatype PlanContext = PlanContext(pendingUser: Option<User>, userBackend: Option<string>)

  /** The stage's configuration: its ordered backend paths and
      `failed_attempts_before_cancel`. */
  datatype StageConfig = StageConfig(backends: seq<string>, failedAttemptsBeforeCancel: int)

  /** The state one submission can change. */
  datatype StageState = StageState(session: Session, context: PlanContext)

  /** One field error: a message and its error code. */
  datatype ErrorDetail = ErrorDetail(message: string, code: string)

  /** The response's per-field error lists. */
  type Errors = map<string, seq<ErrorDetail>>

  /** The error added under "password" when no backend knows the credentials. */
  const InvalidPassword: ErrorDetail := ErrorDetail("Invalid password", "invalid")

  /** A submitted response: the "password" field, if it came through, and the
      field errors gathered so far. */
  datatype Response = Response(password: Option<string>, errors: Errors)

  /** What handling one submission produced: the stage result, the new state,
      the response's field errors, and the call of `authenticate` if one was
      made. */
  datatype StepOutcome = StepOutcome(result: StageResult, state: StageState, errors: Errors, attempt: Option<Attempt>)

  /** The challenge shown to the user. */
  datatype PasswordChallenge = PasswordChallenge(
    challengeType: string,
    component: string,
    pendingUser: Option<string>,
    pendingUserAvatar: Option<string>,
    recoveryUrl: Option<string>)

  /** `get_challenge`: the username and avatar fields are filled in exactly
      when there is a pending user, and the recovery URL exactly when some
      recovery flow exists, pointing at the first of them. The avatar
      renderer, the recovery flows (as slugs, in query order) and the URL of
      a flow's executor are given. */
  function GetChallenge(ctx: PlanContext, avatar: User -> string, recoveryFlows: seq<string>, executorUrl: string -> string): (ch: PasswordChallenge)
    ensures ch.challengeType == "native" && ch.component == "ak-stage-password"
    ensures ch.pendingUser.Some? <==> ctx.pendingUser.Some?
    ensures ch.pendingUserAvatar.Some? <==> ctx.pendingUser.Some?
    ensures ctx.pendingUser.Some? ==>
              ch.pendingUser == Some(ctx.pendingUser.value.username) &&
              ch.pendingUserAvatar == Some(avatar(ctx.pendingUser.value))
    ensures ch.recoveryUrl.Some? <==> |recoveryFlows| > 0
    ensures |recoveryFlows| > 0 ==> ch.recoveryUrl == Some(executorUrl(recoveryFlows[0]))
  {
    var (name, pic) :=
      match ctx.pendingUser
      case Some(u) => (Some(u.username), Some(avatar(u)))
      case None => (None, None);
    var recovery := if |recoveryFlows| > 0 then Some(executorUrl(recoveryFlows[0])) else None;
    PasswordChallenge("native", "ak-stage-password", name, pic, recovery)
  }

  /** `setdefault(field, []).append(e)`: `e` goes at the end of the field's
      list, an absent list counting as empty; other fields are untouched. */
  function AddFieldError(errors: Errors, field: string, e: ErrorDetail): (r: Errors)
    ensures r.Keys == errors.Keys + {field}
    ensures r[field] == (if field in errors then errors[field] else []) + [e]
    ensures forall f :: f in errors && f != field ==> r[f] == errors[f]
  {
    errors[field := (if field in errors then errors[field] else []) + [e]]
  }

  /** The stage's `challenge_invalid` override, with the stage's threshold:
      one more failure is counted; the flow is cancelled exactly when the new
      count exceeds `failed_attempts_before_cancel`, and otherwise the
      inherited handler shows the challenge again. Only the counter key of
      the session changes. */
  function Invalid(cfg: StageConfig, st: StageState, errors: Errors): (o: StepOutcome)
    ensures o.result != Ok
    ensures o.result == Cancel <==> Tries(st.session) + 1 > cfg.failedAttemptsBeforeCancel
    ensures o.state.context == st.context
    ensures o.errors == errors && o.attempt.None?
    ensures o.result == Reprompt ==>
              && InvalidTriesKey in o.state.session
              && Tries(o.state.session) == Tries(st.session) + 1
              && Tries(o.state.session) <= cfg.failedAttemptsBeforeCancel
    ensures o.result == Cancel ==> InvalidTriesKey !in o.state.session
    ensures forall k :: k != InvalidTriesKey ==> (k in o.state.session <==> k in st.session)
    ensures forall k :: k != InvalidTriesKey && k in st.session ==> o.state.session[k] == st.session[k]
  {
    var v := ChallengeInvalid(st.session, cfg.failedAttemptsBeforeCancel);
    StepOutcome(v.result, st.(session := v.session), errors, None)
  }

  /** The credentials `challenge_valid` hands to the backends: the pending
      user's username and whatever the response holds under "password". */
  function CredentialsFor(pending: User, resp: Response): (c: Credentials)
    ensures c.username == pending.username
    ensures c.password == resp.password
  {
    Credentials(pending.username, resp.password)
  }

  /** `challenge_valid`: without a pending user the flow is cancelled at once
      and nothing else happens. Otherwise the backends are tried with the
      pending user's username and the submitted password; PermissionDenied
      cancels and leaves the counter alone; no user adds an "Invalid password"
      error and counts as a failure; a user replaces the pending user and
      records its backend, and the stage succeeds without resetting the
      counter. */
  function ChallengeValid(cfg: StageConfig, st: StageState, resp: Response, verify: Verifier): (o: StepOutcome)
    ensures st.context.pendingUser.None? ==> o == StepOutcome(Cancel, st, resp.errors, None)
    ensures o.attempt.Some? <==> st.context.pendingUser.Some?
    ensures o.result == Ok ==>
              && o.state.session == st.session
              && o.state.context.pendingUser.Some?
              && o.state.context.userBackend.Some?
              && o.state.context.userBackend.value in cfg.backends
              && o.state.context.pendingUser.value.backend == o.state.context.userBackend
              && o.errors == resp.errors
    ensures o.result != Ok ==> o.state.context == st.context
    ensures o.result == Reprompt ==>
              && "password" in o.errors
              && |o.errors["password"]| > 0
              && o.errors["password"][|o.errors["password"]| - 1] == InvalidPassword
              && Tries(o.state.session) <= cfg.failedAttemptsBeforeCancel
  {
    match st.context.pendingUser
    case None => StepOutcome(Cancel, st, resp.errors, None)
    case Some(pending) =>
      var a := Authenticate(cfg.backends, CredentialsFor(pending, resp), verify);
      match a.result
      case PermissionDenied => StepOutcome(Cancel, st, resp.errors, Some(a))
      case NoUser =>
        var errors := AddFieldError(resp.errors, "password", InvalidPassword);
        Invalid(cfg, st, errors).(attempt := Some(a))
      case Authenticated(u) =>
        var ctx := PlanContext(Some(u), u.backend);
        StepOutcome(Ok, st.(context := ctx), resp.errors, Some(a))
  }

  /** A backend that raises PermissionDenied before any other backend decides
      cancels the flow at once, whatever attempts remain: the session counter,
      the plan context and the field errors are all left as they were. */
  lemma DeniedCancelsWithoutCounting(cfg: StageConfig, st: StageState, resp: Response, verify: Verifier, i: nat)
    requires st.context.pendingUser.Some?
    requires i < |cfg.backends|
    requires verify(cfg.backends[i], CredentialsFor(st.context.pendingUser.value, resp)).Denied?
    requires forall j :: 0 <= j < i ==>
               Passes(verify(cfg.backends[j], CredentialsFor(st.context.pendingUser.value, resp)))
    ensures var o := ChallengeValid(cfg, st, resp, verify);
      o.result == Cancel && o.state == st && o.errors == resp.errors
  {
    DeniedEscapes(cfg.backends, CredentialsFor(st.context.pendingUser.value, resp), verify, i);
  }

  /** When no backend knows the credentials, an "Invalid password" error is
      appended and the submission goes through the lockout rule exactly as a
      malformed one would; the plan context is untouched. */
  lemma NoMatchGoesThroughLockout(cfg: StageConfig, st: StageState, resp: Response, verify: Verifier)
    requires st.context.pendingUser.Some?
    requires forall j :: 0 <= j < |cfg.backends| ==>
               Passes(verify(cfg.backends[j], CredentialsFor(st.context.pendingUser.value, resp)))
    ensures var o := ChallengeValid(cfg, st, resp, verify);
      var v := ChallengeInvalid(st.session, cfg.failedAttemptsBeforeCancel);
      && o.result == v.result
      && o.state == StageState(v.session, st.context)
      && o.errors == AddFieldError(resp.errors, "password", InvalidPassword)
  {
    ExhaustedChainFailsOnce(cfg.backends, CredentialsFor(st.context.pendingUser.value, resp), verify);
  }

  /** When backend i is the first to return a user, the stage succeeds: the
      pending user becomes that user tagged with path i, "user_backend" is
      path i, and the session (its counter included) is left as it was. */
  lemma FirstMatchSucceeds(cfg: StageConfig, st: StageState, resp: Response, verify: Verifier, i: nat)
    requires st.context.pendingUser.Some?
    requires i < |cfg.backends|
    requires verify(cfg.backends[i], CredentialsFor(st.context.pendingUser.value, resp)).Accept?
    requires forall j :: 0 <= j < i ==>
               Passes(verify(cfg.backends[j], CredentialsFor(st.context.pendingUser.value, resp)))
    ensures var o := ChallengeValid(cfg, st, resp, verify);
      var u := verify(cfg.backends[i], CredentialsFor(st.context.pendingUser.value, resp)).user;
      && o.result == Ok
      && o.state.session == st.session
      && o.state.context == PlanContext(Some(Tag(u, cfg.backends[i])), Some(cfg.backends[i]))
  {
    FirstMatchWins(cfg.backends, CredentialsFor(st.context.pendingUser.value, resp), verify, i);
  }

  /** One submission as the challenge stage dispatches it: a response without
      a password is invalid and goes straight to `challenge_invalid`; one
      with a password goes to `challenge_valid`. */
  function Submit(cfg: StageConfig, st: StageState, resp: Response, verify: Verifier): (o: StepOutcome)
    ensures resp.password.None? ==> o == Invalid(cfg, st, resp.errors)
    ensures resp.password.None? ==> o.attempt.None? && o.errors == resp.errors && o.result != Ok
    ensures o.result != Ok ==> o.state.context == st.context
    ensures o.result == Reprompt ==>
              InvalidTriesKey in o.state.session && Tries(o.state.session) <= cfg.failedAttemptsBeforeCancel
    ensures o.result == Cancel ==>
              o.state.session == st.session || InvalidTriesKey !in o.state.session
  {
    if resp.password.None? then Invalid(cfg, st, resp.errors)
    else ChallengeValid(cfg, st, resp, verify)
  }

  /** A user's series of submissions to this stage, up to and including the
      first one that ends the stage. */
  function Run(cfg: StageConfig, st: StageState, subs: seq<Response>, verify: Verifier): (t: Trace<StageState>)
    ensures |t.results| <= |subs|
    ensures forall i :: 0 <= i < |t.results| - 1 ==> t.results[i] == Reprompt
    ensures |t.results| < |subs| ==> |t.results| > 0 && t.results[|t.results| - 1].IsTerminal()
    decreases |subs|
  {
    if |subs| == 0 then Trace([], st)
    else
      var o := Submit(cfg, st, subs[0], verify);
      if o.result == Reprompt then
        var rest := Run(cfg, o.state, subs[1..], verify);
        Trace([Reprompt] + rest.results, rest.last)
      else
        Trace([o.result], o.state)
  }

  /** A submission the stage counts as a failure for `pending`: one without a
      password, or one whose password no backend knows. */
  predicate Rejected(cfg: StageConfig, pending: User, resp: Response, verify: Verifier) {
    || resp.password.None?
    || forall j :: 0 <= j < |cfg.backends| ==> Passes(verify(cfg.backends[j], CredentialsFor(pending, resp)))
  }

  /** Every submission in `subs` is rejected. */
  predicate AllRejected(cfg: StageConfig, pending: User, subs: seq<Response>, verify: Verifier)
    decreases |subs|
  {
    |subs| == 0 || (Rejected(cfg, pending, subs[0], verify) && AllRejected(cfg, pending, subs[1..], verify))
  }

  /** A rejected submission, malformed or carrying an unknown password, is
      handled exactly as one `challenge_invalid` call. */
  lemma RejectedStep(cfg: StageConfig, st: StageState, resp: Response, verify: Verifier)
    requires st.context.pendingUser.Some?
    requires Rejected(cfg, st.context.pendingUser.value, resp, verify)
    ensures var o := Submit(cfg, st, resp, verify);
      var v := ChallengeInvalid(st.session, cfg.failedAttemptsBeforeCancel);
      o.result == v.result && o.state == StageState(v.session, st.context)
  {
    if resp.password.Some? {
      NoMatchGoesThroughLockout(cfg, st, resp, verify);
    }
  }

  /** Rejected submissions lock the user out: with a pending user, no counter
      yet, threshold t and t + 1 submissions that are malformed or carry
      passwords no backend knows, in any mix, the first t re-prompt and the
      last cancels; the session ends as it began and the plan context never
      changes. */
  lemma {:induction false} RejectionsLockOut(cfg: StageConfig, st: StageState, subs: seq<Response>, verify: Verifier)
    requires st.context.pendingUser.Some?
    requires InvalidTriesKey !in st.session
    requires cfg.failedAttemptsBeforeCancel >= 0
    requires |subs| == cfg.failedAttemptsBeforeCancel + 1
    requires AllRejected(cfg, st.context.pendingUser.value, subs, verify)
    ensures var t := Run(cfg, st, subs, verify);
      && t.results == seq(cfg.failedAttemptsBeforeCancel, _ => Reprompt) + [Cancel]
      && t.last == st
  {
    assert Tries(st.session) == 0;
    RejectionsFrom(cfg, st, subs, verify);
    var t := Run(cfg, st, subs, verify);
    assert |subs| - 1 == cfg.failedAttemptsBeforeCancel;
    SameExceptCounter(t.last.session, st.session);
    assert t.last == StageState(t.last.session, t.last.context);
  }

  /** Two sessions that agree except on the counter, and both lack it, are equal. */
  lemma SameExceptCounter(a: Session, b: Session)
    requires InvalidTriesKey !in a && InvalidTriesKey !in b
    requires a - {InvalidTriesKey} == b - {InvalidTriesKey}
    ensures a == b
  {
    assert a == a - {InvalidTriesKey};
    assert b == b - {InvalidTriesKey};
  }

  /** How a run continues after its first submission. */
  lemma RunUnfolds(cfg: StageConfig, st: StageState, subs: seq<Response>, verify: Verifier)
    requires |subs| > 0
    ensures var o := Submit(cfg, st, subs[0], verify);
      var t := Run(cfg, st, subs, verify);
      if o.result == Reprompt then
        var rest := Run(cfg, o.state, subs[1..], verify);
        t == Trace([Reprompt] + rest.results, rest.last)
      else
        t == Trace([o.result], o.state)
  {
  }

  /** The induction behind RejectionsLockOut, from any counter value: each
      rejected submission re-prompts while the count stays within the
      threshold, and the one that pushes it over cancels and drops the
      counter. */
  lemma {:induction false} RejectionsFrom(cfg: StageConfig, st: StageState, subs: seq<Response>, verify: Verifier)
    requires st.context.pendingUser.Some?
    requires Tries(st.session) >= 0
    requires |subs| == cfg.failedAttemptsBeforeCancel - Tries(st.session) + 1
    requires |subs| >= 1
    requires AllRejected(cfg, st.context.pendingUser.value, subs, verify)
    ensures var t := Run(cfg, st, subs, verify);
      && t.results == seq(|subs| - 1, _ => Reprompt) + [Cancel]
      && t.last.context == st.context
      && InvalidTriesKey !in t.last.session
      && t.last.session - {InvalidTriesKey} == st.session - {InvalidTriesKey}
    decreases |subs|
  {
    RejectedStep(cfg, st, subs[0], verify);
    RunUnfolds(cfg, st, subs, verify);
    var o := Submit(cfg, st, subs[0], verify);
    var v := ChallengeInvalid(st.session, cfg.failedAttemptsBeforeCancel);
    assert v.session - {InvalidTriesKey} == st.session - {InvalidTriesKey};
    if |subs| > 1 {
      var rest := subs[1..];
      assert v.result == Reprompt;
      RejectionsFrom(cfg, o.state, rest, verify);
      assert seq(|subs| - 1, _ => Reprompt) + [Cancel]
             == [Reprompt] + (seq(|rest| - 1, _ => Reprompt) + [Cancel]);
    } else {
      assert v.result == Cancel;
    }
  }
}
