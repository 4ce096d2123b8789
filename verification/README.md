# authentik password stage — Dafny model

This project models the decision logic of authentik's password stage
(`authentik/stages/password/stage.py`). The stage asks the user a flow has
already identified for a password. It has three parts:

- **Backend chain** (`Backends`). The module-level `authenticate` tries the
  stage's backend paths in order. A path that does not import is skipped. The
  first backend that returns a user wins, and that user is tagged with the
  backend's path. A `PermissionDenied` raised by a backend escapes at once.
  When every backend comes up empty, one `user_login_failed` signal fires
  with scrubbed credentials.
- **Lockout counter** (`Lockout`). `challenge_invalid` keeps a
  per-session counter under `user_invalid_tries`. An absent counter counts as
  0, and each call adds one. Once the count strictly exceeds
  `failed_attempts_before_cancel`, the key is deleted and the flow is
  cancelled. Otherwise the challenge is shown again.
- **Stage** (`PasswordStage`). `challenge_valid` cancels when there is no
  pending user. It also cancels on `PermissionDenied`, without touching the
  counter. When no backend matches, it adds an "Invalid password" field error
  and routes through `challenge_invalid`. On success it writes `pending_user`
  and `user_backend` into the plan context. `get_challenge` fills in the
  username and avatar only when there is a pending user. It adds the recovery
  URL only when a recovery flow exists.

Each backend is abstracted as the `Probe` its path yields for given
credentials: `Unresolvable | NoMatch | Accept(user) | Denied`. The stage's
result is the closed enum `StageResult = Ok | Reprompt | Cancel`. `Ok` is
`stage_ok()`, `Reprompt` is the inherited `challenge_invalid`, and `Cancel` is
`stage_invalid()`. The session is a `map<string, int>`. The plan context is a
record holding the two keys the stage uses. `Scenarios` replays worked
examples: one backend `backend_a` that knows `alice` / `correct`.

Files: `wrappers.dfy` (Option), `flow.dfy` (StageResult), `backends.dfy`,
`lockout.dfy`, `stage.dfy`, `scenarios.dfy`.

## Model

| member | source | states |
|---|---|---|
| Backends.Authenticate | authentik/stages/password/stage.py:30-55 | At most one signal is fired, and it fires exactly when no user is found. It carries the scrubbed credentials. Only configured paths are invoked, and a returned user is tagged with the last path invoked. |
| Backends.AuthenticateLoop | authentik/stages/password/stage.py:36-55 | The source's `for` loop with early returns computes exactly the chain's reference definition: same result, same invoked paths, same signal. |
| Backends.AuthenticateStopsAtFirstDecisive | authentik/stages/password/stage.py:36-55 | Let k be the first backend that returns a user or raises PermissionDenied. The invoked paths are exactly the resolving paths before k, then k. Probe k alone decides the result. If no such k exists, the result is no user and exactly one failure signal fires. |
| Backends.FirstMatchWins | authentik/stages/password/stage.py:36-50 | If backend i returns a user and every earlier backend is unresolvable or returns nothing, that user is returned tagged with path i. Nothing after i is invoked and no signal fires. |
| Backends.DeniedEscapes | authentik/stages/password/stage.py:37-43 | PermissionDenied from the first decisive backend ends the chain as PermissionDenied. Nothing after it is invoked, even a backend that would accept, and no signal fires. |
| Backends.ExhaustedChainFailsOnce | authentik/stages/password/stage.py:36-55 | If every backend is unresolvable or returns nothing, the result is no user. Every resolving backend is invoked. Exactly one failure signal fires, carrying the username and no password. |
| Backends.AuthenticatedOnlyByFirstDecisive | authentik/stages/password/stage.py:43-50 | A user is returned if and only if the first decisive backend accepted. |
| Backends.UnresolvableSkipped | authentik/stages/password/stage.py:37-41 | Removing a path whose import raises `ImportError`, from any position in the list, leaves the whole call unchanged. |
| Backends.LaterBackendsIrrelevant | authentik/stages/password/stage.py:44-50 | Once some backend in the list decides, appending more paths leaves the call unchanged. |
| Backends.FirstDecisive | authentik/stages/password/stage.py:36-50 | Gives the index of the first backend that returns a user or raises PermissionDenied. Every probe before it passes. The result is the list length if none decides. |
| Backends.Scrub | authentik/stages/password/stage.py:52-55 | The signal's credentials keep the username and carry no password. |
| Backends.Tag | authentik/stages/password/stage.py:47-48 | The returned user keeps its username, and its `backend` is the accepting path. |
| Lockout.ChallengeInvalid | authentik/stages/password/stage.py:100-112 | Never succeeds. It cancels exactly when the previous count (absent = 0) plus one exceeds the threshold. After a cancel the key is absent. After a re-prompt the key holds the count plus one, which is within the threshold. No other session key changes. |
| Lockout.RepromptsWithinThreshold | authentik/stages/password/stage.py:101-112 | While the count stays within the threshold, n consecutive calls all re-prompt. Together they raise the stored count by exactly n and touch no other key. |
| Lockout.Failures | authentik/stages/password/stage.py:100-112 | n consecutive `challenge_invalid` calls give n results, none of them a success. Every session key other than the counter comes through unchanged. |
| Lockout.LockoutSequence | authentik/stages/password/stage.py:101-112 | Start with no counter and threshold t. Of t + 1 consecutive calls, the first t re-prompt and the last cancels. Afterwards the counter key is absent and the session is what it was before, as far as this stage writes it. |
| PasswordStage.GetChallenge | authentik/stages/password/stage.py:77-98 | The username and avatar fields are present if and only if there is a pending user, and then hold its username and avatar. The recovery URL is present if and only if a recovery flow exists, and points at the first one. |
| PasswordStage.AddFieldError | authentik/stages/password/stage.py:139-142 | The error goes at the end of the field's list, and an absent list counts as empty. Other fields are unchanged. |
| PasswordStage.Invalid | authentik/stages/password/stage.py:100-112 | The stage's `challenge_invalid` override with the stage's threshold. It never succeeds, and it cancels exactly when the previous count plus one exceeds `failed_attempts_before_cancel`. A re-prompt, which is the inherited handler, stores the count plus one. A cancel removes the key. No other session key changes, and neither do the context or the errors. |
| PasswordStage.CredentialsFor | authentik/stages/password/stage.py:121-124 | The backends get the pending user's username and whatever the response holds under "password". |
| PasswordStage.ChallengeValid | authentik/stages/password/stage.py:114-149 | With no pending user it cancels, changes nothing, and calls no backend. Success keeps the session, and the new pending user's `backend` equals `user_backend`, which is a configured path. Only success changes the context. A re-prompt ends the password errors with "Invalid password" and keeps the counter within the threshold. |
| PasswordStage.DeniedCancelsWithoutCounting | authentik/stages/password/stage.py:125-133 | PermissionDenied from the first decisive backend cancels, whatever attempts remain. Session, context and errors are all unchanged. |
| PasswordStage.NoMatchGoesThroughLockout | authentik/stages/password/stage.py:135-143 | When no backend knows the credentials, "Invalid password" is appended to the password errors. Result and session are exactly those of `challenge_invalid`, and the context is unchanged. |
| PasswordStage.RejectedStep | authentik/stages/password/stage.py:100-143 | A rejected submission is handled exactly like one `challenge_invalid` call, with the same result and session and the context unchanged. It may be malformed (no password) or carry a password no backend knows. |
| PasswordStage.FirstMatchSucceeds | authentik/stages/password/stage.py:144-149 | When backend i is the first to return a user, the stage returns ok. `pending_user` becomes that user tagged with path i and `user_backend` is path i. The session, counter included, is not reset. |
| PasswordStage.Submit | authentik/stages/password/stage.py:66-69 | A response without a password fails the required `password` field. It is handled as exactly one `challenge_invalid` step: the count goes up by one and the flow is cancelled once it exceeds the threshold, with no backend called. Anything but success leaves the context alone. A re-prompt keeps the counter present and within the threshold. A cancel either leaves the session unchanged or removes the counter. |
| PasswordStage.Run | authentik/stages/password/stage.py:100-149 | A series of submissions stops at the first one that ends the stage. Every earlier result is a re-prompt. |
| PasswordStage.RejectionsLockOut | authentik/stages/password/stage.py:100-143 | Take a pending user, no counter and threshold t. Consider t + 1 submissions that are malformed or carry passwords no backend knows, in any mix. The first t re-prompt and the last cancels. The counter key is then absent, and the session and context are what they were before, as far as this stage writes them. |
| PasswordStage.RejectionsFrom | authentik/stages/password/stage.py:100-143 | Start from any non-negative count with rejected submissions, malformed or wrong passwords. The submissions re-prompt until the count would exceed the threshold, then cancel and drop the counter. The context and every other session key are unchanged. |
| Scenarios.CorrectPasswordSucceeds | authentik/stages/password/stage.py:114-149 | With `backend_a` knowing alice/correct, submitting "correct" returns ok. `pending_user` is alice tagged `backend_a`, and `user_backend` is `backend_a`. |
| Scenarios.WrongPasswordReprompts | authentik/stages/password/stage.py:135-143 | Submitting "wrong" with attempts to spare re-prompts. The only error is "Invalid password", and the counter becomes 1. |
| Scenarios.ThreeWrongPasswordsCancel | authentik/stages/password/stage.py:100-143 | With threshold 2, three wrong passwords give re-prompt, re-prompt, cancel, and no counter is left behind. |
| Scenarios.MixedFailuresCancel | authentik/stages/password/stage.py:100-143 | With threshold 2, a response without a password followed by two wrong passwords also gives re-prompt, re-prompt, cancel. The malformed response and the wrong passwords share one counter. |

## Left out

- Django and DRF plumbing is not modelled: request and response objects, serializers, `gettext`. A field error is an `ErrorDetail(message, code)` record appended to a per-field list. The `request` handed to backends is dropped.
- `path_to_class` and the real backend `authenticate` implementations are foreign code. Each path is represented by the `Probe` it yields for the given credentials. A `PermissionDenied` exception is represented as the `PermissionDenied` result value.
- Exceptions other than `ImportError` and `PermissionDenied` are not modelled. Only an `ImportError` from resolving a path (stage.py:39) is `Unresolvable`, and only `PermissionDenied` (stage.py:129) is caught by the stage. Any other exception escapes to the caller: one from instantiating a backend, from its `authenticate`, or from a `user_login_failed` receiver. The four-way `Probe` and three-way `AuthResult` cannot express such an exception.
- Signal dispatch (`user_login_failed.send`) is reduced to an event appended to a trace.
- Backends.Scrub: Django's `_clean_credentials` replaces the password value with a fixed mask string. The model drops the password instead (`None`), so the event carries no secret either way.
- Logging through structlog is left out because it has no effect on any decision.
- The avatar renderer, the recovery-flow query and `reverse` are external services. They become the parameters `avatar`, `recoveryFlows` (slugs in query order) and `executorUrl`. The challenge's translation and serializer validation are not modelled.
- Session persistence and executor internals are left out. `stage_invalid()` and `stage_ok()` belong to the executor, which may change the session and plan in ways of its own. Statements that a session or state "ends as it began" cover only the keys this stage reads and writes. The session is a `map<string, int>`, and only the counter key is inspected. The plan context is reduced to its two keys, `pending_user` and `user_backend`.
- PasswordStage.Submit: the shape check and dispatch to `challenge_valid` / `challenge_invalid` belong to the base challenge stage view. `authentik/flows/stage.py` is not part of this model. The shape check is reduced to "the password field is present", and DRF's blank and whitespace rules for `CharField` are not modelled.
- `failed_attempts_before_cancel` is an unconstrained integer. `authentik/stages/password/models.py` is not part of this model, and `stage.py` places no bound on the value.
- PasswordStage.Run: stops at the first result that is not a re-prompt. After `stage_ok` or `stage_invalid`, the executor moves the flow away from this stage, and that is not modelled.
