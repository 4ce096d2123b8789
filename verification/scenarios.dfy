/** Worked scenarios: one backend, "backend_a", that knows user "alice" with
    password "correct". */
module Scenarios {
  import opened Wrappers
  import opened Flow
  import opened Backends
  import opened Lockout
  import opened PasswordStage

  const Alice: User := User("alice", None)

  /** "backend_a" accepts alice with password "correct" and returns nothing
      for anything else; no other path resolves. */
  function AliceBackend(path: string, c: Credentials): Probe {
    if path != "backend_a" then Unresolvable
    else if c.username == "alice" && c.password == Some("correct") then Accept(Alice)
    else NoMatch
  }

  /** The stage with only "backend_a" configured and the given threshold,
      alice pending and a session without a counter. */
  function AliceConfig(threshold: int): StageConfig {
    StageConfig(["backend_a"], threshold)
  }

  const AliceState: StageState := StageState(map[], PlanContext(Some(Alice), None))

  function PasswordResponse(password: string): Response {
    Response(Some(password), map[])
  }

  /** The right password authenticates alice through "backend_a". */
  lemma CorrectPasswordSucceeds(threshold: int)
    ensures var o := Submit(AliceConfig(threshold), AliceState, PasswordResponse("correct"), AliceBackend);
      && o.result == Ok
      && o.state.context == PlanContext(Some(User("alice", Some("backend_a"))), Some("backend_a"))
      && o.state.session == map[]
  {
    FirstMatchSucceeds(AliceConfig(threshold), AliceState, PasswordResponse("correct"), AliceBackend, 0);
  }

  /** A wrong password with attempts to spare re-prompts with an
      "Invalid password" error, and the counter becomes 1. */
  lemma WrongPasswordReprompts(threshold: int)
    requires threshold >= 1
    ensures var o := Submit(AliceConfig(threshold), AliceState, PasswordResponse("wrong"), AliceBackend);
      && o.result == Reprompt
      && o.state.session == map[InvalidTriesKey := 1]
      && o.errors == map["password" := [InvalidPassword]]
  {
    NoMatchGoesThroughLockout(AliceConfig(threshold), AliceState, PasswordResponse("wrong"), AliceBackend);
    var errors: Errors := map[];
    var r := AddFieldError(errors, "password", InvalidPassword);
    assert r.Keys == {"password"};
    assert r["password"] == [InvalidPassword];
    assert r == map["password" := [InvalidPassword]];
  }

  /** With `failed_attempts_before_cancel` = 2, three wrong passwords in a row
      give re-prompt, re-prompt, cancel, and leave no counter behind. */
  lemma ThreeWrongPasswordsCancel()
    ensures var subs := [PasswordResponse("wrong"), PasswordResponse("wrong"), PasswordResponse("wrong")];
      var t := Run(AliceConfig(2), AliceState, subs, AliceBackend);
      && t.results == [Reprompt, Reprompt, Cancel]
      && InvalidTriesKey !in t.last.session
  {
    var subs := [PasswordResponse("wrong"), PasswordResponse("wrong"), PasswordResponse("wrong")];
    RejectionsLockOut(AliceConfig(2), AliceState, subs, AliceBackend);
    assert seq(2, _ => Reprompt) + [Cancel] == [Reprompt, Reprompt, Cancel];
  }

  /** Malformed submissions share the counter with wrong passwords: with
      `failed_attempts_before_cancel` = 2, a response without a password
      followed by two wrong passwords also ends in a cancel. */
  lemma MixedFailuresCancel()
    ensures var subs := [Response(None, map[]), PasswordResponse("wrong"), PasswordResponse("wrong")];
      var t := Run(AliceConfig(2), AliceState, subs, AliceBackend);
      && t.results == [Reprompt, Reprompt, Cancel]
      && t.last == AliceState
  {
    var subs := [Response(None, map[]), PasswordResponse("wrong"), PasswordResponse("wrong")];
    RejectionsLockOut(AliceConfig(2), AliceState, subs, AliceBackend);
    assert seq(2, _ => Reprompt) + [Cancel] == [Reprompt, Reprompt, Cancel];
  }
}
