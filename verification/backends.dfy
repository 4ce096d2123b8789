/** The backend-chain authenticator: the module-level `authenticate` of the
    password stage, which tries each configured backend path in order.

    A backend is abstracted by what trying it yields for given credentials: its
    path may not resolve to a class (`ImportError`, skipped), or its
    `authenticate` returns nothing, returns a user, or raises
    `PermissionDenied`. */
module Backends {
  import opened Wrappers

  /** A user as this stage sees it: the username backends identify it by, and
      the `backend` annotation `authenticate` sets on the user it returns. */
  datatype User = User(username: string, backend: Option<string>)

  /** The keyword arguments handed to every backend. The password is whatever
      the validated response held under "password", hence optional. */
  datatype Credentials = Credentials(username: string, password: Option<string>)

  /** What trying one backend path yields. */
  datatype Probe =
    | Unresolvable      // `path_to_class` raised ImportError
    | NoMatch           // the backend's `authenticate` returned None
    | Accept(user: User)
    | Denied            // the backend raised PermissionDenied

  /** The configured backends, as the probe each path yields for given credentials. */
  type Verifier = (string, Credentials) -> Probe

  /** The three-way outcome of the whole chain. `PermissionDenied` stands for
      the exception that escapes `authenticate`. */
  datatype AuthResult = Authenticated(user: User) | NoUser | PermissionDenied

  /** The `user_login_failed` signal, carrying scrubbed credentials. */
  datatype Event = LoginFailed(credentials: Credentials)

  /** One call of `authenticate`: its outcome, the paths whose backend
      `authenticate` was actually invoked (in order), and the signals fired. */
  datatype Attempt = Attempt(result: AuthResult, invoked: seq<string>, events: seq<Event>)

  /** A probe after which the chain moves on to the next path. */
  predicate Passes(p: Probe) {
    p.Unresolvable? || p.NoMatch?
  }

  /** The credentials as the failure signal carries them: the username is
      kept and the password is dropped. */
  function Scrub(c: Credentials): (s: Credentials)
    ensures s.username == c.username
    ensures s.password.None?
  {
    c.(password := None)
  }

  /** The user a backend returned, annotated with that backend's path. */
  function Tag(u: User, path: string): (t: User)
    ensures t.username == u.username
    ensures t.backend == Some(path)
  {
    u.(backend := Some(path))
  }

  /** `authenticate`: walk `backends` in order, skip paths that do not
      resolve, stop at the first backend that returns a user (tagging it with
      the path) or raises PermissionDenied; if none does, fire one failure
      signal with scrubbed credentials and return no user. */
  function Authenticate(backends: seq<string>, c: Credentials, verify: Verifier): (a: Attempt)
    ensures |a.events| <= 1
    ensures a.events != [] <==> a.result.NoUser?
    ensures a.result.NoUser? ==> a.events == [LoginFailed(Scrub(c))]
    ensures |a.invoked| <= |backends|
    ensures forall i :: 0 <= i < |a.invoked| ==> a.invoked[i] in backends
    ensures !a.result.NoUser? ==> |a.invoked| > 0
    ensures a.result.Authenticated? ==>
              a.result.user.backend == Some(a.invoked[|a.invoked| - 1])
    decreases |backends|
  {
    if |backends| == 0 then
      Attempt(NoUser, [], [LoginFailed(Scrub(c))])
    else
      var path := backends[0];
      match verify(path, c)
      case Unresolvable => Authenticate(backends[1..], c, verify)
      case NoMatch =>
        var rest := Authenticate(backends[1..], c, verify);
        rest.(invoked := [path] + rest.invoked)
      case Accept(u) => Attempt(Authenticated(Tag(u, path)), [path], [])
      case Denied => Attempt(PermissionDenied, [path], [])
  }

  /** The index of the first backend whose probe ends the chain, or
      `|backends|` when every probe passes. */
  function FirstDecisive(backends: seq<string>, c: Credentials, verify: Verifier): (k: nat)
    ensures k <= |backends|
    ensures forall j :: 0 <= j < k ==> Passes(verify(backends[j], c))
    ensures k < |backends| ==> !Passes(verify(backends[k], c))
    decreases |backends|
  {
    if |backends| == 0 then 0
    else if Passes(verify(backends[0], c)) then 1 + FirstDecisive(backends[1..], c, verify)
    else 0
  }

  /** The paths among `backends` that resolve, in order. */
  function Resolved(backends: seq<string>, c: Credentials, verify: Verifier): seq<string>
    decreases |backends|
  {
    if |backends| == 0 then []
    else if verify(backends[0], c).Unresolvable? then Resolved(backends[1..], c, verify)
    else [backends[0]] + Resolved(backends[1..], c, verify)
  }

  /** Any index before which every probe passes and at which one does not is
      the first decisive index. */
  lemma FirstDecisiveUnique(backends: seq<string>, c: Credentials, verify: Verifier, i: nat)
    requires i <= |backends|
    requires forall j :: 0 <= j < i ==> Passes(verify(backends[j], c))
    requires i < |backends| ==> !Passes(verify(backends[i], c))
    ensures FirstDecisive(backends, c, verify) == i
  {
  }

  /** The reference description of `authenticate`: with k the first decisive
      index, exactly the resolving paths before k, then path k, are invoked;
      the result is decided by probe k alone, and the failure signal fires
      exactly once when no probe is decisive. */
  lemma {:induction false} AuthenticateStopsAtFirstDecisive(backends: seq<string>, c: Credentials, verify: Verifier)
    ensures
      var k := FirstDecisive(backends, c, verify);
      var a := Authenticate(backends, c, verify);
      && a.invoked == Resolved(backends[..k], c, verify) + (if k < |backends| then [backends[k]] else [])
      && (k == |backends| ==> a.result == NoUser && a.events == [LoginFailed(Scrub(c))])
      && (k < |backends| && verify(backends[k], c).Accept? ==>
            a.result == Authenticated(Tag(verify(backends[k], c).user, backends[k])) && a.events == [])
      && (k < |backends| && verify(backends[k], c).Denied? ==>
            a.result == PermissionDenied && a.events == [])
    decreases |backends|
  {
    var k := FirstDecisive(backends, c, verify);
    if |backends| == 0 {
      assert backends[..k] == [];
    } else if Passes(verify(backends[0], c)) {
      var tail := backends[1..];
      AuthenticateStopsAtFirstDecisive(tail, c, verify);
      var k' := FirstDecisive(tail, c, verify);
      assert k == k' + 1;
      assert backends[..k][1..] == tail[..k'];
      assert k < |backends| ==> backends[k] == tail[k'];
    } else {
      assert backends[..k] == [];
    }
  }

  /** First match wins: when backend i returns a user and every backend before
      it is unresolvable or returns nothing, that user is returned tagged with
      path i, no later backend is invoked and no signal fires. */
  lemma FirstMatchWins(backends: seq<string>, c: Credentials, verify: Verifier, i: nat)
    requires i < |backends|
    requires verify(backends[i], c).Accept?
    requires forall j :: 0 <= j < i ==> Passes(verify(backends[j], c))
    ensures
      var a := Authenticate(backends, c, verify);
      && a.result == Authenticated(Tag(verify(backends[i], c).user, backends[i]))
      && a.invoked == Resolved(backends[..i], c, verify) + [backends[i]]
      && a.events == []
  {
    FirstDecisiveUnique(backends, c, verify, i);
    AuthenticateStopsAtFirstDecisive(backends, c, verify);
  }

  /** PermissionDenied escapes: when backend i raises it and every backend
      before it passes, the chain stops there, even if a later backend would
      accept, and no signal fires. */
  lemma DeniedEscapes(backends: seq<string>, c: Credentials, verify: Verifier, i: nat)
    requires i < |backends|
    requires verify(backends[i], c).Denied?
    requires forall j :: 0 <= j < i ==> Passes(verify(backends[j], c))
    ensures
      var a := Authenticate(backends, c, verify);
      && a.result == PermissionDenied
      && a.invoked == Resolved(backends[..i], c, verify) + [backends[i]]
      && a.events == []
  {
    FirstDecisiveUnique(backends, c, verify, i);
    AuthenticateStopsAtFirstDecisive(backends, c, verify);
  }

  /** An exhausted chain fails once: when every backend is unresolvable or
      returns nothing, each resolving one is invoked, there is no user, and
      exactly one failure signal fires, without the password. */
  lemma {:induction false} ExhaustedChainFailsOnce(backends: seq<string>, c: Credentials, verify: Verifier)
    requires forall j :: 0 <= j < |backends| ==> Passes(verify(backends[j], c))
    ensures
      var a := Authenticate(backends, c, verify);
      && a.result == NoUser
      && a.invoked == Resolved(backends, c, verify)
      && a.events == [LoginFailed(Credentials(c.username, None))]
  {
    FirstDecisiveUnique(backends, c, verify, |backends|);
    AuthenticateStopsAtFirstDecisive(backends, c, verify);
    assert backends[..|backends|] == backends;
  }

  /** Conversely, a user comes back only from the first decisive backend, and
      only when that backend accepted. */
  lemma {:induction false} AuthenticatedOnlyByFirstDecisive(backends: seq<string>, c: Credentials, verify: Verifier)
    ensures
      var k := FirstDecisive(backends, c, verify);
      Authenticate(backends, c, verify).result.Authenticated? <==>
        (k < |backends| && verify(backends[k], c).Accept?)
  {
    AuthenticateStopsAtFirstDecisive(backends, c, verify);
  }

  /** Unresolvable backends are skipped: removing a path that does not resolve
      from anywhere in the list changes nothing about the call. */
  lemma {:induction false} UnresolvableSkipped(xs: seq<string>, p: string, ys: seq<string>, c: Credentials, verify: Verifier)
    requires verify(p, c).Unresolvable?
    ensures Authenticate(xs + [p] + ys, c, verify) == Authenticate(xs + ys, c, verify)
    decreases |xs|
  {
    if |xs| == 0 {
      assert xs + [p] + ys == [p] + ys;
      assert ([p] + ys)[1..] == ys;
      assert xs + ys == ys;
    } else {
      UnresolvableSkipped(xs[1..], p, ys, c, verify);
      assert (xs + [p] + ys)[0] == xs[0];
      assert (xs + [p] + ys)[1..] == xs[1..] + [p] + ys;
      assert (xs + ys)[0] == xs[0];
      assert (xs + ys)[1..] == xs[1..] + ys;
    }
  }

  /** Later backends are never consulted: once some backend in `backends`
      decides, appending any further paths changes nothing about the call. */
  lemma {:induction false} LaterBackendsIrrelevant(backends: seq<string>, more: seq<string>, c: Credentials, verify: Verifier)
    requires FirstDecisive(backends, c, verify) < |backends|
    ensures Authenticate(backends + more, c, verify) == Authenticate(backends, c, verify)
    decreases |backends|
  {
    assert (backends + more)[0] == backends[0];
    if Passes(verify(backends[0], c)) {
      LaterBackendsIrrelevant(backends[1..], more, c, verify);
      assert (backends + more)[1..] == backends[1..] + more;
    }
  }

  /** The same chain written as the source's `for` loop with early returns. */
  method AuthenticateLoop(backends: seq<string>, c: Credentials, verify: Verifier) returns (a: Attempt)
    ensures a == Authenticate(backends, c, verify)
  {
    var invoked: seq<string> := [];
    var i := 0;
    while i < |backends|
      invariant 0 <= i <= |backends|
      invariant
        var rest := Authenticate(backends[i..], c, verify);
        Authenticate(backends, c, verify) == rest.(invoked := invoked + rest.invoked)
    {
      var path := backends[i];
      assert backends[i..][0] == path;
      assert backends[i..][1..] == backends[i + 1..];
      var probe := verify(path, c);
      match probe {
        case Unresolvable =>
        case NoMatch =>
          invoked := invoked + [path];
        case Accept(u) =>
          return Attempt(Authenticated(Tag(u, path)), invoked + [path], []);
        case Denied =>
          return Attempt(PermissionDenied, invoked + [path], []);
      }
      i := i + 1;
    }
    a := Attempt(NoUser, invoked, [LoginFailed(Scrub(c))]);
  }
}
