/**
 * `run()` of src/main.ts and its entry point: the selected strategy issues its
 * calls on the host, and a resolved credential is handed to `setOutput`.
 */
module Engine {
  import opened Wrappers
  import opened Credentials
  import opened Errors
  import opened Inputs
  import opened Strategies
  import opened Host
  import opened Publish

  /**
   * What the host answers, seen as oracles. Each is a pure function of its
   * arguments; the engine does not know how it is computed.
   */
  datatype Capabilities = Capabilities(
    /** `os.tmpdir()`. */
    tmpdir: string,
    /** `core.getIDToken(audience)`: the token, or the rejection's message. */
    getIdToken: string -> Result<string, string>,
    /** `writeFile(path, data)`: None when it resolves, the rejection's message otherwise. */
    writeFile: (string, string) -> Option<string>,
    /** Building a provider from a request and calling `getCredential` on it. */
    getCredential: Request -> Result<Credential, string>)

  /** The result of one run together with every host call it made, in order. */
  datatype Outcome = Outcome(result: Result<Credential, Error>, trace: seq<Call>)

  /** The fixed name of the OIDC token file. */
  const TokenFileName: string := "token"

  /** `path.join(os.tmpdir(), 'token')`. */
  function TokenFilePath(tmpdir: string): (path: string)
    ensures |path| == |tmpdir| + |"/" + TokenFileName|
    ensures path[..|tmpdir|] == tmpdir
    ensures path[|tmpdir|..] == "/token"
  {
    tmpdir + "/" + TokenFileName
  }

  /** The requests of a trace's provider calls, in order. */
  function ProviderRequests(trace: seq<Call>): (r: seq<Request>)
    ensures |r| <= |trace|
    ensures forall j :: 0 <= j < |r| ==> GetCredential(r[j]) in trace
  {
    if |trace| == 0 then []
    else
      var rest := ProviderRequests(trace[1..]);
      assert forall j :: 0 <= j < |rest| ==> GetCredential(rest[j]) in trace by {
        forall j | 0 <= j < |rest| ensures GetCredential(rest[j]) in trace {
          assert GetCredential(rest[j]) in trace[1..];
        }
      }
      if trace[0].GetCredential? then [trace[0].request] + rest else rest
  }

  /** Provider calls of concatenated traces are concatenated. */
  lemma {:induction false} ProviderRequestsAppend(a: seq<Call>, b: seq<Call>)
    ensures ProviderRequests(a + b) == ProviderRequests(a) + ProviderRequests(b)
    decreases |a|
  {
    if |a| == 0 {
      assert a + b == b;
    } else {
      assert (a + b)[1..] == a[1..] + b;
      ProviderRequestsAppend(a[1..], b);
    }
  }

  /** A trace of publishing calls makes no provider call. */
  lemma {:induction false} PublishingMakesNoRequest(t: seq<Call>)
    requires forall i :: 0 <= i < |t| ==> t[i].Publishes()
    ensures ProviderRequests(t) == []
    decreases |t|
  {
    if |t| > 0 {
      assert t[0].Publishes();
      PublishingMakesNoRequest(t[1..]);
    }
  }

  /** A trace that ends with exactly one `setOutput` of `c` and publishes nothing before it. */
  predicate PublishedOnceAtEnd(trace: seq<Call>, c: Credential)
  {
    var k := |trace| - |PublishCalls(c)|;
    && k >= 0
    && trace[k..] == PublishCalls(c)
    && NoPublish(trace[..k])
  }

  /** What every run guarantees about publishing and failing the step. */
  predicate WellPublished(o: Outcome)
  {
    && (o.result.Success? ==> PublishedOnceAtEnd(o.trace, o.result.value))
    && (o.result.Failure? ==> NoPublish(o.trace))
    && NoFailure(o.trace)
  }

  /**
   * The calls after a provider answered: a failure stops with the effects so
   * far, a credential is published once, after them.
   */
  function Finish(effects: seq<Call>, reply: Result<Credential, string>): (o: Outcome)
    requires NoPublish(effects) && NoFailure(effects)
    ensures WellPublished(o)
    ensures o.result.Failure? ==> o.result.error.ProviderFailed?
  {
    match reply
    case Failure(m) => Outcome(Failure(ProviderFailed(m)), effects)
    case Success(c) =>
      var t := effects + PublishCalls(c);
      PublishCallsOnlyPublish(c);
      assert t[|effects|..] == PublishCalls(c);
      assert t[..|effects|] == effects;
      Outcome(Success(c), t)
  }

  /** The host calls of one strategy, with the outcome they lead to. */
  function Execute(s: Strategy, cap: Capabilities): (o: Outcome)
    ensures WellPublished(o)
    ensures o.result != Failure(ChainingWithoutRole)
  {
    match s
    case RoleChaining(arn, name, exp) =>
      var req := EnvAssumeRole(arn, name, exp);
      Finish([GetCredential(req)], cap.getCredential(req))
    case OidcAssume(arn, oidc, name, exp, aud) =>
      (match cap.getIdToken(aud)
       case Failure(m) => Outcome(Failure(IdTokenFailed(m)), [GetIdToken(aud)])
       case Success(token) =>
         var path := TokenFilePath(cap.tmpdir);
         var written := [GetIdToken(aud), MaskToken(token), WriteFile(path, token)];
         (match cap.writeFile(path, token)
          case Some(m) => Outcome(Failure(TokenWriteFailed(m)), written)
          case None =>
            var req := OidcRoleArn(arn, oidc, path, exp, name);
            Finish(written + [GetCredential(req)], cap.getCredential(req))))
    case EcsAssume(arn, name, exp) =>
      (match cap.getCredential(EcsRamRole)
       case Failure(m) => Outcome(Failure(ProviderFailed(m)), [GetCredential(EcsRamRole)])
       case Success(base) =>
         var req := RamRoleArn(base.accessKeyId, base.accessKeySecret, base.securityToken, arn, exp, name);
         Finish([GetCredential(EcsRamRole), GetCredential(req)], cap.getCredential(req)))
    case EcsDirect =>
      Finish([GetCredential(EcsRamRole)], cap.getCredential(EcsRamRole))
  }

  /**
   * `run()`: decode the inputs, select the strategy and execute it. A
   * configuration error makes no host call at all; a success publishes the
   * credential exactly once, as the last thing the run does; a failure
   * publishes nothing. The run itself never fails the step.
   */
  function Run(raw: RawInputs, cap: Capabilities): (o: Outcome)
    ensures o.result == Failure(ChainingWithoutRole) <==> raw.roleChaining == "true" && !Given(raw.roleToAssume)
    ensures o.result == Failure(ChainingWithoutRole) ==> o.trace == []
    ensures WellPublished(o)
  {
    match SelectStrategy(Decode(raw))
    case Failure(e) => Outcome(Failure(e), [])
    case Success(s) => Execute(s, cap)
  }

  /** The selected strategy is the only one that runs. */
  lemma RunExecutesAdmissible(raw: RawInputs, cap: Capabilities, s: Strategy)
    requires Admissible(Decode(raw), s)
    ensures Run(raw, cap) == Execute(s, cap)
  {
    SelectIsAdmissible(Decode(raw), s);
  }

  /** The provider calls made after a provider answered are the ones made before. */
  lemma RequestsOfFinish(effects: seq<Call>, reply: Result<Credential, string>)
    requires NoPublish(effects) && NoFailure(effects)
    ensures ProviderRequests(Finish(effects, reply).trace) == ProviderRequests(effects)
  {
    if reply.Success? {
      var c := reply.value;
      ProviderRequestsAppend(effects, PublishCalls(c));
      PublishCallsOnlyPublish(c);
      PublishingMakesNoRequest(PublishCalls(c));
    }
  }

  /** A single provider call requests exactly its request. */
  lemma RequestsOfOneCall(a: Request)
    ensures ProviderRequests([GetCredential(a)]) == [a]
  {
  }

  /** Two provider calls request their two requests, in order. */
  lemma RequestsOfTwoCalls(a: Request, b: Request)
    ensures ProviderRequests([GetCredential(a), GetCredential(b)]) == [a, b]
  {
  }

  /** Fetching, masking and writing the OIDC token calls no provider. */
  lemma RequestsOfTokenWrite(aud: string, path: string, token: string)
    ensures ProviderRequests([GetIdToken(aud), MaskToken(token), WriteFile(path, token)]) == []
  {
    var w := [WriteFile(path, token)];
    assert w[1..] == [];
    var m := [MaskToken(token)] + w;
    assert m[1..] == w;
    assert ProviderRequests(m) == [];
    var t := [GetIdToken(aud)] + m;
    assert t[1..] == m;
  }

  /** The OIDC branch's calls before publishing request only the OIDC provider. */
  lemma RequestsOfOidcCalls(aud: string, path: string, token: string, a: Request)
    ensures ProviderRequests([GetIdToken(aud), MaskToken(token), WriteFile(path, token), GetCredential(a)]) == [a]
  {
    var w := [GetIdToken(aud), MaskToken(token), WriteFile(path, token)];
    assert w + [GetCredential(a)] == [GetIdToken(aud), MaskToken(token), WriteFile(path, token), GetCredential(a)];
    ProviderRequestsAppend(w, [GetCredential(a)]);
    RequestsOfTokenWrite(aud, path, token);
    RequestsOfOneCall(a);
  }

  /** How a provider's answer becomes the run's result. */
  function Resolved(reply: Result<Credential, string>): Result<Credential, Error>
  {
    match reply
    case Success(c) => Success(c)
    case Failure(m) => Failure(ProviderFailed(m))
  }

  /**
   * Role chaining, whatever the OIDC ARN: one provider call, environment
   * credentials assuming the configured role, and its answer is the result.
   */
  lemma RoleChainingBranch(raw: RawInputs, cap: Capabilities)
    requires raw.roleChaining == "true" && Given(raw.roleToAssume)
    ensures var o := Run(raw, cap);
      var req := EnvAssumeRole(raw.roleToAssume, raw.roleSessionName, raw.roleSessionExpiration);
      && |o.trace| > 0 && o.trace[0] == GetCredential(req)
      && ProviderRequests(o.trace) == [req]
      && o.result == Resolved(cap.getCredential(req))
      && o.trace == [GetCredential(req)] + (if o.result.Success? then PublishCalls(o.result.value) else [])
  {
    var req := EnvAssumeRole(raw.roleToAssume, raw.roleSessionName, raw.roleSessionExpiration);
    RequestsOfFinish([GetCredential(req)], cap.getCredential(req));
    RequestsOfOneCall(req);
  }

  /**
   * OIDC: the token for the audience is fetched first and masked by the fetch,
   * then written verbatim to the token file, and only then is the single OIDC
   * provider called, with that same file path. A failing fetch or write stops
   * before the provider.
   */
  lemma OidcBranch(raw: RawInputs, cap: Capabilities)
    requires raw.roleChaining != "true" && Given(raw.roleToAssume) && Given(raw.oidcProviderArn)
    ensures var o := Run(raw, cap);
      var path := TokenFilePath(cap.tmpdir);
      && |o.trace| > 0 && o.trace[0] == GetIdToken(raw.audience)
      && (cap.getIdToken(raw.audience).Failure? ==>
            o == Outcome(Failure(IdTokenFailed(cap.getIdToken(raw.audience).error)), [GetIdToken(raw.audience)]))
      && (cap.getIdToken(raw.audience).Success? ==>
            var token := cap.getIdToken(raw.audience).value;
            var req := OidcRoleArn(raw.roleToAssume, raw.oidcProviderArn, path,
                                   raw.roleSessionExpiration, raw.roleSessionName);
            && |o.trace| > 2 && o.trace[1] == MaskToken(token) && o.trace[2] == WriteFile(path, token)
            && (cap.writeFile(path, token).Some? ==>
                  o == Outcome(Failure(TokenWriteFailed(cap.writeFile(path, token).value)), o.trace[..3])
                  && |o.trace| == 3)
            && (cap.writeFile(path, token).None? ==>
                  && |o.trace| > 3 && o.trace[3] == GetCredential(req)
                  && ProviderRequests(o.trace) == [req]
                  && o.result == Resolved(cap.getCredential(req))
                  && o.trace == [GetIdToken(raw.audience), MaskToken(token), WriteFile(path, token), GetCredential(req)]
                                + (if o.result.Success? then PublishCalls(o.result.value) else [])))
  {
    var aud := raw.audience;
    var path := TokenFilePath(cap.tmpdir);
    if cap.getIdToken(aud).Success? {
      var token := cap.getIdToken(aud).value;
      var req := OidcRoleArn(raw.roleToAssume, raw.oidcProviderArn, path,
                             raw.roleSessionExpiration, raw.roleSessionName);
      var effects := [GetIdToken(aud), MaskToken(token), WriteFile(path, token)] + [GetCredential(req)];
      assert effects == [GetIdToken(aud), MaskToken(token), WriteFile(path, token), GetCredential(req)];
      RequestsOfFinish(effects, cap.getCredential(req));
      RequestsOfOidcCalls(aud, path, token, req);
    }
  }

  /**
   * ECS role then assume-role: the instance role is asked first; only if it
   * answers is the role assumed, with exactly its three fields as base.
   */
  lemma EcsAssumeBranch(raw: RawInputs, cap: Capabilities)
    requires raw.roleChaining != "true" && Given(raw.roleToAssume) && !Given(raw.oidcProviderArn)
    ensures var o := Run(raw, cap);
      && |o.trace| > 0 && o.trace[0] == GetCredential(EcsRamRole)
      && (cap.getCredential(EcsRamRole).Failure? ==>
            o == Outcome(Failure(ProviderFailed(cap.getCredential(EcsRamRole).error)), [GetCredential(EcsRamRole)]))
      && (cap.getCredential(EcsRamRole).Success? ==>
            var base := cap.getCredential(EcsRamRole).value;
            var req := RamRoleArn(base.accessKeyId, base.accessKeySecret, base.securityToken,
                                  raw.roleToAssume, raw.roleSessionExpiration, raw.roleSessionName);
            && |o.trace| > 1 && o.trace[1] == GetCredential(req)
            && ProviderRequests(o.trace) == [EcsRamRole, req]
            && o.result == Resolved(cap.getCredential(req))
            && o.trace == [GetCredential(EcsRamRole), GetCredential(req)]
                          + (if o.result.Success? then PublishCalls(o.result.value) else []))
  {
    if cap.getCredential(EcsRamRole).Success? {
      var base := cap.getCredential(EcsRamRole).value;
      var req := RamRoleArn(base.accessKeyId, base.accessKeySecret, base.securityToken,
                            raw.roleToAssume, raw.roleSessionExpiration, raw.roleSessionName);
      RequestsOfFinish([GetCredential(EcsRamRole), GetCredential(req)], cap.getCredential(req));
      RequestsOfTwoCalls(EcsRamRole, req);
    }
  }

  /**
   * Direct ECS role: one provider call, and on success the credential it
   * returns is published unmodified right after it.
   */
  lemma EcsDirectBranch(raw: RawInputs, cap: Capabilities)
    requires raw.roleChaining != "true" && !Given(raw.roleToAssume)
    ensures var o := Run(raw, cap);
      && ProviderRequests(o.trace) == [EcsRamRole]
      && (cap.getCredential(EcsRamRole).Success? ==>
            var c := cap.getCredential(EcsRamRole).value;
            o == Outcome(Success(c), [GetCredential(EcsRamRole)] + PublishCalls(c)))
      && (cap.getCredential(EcsRamRole).Failure? ==>
            o == Outcome(Failure(ProviderFailed(cap.getCredential(EcsRamRole).error)), [GetCredential(EcsRamRole)]))
  {
    RequestsOfFinish([GetCredential(EcsRamRole)], cap.getCredential(EcsRamRole));
    RequestsOfOneCall(EcsRamRole);
  }

  /** Every role-assuming request among `rs` carries the configured role, session name and expiration. */
  predicate CarriesInputs(rs: seq<Request>, raw: RawInputs)
  {
    forall j :: 0 <= j < |rs| && rs[j].AssumesRole() ==>
      && rs[j].roleArn == raw.roleToAssume
      && rs[j].roleSessionName == raw.roleSessionName
      && rs[j].roleSessionExpiration == raw.roleSessionExpiration
  }

  /** None of `rs` is an environment-credential (role chaining) request. */
  predicate NoEnvRequest(rs: seq<Request>)
  {
    forall j :: 0 <= j < |rs| ==> !rs[j].EnvAssumeRole?
  }

  /** The chaining branch makes one provider call, an environment-credential request for the configured role. */
  lemma RoleChainingBranchRequests(raw: RawInputs, cap: Capabilities)
    requires raw.roleChaining == "true" && Given(raw.roleToAssume)
    ensures var rs := ProviderRequests(Run(raw, cap).trace);
      |rs| == 1 && rs[0].EnvAssumeRole? && CarriesInputs(rs, raw)
  {
    RoleChainingBranch(raw, cap);
  }

  /** The direct ECS branch makes one provider call, which assumes no role. */
  lemma EcsDirectBranchRequests(raw: RawInputs, cap: Capabilities)
    requires raw.roleChaining != "true" && !Given(raw.roleToAssume)
    ensures var rs := ProviderRequests(Run(raw, cap).trace);
      |rs| <= 2 && CarriesInputs(rs, raw) && NoEnvRequest(rs)
  {
    EcsDirectBranch(raw, cap);
  }

  /** The OIDC branch makes at most one provider call, for the configured role. */
  lemma OidcBranchRequests(raw: RawInputs, cap: Capabilities)
    requires raw.roleChaining != "true" && Given(raw.roleToAssume) && Given(raw.oidcProviderArn)
    ensures var rs := ProviderRequests(Run(raw, cap).trace);
      |rs| <= 1 && CarriesInputs(rs, raw) && NoEnvRequest(rs)
  {
    OidcBranch(raw, cap);
    var aud := raw.audience;
    if cap.getIdToken(aud).Failure? {
      assert [GetIdToken(aud)][1..] == [];
    } else if cap.writeFile(TokenFilePath(cap.tmpdir), cap.getIdToken(aud).value).Some? {
      RequestsOfTokenWrite(aud, TokenFilePath(cap.tmpdir), cap.getIdToken(aud).value);
    }
  }

  /** The requests of the ECS + assume-role branch when the instance role fails. */
  lemma EcsBaseRequestShape(rs: seq<Request>, raw: RawInputs)
    requires rs == [EcsRamRole]
    ensures |rs| <= 2 && CarriesInputs(rs, raw) && NoEnvRequest(rs)
  {
  }

  /** The requests of the ECS + assume-role branch when the instance role answers `base`. */
  lemma EcsAssumeRequestShape(rs: seq<Request>, raw: RawInputs, base: Credential)
    requires rs == [EcsRamRole, RamRoleArn(base.accessKeyId, base.accessKeySecret,
      base.securityToken, raw.roleToAssume, raw.roleSessionExpiration, raw.roleSessionName)]
    ensures |rs| <= 2 && CarriesInputs(rs, raw) && NoEnvRequest(rs)
  {
  }

  /** The ECS + assume-role branch makes at most two provider calls; the assuming one carries the inputs. */
  lemma EcsAssumeBranchRequests(raw: RawInputs, cap: Capabilities)
    requires raw.roleChaining != "true" && Given(raw.roleToAssume) && !Given(raw.oidcProviderArn)
    ensures var rs := ProviderRequests(Run(raw, cap).trace);
      |rs| <= 2 && CarriesInputs(rs, raw) && NoEnvRequest(rs)
  {
    EcsAssumeBranch(raw, cap);
    var rs := ProviderRequests(Run(raw, cap).trace);
    match cap.getCredential(EcsRamRole)
    case Failure(_) =>
      RequestsOfOneCall(EcsRamRole);
      EcsBaseRequestShape(rs, raw);
    case Success(base) =>
      EcsAssumeRequestShape(rs, raw, base);
  }

  /**
   * Whichever branch runs, every role-assuming request carries the configured
   * role, session name and expiration unchanged, and at most two provider calls
   * are made.
   */
  lemma AssumeRequestsCarryInputs(raw: RawInputs, cap: Capabilities)
    ensures var rs := ProviderRequests(Run(raw, cap).trace);
      |rs| <= 2 && CarriesInputs(rs, raw)
  {
    if raw.roleChaining == "true" {
      if Given(raw.roleToAssume) {
        RoleChainingBranchRequests(raw, cap);
      }
    } else if Given(raw.roleToAssume) && Given(raw.oidcProviderArn) {
      OidcBranchRequests(raw, cap);
    } else if Given(raw.roleToAssume) {
      EcsAssumeBranchRequests(raw, cap);
    } else {
      EcsDirectBranchRequests(raw, cap);
    }
  }

  /**
   * Only the exact input "true" turns chaining on: any other value ("True",
   * "1", ...) never raises the chaining error and never builds an
   * environment-credential request; "true" always does one of the two.
   */
  lemma OnlyExactTrueChains(raw: RawInputs, cap: Capabilities)
    ensures var o := Run(raw, cap);
      var rs := ProviderRequests(o.trace);
      && (raw.roleChaining == "true" ==>
            o.result == Failure(ChainingWithoutRole) || (|rs| == 1 && rs[0].EnvAssumeRole?))
      && (raw.roleChaining != "true" ==>
            o.result != Failure(ChainingWithoutRole) && NoEnvRequest(rs))
  {
    if raw.roleChaining == "true" {
      if Given(raw.roleToAssume) {
        RoleChainingBranchRequests(raw, cap);
      }
    } else if Given(raw.roleToAssume) && Given(raw.oidcProviderArn) {
      OidcBranchRequests(raw, cap);
    } else if Given(raw.roleToAssume) {
      EcsAssumeBranchRequests(raw, cap);
    } else {
      EcsDirectBranchRequests(raw, cap);
    }
  }

  /**
   * The entry point: run, and on a rejection report its message with
   * `core.setFailed`.
   */
  function Action(raw: RawInputs, cap: Capabilities): (t: seq<Call>)
    ensures |Run(raw, cap).trace| <= |t| && t[..|Run(raw, cap).trace|] == Run(raw, cap).trace
    ensures Run(raw, cap).result.Success? ==>
      NoFailure(t) && PublishedOnceAtEnd(t, Run(raw, cap).result.value)
    ensures Run(raw, cap).result.Failure? ==>
      && |t| == |Run(raw, cap).trace| + 1
      && t[|t| - 1] == SetFailed(Message(Run(raw, cap).result.error))
      && NoPublish(t) && NoFailure(t[..|t| - 1])
  {
    var o := Run(raw, cap);
    match o.result
    case Success(_) => o.trace
    case Failure(e) => o.trace + [SetFailed(Message(e))]
  }

  /**
   * The values `core.getIDToken` masks during a run: the identity token, when
   * the OIDC strategy is selected and the runner hands one out.
   */
  function IdTokenMasks(raw: RawInputs, cap: Capabilities): set<string>
  {
    if raw.roleChaining != "true" && Given(raw.roleToAssume) && Given(raw.oidcProviderArn)
       && cap.getIdToken(raw.audience).Success?
    then {cap.getIdToken(raw.audience).value}
    else {}
  }

  /** The masks of a run's calls before publishing, followed on success by `setOutput`'s. */
  lemma MaskedThenPublish(pre: seq<Call>, r: Result<Credential, Error>)
    ensures MaskedValues(pre + (if r.Success? then PublishCalls(r.value) else []))
            == MaskedValues(pre)
               + (if r.Success? then {r.value.accessKeyId, r.value.accessKeySecret, r.value.securityToken} else {})
  {
    if r.Success? {
      MaskedAppend(pre, PublishCalls(r.value));
      PublishedOutputsAndMasks(r.value);
    } else {
      assert pre + [] == pre;
    }
  }

  /** The OIDC branch's calls up to the write mask exactly the token. */
  lemma MaskedOfTokenWrite(aud: string, path: string, token: string)
    ensures MaskedValues([GetIdToken(aud), MaskToken(token), WriteFile(path, token)]) == {token}
  {
    var t := [GetIdToken(aud), MaskToken(token), WriteFile(path, token)];
    assert t[1].MaskToken? && t[1].value == token;
    forall x | x in MaskedValues(t) ensures x == token {
      var i :| 0 <= i < |t| && (t[i].SetSecret? || t[i].MaskToken?) && t[i].value == x;
      assert i == 1;
    }
  }

  /** The OIDC branch's calls up to the provider call mask exactly the token. */
  lemma MaskedOfOidcCalls(aud: string, path: string, token: string, a: Request)
    ensures MaskedValues([GetIdToken(aud), MaskToken(token), WriteFile(path, token), GetCredential(a)]) == {token}
  {
    var w := [GetIdToken(aud), MaskToken(token), WriteFile(path, token)];
    assert w + [GetCredential(a)] == [GetIdToken(aud), MaskToken(token), WriteFile(path, token), GetCredential(a)];
    MaskedAppend(w, [GetCredential(a)]);
    MaskedOfTokenWrite(aud, path, token);
  }

  /** The chaining branch masks only the credential it publishes. */
  lemma RoleChainingMasks(raw: RawInputs, cap: Capabilities)
    requires raw.roleChaining == "true" && Given(raw.roleToAssume)
    ensures var o := Run(raw, cap);
      MaskedValues(o.trace) == IdTokenMasks(raw, cap)
        + (if o.result.Success? then {o.result.value.accessKeyId, o.result.value.accessKeySecret, o.result.value.securityToken} else {})
  {
    RoleChainingBranch(raw, cap);
    var req := EnvAssumeRole(raw.roleToAssume, raw.roleSessionName, raw.roleSessionExpiration);
    MaskedThenPublish([GetCredential(req)], Run(raw, cap).result);
  }

  /** The OIDC branch masks the identity token it fetched, and on success the credential. */
  lemma OidcMasks(raw: RawInputs, cap: Capabilities)
    requires raw.roleChaining != "true" && Given(raw.roleToAssume) && Given(raw.oidcProviderArn)
    ensures var o := Run(raw, cap);
      MaskedValues(o.trace) == IdTokenMasks(raw, cap)
        + (if o.result.Success? then {o.result.value.accessKeyId, o.result.value.accessKeySecret, o.result.value.securityToken} else {})
  {
    OidcBranch(raw, cap);
    var o := Run(raw, cap);
    var aud := raw.audience;
    var path := TokenFilePath(cap.tmpdir);
    if cap.getIdToken(aud).Success? {
      var token := cap.getIdToken(aud).value;
      if cap.writeFile(path, token).Some? {
        assert o.trace == [GetIdToken(aud), MaskToken(token), WriteFile(path, token)];
        MaskedOfTokenWrite(aud, path, token);
      } else {
        var req := OidcRoleArn(raw.roleToAssume, raw.oidcProviderArn, path,
                               raw.roleSessionExpiration, raw.roleSessionName);
        MaskedThenPublish([GetIdToken(aud), MaskToken(token), WriteFile(path, token), GetCredential(req)], o.result);
        MaskedOfOidcCalls(aud, path, token, req);
      }
    }
  }

  /** The ECS + assume-role branch masks only the credential it publishes. */
  lemma EcsAssumeMasks(raw: RawInputs, cap: Capabilities)
    requires raw.roleChaining != "true" && Given(raw.roleToAssume) && !Given(raw.oidcProviderArn)
    ensures var o := Run(raw, cap);
      MaskedValues(o.trace) == IdTokenMasks(raw, cap)
        + (if o.result.Success? then {o.result.value.accessKeyId, o.result.value.accessKeySecret, o.result.value.securityToken} else {})
  {
    EcsAssumeBranch(raw, cap);
    if cap.getCredential(EcsRamRole).Success? {
      var base := cap.getCredential(EcsRamRole).value;
      var req := RamRoleArn(base.accessKeyId, base.accessKeySecret, base.securityToken,
                            raw.roleToAssume, raw.roleSessionExpiration, raw.roleSessionName);
      MaskedThenPublish([GetCredential(EcsRamRole), GetCredential(req)], Run(raw, cap).result);
    }
  }

  /** The direct ECS branch masks only the credential it publishes. */
  lemma EcsDirectMasks(raw: RawInputs, cap: Capabilities)
    requires raw.roleChaining != "true" && !Given(raw.roleToAssume)
    ensures var o := Run(raw, cap);
      MaskedValues(o.trace) == IdTokenMasks(raw, cap)
        + (if o.result.Success? then {o.result.value.accessKeyId, o.result.value.accessKeySecret, o.result.value.securityToken} else {})
  {
    EcsDirectBranch(raw, cap);
    MaskedThenPublish([GetCredential(EcsRamRole)], Run(raw, cap).result);
  }

  /**
   * What a run masks: the identity token `core.getIDToken` fetched, if any,
   * and on success the three values of the credential, and nothing else.
   */
  lemma RunMasks(raw: RawInputs, cap: Capabilities)
    ensures var o := Run(raw, cap);
      MaskedValues(o.trace) == IdTokenMasks(raw, cap)
        + (if o.result.Success? then {o.result.value.accessKeyId, o.result.value.accessKeySecret, o.result.value.securityToken} else {})
  {
    if raw.roleChaining == "true" {
      if Given(raw.roleToAssume) {
        RoleChainingMasks(raw, cap);
      }
    } else if Given(raw.roleToAssume) && Given(raw.oidcProviderArn) {
      OidcMasks(raw, cap);
    } else if Given(raw.roleToAssume) {
      EcsAssumeMasks(raw, cap);
    } else {
      EcsDirectMasks(raw, cap);
    }
  }

  /**
   * The job state after the action. On success the nine variables, the three
   * outputs and the masks carry the resolved credential (the masks also hold
   * the identity token an OIDC run fetched) and nothing else changes; on
   * failure nothing is published, the fetched identity token stays masked,
   * and the step fails with the error's message.
   */
  function ActionState(raw: RawInputs, cap: Capabilities, s: State): (r: State)
    ensures Run(raw, cap).result.Success? ==>
      var c := Run(raw, cap).result.value;
      && r.env.Keys == s.env.Keys + CredentialEnvVars.Keys
      && (forall n :: n in CredentialEnvVars ==> r.env[n] == FieldValue(c, CredentialEnvVars[n]))
      && (forall k :: k in s.env && k !in CredentialEnvVars ==> r.env[k] == s.env[k])
      && (forall f: Field ::
            OutputName(f) in r.outputs && r.outputs[OutputName(f)] == FieldValue(c, f))
      && r.outputs.Keys == s.outputs.Keys + (set f: Field :: OutputName(f))
      && (forall k :: k in s.outputs && k !in (set f: Field :: OutputName(f)) ==> r.outputs[k] == s.outputs[k])
      && r.masked == s.masked + IdTokenMasks(raw, cap) + {c.accessKeyId, c.accessKeySecret, c.securityToken}
      && r.failure == s.failure
    ensures Run(raw, cap).result.Failure? ==>
      r == s.(masked := s.masked + IdTokenMasks(raw, cap), failure := Some(Message(Run(raw, cap).result.error)))
  {
    var o := Run(raw, cap);
    RunMasks(raw, cap);
    if o.result.Success? then
      ActionSucceeds(o, s);
      Exec(s, Action(raw, cap))
    else
      ActionFails(o, s);
      Exec(s, Action(raw, cap))
  }

  /** A successful run: the quiet prefix only masks, then `setOutput` takes effect. */
  lemma ActionSucceeds(o: Outcome, s: State)
    requires WellPublished(o) && o.result.Success?
    ensures var c := o.result.value;
      var r := Exec(s, o.trace);
      && r.env.Keys == s.env.Keys + CredentialEnvVars.Keys
      && (forall n :: n in CredentialEnvVars ==> r.env[n] == FieldValue(c, CredentialEnvVars[n]))
      && (forall k :: k in s.env && k !in CredentialEnvVars ==> r.env[k] == s.env[k])
      && (forall f: Field ::
            OutputName(f) in r.outputs && r.outputs[OutputName(f)] == FieldValue(c, f))
      && r.outputs.Keys == s.outputs.Keys + (set f: Field :: OutputName(f))
      && (forall k :: k in s.outputs && k !in (set f: Field :: OutputName(f)) ==> r.outputs[k] == s.outputs[k])
      && r.masked == s.masked + MaskedValues(o.trace)
      && r.failure == s.failure
  {
    var c := o.result.value;
    var k := |o.trace| - |PublishCalls(c)|;
    var pre := o.trace[..k];
    assert o.trace == pre + PublishCalls(c);
    assert NoFailure(pre) by {
      forall i | 0 <= i < |pre| ensures !pre[i].SetFailed? {
        assert pre[i] == o.trace[i];
      }
    }
    ExecAppend(s, pre, PublishCalls(c));
    QuietTraceKeepsState(s, pre);
    PublishEffect(Exec(s, pre), c);
  }

  /** A failed run: nothing is published, only masks are added, and the step fails with the message. */
  lemma ActionFails(o: Outcome, s: State)
    requires WellPublished(o) && o.result.Failure?
    ensures Exec(s, o.trace + [SetFailed(Message(o.result.error))])
            == s.(masked := s.masked + MaskedValues(o.trace), failure := Some(Message(o.result.error)))
  {
    var m := Message(o.result.error);
    ExecAppend(s, o.trace, [SetFailed(m)]);
    QuietTraceKeepsState(s, o.trace);
    var q := Exec(s, o.trace);
    assert q == s.(masked := s.masked + MaskedValues(o.trace));
    assert [SetFailed(m)][1..] == [];
    assert Exec(q, [SetFailed(m)]) == Exec(Step(q, SetFailed(m)), []);
  }

  /**
   * An OIDC run that was handed an identity token leaves it masked in the job,
   * whether or not the run then succeeds.
   */
  lemma OidcTokenStaysMasked(raw: RawInputs, cap: Capabilities, s: State)
    requires raw.roleChaining != "true" && Given(raw.roleToAssume) && Given(raw.oidcProviderArn)
    requires cap.getIdToken(raw.audience).Success?
    ensures cap.getIdToken(raw.audience).value in ActionState(raw, cap, s).masked
  {
  }

  /**
   * Role chaining without a role fails the step with the fixed configuration
   * message before any host call, and leaves everything else as it was.
   */
  lemma ConfigErrorFailsStep(raw: RawInputs, cap: Capabilities, s: State)
    requires raw.roleChaining == "true" && !Given(raw.roleToAssume)
    ensures Action(raw, cap) == [SetFailed(ChainingWithoutRoleMessage)]
    ensures ActionState(raw, cap, s) == s.(failure := Some(ChainingWithoutRoleMessage))
  {
  }
}
