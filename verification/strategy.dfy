/**
 * The four mutually exclusive ways `run()` in src/main.ts obtains a credential,
 * and the first-match-wins choice between them.
 */
module Strategies {
  import opened Wrappers
  import opened Errors
  import opened Inputs

  /** One acquisition strategy, holding only the configuration it uses. */
  datatype Strategy =
      /** Assume `roleArn` with the credentials already in the environment. */
    | RoleChaining(roleArn: string, roleSessionName: string, roleSessionExpiration: string)
      /** Exchange an OIDC identity token for `roleArn`. */
    | OidcAssume(roleArn: string, oidcProviderArn: string, roleSessionName: string,
                 roleSessionExpiration: string, audience: string)
      /** Fetch the instance-role credential, then assume `roleArn` with it. */
    | EcsAssume(roleArn: string, roleSessionName: string, roleSessionExpiration: string)
      /** Use the instance-role credential as it is. */
    | EcsDirect

  /**
   * When strategy `s` is the one to run for `c`. Each case states its whole
   * condition, so the cases can be read in any order.
   */
  predicate Admissible(c: Config, s: Strategy)
  {
    match s
    case RoleChaining(arn, name, exp) =>
      && c.roleChaining && Given(c.roleToAssume)
      && arn == c.roleToAssume && name == c.roleSessionName && exp == c.roleSessionExpiration
    case OidcAssume(arn, oidc, name, exp, aud) =>
      && !c.roleChaining && Given(c.roleToAssume) && Given(c.oidcProviderArn)
      && arn == c.roleToAssume && oidc == c.oidcProviderArn && name == c.roleSessionName
      && exp == c.roleSessionExpiration && aud == c.audience
    case EcsAssume(arn, name, exp) =>
      && !c.roleChaining && Given(c.roleToAssume) && !Given(c.oidcProviderArn)
      && arn == c.roleToAssume && name == c.roleSessionName && exp == c.roleSessionExpiration
    case EcsDirect =>
      !c.roleChaining && !Given(c.roleToAssume)
  }

  /**
   * The branch tests of `run()`, top to bottom: chaining (guarded), OIDC, then the
   * ECS path with or without role assumption.
   */
  function SelectStrategy(c: Config): (r: Result<Strategy, Error>)
    ensures r.Failure? <==> c.roleChaining && !Given(c.roleToAssume)
    ensures r.Failure? ==> r.error == ChainingWithoutRole
    ensures r.Success? ==> Admissible(c, r.value)
  {
    if c.roleChaining then
      if !Given(c.roleToAssume) then Failure(ChainingWithoutRole)
      else Success(RoleChaining(c.roleToAssume, c.roleSessionName, c.roleSessionExpiration))
    else if Given(c.roleToAssume) && Given(c.oidcProviderArn) then
      Success(OidcAssume(c.roleToAssume, c.oidcProviderArn, c.roleSessionName,
                         c.roleSessionExpiration, c.audience))
    else if Given(c.roleToAssume) then
      Success(EcsAssume(c.roleToAssume, c.roleSessionName, c.roleSessionExpiration))
    else
      Success(EcsDirect)
  }

  /** The strategies are mutually exclusive: at most one is admissible for a configuration. */
  lemma AdmissibleUnique(c: Config, s1: Strategy, s2: Strategy)
    requires Admissible(c, s1) && Admissible(c, s2)
    ensures s1 == s2
  {
  }

  /** The selection picks exactly the admissible strategy, in both directions. */
  lemma SelectIsAdmissible(c: Config, s: Strategy)
    ensures SelectStrategy(c) == Success(s) <==> Admissible(c, s)
  {
  }

  /** Role chaining wins over OIDC: an OIDC provider ARN is ignored while chaining is on. */
  lemma ChainingWinsOverOidc(c: Config)
    requires c.roleChaining && Given(c.roleToAssume) && Given(c.oidcProviderArn)
    ensures SelectStrategy(c).Success? && SelectStrategy(c).value.RoleChaining?
  {
  }

  /** OIDC is chosen exactly when both ARNs are given and chaining is off. */
  lemma OidcNeedsBothArns(c: Config)
    ensures (SelectStrategy(c).Success? && SelectStrategy(c).value.OidcAssume?)
            <==> !c.roleChaining && Given(c.roleToAssume) && Given(c.oidcProviderArn)
  {
  }

  /** An OIDC provider ARN without a role to assume falls through to the direct ECS path. */
  lemma OidcArnWithoutRoleIsDirect(c: Config)
    requires !c.roleChaining && !Given(c.roleToAssume)
    ensures SelectStrategy(c) == Success(EcsDirect)
  {
  }
}
