/** The action inputs and how src/main.ts decodes them at start-up. */
module Inputs {

  /**
   * The inputs exactly as `core.getInput` returns them. An input that was not
   * given is the empty string.
   */
  datatype RawInputs = RawInputs(
    roleSessionName: string,
    roleToAssume: string,
    oidcProviderArn: string,
    roleSessionExpiration: string,
    roleChaining: string,
    audience: string)

  /** The decoded configuration that `run()` branches on. */
  datatype Config = Config(
    roleSessionName: string,
    roleToAssume: string,
    oidcProviderArn: string,
    roleSessionExpiration: string,
    roleChaining: bool,
    audience: string)

  /** JavaScript truthiness of a string: only the empty string is falsy. */
  predicate Given(s: string)
  {
    s != ""
  }

  /** Decodes the inputs: every string passes through, `role-chaining` is compared with "true". */
  function Decode(raw: RawInputs): (c: Config)
    ensures c.roleChaining <==> raw.roleChaining == "true"
    ensures c.roleSessionName == raw.roleSessionName && c.roleToAssume == raw.roleToAssume
    ensures c.oidcProviderArn == raw.oidcProviderArn && c.audience == raw.audience
    ensures c.roleSessionExpiration == raw.roleSessionExpiration
  {
    Config(raw.roleSessionName, raw.roleToAssume, raw.oidcProviderArn,
           raw.roleSessionExpiration, raw.roleChaining == "true", raw.audience)
  }
}
