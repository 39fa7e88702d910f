/**
 * The credential triplet the action resolves, and the provider configurations
 * it hands to the credential SDK (src/main.ts).
 */
module Credentials {

  /** The `Credential` interface of src/main.ts: all three parts always present. */
  datatype Credential = Credential(accessKeyId: string, accessKeySecret: string, securityToken: string)

  /** Names one of the three parts of a credential. */
  datatype Field = AccessKeyId | AccessKeySecret | SecurityToken

  function FieldValue(c: Credential, f: Field): string
  {
    match f
    case AccessKeyId => c.accessKeyId
    case AccessKeySecret => c.accessKeySecret
    case SecurityToken => c.securityToken
  }

  /**
   * One provider configuration, as built by one branch of `run()`.
   * Durations are the raw `role-session-expiration` input; the SDK converts them.
   */
  datatype Request =
      /** `RAMRoleARNCredentialsProvider` over the environment-variable provider (role chaining); the expiration goes to `withDurationSeconds`. */
    | EnvAssumeRole(roleArn: string, roleSessionName: string, roleSessionExpiration: string)
      /** `Config({type: 'oidc_role_arn', ...})`. */
    | OidcRoleArn(roleArn: string, oidcProviderArn: string, oidcTokenFilePath: string,
                  roleSessionExpiration: string, roleSessionName: string)
      /** `Config({type: 'ecs_ram_role'})`: the ambient instance role. */
    | EcsRamRole
      /** `Config({type: 'ram_role_arn', ...})` seeded with a base credential. */
    | RamRoleArn(accessKeyId: string, accessKeySecret: string, securityToken: string,
                 roleArn: string, roleSessionExpiration: string, roleSessionName: string)
  {
    /** True for the requests that assume the configured role. */
    predicate AssumesRole()
    {
      !EcsRamRole?
    }
  }
}
