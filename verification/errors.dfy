/** The ways `run()` in src/main.ts can reject, and the message each reports. */
module Errors {

  /** The text of the configuration error thrown when chaining is asked for without a role. */
  const ChainingWithoutRoleMessage: string :=
    "'role-to-assume' must be provided if 'role-chaining' is provided"

  datatype Error =
      /** Role chaining was requested but `role-to-assume` is empty. */
    | ChainingWithoutRole
      /** `core.getIDToken` rejected. */
    | IdTokenFailed(message: string)
      /** Writing the token file rejected. */
    | TokenWriteFailed(message: string)
      /** A credential provider rejected. */
    | ProviderFailed(message: string)

  /** The `err.message` that the entry point hands to `core.setFailed`. */
  function Message(e: Error): string
  {
    match e
    case ChainingWithoutRole => ChainingWithoutRoleMessage
    case IdTokenFailed(m) => m
    case TokenWriteFailed(m) => m
    case ProviderFailed(m) => m
  }
}
