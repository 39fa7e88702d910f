# configure-aliyun-credentials-action, modelled in Dafny

The action resolves short-lived Alibaba Cloud credentials for a CI job and
publishes them to the rest of the job. `run()` in `src/main.ts` picks exactly
one of four strategies from the action inputs, first match wins:

1. **role chaining** (`role-chaining` is exactly `"true"`): assume
   `role-to-assume` with the credentials already in the environment; an empty
   `role-to-assume` is a configuration error raised before any call;
2. **OIDC** (`role-to-assume` and `oidc-provider-arn` both given): fetch an
   identity token for `audience`, write it to `<tmpdir>/token`, then call the
   `oidc_role_arn` provider with that path;
3. **ECS role + assume-role** (`role-to-assume` given, no OIDC ARN): fetch the
   instance-role credential, then assume the role seeded with its three fields;
4. **direct ECS role** (`role-to-assume` empty): use the instance-role credential.

On success `setOutput` masks the three values, sets three step outputs and
nine environment variables. `src/cleanup.ts` blanks the same nine variables
at the end of the job.

The model:

- `wrappers.dfy`: `Option` and `Result`.
- `credentials.dfy`: `Credential`, `Field` and `Request`. A `Request` is one
  provider configuration the code builds.
- `errors.dfy`: the four ways a run rejects, and the message each reports.
- `inputs.dfy`: the raw inputs as `core.getInput` returns them (`""` means
  absent), and their decoding.
- `strategy.dfy`: the `Strategy` union, the first-match `SelectStrategy`, and
  `Admissible`. `Admissible` gives each strategy's full condition on its own,
  so the order of the tests does not matter.
- `host.dfy`: every interaction with `@actions/core`, the file system and the
  SDK is a `Call`. `Exec` runs a trace of calls against the job `State`
  (environment, outputs, masked values, failure).
- `publish.dfy`: the fifteen calls `setOutput` makes, and the table of the
  nine variables.
- `cleanup.dfy`: the nine calls of `src/cleanup.ts`.
- `engine.dfy`: the host's answers as oracles (`Capabilities`), the branches
  of `run()` (`Execute`), `Run` itself, and the entry point (`Action`,
  `ActionState`).

The credential SDK, `core.getIDToken`, `writeFile` and `os.tmpdir()` are
parameters, given as pure functions in `Capabilities`. Each call to them is
recorded in the trace, so the ordering properties are statements about the
trace. `core.getIDToken` (src/main.ts:68) has one effect on the job besides
its answer: it calls `core.setSecret` on the token before returning it. The
trace records that as a `MaskToken` call right after the fetch, so after an
OIDC run the identity token is masked too, whether or not the run succeeds.

Some facts of the source the model keeps as they are:

- The configuration error text (src/main.ts:49) is
  `'role-to-assume' must be provided if 'role-chaining' is provided`, quote marks included.
- `setOutput` exports the `ALICLOUD_*` triple (src/main.ts:36-38) before the
  `ALIBABACLOUD_*` triple (src/main.ts:40-42). Every name is exported once, so
  the order cannot be observed in the job environment.
- A rejected `core.getIDToken` (src/main.ts:68) or `writeFile` (src/main.ts:71)
  fails the run like a provider failure. The model has an error kind for each
  (`IdTokenFailed`, `TokenWriteFailed`).

## Model

| member | source | states |
|---|---|---|
| Inputs.Decode | src/main.ts:18-23 | chaining is on exactly when the raw `role-chaining` input is the string `"true"`; every other input passes through unchanged |
| Strategies.SelectStrategy | src/main.ts:47-111 | fails exactly when chaining is on and `role-to-assume` is empty, with the chaining error; otherwise the strategy it returns is admissible for the configuration |
| Strategies.AdmissibleUnique | src/main.ts:47-114 | the four strategies are mutually exclusive: at most one is admissible for any configuration |
| Strategies.SelectIsAdmissible | src/main.ts:47-114 | the selection returns `s` if and only if `s` is admissible |
| Strategies.ChainingWinsOverOidc | src/main.ts:47-66 | with chaining on and a role given, chaining is chosen even when an OIDC provider ARN is set |
| Strategies.OidcNeedsBothArns | src/main.ts:66 | OIDC is chosen if and only if chaining is off and both the role and the OIDC provider ARN are given |
| Strategies.OidcArnWithoutRoleIsDirect | src/main.ts:96-114 | an OIDC provider ARN without a role to assume leads to the direct ECS strategy |
| Host.Exec | src/main.ts:26-42 | running a trace of host calls changes exactly the variables, outputs and masks the trace touches, and keeps every other key's value |
| Publish.PublishCalls | src/main.ts:25-43 | every call `setOutput` makes is a mask, an output or an export; each mask is one of the three credential values; each export names one of the nine credential variables and carries the part of the credential that variable is for |
| Publish.PublishCallsOnlyPublish | src/main.ts:25-43 | `setOutput` only masks, sets outputs and exports; it never calls a provider and never fails the step |
| Publish.PublishedNames | src/main.ts:29-42 | `setOutput` exports exactly the nine credential variables once each, sets the three named outputs once each, and masks exactly the three credential values |
| Publish.PublishMasksFirst | src/main.ts:25-43 | every value `setOutput` writes to an output or a variable was masked by an earlier call of the same `setOutput`: the three `setSecret` calls come first |
| Publish.PublishOutputsBeforeExports | src/main.ts:29-42 | `setOutput` sets all three outputs before it exports any variable |
| Publish.PublishSetsEnv | src/main.ts:33-42 | after `setOutput`, each `*_ID`/`ACCESS_KEY` variable holds the key id, each `*_SECRET`/`SECRET_KEY` variable the secret, each `*_SECURITY_TOKEN` variable the token |
| Publish.PublishSetsOutputs | src/main.ts:29-31 | after `setOutput`, the three outputs hold the key id, the secret and the token |
| Publish.PublishEffect | src/main.ts:25-43 | the full effect of `setOutput`: all three values masked, three outputs and nine variables set from the credential, every other variable and output unchanged, and the step is not failed |
| Engine.TokenFilePath | src/main.ts:69 | the token path is the temporary directory followed by `/token` |
| Engine.Execute | src/main.ts:52-114 | every strategy publishes the credential once, as its last calls, on success; it publishes nothing on failure; it never raises the configuration error |
| Engine.Run | src/main.ts:45-115 | the configuration error happens exactly when the input is `"true"` and the role is empty, and then no host call is made; a success publishes once, at the end; a failure publishes nothing |
| Engine.RunExecutesAdmissible | src/main.ts:47-114 | the run is exactly the execution of the one admissible strategy |
| Engine.RoleChainingBranch | src/main.ts:47-62 | with chaining on and a role given, whatever the OIDC ARN: the single provider call is the environment-credential assume-role request with the role, session name and expiration unchanged, and its answer is the result; the whole trace is that call followed, on success, by `setOutput` of the answer and nothing else |
| Engine.OidcBranch | src/main.ts:66-84 | the OIDC branch fetches the token for `audience` first, and the fetch masks it; then it writes exactly that token to `<tmpdir>/token`, and only then makes the single OIDC provider call with that same path; a failed fetch or write stops before any provider call; after a successful write the whole trace is the fetch, the mask, the write, the provider call and, on success, `setOutput` of the answer and nothing else |
| Engine.EcsAssumeBranch | src/main.ts:88-110 | the instance role is called first; if it fails the run stops after that one call; otherwise the second and last provider call is the assume-role request whose key id, secret and token are the first answer's, field for field, and the whole trace is the two provider calls followed, on success, by `setOutput` of the second answer and nothing else |
| Engine.EcsDirectBranch | src/main.ts:88-114 | exactly one provider call (the instance role); on success its credential is published unmodified right after it |
| Engine.AssumeRequestsCarryInputs | src/main.ts:52-106 | on every path there are at most two provider calls, and every role-assuming request carries `role-to-assume`, the session name and the expiration unchanged |
| Engine.OnlyExactTrueChains | src/main.ts:22-47 | only the exact input `"true"` enables chaining: any other value never raises the chaining error and never builds an environment-credential request; `"true"` always does one of the two |
| Engine.Action | src/main.ts:117-121 | the entry point's calls begin with the run's own calls; a successful run publishes once, at the end, and never fails the step; a failed run publishes nothing and adds exactly one call after the run's own: `setFailed` carrying the error's message |
| Engine.RunMasks | src/main.ts:45-115 | a run masks exactly the identity token `core.getIDToken` handed out (only when OIDC is selected and the fetch succeeds) and, on success, the three credential values |
| Engine.ActionState | src/main.ts:117-121 | after the action on any job state: on success the nine variables and three outputs carry the resolved credential, the masks grow by its three values and by the identity token an OIDC run fetched, and nothing else changes; on failure nothing is published, only the fetched identity token is added to the masks, and the step fails with the error's message |
| Engine.OidcTokenStaysMasked | src/main.ts:66-68 | an OIDC run that was handed an identity token leaves it masked, whether the run then succeeds or fails |
| Engine.ConfigErrorFailsStep | src/main.ts:47-50 | chaining without a role makes only one call, `setFailed` with the fixed message, and changes nothing else |
| Cleanup.CleanupCalls | src/cleanup.ts:4-14 | every cleanup call exports `""` to one of the nine credential variables |
| Cleanup.CleanupCallsShape | src/cleanup.ts:4-14 | cleanup exports exactly the nine credential variables, once each and all to `""`, and does nothing else |
| Cleanup.ClearedNamesArePublishedNames | src/cleanup.ts:4-14 | the set of variables cleanup clears equals the set `setOutput` exports |
| Cleanup.Clean | src/cleanup.ts:4-14 | cleanup sets the nine variables to `""` and keeps every other variable, the outputs, the masks and the failure |
| Cleanup.CleanupIgnoresPriorState | src/cleanup.ts:1-14 | on the nine variables, cleanup's result is the same from any prior job state, including one where the action never ran |
| Cleanup.CleanupIdempotent | src/cleanup.ts:4-14 | cleaning twice gives the same state as cleaning once |
| Cleanup.PublishThenCleanup | src/cleanup.ts:4-14 | publishing a credential and then cleaning leaves all nine variables empty and every other variable as it was before publishing |

## Left out

- The `@alicloud/credentials` providers (`Config`, `CredentialClient`, `RAMRoleARNCredentialsProvider`, `EnvironmentVariableCredentialsProvider`). They do network, STS and metadata calls, so they are one oracle from `Request` to a credential or a failure message. A builder or constructor that throws is folded into that failure, so a `GetCredential` event in the trace also stands for a provider that could not be built (for role chaining the builder at src/main.ts:52-57 runs before any `getCredential`).
- The environment-variable base provider reads the process environment inside the SDK. The oracle does not receive the job environment.
- The oracles' answers are pure functions of their arguments. No run sends the same request twice, so an answer that depended on earlier calls would not change any run. The masking done inside `core.getIDToken` is modelled as its own call (`MaskToken`).
- How `core.getIDToken` obtains the token (the runner's token endpoint and its request variables): the fetch is the `getIdToken` oracle.
- `Number(roleSessionExpiration)`: a JavaScript float/NaN conversion. The raw input string is passed on as the expiration.
- `path.join` normalisation: the token path is `tmpdir + "/token"`.
- `core.getInput` reading, trimming and the `required` flag are upstream of the model. The inputs are the strings it returns.
- The TypeScript cast `as Credential` is unchecked in the source. The model assumes the SDK returns all three fields.
- How `core.setSecret`, `core.setOutput` and `core.exportVariable` work inside (log commands, the `GITHUB_OUTPUT`/`GITHUB_ENV` files): modelled as a set of masked values and two maps.
- async/await and promise plumbing, `console.log(err.stack)`, the exit code behind `core.setFailed`, and the `require.main === module` guard: host glue. A rejection is an `Error` value and a `SetFailed` call.
- The token file is never deleted, as in the source.
- `dist/main/index.js` and `dist/cleanup/index.js`: generated build output that duplicates `src`.
- `rollup.config.ts`: build configuration with no behaviour.
