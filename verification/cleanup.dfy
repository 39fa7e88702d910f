/** src/cleanup.ts: the post-job step that blanks the credential variables. */
module Cleanup {
  import opened Credentials
  import opened Host
  import opened Publish

  /** The calls src/cleanup.ts makes, in its order: each of the nine variables set to "". */
  function CleanupCalls(): (r: seq<Call>)
    ensures forall i :: 0 <= i < |r| ==>
      r[i].ExportVariable? && r[i].value == "" && r[i].name in CredentialEnvVars
  {
    [ ExportVariable("ALIBABA_CLOUD_ACCESS_KEY_ID", ""),
      ExportVariable("ALIBABA_CLOUD_ACCESS_KEY_SECRET", ""),
      ExportVariable("ALIBABA_CLOUD_SECURITY_TOKEN", ""),
      ExportVariable("ALIBABACLOUD_ACCESS_KEY_ID", ""),
      ExportVariable("ALIBABACLOUD_ACCESS_KEY_SECRET", ""),
      ExportVariable("ALIBABACLOUD_SECURITY_TOKEN", ""),
      ExportVariable("ALICLOUD_ACCESS_KEY", ""),
      ExportVariable("ALICLOUD_SECRET_KEY", ""),
      ExportVariable("ALICLOUD_SECURITY_TOKEN", "") ]
  }

  /** The cleanup trace exports each of the nine variables once, and does nothing else. */
  lemma CleanupCallsShape()
    ensures ExportedNames(CleanupCalls()) == CredentialEnvVars.Keys
    ensures ExportsDistinct(CleanupCalls())
    ensures forall i :: 0 <= i < |CleanupCalls()| ==> CleanupCalls()[i].ExportVariable? && CleanupCalls()[i].value == ""
    ensures OutputNames(CleanupCalls()) == {} && MaskedValues(CleanupCalls()) == {}
    ensures NoFailure(CleanupCalls())
  {
    var q := CleanupCalls();
    assert q[0].name == "ALIBABA_CLOUD_ACCESS_KEY_ID";
    assert q[1].name == "ALIBABA_CLOUD_ACCESS_KEY_SECRET";
    assert q[2].name == "ALIBABA_CLOUD_SECURITY_TOKEN";
    assert q[3].name == "ALIBABACLOUD_ACCESS_KEY_ID";
    assert q[4].name == "ALIBABACLOUD_ACCESS_KEY_SECRET";
    assert q[5].name == "ALIBABACLOUD_SECURITY_TOKEN";
    assert q[6].name == "ALICLOUD_ACCESS_KEY";
    assert q[7].name == "ALICLOUD_SECRET_KEY";
    assert q[8].name == "ALICLOUD_SECURITY_TOKEN";
  }

  /** Cleanup clears exactly the variables `setOutput` publishes. */
  lemma ClearedNamesArePublishedNames(c: Credential)
    ensures ExportedNames(CleanupCalls()) == ExportedNames(PublishCalls(c))
  {
    CleanupCallsShape();
    PublishedNames(c);
  }

  /** Every variable the cleanup trace exports ends up "". */
  lemma CleanedToEmpty(s: State)
    ensures forall n :: n in CredentialEnvVars ==> n in Exec(s, CleanupCalls()).env && Exec(s, CleanupCalls()).env[n] == ""
  {
    var q := CleanupCalls();
    CleanupCallsShape();
    forall n | n in CredentialEnvVars ensures n in Exec(s, q).env && Exec(s, q).env[n] == "" {
      assert n in ExportedNames(q);
      var i :| 0 <= i < |q| && q[i].ExportVariable? && q[i].name == n;
      ExecExportLands(s, q, i);
    }
  }

  /** Cleanup adds the nine variables and keeps every other one. */
  lemma CleanupKeepsOtherVars(s: State)
    ensures Exec(s, CleanupCalls()).env.Keys == s.env.Keys + CredentialEnvVars.Keys
    ensures forall k :: k in s.env && k !in CredentialEnvVars ==> Exec(s, CleanupCalls()).env[k] == s.env[k]
  {
    CleanupCallsShape();
  }

  /** Cleanup touches neither outputs, masks nor the step's failure. */
  lemma CleanupKeepsRest(s: State)
    ensures Exec(s, CleanupCalls()).outputs == s.outputs
    ensures Exec(s, CleanupCalls()).masked == s.masked
    ensures Exec(s, CleanupCalls()).failure == s.failure
  {
    CleanupKeepsOutputs(s);
    CleanupCallsShape();
  }

  /** Cleanup leaves the step outputs as they were. */
  lemma CleanupKeepsOutputs(s: State)
    ensures Exec(s, CleanupCalls()).outputs == s.outputs
  {
    CleanupCallsShape();
    NoOutputKeepsOutputs(s, CleanupCalls());
  }

  /**
   * The cleanup step run against any job state: the nine variables become "",
   * every other variable, the outputs, the masks and the failure stay as they were.
   */
  function Clean(s: State): (r: State)
    ensures r.env.Keys == s.env.Keys + CredentialEnvVars.Keys
    ensures forall n :: n in CredentialEnvVars ==> r.env[n] == ""
    ensures forall k :: k in s.env && k !in CredentialEnvVars ==> r.env[k] == s.env[k]
    ensures r.outputs == s.outputs && r.masked == s.masked && r.failure == s.failure
  {
    CleanedToEmpty(s);
    CleanupKeepsOtherVars(s);
    CleanupKeepsRest(s);
    Exec(s, CleanupCalls())
  }

  /** Cleanup reads no state: on the nine variables its result is the same from any start. */
  lemma CleanupIgnoresPriorState(s1: State, s2: State)
    ensures forall n :: n in CredentialEnvVars ==>
      n in Clean(s1).env && n in Clean(s2).env && Clean(s1).env[n] == Clean(s2).env[n]
  {
  }

  /** A second cleanup finds every variable as the first one left it. */
  lemma CleanTwiceSameEnv(s: State)
    ensures Clean(Clean(s)).env == Clean(s).env
  {
    var once := Clean(s);
    var twice := Clean(once);
    SameEntriesSameMap(twice.env, once.env);
  }

  /** Cleaning twice is cleaning once. */
  lemma CleanupIdempotent(s: State)
    ensures Clean(Clean(s)) == Clean(s)
  {
    CleanTwiceSameEnv(s);
    var once := Clean(s);
    var twice := Clean(once);
    assert twice.outputs == once.outputs && twice.masked == once.masked && twice.failure == once.failure;
  }

  /** Publishing then cleaning leaves all nine credential variables empty. */
  lemma PublishThenCleanup(s: State, c: Credential)
    ensures Clean(Exec(s, PublishCalls(c))).env.Keys == s.env.Keys + CredentialEnvVars.Keys
    ensures forall n :: n in CredentialEnvVars ==> Clean(Exec(s, PublishCalls(c))).env[n] == ""
    ensures forall k :: k in s.env && k !in CredentialEnvVars ==> Clean(Exec(s, PublishCalls(c))).env[k] == s.env[k]
  {
    PublishEffect(s, c);
  }
}
