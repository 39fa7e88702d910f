/** `setOutput` of src/main.ts: how a resolved credential is published to the job. */
module Publish {
  import opened Credentials
  import opened Host

  /** The nine environment variables and the part of the credential each carries. */
  const CredentialEnvVars: map<string, Field> := map[
    "ALIBABA_CLOUD_ACCESS_KEY_ID" := AccessKeyId,
    "ALIBABA_CLOUD_ACCESS_KEY_SECRET" := AccessKeySecret,
    "ALIBABA_CLOUD_SECURITY_TOKEN" := SecurityToken,
    "ALIBABACLOUD_ACCESS_KEY_ID" := AccessKeyId,
    "ALIBABACLOUD_ACCESS_KEY_SECRET" := AccessKeySecret,
    "ALIBABACLOUD_SECURITY_TOKEN" := SecurityToken,
    "ALICLOUD_ACCESS_KEY" := AccessKeyId,
    "ALICLOUD_SECRET_KEY" := AccessKeySecret,
    "ALICLOUD_SECURITY_TOKEN" := SecurityToken]

  /** The step output that carries each part of the credential. */
  function OutputName(f: Field): string
  {
    match f
    case AccessKeyId => "aliyun-access-key-id"
    case AccessKeySecret => "aliyun-access-key-secret"
    case SecurityToken => "aliyun-security-token"
  }

  /** The calls `setOutput` makes, in its order: three masks, three outputs, nine exports. */
  function PublishCalls(c: Credential): (r: seq<Call>)
    ensures forall i :: 0 <= i < |r| ==> r[i].Publishes()
    ensures forall i :: 0 <= i < |r| && r[i].SetSecret? ==>
      r[i].value in {c.accessKeyId, c.accessKeySecret, c.securityToken}
    ensures forall i :: 0 <= i < |r| && r[i].ExportVariable? ==>
      r[i].name in CredentialEnvVars && r[i].value == FieldValue(c, CredentialEnvVars[r[i].name])
  {
    [ SetSecret(c.accessKeyId),
      SetSecret(c.accessKeySecret),
      SetSecret(c.securityToken),
      SetOutput("aliyun-access-key-id", c.accessKeyId),
      SetOutput("aliyun-access-key-secret", c.accessKeySecret),
      SetOutput("aliyun-security-token", c.securityToken),
      ExportVariable("ALIBABA_CLOUD_ACCESS_KEY_ID", c.accessKeyId),
      ExportVariable("ALIBABA_CLOUD_ACCESS_KEY_SECRET", c.accessKeySecret),
      ExportVariable("ALIBABA_CLOUD_SECURITY_TOKEN", c.securityToken),
      ExportVariable("ALICLOUD_ACCESS_KEY", c.accessKeyId),
      ExportVariable("ALICLOUD_SECRET_KEY", c.accessKeySecret),
      ExportVariable("ALICLOUD_SECURITY_TOKEN", c.securityToken),
      ExportVariable("ALIBABACLOUD_ACCESS_KEY_ID", c.accessKeyId),
      ExportVariable("ALIBABACLOUD_ACCESS_KEY_SECRET", c.accessKeySecret),
      ExportVariable("ALIBABACLOUD_SECURITY_TOKEN", c.securityToken) ]
  }

  /** Publishing calls only `@actions/core`: no provider, token or file call. */
  lemma PublishCallsOnlyPublish(c: Credential)
    ensures forall i :: 0 <= i < |PublishCalls(c)| ==> PublishCalls(c)[i].Publishes()
    ensures NoFailure(PublishCalls(c))
  {
  }

  /** `setOutput` exports exactly the nine credential variables, each once. */
  lemma PublishedNames(c: Credential)
    ensures ExportedNames(PublishCalls(c)) == CredentialEnvVars.Keys
    ensures ExportsDistinct(PublishCalls(c))
    ensures OutputNames(PublishCalls(c)) == set f: Field :: OutputName(f)
    ensures OutputsDistinct(PublishCalls(c))
    ensures MaskedValues(PublishCalls(c)) == {c.accessKeyId, c.accessKeySecret, c.securityToken}
  {
    PublishedExportNames(c);
    PublishedOutputsAndMasks(c);
  }

  /** The export half of `PublishedNames`. */
  lemma PublishedExportNames(c: Credential)
    ensures ExportedNames(PublishCalls(c)) == CredentialEnvVars.Keys
    ensures ExportsDistinct(PublishCalls(c))
  {
    PublishedExportsDistinct(c);
    var p := PublishCalls(c);
    assert p[6].name == "ALIBABA_CLOUD_ACCESS_KEY_ID";
    assert p[7].name == "ALIBABA_CLOUD_ACCESS_KEY_SECRET";
    assert p[8].name == "ALIBABA_CLOUD_SECURITY_TOKEN";
    assert p[9].name == "ALICLOUD_ACCESS_KEY";
    assert p[10].name == "ALICLOUD_SECRET_KEY";
    assert p[11].name == "ALICLOUD_SECURITY_TOKEN";
    assert p[12].name == "ALIBABACLOUD_ACCESS_KEY_ID";
    assert p[13].name == "ALIBABACLOUD_ACCESS_KEY_SECRET";
    assert p[14].name == "ALIBABACLOUD_SECURITY_TOKEN";
  }

  /** No credential variable is exported twice. */
  lemma PublishedExportsDistinct(c: Credential)
    ensures ExportsDistinct(PublishCalls(c))
  {
  }

  /** The output and mask half of `PublishedNames`. */
  lemma PublishedOutputsAndMasks(c: Credential)
    ensures OutputNames(PublishCalls(c)) == set f: Field :: OutputName(f)
    ensures OutputsDistinct(PublishCalls(c))
    ensures MaskedValues(PublishCalls(c)) == {c.accessKeyId, c.accessKeySecret, c.securityToken}
  {
    var p := PublishCalls(c);
    assert p[0].value == c.accessKeyId && p[1].value == c.accessKeySecret && p[2].value == c.securityToken;
    assert OutputName(AccessKeyId) == p[3].name;
    assert OutputName(AccessKeySecret) == p[4].name;
    assert OutputName(SecurityToken) == p[5].name;
  }

  /**
   * `setOutput` masks first: every value it writes to an output or a variable
   * was already masked by an earlier call of the same trace.
   */
  lemma PublishMasksFirst(c: Credential)
    ensures forall i ::
      0 <= i < |PublishCalls(c)| && (PublishCalls(c)[i].SetOutput? || PublishCalls(c)[i].ExportVariable?) ==>
        PublishCalls(c)[i].value in MaskedValues(PublishCalls(c)[..i])
  {
    var p := PublishCalls(c);
    assert p[..3] == [SetSecret(c.accessKeyId), SetSecret(c.accessKeySecret), SetSecret(c.securityToken)];
    forall i | 0 <= i < |p| && (p[i].SetOutput? || p[i].ExportVariable?)
      ensures p[i].value in MaskedValues(p[..i])
    {
      var q := p[..i];
      assert 3 <= i;
      assert q[..3] == p[..3];
      assert q[0] == SetSecret(c.accessKeyId);
      assert q[1] == SetSecret(c.accessKeySecret);
      assert q[2] == SetSecret(c.securityToken);
      assert {c.accessKeyId, c.accessKeySecret, c.securityToken} <= MaskedValues(q);
      assert p[i].value in {c.accessKeyId, c.accessKeySecret, c.securityToken};
    }
  }

  /** `setOutput` sets all three outputs before it exports any variable. */
  lemma PublishOutputsBeforeExports(c: Credential)
    ensures forall i, j ::
      0 <= i < |PublishCalls(c)| && 0 <= j < |PublishCalls(c)| &&
      PublishCalls(c)[i].SetOutput? && PublishCalls(c)[j].ExportVariable? ==>
        i < j
  {
    var p := PublishCalls(c);
    assert forall i :: 0 <= i < |p| && p[i].SetOutput? ==> i < 6;
    assert forall j :: 0 <= j < |p| && p[j].ExportVariable? ==> 6 <= j;
  }

  /** After `setOutput` each of the nine variables holds its part of the credential. */
  lemma PublishSetsEnv(s: State, c: Credential)
    ensures forall n :: n in CredentialEnvVars ==>
      n in Exec(s, PublishCalls(c)).env && Exec(s, PublishCalls(c)).env[n] == FieldValue(c, CredentialEnvVars[n])
  {
    var p := PublishCalls(c);
    PublishedExportNames(c);
    forall n | n in CredentialEnvVars
      ensures n in Exec(s, p).env && Exec(s, p).env[n] == FieldValue(c, CredentialEnvVars[n])
    {
      assert n in ExportedNames(p);
      var i :| 0 <= i < |p| && p[i].ExportVariable? && p[i].name == n;
      ExecExportLands(s, p, i);
    }
  }

  /** After `setOutput` each of the three outputs holds its part of the credential. */
  lemma PublishSetsOutputs(s: State, c: Credential)
    ensures forall f: Field ::
      OutputName(f) in Exec(s, PublishCalls(c)).outputs
      && Exec(s, PublishCalls(c)).outputs[OutputName(f)] == FieldValue(c, f)
  {
    var p := PublishCalls(c);
    assert OutputsDistinct(p);
    forall f: Field
      ensures OutputName(f) in Exec(s, p).outputs && Exec(s, p).outputs[OutputName(f)] == FieldValue(c, f)
    {
      var i := match f case AccessKeyId => 3 case AccessKeySecret => 4 case SecurityToken => 5;
      assert p[i].SetOutput? && p[i].name == OutputName(f) && p[i].value == FieldValue(c, f);
      ExecOutputLands(s, p, i);
    }
  }

  /**
   * The job state after `setOutput`: all three values masked, the three outputs
   * and the nine variables set from the credential, everything else unchanged.
   */
  lemma PublishEffect(s: State, c: Credential)
    ensures var r := Exec(s, PublishCalls(c));
      && r.env.Keys == s.env.Keys + CredentialEnvVars.Keys
      && (forall n :: n in CredentialEnvVars ==> r.env[n] == FieldValue(c, CredentialEnvVars[n]))
      && (forall k :: k in s.env && k !in CredentialEnvVars ==> r.env[k] == s.env[k])
      && (forall f: Field :: OutputName(f) in r.outputs && r.outputs[OutputName(f)] == FieldValue(c, f))
      && r.outputs.Keys == s.outputs.Keys + (set f: Field :: OutputName(f))
      && (forall k :: k in s.outputs && k !in (set f: Field :: OutputName(f)) ==> r.outputs[k] == s.outputs[k])
      && r.masked == s.masked + {c.accessKeyId, c.accessKeySecret, c.securityToken}
      && r.failure == s.failure
  {
    PublishedNames(c);
    PublishCallsOnlyPublish(c);
    PublishSetsEnv(s, c);
    PublishSetsOutputs(s, c);
  }
}
