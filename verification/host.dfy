/**
 * The host the action runs in: the calls it makes on `@actions/core`, the file
 * system and the credential SDK, and what those calls do to the job's state.
 */
module Host {
  import opened Wrappers
  import opened Credentials

  /** One interaction of the action with its host, in the order it happens. */
  datatype Call =
      /** `core.setSecret`: mask a value in the job log. */
    | SetSecret(value: string)
      /** `core.setOutput`: set a step output. */
    | SetOutput(name: string, value: string)
      /** `core.exportVariable`: set an environment variable for the rest of the job. */
    | ExportVariable(name: string, value: string)
      /** `core.getIDToken`: ask the runner for an OIDC identity token. */
    | GetIdToken(audience: string)
      /** The `core.setSecret` that `core.getIDToken` makes on the token it fetched, before returning it. */
    | MaskToken(value: string)
      /** `writeFile` of `fs/promises`. */
    | WriteFile(path: string, content: string)
      /** `CredentialClient.getCredential` on a provider built from `request`. */
    | GetCredential(request: Request)
      /** `core.setFailed`: fail the step with a message. */
    | SetFailed(message: string)
  {
    /** True for the calls that publish a credential value; masking the identity token is not one. */
    predicate Publishes()
    {
      SetSecret? || SetOutput? || ExportVariable?
    }
  }

  /** What the job can observe after the step: its environment, outputs, masks and failure. */
  datatype State = State(
    env: map<string, string>,
    outputs: map<string, string>,
    masked: set<string>,
    failure: Option<string>)

  /** The effect of one call on the job state. */
  function Step(s: State, c: Call): State
  {
    match c
    case SetSecret(v) => s.(masked := s.masked + {v})
    case MaskToken(v) => s.(masked := s.masked + {v})
    case SetOutput(n, v) => s.(outputs := s.outputs[n := v])
    case ExportVariable(n, v) => s.(env := s.env[n := v])
    case SetFailed(m) => s.(failure := Some(m))
    case GetIdToken(_) => s
    case WriteFile(_, _) => s
    case GetCredential(_) => s
  }

  /** The environment variables a trace exports. */
  function ExportedNames(calls: seq<Call>): set<string>
  {
    set i | 0 <= i < |calls| && calls[i].ExportVariable? :: calls[i].name
  }

  /** The outputs a trace sets. */
  function OutputNames(calls: seq<Call>): set<string>
  {
    set i | 0 <= i < |calls| && calls[i].SetOutput? :: calls[i].name
  }

  /** The values a trace masks. */
  function MaskedValues(calls: seq<Call>): set<string>
  {
    set i | 0 <= i < |calls| && (calls[i].SetSecret? || calls[i].MaskToken?) :: calls[i].value
  }

  /** A trace without any publishing call. */
  predicate NoPublish(calls: seq<Call>)
  {
    forall i :: 0 <= i < |calls| ==> !calls[i].Publishes()
  }

  /** A trace that never fails the step. */
  predicate NoFailure(calls: seq<Call>)
  {
    forall i :: 0 <= i < |calls| ==> !calls[i].SetFailed?
  }

  /** How the name and value sets of a trace split at its first call. */
  lemma NamesCons(calls: seq<Call>)
    requires |calls| > 0
    ensures ExportedNames(calls)
            == (if calls[0].ExportVariable? then {calls[0].name} else {}) + ExportedNames(calls[1..])
    ensures OutputNames(calls)
            == (if calls[0].SetOutput? then {calls[0].name} else {}) + OutputNames(calls[1..])
    ensures MaskedValues(calls)
            == (if calls[0].SetSecret? || calls[0].MaskToken? then {calls[0].value} else {})
               + MaskedValues(calls[1..])
  {
    var rest := calls[1..];
    forall i | 1 <= i < |calls| ensures calls[i] == rest[i - 1] {}
    forall j | 0 <= j < |rest| ensures rest[j] == calls[j + 1] {}
  }

  /**
   * Runs a trace against the job state, first call first. Variables, outputs and
   * masks only grow, and exactly by what the trace touches.
   */
  function Exec(s: State, calls: seq<Call>): (r: State)
    ensures r.env.Keys == s.env.Keys + ExportedNames(calls)
    ensures forall k :: k in s.env && k !in ExportedNames(calls) ==> r.env[k] == s.env[k]
    ensures r.outputs.Keys == s.outputs.Keys + OutputNames(calls)
    ensures forall k :: k in s.outputs && k !in OutputNames(calls) ==> r.outputs[k] == s.outputs[k]
    ensures r.masked == s.masked + MaskedValues(calls)
    ensures NoFailure(calls) ==> r.failure == s.failure
    decreases |calls|
  {
    if |calls| == 0 then s
    else
      NamesCons(calls);
      Exec(Step(s, calls[0]), calls[1..])
  }

  /** Running two traces one after the other is running their concatenation. */
  lemma {:induction false} ExecAppend(s: State, a: seq<Call>, b: seq<Call>)
    ensures Exec(s, a + b) == Exec(Exec(s, a), b)
    decreases |a|
  {
    if |a| == 0 {
      assert a + b == b;
    } else {
      assert (a + b)[1..] == a[1..] + b;
      ExecAppend(Step(s, a[0]), a[1..], b);
    }
  }

  /** A trace that sets no output leaves the outputs as they were. */
  lemma NoOutputKeepsOutputs(s: State, calls: seq<Call>)
    requires OutputNames(calls) == {}
    ensures Exec(s, calls).outputs == s.outputs
  {
    SameEntriesSameMap(Exec(s, calls).outputs, s.outputs);
  }

  /** The values two traces mask, one after the other, are those each masks. */
  lemma MaskedAppend(a: seq<Call>, b: seq<Call>)
    ensures MaskedValues(a + b) == MaskedValues(a) + MaskedValues(b)
  {
    var ab := a + b;
    forall x | x in MaskedValues(ab) ensures x in MaskedValues(a) + MaskedValues(b) {
      var i :| 0 <= i < |ab| && (ab[i].SetSecret? || ab[i].MaskToken?) && ab[i].value == x;
      if i < |a| {
        assert ab[i] == a[i];
      } else {
        assert ab[i] == b[i - |a|];
      }
    }
    forall x | x in MaskedValues(a) ensures x in MaskedValues(ab) {
      var i :| 0 <= i < |a| && (a[i].SetSecret? || a[i].MaskToken?) && a[i].value == x;
      assert ab[i] == a[i];
    }
    forall x | x in MaskedValues(b) ensures x in MaskedValues(ab) {
      var i :| 0 <= i < |b| && (b[i].SetSecret? || b[i].MaskToken?) && b[i].value == x;
      assert ab[i + |a|] == b[i];
    }
  }

  /**
   * A trace without publishing or failing calls leaves the job state as it
   * was, except for the identity tokens it masks.
   */
  lemma QuietTraceKeepsState(s: State, calls: seq<Call>)
    requires NoPublish(calls) && NoFailure(calls)
    ensures Exec(s, calls) == s.(masked := s.masked + MaskedValues(calls))
  {
    assert ExportedNames(calls) == {} && OutputNames(calls) == {};
    var r := Exec(s, calls);
    assert r.env == s.env;
    assert r.outputs == s.outputs;
  }

  /** No variable is exported twice by the trace. */
  predicate ExportsDistinct(calls: seq<Call>)
  {
    forall i, j :: 0 <= i < j < |calls| && calls[i].ExportVariable? && calls[j].ExportVariable?
      ==> calls[i].name != calls[j].name
  }

  /** No output is set twice by the trace. */
  predicate OutputsDistinct(calls: seq<Call>)
  {
    forall i, j :: 0 <= i < j < |calls| && calls[i].SetOutput? && calls[j].SetOutput?
      ==> calls[i].name != calls[j].name
  }

  /** When no variable is exported twice, each export's value is what the job sees. */
  lemma {:induction false} ExecExportLands(s: State, calls: seq<Call>, i: nat)
    requires ExportsDistinct(calls)
    requires i < |calls| && calls[i].ExportVariable?
    ensures calls[i].name in Exec(s, calls).env
    ensures Exec(s, calls).env[calls[i].name] == calls[i].value
    decreases i
  {
    var rest := calls[1..];
    if i == 0 {
      forall x | x in ExportedNames(rest) ensures x != calls[0].name {
        var j :| 0 <= j < |rest| && rest[j].ExportVariable? && rest[j].name == x;
        assert rest[j] == calls[j + 1];
      }
    } else {
      assert rest[i - 1] == calls[i];
      forall a, b | 0 <= a < b < |rest| && rest[a].ExportVariable? && rest[b].ExportVariable?
        ensures rest[a].name != rest[b].name
      {
        assert rest[a] == calls[a + 1] && rest[b] == calls[b + 1];
      }
      ExecExportLands(Step(s, calls[0]), rest, i - 1);
    }
  }

  /** When no output is set twice, each output's value is what the job sees. */
  lemma {:induction false} ExecOutputLands(s: State, calls: seq<Call>, i: nat)
    requires OutputsDistinct(calls)
    requires i < |calls| && calls[i].SetOutput?
    ensures calls[i].name in Exec(s, calls).outputs
    ensures Exec(s, calls).outputs[calls[i].name] == calls[i].value
    decreases i
  {
    var rest := calls[1..];
    if i == 0 {
      forall x | x in OutputNames(rest) ensures x != calls[0].name {
        var j :| 0 <= j < |rest| && rest[j].SetOutput? && rest[j].name == x;
        assert rest[j] == calls[j + 1];
      }
    } else {
      assert rest[i - 1] == calls[i];
      forall a, b | 0 <= a < b < |rest| && rest[a].SetOutput? && rest[b].SetOutput?
        ensures rest[a].name != rest[b].name
      {
        assert rest[a] == calls[a + 1] && rest[b] == calls[b + 1];
      }
      ExecOutputLands(Step(s, calls[0]), rest, i - 1);
    }
  }

  /** Two maps with the same keys and the same value at every key are equal. */
  lemma SameEntriesSameMap(m1: map<string, string>, m2: map<string, string>)
    requires m1.Keys == m2.Keys
    requires forall k :: k in m1 ==> m1[k] == m2[k]
    ensures m1 == m2
  {
  }
}
