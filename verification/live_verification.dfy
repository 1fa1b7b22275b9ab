/** The audit panel of components/LiveVerification.tsx: running an audit of
    the live site, listing its checkpoints, and asking for a repair of the
    failed ones. The generator's replies are parameters. */
module LiveVerification {
  import opened JsString
  import opened GeminiService

  /** The panel's state (lines 18-20). */
  datatype Panel = Panel(checkpoints: seq<Checkpoint>, loading: bool, isFixing: bool)

  /** How a failed checkpoint is put to the repair request. */
  function Finding(c: Checkpoint): string {
    c.name + ": " + c.status
  }

  /** `checkpoints.filter(c => !c.passed).map(...)`, computed. */
  function Findings(cs: seq<Checkpoint>): seq<string>
    decreases |cs|
  {
    if cs == [] then [] else (if cs[0].passed then [] else [Finding(cs[0])]) + Findings(cs[1..])
  }

  /** The repair request of line 38: a line for each failed checkpoint and
      nothing else. */
  function FailedFindings(cs: seq<Checkpoint>): (r: seq<string>)
    ensures |r| <= |cs|
    ensures forall c :: c in cs && !c.passed ==> Finding(c) in r
    ensures forall x :: x in r ==> exists c :: c in cs && !c.passed && x == Finding(c)
  {
    FindingsMeaning(cs);
    Findings(cs)
  }

  lemma {:induction false} FindingsMeaning(cs: seq<Checkpoint>)
    ensures |Findings(cs)| <= |cs|
    ensures forall c :: c in cs && !c.passed ==> Finding(c) in Findings(cs)
    ensures forall x :: x in Findings(cs) ==> exists c :: c in cs && !c.passed && x == Finding(c)
    decreases |cs|
  {
    if cs != [] {
      FindingsMeaning(cs[1..]);
      assert forall c :: c in cs ==> c == cs[0] || c in cs[1..];
      assert forall c :: c in cs[1..] ==> c in cs;
    }
  }

  /** Findings keep the checkpoints' order: the findings of a concatenation
      are the concatenation of the findings. */
  lemma FindingsAppend(a: seq<Checkpoint>, b: seq<Checkpoint>)
    ensures FailedFindings(a + b) == FailedFindings(a) + FailedFindings(b)
  {
    FindingsJoin(a, b);
  }

  lemma {:induction false} FindingsJoin(a: seq<Checkpoint>, b: seq<Checkpoint>)
    ensures Findings(a + b) == Findings(a) + Findings(b)
    decreases |a|
  {
    if a != [] {
      var head := if a[0].passed then [] else [Finding(a[0])];
      assert (a + b)[0] == a[0];
      assert (a + b)[1..] == a[1..] + b;
      FindingsJoin(a[1..], b);
      assert head + (Findings(a[1..]) + Findings(b)) == head + Findings(a[1..]) + Findings(b);
    } else {
      assert a + b == b;
    }
  }

  lemma FindingsSingle(c: Checkpoint)
    ensures FailedFindings([c]) == if c.passed then [] else [Finding(c)]
  {
    assert [c][1..] == [];
    assert Findings([c]) == (if c.passed then [] else [Finding(c)]) + Findings([]);
  }

  /** The failed ARIA checkpoint becomes the request "ARIA: Missing labels". */
  lemma AriaFinding(c: Checkpoint)
    requires c == Checkpoint("ARIA", "Missing labels", false)
    ensures FailedFindings([c]) == ["ARIA: Missing labels"]
  {
    FindingsSingle(c);
    assert Finding(c) == "ARIA: Missing labels";
  }

  /** `hasFails` (line 52): some checkpoint did not pass. */
  predicate HasFails(cs: seq<Checkpoint>) {
    exists i :: 0 <= i < |cs| && !cs[i].passed
  }

  /** The panel offers a repair exactly when the repair request would not be
      empty. */
  lemma HasFailsIffFindings(cs: seq<Checkpoint>)
    ensures HasFails(cs) <==> FailedFindings(cs) != []
  {
    var r := FailedFindings(cs);
    if HasFails(cs) {
      var i :| 0 <= i < |cs| && !cs[i].passed;
      assert cs[i] in cs;
    }
    if r != [] {
      assert r[0] in r;
      var c :| c in cs && !c.passed && r[0] == Finding(c);
      var i :| 0 <= i < |cs| && cs[i] == c;
    }
  }

  // ---------------------------------------------------------------------------
  // Running an audit

  /** The first half of `runAudit` (line 24). */
  function StartAudit(p: Panel): (r: Panel)
    ensures r.loading && r.checkpoints == p.checkpoints && r.isFixing == p.isFixing
  {
    p.(loading := true)
  }

  /** `runAudit` (lines 23-35), given the reply `verifyLiveDeployment` gets
      from the generator and the JSON parser. A reply that cannot be read
      clears the list (the service fails open to no checkpoints); a parsed
      reply without `checkpoints` and a rejected call keep the previous list. */
  function RunAudit(p: Panel, reply: Settled<Option<string>>, parse: string -> Parsed): (r: Panel)
    requires parse(EmptyAudit) == Parsed(Some([]))
    ensures !r.loading && r.isFixing == p.isFixing
    ensures reply.Rejected? ==> r.checkpoints == p.checkpoints
    ensures reply.Resolved? && !TruthyOpt(reply.value) ==> r.checkpoints == []
    ensures reply.Resolved? && TruthyOpt(reply.value) ==>
      r.checkpoints == match parse(reply.value.value)
        case Unparseable => []
        case Parsed(cps) => cps.GetOr(p.checkpoints)
  {
    var q := StartAudit(p);
    var found := match reply
      case Rejected(_) => None
      case Resolved(text) => AuditCheckpoints(text, parse);
    var q' := if found.Some? then q.(checkpoints := found.value) else q;
    q'.(loading := false)
  }

  // ---------------------------------------------------------------------------
  // Repairing

  /** A click on "Fix": the panel afterwards, the findings sent to the
      generator (none when no request is made), and the code handed to
      `onCodeUpdated` (none when it is not called). */
  datatype FixResult = FixResult(panel: Panel, request: Option<seq<string>>, update: Option<string>)

  /** `handleFixAll` (lines 37-50), given the generator's reply. */
  function HandleFixAll(p: Panel, reply: Settled<Option<string>>): (r: FixResult)
    ensures r.request.Some? <==> HasFails(p.checkpoints)
    ensures r.request.Some? ==> r.request.value == FailedFindings(p.checkpoints) && r.request.value != []
    ensures r.update.Some? <==> HasFails(p.checkpoints) && reply.Resolved?
    ensures r.update.Some? ==> r.update.value == CodeFromReply(reply).value && IsTrimmed(r.update.value)
    ensures r.panel.checkpoints == p.checkpoints && r.panel.loading == p.loading
    ensures HasFails(p.checkpoints) ==> !r.panel.isFixing
    ensures !HasFails(p.checkpoints) ==> r.panel == p
  {
    var failedOnes := FailedFindings(p.checkpoints);
    HasFailsIffFindings(p.checkpoints);
    if |failedOnes| == 0 then FixResult(p, None, None)
    else
      var fixing := p.(isFixing := true);
      match CodeFromReply(reply)
      case Resolved(code) => FixResult(fixing.(isFixing := false), Some(failedOnes), Some(code))
      case Rejected(_) => FixResult(fixing.(isFixing := false), Some(failedOnes), None)
  }

  // ---------------------------------------------------------------------------
  // Controls

  /** Line 181: the fix bar. */
  predicate FixBarShown(p: Panel) {
    HasFails(p.checkpoints) && !p.loading
  }

  /** Line 111: the audit button. */
  predicate AuditDisabled(p: Panel) {
    p.loading || p.isFixing
  }

  /** A fix offered by the bar always sends a request, and while an audit or
      a repair is running no new audit can start and no fix is offered
      during the audit. */
  lemma ControlsAgree(p: Panel, reply: Settled<Option<string>>)
    ensures FixBarShown(p) ==> HandleFixAll(p, reply).request.Some?
    ensures AuditDisabled(StartAudit(p)) && !FixBarShown(StartAudit(p))
    ensures AuditDisabled(p.(isFixing := true))
  {
  }
}
