// What is asked of a proposal before anything is done with it: its own model, and the plan's.
module Proposals {
  import opened Artifacts
  import opened Git
  import opened Paths
  import opened Policy
  import opened Sandbox
  import opened Text

  const KINDS: set<string> :=
    {"dependency_install", "format", "lint", "type_check", "build", "unit_test", "generated_test",
     "behavioral_verification", "security_policy", "other"}

  // Lower-case letters, digits, and after the first also underscores and hyphens.
  predicate IdOk(id: string) {
    && 1 <= |id| <= 100 && id[0] !in "_-"
    && forall c | c in id :: c in "abcdefghijklmnopqrstuvwxyz0123456789_-"
  }

  predicate CommandOk(command: CheckRequest) {
    && IdOk(command.id) && command.kind in KINDS
    && 1 <= |command.argv| <= 32 && 100 <= command.timeout <= 120_000
  }

  // Between 1 and 100 edits under different paths, and between 1 and 10 commands under different ids.
  predicate ProposalOk(edits: seq<Edit>, commands: seq<CheckRequest>) {
    && 1 <= |edits| <= 100 && AllOk(edits)
    && (forall i | 0 <= i < |edits| :: edits[i].path != "")
    && (forall i, j | 0 <= i < j < |edits| :: edits[i].path != edits[j].path)
    && 1 <= |commands| <= 10
    && (forall i, j | 0 <= i < |commands| && 0 <= j < |commands| && commands[i].id == commands[j].id :: i == j)
    && (forall i | 0 <= i < |commands| :: CommandOk(commands[i]))
  }

  // All the canonical forms of a proposal are one.
  lemma ProposalHasOneForm(lower: Lowering, edits: seq<Edit>, commands: seq<CheckRequest>, c: seq<Edit>, c': seq<Edit>)
    requires ProposalOk(edits, commands)
    requires CanonicalFor(lower, edits, c) && CanonicalFor(lower, edits, c')
    ensures c == c'
  {
    CanonicalFormIsOne(lower, edits, c, c');
  }

  // A step concerns known call sites, and the paths it expects are ones the policy allows.
  predicate StepAllowed(lower: Lowering, sites: set<string>, step: PlanStep) {
    && step.callSites <= sites
    && forall i | 0 <= i < |step.expectedPaths| :: NormalizeTrusted(lower, step.expectedPaths[i]).Some?
  }

  predicate PlanAllowed(lower: Lowering, sites: set<string>, plan: seq<PlanStep>) {
    forall i | 0 <= i < |plan| :: StepAllowed(lower, sites, plan[i])
  }

  lemma PlanAllowedExactly(lower: Lowering, sites: set<string>, plan: seq<PlanStep>)
    ensures PlanAllowed(lower, sites, plan) <==>
      && (forall i, site | 0 <= i < |plan| && site in plan[i].callSites :: site in sites)
      && (forall i, path | 0 <= i < |plan| && path in plan[i].expectedPaths :: NormalizeTrusted(lower, path).Some?)
  {
    forall i | 0 <= i < |plan|
      ensures StepAllowed(lower, sites, plan[i]) <==>
        && (forall site | site in plan[i].callSites :: site in sites)
        && (forall path | path in plan[i].expectedPaths :: NormalizeTrusted(lower, path).Some?)
    {
      StepAllowedExactly(lower, sites, plan[i]);
    }
  }

  lemma StepAllowedExactly(lower: Lowering, sites: set<string>, step: PlanStep)
    ensures StepAllowed(lower, sites, step) <==>
      && (forall site | site in step.callSites :: site in sites)
      && (forall path | path in step.expectedPaths :: NormalizeTrusted(lower, path).Some?)
  {
  }

  method ValidatePlan(lower: Lowering, sites: set<string>, plan: seq<PlanStep>) returns (ok: bool)
    ensures ok <==> PlanAllowed(lower, sites, plan)
    ensures ok <==>
      && (forall i, site | 0 <= i < |plan| && site in plan[i].callSites :: site in sites)
      && (forall i, path | 0 <= i < |plan| && path in plan[i].expectedPaths :: NormalizeTrusted(lower, path).Some?)
  {
    PlanAllowedExactly(lower, sites, plan);
    for i := 0 to |plan|
      invariant forall j | 0 <= j < i :: StepAllowed(lower, sites, plan[j])
    {
      var step := plan[i];
      if !(step.callSites <= sites) { return false; }
      for k := 0 to |step.expectedPaths|
        invariant forall l | 0 <= l < k :: NormalizeTrusted(lower, step.expectedPaths[l]).Some?
      {
        if NormalizeTrusted(lower, step.expectedPaths[k]).None? { return false; }
      }
    }
    return true;
  }
}
