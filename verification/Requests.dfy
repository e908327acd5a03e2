// Which requests the sandbox worker accepts before it starts a sandbox.
module Requests {
  import opened Paths
  import opened Policy
  import opened Sandbox
  import opened Text

  const MAX_FILES := 1000
  const MAX_EDITS := 100
  const MAX_CHECKS := 10
  const MAX_REQUEST_BYTES := 12_582_912
  const MAX_COMMAND_TIMEOUT := 120_000

  // How the worker's side lower-cases, and how long the text of a request is. Its lower-casing need
  // not be the trusted side's.
  datatype WorkerSide = WorkerSide(lower: Lowering, bytes: ExecutionRequest -> nat)

  // The worker counts UTF-16 code units, where the policy counts characters.
  function Units(s: string): nat {
    if s == "" then 0 else Units(s[1..]) + if s[0] as int < 0x10000 then 1 else 2
  }

  predicate ArgumentFits(a: string) {
    a != "" && Units(a) <= 500 && '\0' !in a && '\r' !in a && '\n' !in a
  }

  predicate IdStart(c: char) { 'a' <= c <= 'z' || '0' <= c <= '9' }

  predicate IdFits(id: string) {
    && 1 <= |id| <= 100 && IdStart(id[0])
    && forall i | 0 <= i < |id| :: IdStart(id[i]) || id[i] == '_' || id[i] == '-'
  }

  predicate CheckFits(check: CheckRequest) {
    && IdFits(check.id) && 100 <= check.timeout <= MAX_COMMAND_TIMEOUT
    && 1 <= |check.argv| <= 32 && check.argv[0] in ALLOWED_EXECUTABLES
    && forall i | 0 <= i < |check.argv| :: ArgumentFits(check.argv[i])
  }

  predicate DifferentIds(checks: seq<CheckRequest>) {
    forall i, j | 0 <= i < j < |checks| :: checks[i].id != checks[j].id
  }

  predicate FilesFit(lower: Lowering, files: seq<FileEdit>) {
    && (forall i | 0 <= i < |files| :: NormalizeWorker(lower, files[i].path).Some?)
    && (forall i, j | 0 <= i < j < |files| ::
          NormalizeWorker(lower, files[i].path) != NormalizeWorker(lower, files[j].path))
  }

  predicate WorkerAccepts(worker: WorkerSide, request: ExecutionRequest) {
    && worker.bytes(request) <= MAX_REQUEST_BYTES
    && |request.files| <= MAX_FILES && FilesFit(worker.lower, request.files)
    && 1 <= |request.edits| <= MAX_EDITS && FilesFit(worker.lower, request.edits)
    && 1 <= |request.checks| <= MAX_CHECKS && DifferentIds(request.checks)
    && (forall i | 0 <= i < |request.checks| :: CheckFits(request.checks[i]))
  }

  // One unit for each character, and one more for each that lies beyond the basic plane.
  lemma {:induction false} UnitsAtLeast(s: string)
    ensures Units(s) >= |s|
    ensures Units(s) == |s| <==> forall c | c in s :: c as int <= 0xFFFF
  {
    if s != "" {
      var rest := s[1..];
      UnitsAtLeast(rest);
      assert s[0] in s && forall c :: c in s <==> c == s[0] || c in rest;
    }
  }

  // The worker takes at most ten checks, under different identifiers, and no command line that the
  // policy would not let through.
  lemma AcceptedChecksAreAllowed(worker: WorkerSide, request: ExecutionRequest)
    requires WorkerAccepts(worker, request)
    ensures 1 <= |request.checks| <= 10
    ensures forall i, j | 0 <= i < |request.checks| && 0 <= j < |request.checks| && i != j ::
      request.checks[i].id != request.checks[j].id
    ensures forall i | 0 <= i < |request.checks| :: CommandAllowed(request.checks[i].argv)
  {
    forall i, j | 0 <= i < |request.checks| && 0 <= j < |request.checks[i].argv|
      ensures ArgumentAllowed(request.checks[i].argv[j])
    {
      assert CheckFits(request.checks[i]);
      UnitsAtLeast(request.checks[i].argv[j]);
    }
  }
}
