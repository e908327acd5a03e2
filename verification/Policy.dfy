// The trusted patch policy: which proposals are accepted, the canonical edits they become, and
// the sandbox request built from them.
module Policy {
  import opened Git
  import opened Options
  import opened Paths
  import opened Sorting
  import opened Text

  const MAX_EDIT_BYTES := 2_000_000

  // What the checked-out repository holds at a path.
  datatype Target = Absent | RegularFile(sha256: string) | SymbolicLink | Elsewhere

  datatype PlanStep = PlanStep(id: string, callSites: set<string>, expectedPaths: seq<string>)

  // The expected paths by step id; of steps with the same id the last one counts.
  function Steps(plan: seq<PlanStep>): map<string, set<string>> {
    if plan == [] then map[]
    else
      var last := plan[|plan| - 1];
      Steps(plan[..|plan| - 1])[last.id := set i | 0 <= i < |last.expectedPaths| :: last.expectedPaths[i]]
  }

  // What the policy looks at: the plan, the repository, whether the proposal as a whole looks like it
  // holds a credential, and the library functions it calls.
  datatype Environment = Environment(
    plan: seq<PlanStep>, root: string -> Target, proposalSecret: bool, lower: Lowering,
    secret: string -> bool, size: string -> nat)

  const ALLOWED_EXECUTABLES: set<string> :=
    {"python", "python3", "pytest", "ruff", "mypy", "pyright", "pip", "uv", "poetry", "node", "npm",
     "npx", "pnpm", "yarn", "bun", "go", "cargo", "bundle"}

  predicate ArgumentAllowed(a: string) {
    a != "" && |a| <= 500 && '\0' !in a && '\r' !in a && '\n' !in a
  }

  predicate CommandAllowed(argv: seq<string>) {
    argv != [] && argv[0] in ALLOWED_EXECUTABLES &&
    forall i | 0 <= i < |argv| :: ArgumentAllowed(argv[i])
  }

  // The edit names steps of the plan, one of which expects its path.
  predicate Planned(plan: map<string, set<string>>, steps: seq<string>, path: string) {
    && (forall i | 0 <= i < |steps| :: steps[i] in plan)
    && (exists i | 0 <= i < |steps| :: steps[i] in plan && path in plan[steps[i]])
  }

  predicate EditAllowed(env: Environment, e: Edit) {
    var path := NormalizeTrusted(env.lower, e.path);
    && path.Some?
    && Planned(Steps(env.plan), e.steps, path.value)
    && !env.secret(e.content)
    && match env.root(path.value)
       case Absent => e.expected.None?
       case RegularFile(sha256) => e.expected == Some(sha256)
       case SymbolicLink => false
       case Elsewhere => false
  }

  function Sizes(size: string -> nat, edits: seq<Edit>): nat {
    if edits == [] then 0
    else Sizes(size, edits[..|edits| - 1]) + size(edits[|edits| - 1].content)
  }

  lemma {:induction false} SizesGrow(size: string -> nat, edits: seq<Edit>, n: nat)
    requires n <= |edits|
    ensures Sizes(size, edits[..n]) <= Sizes(size, edits)
    decreases |edits|
  {
    if n < |edits| {
      var all := edits[..|edits| - 1];
      assert all[..n] == edits[..n];
      SizesGrow(size, all, n);
    } else {
      assert edits[..n] == edits;
    }
  }

  const BY_PATH: Edit -> string := (e: Edit) => e.path
  const BY_ITSELF: string -> string := (s: string) => s

  function Canonical(lower: Lowering, e: Edit): Edit {
    match NormalizeTrusted(lower, e.path)
    case Some(path) => e.(path := path, steps := SortBy(e.steps, BY_ITSELF))
    case None => e
  }

  function CanonicalEdits(lower: Lowering, edits: seq<Edit>): seq<Edit> {
    MapSeq((e: Edit) => Canonical(lower, e), SortBy(edits, BY_PATH))
  }

  // A proposal is accepted when every edit and every command is, it holds no credential, and the
  // edits together fit the size limit.
  ghost predicate PatchAllowed(env: Environment, edits: seq<Edit>, commands: seq<seq<string>>) {
    && !env.proposalSecret
    && (forall e | e in edits :: EditAllowed(env, e))
    && Sizes(env.size, SortBy(edits, BY_PATH)) <= MAX_EDIT_BYTES
    && (forall i | 0 <= i < |commands| :: CommandAllowed(commands[i]))
  }

  // Goes through the edits in order, adding up their sizes and stopping at the first violation.
  method ValidateInOrder(
    allowed: Edit -> bool, size: string -> nat, canonical: Edit -> Edit, ordered: seq<Edit>)
    returns (r: Option<seq<Edit>>)
    ensures r.Some? <==> (forall j | 0 <= j < |ordered| :: allowed(ordered[j])) &&
                         Sizes(size, ordered) <= MAX_EDIT_BYTES
    ensures r.Some? ==> r.value == MapSeq(canonical, ordered)
  {
    var total := 0;
    var edits: seq<Edit> := [];
    for i := 0 to |ordered|
      invariant |edits| == i && total == Sizes(size, ordered[..i]) <= MAX_EDIT_BYTES
      invariant forall j | 0 <= j < i :: allowed(ordered[j])
      invariant forall j | 0 <= j < i :: edits[j] == canonical(ordered[j])
    {
      var e := ordered[i];
      SizesGrow(size, ordered, i + 1);
      assert ordered[..i + 1][..i] == ordered[..i];
      total := total + size(e.content);
      if !allowed(e) || total > MAX_EDIT_BYTES { return None; }
      edits := edits + [canonical(e)];
    }
    assert ordered[..|ordered|] == ordered;
    return Some(edits);
  }

  lemma AllowedInAnyOrder(env: Environment, edits: seq<Edit>, ordered: seq<Edit>)
    requires forall e :: e in ordered <==> e in edits
    ensures (forall e | e in edits :: EditAllowed(env, e)) <==>
            forall j | 0 <= j < |ordered| :: EditAllowed(env, ordered[j])
  {
    if forall e | e in edits :: EditAllowed(env, e) {
      forall j | 0 <= j < |ordered| ensures EditAllowed(env, ordered[j]) {
        assert ordered[j] in ordered;
      }
    }
    if forall j | 0 <= j < |ordered| :: EditAllowed(env, ordered[j]) {
      forall e | e in edits ensures EditAllowed(env, e) {
        var j :| 0 <= j < |ordered| && ordered[j] == e;
      }
    }
  }

  method ValidateCommands(commands: seq<seq<string>>) returns (ok: bool)
    ensures ok <==> forall i | 0 <= i < |commands| :: CommandAllowed(commands[i])
  {
    for i := 0 to |commands|
      invariant forall j | 0 <= j < i :: CommandAllowed(commands[j])
    {
      if !CommandAllowed(commands[i]) { return false; }
    }
    return true;
  }

  // ----- What is accepted, and what it becomes -----

  // The last step of a plan with this identifier.
  ghost predicate LastStep(plan: seq<PlanStep>, k: int, id: string) {
    0 <= k < |plan| && plan[k].id == id && forall l | k < l < |plan| :: plan[l].id != id
  }

  ghost predicate Known(plan: seq<PlanStep>, id: string) {
    exists k :: LastStep(plan, k, id)
  }

  // The named steps are all there, and one of them expects the path.
  ghost predicate Approved(plan: seq<PlanStep>, steps: seq<string>, path: string) {
    && (forall i | 0 <= i < |steps| :: Known(plan, steps[i]))
    && (exists i | 0 <= i < |steps| :: Expects(plan, steps[i], path))
  }

  ghost predicate Expects(plan: seq<PlanStep>, id: string, path: string) {
    exists k :: LastStep(plan, k, id) && path in plan[k].expectedPaths
  }

  // An edit either adds a file where there is none and declares no digest, or replaces a regular file
  // and declares its digest; its path is one the plan's steps approve, and it holds no credential.
  ghost predicate Acceptable(env: Environment, e: Edit) {
    var path := NormalizeTrusted(env.lower, e.path);
    && path.Some? && Approved(env.plan, e.steps, path.value) && !env.secret(e.content)
    && (e.expected.None? ==> env.root(path.value) == Absent)
    && (e.expected.Some? ==> env.root(path.value) == RegularFile(e.expected.value))
  }

  ghost predicate MayRun(argv: seq<string>) {
    && |argv| >= 1 && argv[0] in ALLOWED_EXECUTABLES
    && forall i | 0 <= i < |argv| ::
         1 <= |argv[i]| <= 500 && forall c | c in argv[i] :: c !in {'\0', '\r', '\n'}
  }

  ghost predicate ProposalAcceptable(env: Environment, edits: seq<Edit>, commands: seq<seq<string>>) {
    && !env.proposalSecret
    && (forall i | 0 <= i < |edits| :: Acceptable(env, edits[i]))
    && Sizes(env.size, edits) <= 2_000_000
    && (forall i | 0 <= i < |commands| :: MayRun(commands[i]))
  }

  // What a plan expects under an identifier: the paths of the last step that has it.
  ghost predicate ExpectedUnder(plan: seq<PlanStep>, named: map<string, set<string>>, id: string) {
    && (id in named <==> Known(plan, id))
    && (forall k | LastStep(plan, k, id) ::
          id in named && forall path :: path in named[id] <==> path in plan[k].expectedPaths)
  }

  lemma {:induction false} StepsMeans(plan: seq<PlanStep>, id: string)
    ensures ExpectedUnder(plan, Steps(plan), id)
  {
    if plan != [] {
      var n := |plan| - 1;
      StepsMeans(plan[..n], id);
      if plan[n].id == id {
        assert LastStep(plan, n, id);
      } else {
        forall k ensures LastStep(plan, k, id) <==> LastStep(plan[..n], k, id) {}
      }
    }
  }

  lemma ExpectedIs(plan: seq<PlanStep>, named: map<string, set<string>>, id: string, path: string)
    requires ExpectedUnder(plan, named, id)
    ensures Expects(plan, id, path) <==> id in named && path in named[id]
  {
    if id in named {
      var k :| LastStep(plan, k, id);
      assert path in named[id] <==> path in plan[k].expectedPaths;
    }
  }

  lemma ApprovedExactly(plan: seq<PlanStep>, steps: seq<string>, path: string)
    ensures Planned(Steps(plan), steps, path) <==> Approved(plan, steps, path)
  {
    var named := Steps(plan);
    forall i | 0 <= i < |steps| ensures steps[i] in named <==> Known(plan, steps[i]) {
      StepsMeans(plan, steps[i]);
    }
    forall i | 0 <= i < |steps|
      ensures Expects(plan, steps[i], path) <==> steps[i] in named && path in named[steps[i]]
    {
      StepsMeans(plan, steps[i]);
      ExpectedIs(plan, named, steps[i], path);
    }
  }

  lemma AcceptableExactly(env: Environment, e: Edit)
    ensures EditAllowed(env, e) <==> Acceptable(env, e)
  {
    var path := NormalizeTrusted(env.lower, e.path);
    if path.Some? { ApprovedExactly(env.plan, e.steps, path.value); }
  }

  lemma MayRunExactly(argv: seq<string>)
    ensures CommandAllowed(argv) <==> MayRun(argv)
  {
  }

  lemma {:induction false} SizesOfInserted(size: string -> nat, e: Edit, edits: seq<Edit>)
    ensures Sizes(size, Insert(e, edits, BY_PATH)) == Sizes(size, edits) + size(e.content)
    decreases |edits|
  {
    var inserted := Insert(e, edits, BY_PATH);
    if edits == [] || Less(e.path, edits[0].path) {
      SizesOfFirst(size, [e] + edits);
      assert ([e] + edits)[1..] == edits;
    } else {
      SizesOfInserted(size, e, edits[1..]);
      SizesOfFirst(size, edits);
      SizesOfFirst(size, inserted);
      assert inserted[1..] == Insert(e, edits[1..], BY_PATH);
    }
  }

  lemma {:induction false} SizesOfFirst(size: string -> nat, edits: seq<Edit>)
    requires edits != []
    ensures Sizes(size, edits) == size(edits[0].content) + Sizes(size, edits[1..])
    decreases |edits|
  {
    var n := |edits| - 1;
    if n > 0 {
      SizesOfFirst(size, edits[..n]);
      assert edits[..n][1..] == edits[1..][..n - 1] && edits[1..][n - 1] == edits[n];
    }
  }

  lemma {:induction false} SizesInAnyOrder(size: string -> nat, edits: seq<Edit>)
    ensures Sizes(size, SortBy(edits, BY_PATH)) == Sizes(size, edits)
    decreases |edits|
  {
    if edits != [] {
      var n := |edits| - 1;
      SizesInAnyOrder(size, edits[..n]);
      SizesOfInserted(size, edits[n], SortBy(edits[..n], BY_PATH));
    }
  }

  lemma AcceptedExactly(env: Environment, edits: seq<Edit>, commands: seq<seq<string>>)
    ensures PatchAllowed(env, edits, commands) <==> ProposalAcceptable(env, edits, commands)
  {
    SizesInAnyOrder(env.size, edits);
    forall e ensures EditAllowed(env, e) <==> Acceptable(env, e) { AcceptableExactly(env, e); }
    forall argv ensures CommandAllowed(argv) <==> MayRun(argv) { MayRunExactly(argv); }
    if forall i | 0 <= i < |edits| :: Acceptable(env, edits[i]) {
      forall e | e in edits ensures EditAllowed(env, e) {
        var i :| 0 <= i < |edits| && edits[i] == e;
      }
    }
    if forall e | e in edits :: EditAllowed(env, e) {
      forall i | 0 <= i < |edits| ensures Acceptable(env, edits[i]) { assert edits[i] in edits; }
    }
  }

  // What an edit becomes: its path in normal form, the same content, the same declared digest, and the
  // same steps in order.
  ghost predicate Becomes(lower: Lowering, e: Edit, c: Edit) {
    && NormalizeTrusted(lower, e.path) == Some(c.path)
    && c.content == e.content && c.expected == e.expected
    && multiset(c.steps) == multiset(e.steps)
    && forall i, j | 0 <= i < j < |c.steps| :: AtMost(c.steps[i], c.steps[j])
  }

  // The edits in order of the paths they were submitted under.
  ghost predicate InSubmittedOrder(edits: seq<Edit>, ordered: seq<Edit>) {
    && multiset(ordered) == multiset(edits)
    && forall i, j | 0 <= i < j < |ordered| :: AtMost(ordered[i].path, ordered[j].path)
  }

  ghost predicate AllBecome(lower: Lowering, ordered: seq<Edit>, canonical: seq<Edit>) {
    |canonical| == |ordered| && forall i | 0 <= i < |ordered| :: Becomes(lower, ordered[i], canonical[i])
  }

  // The canonical form of a proposal's edits.
  ghost predicate CanonicalFor(lower: Lowering, edits: seq<Edit>, canonical: seq<Edit>) {
    exists ordered: seq<Edit> :: InSubmittedOrder(edits, ordered) && AllBecome(lower, ordered, canonical)
  }

  lemma CanonicalMeans(lower: Lowering, e: Edit)
    requires NormalizeTrusted(lower, e.path).Some?
    ensures Becomes(lower, e, Canonical(lower, e))
  {
    SortPermutes(e.steps, BY_ITSELF);
    SortOrders(e.steps, BY_ITSELF);
    var steps := SortBy(e.steps, BY_ITSELF);
    forall i, j | 0 <= i < j < |steps| ensures AtMost(steps[i], steps[j]) {
      assert AtMost(BY_ITSELF(steps[i]), BY_ITSELF(steps[j]));
    }
  }

  lemma CanonicalEditsMean(lower: Lowering, edits: seq<Edit>)
    requires forall e | e in edits :: NormalizeTrusted(lower, e.path).Some?
    ensures CanonicalFor(lower, edits, CanonicalEdits(lower, edits))
  {
    var ordered := SortBy(edits, BY_PATH);
    SortMembers(edits, BY_PATH);
    SortPermutes(edits, BY_PATH);
    SortOrders(edits, BY_PATH);
    forall i, j | 0 <= i < j < |ordered| ensures AtMost(ordered[i].path, ordered[j].path) {
      assert AtMost(BY_PATH(ordered[i]), BY_PATH(ordered[j]));
    }
    forall i | 0 <= i < |ordered| ensures Becomes(lower, ordered[i], CanonicalEdits(lower, edits)[i]) {
      assert ordered[i] in ordered;
      CanonicalMeans(lower, ordered[i]);
    }
    assert InSubmittedOrder(edits, ordered) && AllBecome(lower, ordered, CanonicalEdits(lower, edits));
  }

  lemma BecomesOne(lower: Lowering, e: Edit, c: Edit, c': Edit)
    requires Becomes(lower, e, c) && Becomes(lower, e, c')
    ensures c == c'
  {
    forall i, j | 0 <= i < j < |c.steps| ensures AtMost(BY_ITSELF(c.steps[i]), BY_ITSELF(c.steps[j])) {}
    forall i, j | 0 <= i < j < |c'.steps| ensures AtMost(BY_ITSELF(c'.steps[i]), BY_ITSELF(c'.steps[j])) {}
    SortedIsUnique(c.steps, c'.steps, BY_ITSELF);
  }

  lemma SubmittedOrderIsOne(edits: seq<Edit>, ordered: seq<Edit>, ordered': seq<Edit>)
    requires InSubmittedOrder(edits, ordered) && InSubmittedOrder(edits, ordered')
    requires forall i, j | 0 <= i < j < |edits| :: edits[i].path != edits[j].path
    ensures ordered == ordered'
  {
    forall i, j | 0 <= i < j < |ordered| ensures AtMost(BY_PATH(ordered[i]), BY_PATH(ordered[j])) {}
    forall i, j | 0 <= i < j < |ordered'| ensures AtMost(BY_PATH(ordered'[i]), BY_PATH(ordered'[j])) {}
    forall x, y | x in multiset(ordered) && y in multiset(ordered) && BY_PATH(x) == BY_PATH(y) ensures x == y {
      assert x in multiset(edits) && y in multiset(edits);
      var i: nat :| i < |edits| && edits[i] == x;
      var j: nat :| j < |edits| && edits[j] == y;
    }
    SortedIsUnique(ordered, ordered', BY_PATH);
  }

  // If the submitted paths are different, as they are in every proposal, there is one canonical form.
  lemma CanonicalFormIsOne(lower: Lowering, edits: seq<Edit>, c: seq<Edit>, c': seq<Edit>)
    requires CanonicalFor(lower, edits, c) && CanonicalFor(lower, edits, c')
    requires forall i, j | 0 <= i < j < |edits| :: edits[i].path != edits[j].path
    ensures c == c'
  {
    var ordered: seq<Edit> :| InSubmittedOrder(edits, ordered) && AllBecome(lower, ordered, c);
    var ordered': seq<Edit> :| InSubmittedOrder(edits, ordered') && AllBecome(lower, ordered', c');
    SubmittedOrderIsOne(edits, ordered, ordered');
    forall i | 0 <= i < |c| ensures c[i] == c'[i] { BecomesOne(lower, ordered[i], c[i], c'[i]); }
  }

  // A proposal is accepted exactly if it is acceptable, and then becomes its canonical form.
  method ValidatePatch(env: Environment, edits: seq<Edit>, commands: seq<seq<string>>)
    returns (r: Option<seq<Edit>>)
    ensures r.Some? <==> ProposalAcceptable(env, edits, commands)
    ensures r.Some? ==> CanonicalFor(env.lower, edits, r.value)
    ensures r.Some? <==> PatchAllowed(env, edits, commands)
    ensures r.Some? ==> r.value == CanonicalEdits(env.lower, edits)
  {
    AcceptedExactly(env, edits, commands);
    if PatchAllowed(env, edits, commands) { AcceptedIsCanonical(env, edits, commands); }
    r := CheckPatch(env, edits, commands);
  }

  lemma AcceptedIsCanonical(env: Environment, edits: seq<Edit>, commands: seq<seq<string>>)
    requires PatchAllowed(env, edits, commands)
    ensures CanonicalFor(env.lower, edits, CanonicalEdits(env.lower, edits))
  {
    forall e | e in edits ensures NormalizeTrusted(env.lower, e.path).Some? { assert EditAllowed(env, e); }
    CanonicalEditsMean(env.lower, edits);
  }

  method CheckPatch(env: Environment, edits: seq<Edit>, commands: seq<seq<string>>)
    returns (r: Option<seq<Edit>>)
    ensures r.Some? <==> PatchAllowed(env, edits, commands)
    ensures r.Some? ==> r.value == CanonicalEdits(env.lower, edits)
  {
    if env.proposalSecret { return None; }
    var ordered := SortBy(edits, BY_PATH);
    SortMembers(edits, BY_PATH);
    AllowedInAnyOrder(env, edits, ordered);
    var allowed := (e: Edit) => EditAllowed(env, e);
    r := ValidateInOrder(allowed, env.size, (e: Edit) => Canonical(env.lower, e), ordered);
    if r.None? { return; }
    var ok := ValidateCommands(commands);
    if !ok { return None; }
  }

  // ----- What the sandbox is asked to write -----

  datatype FileEdit = FileEdit(path: string, content: string)

  function Uploaded(lower: Lowering, e: Edit): FileEdit {
    match NormalizeTrusted(lower, e.path)
    case Some(path) => FileEdit(path, e.content)
    case None => FileEdit(e.path, e.content)
  }

  function UploadedEdits(lower: Lowering, edits: seq<Edit>): seq<FileEdit> {
    MapSeq((e: Edit) => Uploaded(lower, e), edits)
  }

  function FileOf(e: Edit): FileEdit { FileEdit(e.path, e.content) }

  function Files(edits: seq<Edit>): seq<FileEdit> {
    MapSeq(FileOf, edits)
  }

  // The sandbox writes exactly the files of the canonical patch, in the proposal's order.
  lemma SandboxWritesThePatch(lower: Lowering, edits: seq<Edit>)
    requires forall e | e in edits :: NormalizeTrusted(lower, e.path).Some?
    ensures multiset(UploadedEdits(lower, edits)) == multiset(Files(CanonicalEdits(lower, edits)))
  {
    var ordered := SortBy(edits, BY_PATH);
    SortMembers(edits, BY_PATH);
    var upload := (e: Edit) => Uploaded(lower, e);
    MapSortPermutes(upload, edits, BY_PATH);
    var files, uploads := Files(CanonicalEdits(lower, edits)), MapSeq(upload, ordered);
    forall i | 0 <= i < |ordered| ensures files[i] == uploads[i] {
      assert ordered[i] in edits;
    }
    assert files == uploads;
  }
}
