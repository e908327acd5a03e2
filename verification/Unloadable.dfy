// Proposals the policy accepts and nobody can publish: two edits of one file, and a text that is
// longer than what it says.
module Unloadable {
  import opened Artifacts
  import opened Git
  import opened Json
  import opened Options
  import opened Paths
  import opened Policy
  import opened Sorting
  import opened Text

  // ----- One file under two names -----

  // One edit of the file "a.py", under a name it may be written with.
  ghost predicate EditsTheFile(env: Environment, e: Edit) {
    && e.path in {"a.py", "./a.py"} && e.expected.None? && e.steps == ["step"]
    && !env.secret(e.content)
  }

  // A plan that expects the file, of a repository that does not have it.
  ghost predicate ExpectsTheFile(env: Environment) {
    && env.plan == [PlanStep("step", {}, ["a.py"])] && !env.proposalSecret
    && (forall c | c in "a.py" :: env.lower(c) == [c])
    && env.root("a.py") == Absent
  }

  lemma StepExpectsTheFile(env: Environment)
    requires ExpectsTheFile(env)
    ensures Planned(Steps(env.plan), ["step"], "a.py")
  {
    var step := env.plan[0];
    assert step.expectedPaths[0] == "a.py";
    assert "a.py" in Steps(env.plan)[step.id];
    assert ["step"][0] == step.id;
  }

  lemma FileIsAllowed(env: Environment, e: Edit)
    requires ExpectsTheFile(env) && EditsTheFile(env, e)
    ensures EditAllowed(env, e) && NormalizeTrusted(env.lower, e.path) == Some("a.py") && EditOk(e)
  {
    DotSlashVanishes(env.lower);
    StepExpectsTheFile(env);
  }

  lemma SizesOfTwo(size: string -> nat, edits: seq<Edit>)
    requires |edits| == 2 && size(edits[0].content) <= 1_000_000 && size(edits[1].content) <= 1_000_000
    ensures Sizes(size, edits) <= MAX_EDIT_BYTES
  {
    assert edits[..1][..0] == [];
    assert Sizes(size, edits[..1]) == size(edits[0].content);
  }

  lemma SortedSizesOfTwo(size: string -> nat, edits: seq<Edit>)
    requires |edits| == 2 && forall e | e in edits :: size(e.content) <= 1_000_000
    ensures Sizes(size, SortBy(edits, BY_PATH)) <= MAX_EDIT_BYTES
  {
    var ordered := SortBy(edits, BY_PATH);
    SortPermutes(edits, BY_PATH);
    SortMembers(edits, BY_PATH);
    assert |multiset(ordered)| == |multiset(edits)|;
    assert ordered[0] in ordered && ordered[1] in ordered;
    SizesOfTwo(size, ordered);
  }

  lemma TwiceIsAllowed(env: Environment, edits: seq<Edit>, commands: seq<seq<string>>)
    requires ExpectsTheFile(env) && |edits| == 2 && forall e | e in edits :: EditsTheFile(env, e)
    requires forall e | e in edits :: env.size(e.content) <= 1_000_000
    requires forall i | 0 <= i < |commands| :: CommandAllowed(commands[i])
    ensures PatchAllowed(env, edits, commands) && AllOk(edits)
  {
    forall e | e in edits ensures EditAllowed(env, e) && EditOk(e) { FileIsAllowed(env, e); }
    SortedSizesOfTwo(env.size, edits);
  }

  // The policy accepts a proposal that edits the file under both names, and its artifact does not load.
  lemma ADuplicateDoesNotLoad(env: Environment, hash: Hash, edits: seq<Edit>, commands: seq<seq<string>>)
    requires ExpectsTheFile(env) && |edits| == 2 && forall e | e in edits :: EditsTheFile(env, e)
    requires forall e | e in edits :: env.size(e.content) <= 1_000_000
    requires edits[0].path == "a.py" && edits[1].path == "./a.py"
    requires forall i | 0 <= i < |commands| :: CommandAllowed(commands[i])
    ensures PatchAllowed(env, edits, commands)
    ensures var text := Render(CanonicalEdits(env.lower, edits));
      LoadPublicationEdits(env.lower, hash, text, hash(text)) == None
  {
    TwiceIsAllowed(env, edits, commands);
    FileIsAllowed(env, edits[0]);
    FileIsAllowed(env, edits[1]);
    DuplicatesDoNotLoad(env, hash, edits, commands, 0, 1);
  }

  lemma DuplicatesDoNotLoad(env: Environment, hash: Hash, edits: seq<Edit>, commands: seq<seq<string>>, i: nat, j: nat)
    requires PatchAllowed(env, edits, commands)
    requires 1 <= |edits| <= 100 && AllOk(edits)
    requires i < j < |edits|
    requires NormalizeTrusted(env.lower, edits[i].path) == NormalizeTrusted(env.lower, edits[j].path)
    ensures var text := Render(CanonicalEdits(env.lower, edits));
      LoadPublicationEdits(env.lower, hash, text, hash(text)) == None
  {
    AcceptedArtifactLoads(env, hash, edits, commands);
  }

  // ----- A text that is too long -----

  lemma {:induction false} PartFits(parts: seq<string>, sep: char, i: nat)
    requires i < |parts|
    ensures |parts[i]| <= |Join(parts, sep)|
  {
    if i > 0 { PartFits(parts[1..], sep, i - 1); }
  }

  lemma {:induction false} NewlinesDouble(s: string)
    requires forall c | c in s :: c == '\n'
    ensures |Escape(s)| == 2 * |s|
  {
    if s != "" {
      assert s[0] in s && forall c | c in s[1..] :: c in s;
      NewlinesDouble(s[1..]);
      assert Escape(s) == EscapeChar(s[0]) + Escape(s[1..]);
    }
  }

  lemma MemberFits(members: seq<Member>, i: nat)
    requires i < |members|
    ensures |Print(members[i].value)| <= |Print(Obj(members))|
  {
    PartFits(MemberTexts(members), ',', i);
    assert MemberTexts(members)[i] == PrintMember(members[i]);
  }

  lemma ItemFits(items: seq<Value>, i: nat)
    requires i < |items|
    ensures |Print(items[i])| <= |Print(Arr(items))|
  {
    PartFits(ItemTexts(items), ',', i);
  }

  lemma ContentFits(edits: seq<Edit>, i: nat)
    requires i < |edits|
    ensures |Escape(edits[i].content)| <= |Render(edits)|
  {
    var e := edits[i];
    assert EditValue(e).members[0].value == Str(e.content);
    MemberFits(EditValue(e).members, 0);
    var values := MapSeq(AS_VALUE, edits);
    ItemFits(values, i);
    assert Payload(edits).members[0].value == Arr(values);
    MemberFits(Payload(edits).members, 0);
  }

  lemma ManyLineBreaksDoNotLoad(env: Environment, hash: Hash, edits: seq<Edit>, commands: seq<seq<string>>, i: nat)
    requires PatchAllowed(env, edits, commands)
    requires 1 <= |edits| <= 100 && AllOk(edits) && i < |edits|
    requires |edits[i].content| > 1_000_000 && forall c | c in edits[i].content :: c == '\n'
    ensures var text := Render(CanonicalEdits(env.lower, edits));
      LoadPublicationEdits(env.lower, hash, text, hash(text)) == None
  {
    var canonical := CanonicalEdits(env.lower, edits);
    var j := CanonicalPosition(env.lower, edits, i);
    NewlinesDouble(edits[i].content);
    ContentFits(canonical, j);
    AcceptedArtifactLoads(env, hash, edits, commands);
  }

  lemma OneIsAllowed(env: Environment, edits: seq<Edit>, commands: seq<seq<string>>)
    requires ExpectsTheFile(env) && |edits| == 1 && forall e | e in edits :: EditsTheFile(env, e)
    requires Sizes(env.size, SortBy(edits, BY_PATH)) <= MAX_EDIT_BYTES
    requires forall i | 0 <= i < |commands| :: CommandAllowed(commands[i])
    ensures PatchAllowed(env, edits, commands) && AllOk(edits)
  {
    forall e | e in edits ensures EditAllowed(env, e) && EditOk(e) { FileIsAllowed(env, e); }
  }

  lemma SortedSizeOfOne(size: string -> nat, edits: seq<Edit>)
    requires |edits| == 1
    ensures Sizes(size, SortBy(edits, BY_PATH)) == size(edits[0].content)
  {
    var ordered := SortBy(edits, BY_PATH);
    SortMembers(edits, BY_PATH);
    assert ordered[0] in ordered && ordered[..0] == [];
  }

  // The policy accepts a file of up to two million line breaks, one byte for each. Their text takes
  // two, so from a million on nobody can publish it.
  lemma LineBreaksDoNotLoad(env: Environment, hash: Hash, edits: seq<Edit>, commands: seq<seq<string>>)
    requires ExpectsTheFile(env) && |edits| == 1 && forall e | e in edits :: EditsTheFile(env, e)
    requires 1_000_000 < |edits[0].content| <= 2_000_000 && env.size(edits[0].content) == |edits[0].content|
    requires forall c | c in edits[0].content :: c == '\n'
    requires forall i | 0 <= i < |commands| :: CommandAllowed(commands[i])
    ensures PatchAllowed(env, edits, commands)
    ensures var text := Render(CanonicalEdits(env.lower, edits));
      LoadPublicationEdits(env.lower, hash, text, hash(text)) == None
  {
    SortedSizeOfOne(env.size, edits);
    OneIsAllowed(env, edits, commands);
    ManyLineBreaksDoNotLoad(env, hash, edits, commands, 0);
  }

  lemma CanonicalPosition(lower: Lowering, edits: seq<Edit>, i: nat) returns (j: nat)
    requires i < |edits|
    ensures j < |CanonicalEdits(lower, edits)| && CanonicalEdits(lower, edits)[j].content == edits[i].content
  {
    SortMembers(edits, BY_PATH);
    var ordered := SortBy(edits, BY_PATH);
    assert edits[i] in ordered;
    j :| 0 <= j < |ordered| && ordered[j] == edits[i];
    assert CanonicalEdits(lower, edits)[j] == Canonical(lower, ordered[j]);
  }
}
