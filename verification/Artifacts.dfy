// The canonical patch artifact: how it is printed, stored under its digest, read back and loaded
// for publication. Bytes are kept as the ASCII characters they are.
module Artifacts {
  import opened Git
  import opened Json
  import opened Options
  import opened Paths
  import opened Policy
  import opened Remote
  import opened Sorting
  import opened Text

  // ----- Edits as JSON -----

  predicate IsDigest(s: string) {
    |s| == 64 && forall i | 0 <= i < 64 :: '0' <= s[i] <= '9' || 'a' <= s[i] <= 'f'
  }

  // What the models demand of one edit.
  predicate EditOk(e: Edit) {
    e.steps != [] && (e.expected.Some? ==> IsDigest(e.expected.value))
  }

  function DigestValue(expected: Option<string>): Value {
    if expected.None? then Null else Str(expected.value)
  }

  const AS_TEXT: string -> Value := (s: string) => Str(s)

  function EditValue(e: Edit): Value {
    Obj([Member("content", Str(e.content)), Member("expected_sha256", DigestValue(e.expected)),
         Member("path", Str(e.path)), Member("plan_step_ids", Arr(MapSeq(AS_TEXT, e.steps)))])
  }

  const AS_VALUE: Edit -> Value := (e: Edit) => EditValue(e)

  function Payload(edits: seq<Edit>): Value {
    Obj([Member("edits", Arr(MapSeq(AS_VALUE, edits))), Member("schema_version", Str("1.0"))])
  }

  function Render(edits: seq<Edit>): string {
    Print(Payload(edits))
  }

  // ----- Loading -----

  function Find(members: seq<Member>, key: string): Option<Value> {
    if members == [] then None
    else if members[0].key == key then Some(members[0].value)
    else Find(members[1..], key)
  }

  function Keys(members: seq<Member>): set<string> {
    set i | 0 <= i < |members| :: members[i].key
  }

  function Texts(items: seq<Value>): Option<seq<string>> {
    if items == [] then Some([])
    else if !items[0].Str? then None
    else
      var rest := Texts(items[1..]);
      if rest.None? then None else Some([items[0].text] + rest.value)
  }

  function EditFrom(v: Value): Option<Edit> {
    if !v.Obj? || !(Keys(v.members) <= {"content", "expected_sha256", "path", "plan_step_ids"}) then None else
    var content, path := Find(v.members, "content"), Find(v.members, "path");
    var digest, steps := Find(v.members, "expected_sha256"), Find(v.members, "plan_step_ids");
    if content.None? || !content.value.Str? || path.None? || !path.value.Str? then None
    else if steps.None? || !steps.value.Arr? || steps.value.items == [] || Texts(steps.value.items).None?
    then None
    else
      var e := Edit(path.value.text, None, content.value.text, Texts(steps.value.items).value);
      if digest.None? || digest.value.Null? then Some(e)
      else if digest.value.Str? && IsDigest(digest.value.text) then Some(e.(expected := Some(digest.value.text)))
      else None
  }

  function EditsFrom(items: seq<Value>): Option<seq<Edit>> {
    if items == [] then Some([])
    else
      var first, rest := EditFrom(items[0]), EditsFrom(items[1..]);
      if first.None? || rest.None? then None else Some([first.value] + rest.value)
  }

  const MAX_ARTIFACT_BYTES := 2_000_000

  // Any digest function will do.
  type Hash = string -> string

  // The artifact holds between 1 and 100 edits, whose paths normalize to distinct ones.
  predicate Publishable(lower: Lowering, edits: seq<Edit>) {
    && 1 <= |edits| <= 100
    && (forall i | 0 <= i < |edits| :: NormalizeTrusted(lower, edits[i].path).Some?)
    && (forall i, j | 0 <= i < j < |edits| ::
          NormalizeTrusted(lower, edits[i].path) != NormalizeTrusted(lower, edits[j].path))
  }

  // The edits of a parsed artifact.
  function PayloadEdits(lower: Lowering, payload: Value): Option<seq<Edit>> {
    if !payload.Obj? || Keys(payload.members) != {"schema_version", "edits"} then None else
    var version, list := Find(payload.members, "schema_version"), Find(payload.members, "edits");
    if version != Some(Str("1.0")) then None
    else if list.None? || !list.value.Arr? || !(1 <= |list.value.items| <= 100) then None
    else
      var edits := EditsFrom(list.value.items);
      if edits.None? || !Publishable(lower, edits.value) then None else edits
  }

  function LoadPublicationEdits(lower: Lowering, hash: Hash, content: string, expected: string): Option<seq<Edit>> {
    if |content| > MAX_ARTIFACT_BYTES || hash(content) != expected then None else
    var payload := Parse(content);
    if payload.None? then None else
    var edits := PayloadEdits(lower, payload.value);
    if edits.None? || Print(payload.value) != content then None else edits
  }

  // ----- Round trip -----

  lemma KeyOrder()
    ensures Less("content", "expected_sha256") && Less("expected_sha256", "path")
    ensures Less("path", "plan_step_ids") && Less("edits", "schema_version")
    ensures Less("content", "path") && Less("content", "plan_step_ids")
    ensures Less("expected_sha256", "plan_step_ids")
  {
    assert "path"[1..][0] == 'a' && "plan_step_ids"[1..][0] == 'l';
  }

  lemma EditValueWellFormed(e: Edit)
    ensures Json.WellFormed(EditValue(e))
  {
    KeyOrder();
  }

  lemma PayloadWellFormed(edits: seq<Edit>)
    ensures Json.WellFormed(Payload(edits))
  {
    KeyOrder();
    var items := MapSeq(AS_VALUE, edits);
    forall i | 0 <= i < |items| ensures Json.WellFormed(items[i]) { EditValueWellFormed(edits[i]); }
    assert Json.WellFormed(Arr(items));
  }

  lemma {:induction false} TextsRoundTrip(steps: seq<string>)
    ensures Texts(MapSeq(AS_TEXT, steps)) == Some(steps)
  {
    if steps != [] {
      TextsRoundTrip(steps[1..]);
      assert MapSeq(AS_TEXT, steps)[1..] == MapSeq(AS_TEXT, steps[1..]);
      assert [steps[0]] + steps[1..] == steps;
    }
  }

  lemma EditRoundTrip(e: Edit)
    ensures EditFrom(EditValue(e)) == if EditOk(e) then Some(e) else None
  {
    var m := EditValue(e).members;
    TextsRoundTrip(e.steps);
    assert Keys(m) <= {"content", "expected_sha256", "path", "plan_step_ids"};
    FindIn(m, 0);
    FindIn(m, 1);
    FindIn(m, 2);
    FindIn(m, 3);
  }

  // With distinct keys, a member is found under its key.
  lemma {:induction false} FindIn(members: seq<Member>, i: nat)
    requires i < |members|
    requires forall j, k | 0 <= j < k < |members| :: members[j].key != members[k].key
    ensures Find(members, members[i].key) == Some(members[i].value)
  {
    if i > 0 { FindIn(members[1..], i - 1); }
  }

  predicate AllOk(edits: seq<Edit>) {
    forall e | e in edits :: EditOk(e)
  }

  lemma {:induction false} EditsRoundTrip(edits: seq<Edit>)
    ensures EditsFrom(MapSeq(AS_VALUE, edits)) == if AllOk(edits) then Some(edits) else None
  {
    if edits != [] {
      EditRoundTrip(edits[0]);
      EditsRoundTrip(edits[1..]);
      assert MapSeq(AS_VALUE, edits)[1..] == MapSeq(AS_VALUE, edits[1..]);
      assert [edits[0]] + edits[1..] == edits;
    }
  }

  lemma PayloadMembers(edits: seq<Edit>)
    ensures var members := Payload(edits).members;
      && Keys(members) == {"schema_version", "edits"}
      && Find(members, "schema_version") == Some(Str("1.0"))
      && Find(members, "edits") == Some(Arr(MapSeq(AS_VALUE, edits)))
  {
    var members := Payload(edits).members;
    assert members[0].key == "edits" && members[1].key == "schema_version";
    assert members[0].key in Keys(members) && members[1].key in Keys(members);
    FindIn(members, 0);
    FindIn(members, 1);
  }

  lemma PayloadRoundTrip(lower: Lowering, edits: seq<Edit>)
    ensures PayloadEdits(lower, Payload(edits)) ==
      if AllOk(edits) && Publishable(lower, edits) then Some(edits) else None
  {
    PayloadMembers(edits);
    EditsRoundTrip(edits);
  }

  // The edits can be published from their artifact: each is one the models accept, the paths are
  // different, and the text is short enough.
  predicate Loadable(lower: Lowering, edits: seq<Edit>) {
    |Render(edits)| <= MAX_ARTIFACT_BYTES && AllOk(edits) && Publishable(lower, edits)
  }

  // A rendered artifact loads as exactly its edits, or not at all.
  lemma RenderedArtifactLoads(lower: Lowering, hash: Hash, edits: seq<Edit>)
    ensures LoadPublicationEdits(lower, hash, Render(edits), hash(Render(edits))) ==
      if Loadable(lower, edits) then Some(edits) else None
  {
    PayloadRoundTrip(lower, edits);
    PayloadWellFormed(edits);
    ParsePrint(Payload(edits));
  }

  // A digest is 64 lower-case hexadecimal digits.
  lemma DigestExactly(s: string)
    ensures IsDigest(s) <==> |s| == 64 && forall c | c in s :: c in "0123456789abcdef"
  {
    forall c: char ensures '0' <= c <= '9' || 'a' <= c <= 'f' <==> c in "0123456789abcdef" { HexadecimalDigit(c); }
    assert forall i | 0 <= i < |s| :: s[i] in s;
  }

  lemma HexadecimalDigit(c: char)
    ensures '0' <= c <= '9' || 'a' <= c <= 'f' <==> c in "0123456789abcdef"
  {
    var digits, letters := "0123456789", "abcdef";
    assert forall k | 0 <= k < 10 :: digits[k] as int == 48 + k;
    assert forall k | 0 <= k < 6 :: letters[k] as int == 97 + k;
    if '0' <= c <= '9' { assert digits[c as int - 48] == c; }
    if 'a' <= c <= 'f' { assert letters[c as int - 97] == c; }
    assert "0123456789abcdef" == digits + letters;
  }

  // What an artifact that loads is, whoever wrote it: short enough, of the expected digest, in the one
  // way of printing its value, in the known version, and of 1 to 100 edits of different files, each for
  // some step and with a digest or none.
  ghost predicate ProperArtifact(lower: Lowering, hash: Hash, content: string, expected: string, edits: seq<Edit>) {
    && |content| <= 2_000_000 && hash(content) == expected
    && (exists payload :: Parse(content) == Some(payload) && Print(payload) == content &&
          payload.Obj? && Find(payload.members, "schema_version") == Some(Str("1.0")))
    && 1 <= |edits| <= 100
    && (forall i | 0 <= i < |edits| ::
          && edits[i].steps != [] && NormalizeTrusted(lower, edits[i].path).Some?
          && (edits[i].expected.Some? ==>
                var digest := edits[i].expected.value;
                |digest| == 64 && forall c | c in digest :: c in "0123456789abcdef"))
    && (forall i, j | 0 <= i < j < |edits| ::
          NormalizeTrusted(lower, edits[i].path) != NormalizeTrusted(lower, edits[j].path))
  }

  lemma LoadedTextsNotEmpty(v: Value)
    requires EditFrom(v).Some?
    ensures EditOk(EditFrom(v).value)
  {
    var steps := Find(v.members, "plan_step_ids").value.items;
    assert Texts(steps) != Some([]);
  }

  lemma {:induction false} LoadedEditsAreOk(items: seq<Value>)
    requires EditsFrom(items).Some?
    ensures |EditsFrom(items).value| == |items|
    ensures forall i | 0 <= i < |items| :: EditOk(EditsFrom(items).value[i])
  {
    if items != [] {
      LoadedTextsNotEmpty(items[0]);
      LoadedEditsAreOk(items[1..]);
    }
  }

  // Nothing else is ever loaded.
  lemma OnlyProperArtifactsLoad(lower: Lowering, hash: Hash, content: string, expected: string)
    requires LoadPublicationEdits(lower, hash, content, expected).Some?
    ensures ProperArtifact(lower, hash, content, expected, LoadPublicationEdits(lower, hash, content, expected).value)
  {
    var payload := Parse(content).value;
    LoadedEditsAreOk(Find(payload.members, "edits").value.items);
    var edits := LoadPublicationEdits(lower, hash, content, expected).value;
    DigestsAreHexadecimal(edits);
  }

  lemma DigestsAreHexadecimal(edits: seq<Edit>)
    requires forall i | 0 <= i < |edits| && edits[i].expected.Some? :: IsDigest(edits[i].expected.value)
    ensures forall i | 0 <= i < |edits| && edits[i].expected.Some? ::
      forall c | c in edits[i].expected.value :: c in "0123456789abcdef"
  {
    forall i | 0 <= i < |edits| && edits[i].expected.Some?
      ensures forall c | c in edits[i].expected.value :: c in "0123456789abcdef"
    {
      DigestExactly(edits[i].expected.value);
    }
  }

  lemma EditValueIsInjective(e: Edit, e': Edit)
    requires EditValue(e) == EditValue(e')
    ensures e == e'
  {
    var m, m' := EditValue(e).members, EditValue(e').members;
    assert m[0] == m'[0] && m[1] == m'[1] && m[2] == m'[2] && m[3] == m'[3];
    assert MapSeq(AS_TEXT, e.steps) == MapSeq(AS_TEXT, e'.steps);
    TextsRoundTrip(e.steps);
    TextsRoundTrip(e'.steps);
  }

  lemma {:induction false} EditValuesAreInjective(edits: seq<Edit>, edits': seq<Edit>)
    requires MapSeq(AS_VALUE, edits) == MapSeq(AS_VALUE, edits')
    ensures edits == edits'
  {
    var values, values' := MapSeq(AS_VALUE, edits), MapSeq(AS_VALUE, edits');
    assert |edits| == |values| == |values'| == |edits'|;
    forall i | 0 <= i < |edits| ensures edits[i] == edits'[i] {
      assert values[i] == EditValue(edits[i]) && values'[i] == EditValue(edits'[i]);
      EditValueIsInjective(edits[i], edits'[i]);
    }
  }

  // Different edits have different artifacts, so a digest without collisions names the edits.
  lemma RenderingIsInjective(edits: seq<Edit>, edits': seq<Edit>)
    requires Render(edits) == Render(edits')
    ensures edits == edits'
  {
    PayloadWellFormed(edits);
    PayloadWellFormed(edits');
    ParsePrint(Payload(edits));
    ParsePrint(Payload(edits'));
    assert Payload(edits).members[0] == Payload(edits').members[0];
    EditValuesAreInjective(edits, edits');
  }

  // ----- Loading what a row was queued with -----

  // What a publication loads, given the objects and the patch its row names.
  function LoadEdits(lower: Lowering, objects: map<string, string>, objectRef: string, patch: PatchDigest)
    : (r: Option<seq<Edit>>)
    ensures r.Some? ==> r.value == patch.edits && DistinctPaths(r.value)
  {
    if objectRef in objects && objects[objectRef] == Render(patch.edits) && Loadable(lower, patch.edits)
    then Some(patch.edits) else None
  }

  // That is what reading, checking and parsing the object comes to, for any digest that does not
  // take the object for the artifact of the patch when it is another text.
  lemma LoadEditsIsLoading(
    lower: Lowering, hash: Hash, objects: map<string, string>, objectRef: string, patch: PatchDigest)
    requires objectRef in objects
    requires hash(objects[objectRef]) == hash(Render(patch.edits)) ==> objects[objectRef] == Render(patch.edits)
    ensures LoadPublicationEdits(lower, hash, objects[objectRef], hash(Render(patch.edits))) ==
      LoadEdits(lower, objects, objectRef, patch)
  {
    RenderedArtifactLoads(lower, hash, patch.edits);
  }

  // ----- The artifact of an accepted proposal -----

  ghost predicate DistinctNormalized(lower: Lowering, edits: seq<Edit>) {
    forall i, j | 0 <= i < j < |edits| ::
      NormalizeTrusted(lower, edits[i].path) != NormalizeTrusted(lower, edits[j].path)
  }

  lemma CanonicalEditIsOk(env: Environment, e: Edit)
    requires EditAllowed(env, e) && EditOk(e)
    ensures EditOk(Canonical(env.lower, e))
    ensures NormalizeTrusted(env.lower, Canonical(env.lower, e).path) == NormalizeTrusted(env.lower, e.path)
    ensures NormalizeTrusted(env.lower, e.path) == Some(Canonical(env.lower, e).path)
  {
    TrustedIdempotent(env.lower, e.path);
    assert |SortBy(e.steps, BY_ITSELF)| == |e.steps|;
  }

  lemma CanonicalEditsAreOk(env: Environment, edits: seq<Edit>, commands: seq<seq<string>>)
    requires PatchAllowed(env, edits, commands) && AllOk(edits)
    ensures var ordered, canonical := SortBy(edits, BY_PATH), CanonicalEdits(env.lower, edits);
      && |canonical| == |ordered| == |edits|
      && forall i | 0 <= i < |canonical| ::
           ordered[i] in edits && EditOk(canonical[i]) &&
           NormalizeTrusted(env.lower, canonical[i].path) == Some(canonical[i].path) &&
           Some(canonical[i].path) == NormalizeTrusted(env.lower, ordered[i].path)
  {
    var ordered, canonical := SortBy(edits, BY_PATH), CanonicalEdits(env.lower, edits);
    SortMembers(edits, BY_PATH);
    forall i | 0 <= i < |canonical|
      ensures ordered[i] in edits && EditOk(canonical[i]) &&
        NormalizeTrusted(env.lower, canonical[i].path) == Some(canonical[i].path) &&
        Some(canonical[i].path) == NormalizeTrusted(env.lower, ordered[i].path)
    {
      assert ordered[i] in edits;
      CanonicalEditIsOk(env, ordered[i]);
    }
  }

  lemma DistinctWhenPermuted(lower: Lowering, a: seq<Edit>, b: seq<Edit>)
    requires multiset(a) == multiset(b) && DistinctNormalized(lower, a)
    ensures DistinctNormalized(lower, b)
  {
    forall i, j | 0 <= i < j < |b|
      ensures NormalizeTrusted(lower, b[i].path) != NormalizeTrusted(lower, b[j].path)
    {
      var k, l := PermutedPair(b, a, i, j);
    }
  }

  lemma PermutedDistinctness(lower: Lowering, a: seq<Edit>, b: seq<Edit>)
    requires multiset(a) == multiset(b)
    ensures DistinctNormalized(lower, a) <==> DistinctNormalized(lower, b)
  {
    if DistinctNormalized(lower, a) { DistinctWhenPermuted(lower, a, b); }
    if DistinctNormalized(lower, b) { DistinctWhenPermuted(lower, b, a); }
  }

  // The edits of `b` have the names those of `a` normalize to.
  ghost predicate NamedAs(lower: Lowering, a: seq<Edit>, b: seq<Edit>) {
    && |a| == |b|
    && forall i | 0 <= i < |b| ::
         NormalizeTrusted(lower, b[i].path).Some? &&
         NormalizeTrusted(lower, b[i].path) == NormalizeTrusted(lower, a[i].path)
  }

  lemma SameNames(lower: Lowering, a: seq<Edit>, b: seq<Edit>)
    requires NamedAs(lower, a, b) && 1 <= |b| <= 100
    ensures Publishable(lower, b) <==> DistinctNormalized(lower, a)
  {
    if DistinctNormalized(lower, a) {
      forall i, j | 0 <= i < j < |b|
        ensures NormalizeTrusted(lower, b[i].path) != NormalizeTrusted(lower, b[j].path)
      {
        assert NormalizeTrusted(lower, a[i].path) != NormalizeTrusted(lower, a[j].path);
      }
    }
    if Publishable(lower, b) {
      forall i, j | 0 <= i < j < |a|
        ensures NormalizeTrusted(lower, a[i].path) != NormalizeTrusted(lower, a[j].path)
      {
        assert NormalizeTrusted(lower, b[i].path) != NormalizeTrusted(lower, b[j].path);
      }
    }
  }

  lemma CanonicalNames(env: Environment, edits: seq<Edit>, commands: seq<seq<string>>)
    requires PatchAllowed(env, edits, commands) && AllOk(edits)
    ensures NamedAs(env.lower, SortBy(edits, BY_PATH), CanonicalEdits(env.lower, edits))
    ensures |CanonicalEdits(env.lower, edits)| == |edits|
  {
    CanonicalEditsAreOk(env, edits, commands);
  }

  lemma PermutedNames(lower: Lowering, edits: seq<Edit>, ordered: seq<Edit>, canonical: seq<Edit>)
    requires multiset(ordered) == multiset(edits) && NamedAs(lower, ordered, canonical) && 1 <= |canonical| <= 100
    ensures Publishable(lower, canonical) <==> DistinctNormalized(lower, edits)
  {
    PermutedDistinctness(lower, edits, ordered);
    SameNames(lower, ordered, canonical);
  }

  lemma CanonicalIsPublishable(env: Environment, edits: seq<Edit>, commands: seq<seq<string>>)
    requires PatchAllowed(env, edits, commands)
    requires 1 <= |edits| <= 100 && AllOk(edits)
    ensures Publishable(env.lower, CanonicalEdits(env.lower, edits)) <==> DistinctNormalized(env.lower, edits)
  {
    CanonicalNames(env, edits, commands);
    SortPermutes(edits, BY_PATH);
    PermutedNames(env.lower, edits, SortBy(edits, BY_PATH), CanonicalEdits(env.lower, edits));
  }

  // The artifact of an accepted proposal loads for publication as exactly its canonical edits, if
  // and only if the proposal's paths normalize to different ones and the text is short enough.
  lemma AcceptedArtifactLoads(env: Environment, hash: Hash, edits: seq<Edit>, commands: seq<seq<string>>)
    requires PatchAllowed(env, edits, commands)
    requires 1 <= |edits| <= 100 && AllOk(edits)
    ensures var text := Render(CanonicalEdits(env.lower, edits));
      LoadPublicationEdits(env.lower, hash, text, hash(text)) ==
        if DistinctNormalized(env.lower, edits) && |text| <= MAX_ARTIFACT_BYTES
        then Some(CanonicalEdits(env.lower, edits)) else None
  {
    CanonicalEditsAreOk(env, edits, commands);
    CanonicalIsPublishable(env, edits, commands);
    RenderedArtifactLoads(env.lower, hash, CanonicalEdits(env.lower, edits));
  }

  // ----- The artifact store -----

  // Objects are named by their digest: sha256/<first two digits>/<digest>.
  function ReferenceOf(digest: string): string
    requires IsDigest(digest)
  {
    Join(["sha256", digest[..2], digest], '/')
  }

  // The digest a reference names, if it has the right form.
  function DigestOf(objectRef: string): Option<string> {
    if StartsWith(objectRef, "/") then None else
    var parts := Components(Split(objectRef, '/'));
    if |parts| == 3 && parts[0] == "sha256" && parts[1] == Prefix2(parts[2]) && IsDigest(parts[2])
    then Some(parts[2]) else None
  }

  function Prefix2(s: string): string {
    if |s| < 2 then s else s[..2]
  }

  // Nothing but a digest is ever taken from a reference, which is a spelling of that digest's own.
  lemma OnlyDigestsAreNamed(objectRef: string)
    requires DigestOf(objectRef).Some?
    ensures IsDigest(DigestOf(objectRef).value)
    ensures !StartsWith(objectRef, "/")
    ensures Join(Components(Split(objectRef, '/')), '/') == ReferenceOf(DigestOf(objectRef).value)
  {
    var digest := DigestOf(objectRef).value;
    assert Components(Split(objectRef, '/')) == ["sha256", digest[..2], digest];
  }

  lemma ReferenceNamesDigest(digest: string)
    requires IsDigest(digest)
    ensures DigestOf(ReferenceOf(digest)) == Some(digest)
  {
    var parts := ["sha256", digest[..2], digest];
    assert forall i | 0 <= i < 64 :: digest[i] != '/' && digest[i] != '.';
    assert forall p | p in parts :: '/' !in p;
    SplitJoin(parts, '/');
    assert |parts[1]| == 2;
    ComponentsOfPlain(parts);
    assert ReferenceOf(digest)[0] == 's';
  }

  function LowerHexChar(c: char): char {
    if 'A' <= c <= 'Z' then (c as int + 32) as char else c
  }

  function LowerHex(s: string): string {
    MapSeq(LowerHexChar, s)
  }

  // What is read through a reference: the object it names, if that still has the digest it is named by.
  function ReadFrom(hash: Hash, objects: map<string, string>, objectRef: string): Option<string> {
    match DigestOf(objectRef)
    case None => None
    case Some(digest) =>
      if digest in objects && hash(objects[digest]) == digest then Some(objects[digest]) else None
  }

  datatype StoreOutcome<T> = Stored(value: T) | IntegrityError | Missing

  class ArtifactStore {
    const hash: Hash
    var objects: map<string, string>

    // A digest function writes 64 lower-case hexadecimal digits.
    ghost predicate DigestsWell() { forall s: string :: IsDigest(hash(s)) }

    constructor (hash: Hash)
      ensures this.hash == hash && objects == map[]
    {
      this.hash := hash;
      objects := map[];
    }

    // Stores under the content's own digest; what is there already is never overwritten.
    method Put(content: string, sha256: string) returns (r: StoreOutcome<string>)
      requires DigestsWell()
      modifies this
      ensures forall d | d in old(objects) :: d in objects && objects[d] == old(objects)[d]
      ensures r.Stored? <==>
        hash(content) == LowerHex(sha256) &&
        (hash(content) in old(objects) ==> old(objects)[hash(content)] == content)
      ensures if r.Stored? then
                r.value == ReferenceOf(hash(content)) && objects == old(objects)[hash(content) := content]
              else objects == old(objects)
    {
      var actual := hash(content);
      if actual != LowerHex(sha256) { return IntegrityError; }
      if actual in objects {
        if objects[actual] != content { return IntegrityError; }
      } else {
        objects := objects[actual := content];
      }
      return Stored(ReferenceOf(actual));
    }

    // Whatever has happened to the files, what is read is what its name promises.
    method Read(objectRef: string) returns (r: StoreOutcome<string>)
      ensures r.Stored? <==>
        var d := DigestOf(objectRef);
        d.Some? && d.value in objects && hash(objects[d.value]) == d.value
      ensures r.Missing? <==> DigestOf(objectRef).Some? && DigestOf(objectRef).value !in objects
      ensures r.Stored? ==> r.value == objects[DigestOf(objectRef).value]
      ensures r.Stored? ==> DigestOf(objectRef) == Some(hash(r.value))
    {
      var digest := DigestOf(objectRef);
      if digest.None? { return IntegrityError; }
      if digest.value !in objects { return Missing; }
      var content := objects[digest.value];
      if hash(content) != digest.value { return IntegrityError; }
      return Stored(content);
    }
  }

  // Store the artifact of an accepted proposal, let anything else be stored, and load it for
  // publication: exactly the canonical edits come back.
  method StoreAndLoad(
    store: ArtifactStore, env: Environment, edits: seq<Edit>, commands: seq<seq<string>>,
    others: seq<(string, string)>)
    returns (loaded: Option<seq<Edit>>)
    requires store.DigestsWell() && PatchAllowed(env, edits, commands)
    requires 1 <= |edits| <= 100 && AllOk(edits)
    requires var text := Render(CanonicalEdits(env.lower, edits));
      store.hash(text) in store.objects ==> store.objects[store.hash(text)] == text
    modifies store
    ensures loaded ==
      if DistinctNormalized(env.lower, edits) &&
         |Render(CanonicalEdits(env.lower, edits))| <= MAX_ARTIFACT_BYTES
      then Some(CanonicalEdits(env.lower, edits)) else None
  {
    var text := Render(CanonicalEdits(env.lower, edits));
    var sha256 := store.hash(text);
    LowerHexOfDigest(sha256);
    var put := store.Put(text, sha256);
    for i := 0 to |others|
      invariant sha256 in store.objects && store.objects[sha256] == text
    {
      var other := store.Put(others[i].0, others[i].1);
    }
    ReferenceNamesDigest(sha256);
    var read := store.Read(put.value);
    AcceptedArtifactLoads(env, store.hash, edits, commands);
    loaded := LoadPublicationEdits(env.lower, store.hash, read.value, sha256);
  }

  lemma LowerHexOfDigest(digest: string)
    requires IsDigest(digest)
    ensures LowerHex(digest) == digest
  {
    LowerHexExactly(digest, digest);
  }

  // A digest may be given with any of its letters in upper case.
  lemma LowerHexExactly(s: string, digest: string)
    requires IsDigest(digest)
    ensures LowerHex(s) == digest <==>
      |s| == 64 && forall i | 0 <= i < 64 ::
        s[i] == digest[i] || ('a' <= digest[i] && s[i] as int + 32 == digest[i] as int)
  {
    if |s| == 64 {
      forall i | 0 <= i < 64
        ensures LowerHex(s)[i] == digest[i] <==>
          s[i] == digest[i] || ('a' <= digest[i] && s[i] as int + 32 == digest[i] as int)
      {
        assert LowerHex(s)[i] == LowerHexChar(s[i]);
      }
    }
  }
}
