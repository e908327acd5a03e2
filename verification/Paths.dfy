// The two path normalizers: the trusted one, which parses a POSIX path, and the sandbox
// worker's, which refuses anything that is not already in normal form.
module Paths {
  import opened Options
  import opened Text

  const DENIED_PREFIXES: seq<string> :=
    [".git", ".github/workflows", ".circleci", ".buildkite", ".ssh", ".aws", ".config/gcloud"]

  const DENIED_NAMES: seq<string> :=
    [".env", ".env.local", ".npmrc", ".pypirc", "id_rsa", "id_ed25519", "credentials",
     "credentials.json", "credentials.yml", "credentials.yaml", "service-account.json", ".netrc"]

  const KEY_SUFFIXES: seq<string> := [".key", ".pem", ".p12", ".pfx"]

  predicate DeniedPrefix(lowered: string) {
    exists i | 0 <= i < |DENIED_PREFIXES| ::
      lowered == DENIED_PREFIXES[i] || StartsWith(lowered, DENIED_PREFIXES[i] + "/")
  }

  predicate DeniedName(lowered: string) {
    lowered in DENIED_NAMES || StartsWith(lowered, ".env.")
  }

  predicate LooksLikeKey(name: string) {
    exists i | 0 <= i < |KEY_SUFFIXES| :: EndsWith(name, KEY_SUFFIXES[i])
  }

  predicate WellFormed(value: string) {
    value != "" && '\\' !in value && '\0' !in value
  }

  // ----- The trusted normalizer -----

  // The components of a POSIX path: empty and "." ones vanish.
  function Components(parts: seq<string>): (c: seq<string>)
    ensures forall p | p in c :: p in parts && p != "" && p != "."
  {
    if parts == [] then []
    else if parts[0] == "" || parts[0] == "." then Components(parts[1..])
    else [parts[0]] + Components(parts[1..])
  }

  function Rendered(components: seq<string>): string {
    if components == [] then "." else Join(components, '/')
  }

  function Name(components: seq<string>): string {
    if components == [] then "" else components[|components| - 1]
  }

  // The suffix of a file name: from its last dot, unless that is its first or last character.
  function Suffix(name: string): string {
    var i := LastIndex(name, '.');
    if 0 < i < |name| - 1 then name[i..] else ""
  }

  // Which paths are denied, by path and by last component.
  type Denial = (string, string) -> bool

  predicate TrustedDenies(lower: Lowering, path: string, name: string) {
    DeniedPrefix(Lower(lower, path)) || DeniedName(Lower(lower, name)) || Lower(lower, Suffix(name)) in KEY_SUFFIXES
  }

  function TrustedDenial(lower: Lowering): Denial {
    (path: string, name: string) => TrustedDenies(lower, path, name)
  }

  // Refuses paths that escape and paths that are denied, and gives the rest in normal form.
  function Canonicalized(denies: Denial, value: string): Option<string> {
    if !WellFormed(value) then None else
    var components := Components(Split(value, '/'));
    if value[0] == '/' || ".." in components then None else
    var normalized := Rendered(components);
    if denies(normalized, Name(components)) then None else Some(normalized)
  }

  function NormalizeTrusted(lower: Lowering, value: string): Option<string> {
    Canonicalized(TrustedDenial(lower), value)
  }

  // ----- The worker's normalizer -----

  predicate Plain(part: string) {
    part != "" && part != "." && part != ".."
  }

  predicate WorkerDenies(lower: Lowering, path: string, name: string) {
    DeniedPrefix(Lower(lower, path)) || DeniedName(Lower(lower, name)) || LooksLikeKey(Lower(lower, name))
  }

  function WorkerDenial(lower: Lowering): Denial {
    (path: string, name: string) => WorkerDenies(lower, path, name)
  }

  // Refuses what is not in normal form, and paths that are denied.
  function Checked(denies: Denial, value: string): Option<string> {
    if !WellFormed(value) || value[0] == '/' then None else
    var parts := Split(value, '/');
    if exists i | 0 <= i < |parts| :: !Plain(parts[i]) then None else
    var normalized := Join(parts, '/');
    if denies(normalized, parts[|parts| - 1]) then None else Some(normalized)
  }

  function NormalizeWorker(lower: Lowering, value: string): Option<string> {
    Checked(WorkerDenial(lower), value)
  }

  // ----- How they relate -----

  lemma {:induction false} ComponentsOfPlain(parts: seq<string>)
    requires forall p | p in parts :: p != "" && p != "."
    ensures Components(parts) == parts
  {
    if parts != [] {
      assert parts[0] in parts && forall p | p in parts[1..] :: p in parts;
      ComponentsOfPlain(parts[1..]);
    }
  }

  lemma {:induction false} JoinKeeps(parts: seq<string>, c: char)
    requires parts != [] && c != '/' && forall p | p in parts :: c !in p
    ensures c !in Join(parts, '/')
  {
    if |parts| > 1 {
      assert parts[0] in parts;
      JoinKeeps(parts[1..], c);
    }
  }

  lemma {:induction false} PartsAvoid(value: string, c: char)
    requires c !in value && c != '/'
    ensures forall p | p in Split(value, '/') :: c !in p
  {
    if value != "" { PartsAvoid(value[1..], c); }
  }

  lemma CanonicalIsKept(denies: Denial, value: string)
    requires Canonicalized(denies, value).Some?
    ensures var n := Canonicalized(denies, value).value;
      Canonicalized(denies, n) == Some(n)
  {
    var parts := Split(value, '/');
    var components := Components(parts);
    var n := Rendered(components);
    SplitParts(value, '/');
    PartsAvoid(value, '\\');
    PartsAvoid(value, '\0');
    if components == [] {
      SplitPlain(".", '/');
      assert Components(["."]) == Components([]);
    } else {
      SplitJoin(components, '/');
      ComponentsOfPlain(components);
      JoinKeeps(components, '\\');
      JoinKeeps(components, '\0');
      assert components[0] in components;
      assert n[0] == components[0][0];
    }
  }

  // The trusted normalizer is idempotent: what it returns, it accepts unchanged.
  lemma TrustedIdempotent(lower: Lowering, value: string)
    requires NormalizeTrusted(lower, value).Some?
    ensures var n := NormalizeTrusted(lower, value).value;
      NormalizeTrusted(lower, n) == Some(n)
  {
    CanonicalIsKept(TrustedDenial(lower), value);
  }

  // A relative path of proper components only.
  ghost predicate InNormalForm(value: string) {
    WellFormed(value) && value[0] != '/' && forall p | p in Split(value, '/') :: Plain(p)
  }

  // The name a path ends with.
  function LastOf(value: string): string {
    Name(Split(value, '/'))
  }

  // Whatever it denies, the worker's normalizer accepts the paths in normal form, unchanged.
  lemma CheckedExactly(denies: Denial, value: string)
    ensures Checked(denies, value) ==
      if InNormalForm(value) && !denies(value, LastOf(value)) then Some(value) else None
  {
    var parts := Split(value, '/');
    JoinSplit(value, '/');
    assert forall i | 0 <= i < |parts| :: parts[i] in parts;
    if InNormalForm(value) {
      assert !(exists i | 0 <= i < |parts| :: !Plain(parts[i]));
    } else if WellFormed(value) && value[0] != '/' {
      var p :| p in parts && !Plain(p);
      var i :| 0 <= i < |parts| && parts[i] == p;
    }
  }

  // And the trusted one leaves exactly those alone, and ".".
  lemma NormalFormIsKept(denies: Denial, value: string)
    requires InNormalForm(value)
    ensures Canonicalized(denies, value) == if denies(value, LastOf(value)) then None else Some(value)
  {
    var parts := Split(value, '/');
    JoinSplit(value, '/');
    ComponentsOfPlain(parts);
    assert ".." !in parts;
  }

  lemma KeptIsInNormalForm(denies: Denial, value: string)
    requires Canonicalized(denies, value) == Some(value) && value != "."
    ensures InNormalForm(value)
  {
    var components := Components(Split(value, '/'));
    SplitParts(value, '/');
    SplitJoin(components, '/');
  }

  lemma DotIsNotInNormalForm()
    ensures !InNormalForm(".")
  {
    SplitPlain(".", '/');
    assert "." in ["."];
  }

  lemma SuffixEndsName(lower: Lowering, name: string)
    ensures EndsWith(Lower(lower, name), Lower(lower, Suffix(name)))
  {
    var i := LastIndex(name, '.');
    if 0 < i < |name| - 1 {
      assert name == name[..i] + name[i..];
      LowerConcat(lower, name[..i], name[i..]);
    }
  }

  lemma KeySuffixLooksLikeKey(name: string, suffix: string)
    requires EndsWith(name, suffix) && suffix in KEY_SUFFIXES
    ensures LooksLikeKey(name)
  {
    var i :| 0 <= i < |KEY_SUFFIXES| && KEY_SUFFIXES[i] == suffix;
  }

  // With one lower-casing the worker denies what the trusted side does, and names that end like a
  // key file's.
  lemma WorkerDeniesMore(lower: Lowering, path: string, name: string)
    ensures WorkerDenies(lower, path, name) <==>
      TrustedDenies(lower, path, name) || LooksLikeKey(Lower(lower, name))
  {
    SuffixEndsName(lower, name);
    if Lower(lower, Suffix(name)) in KEY_SUFFIXES {
      KeySuffixLooksLikeKey(Lower(lower, name), Lower(lower, Suffix(name)));
    }
  }

  // The worker accepts exactly the paths the trusted normalizer leaves alone, except "." and names
  // that end like a key file without the trusted normalizer seeing a suffix.
  lemma WorkerPathsExactly(lower: Lowering, value: string)
    ensures NormalizeWorker(lower, value).Some? <==>
      && NormalizeTrusted(lower, value) == Some(value)
      && value != "."
      && !LooksLikeKey(Lower(lower, LastOf(value)))
  {
    CheckedExactly(WorkerDenial(lower), value);
    WorkerDeniesMore(lower, value, LastOf(value));
    DotIsNotInNormalForm();
    if InNormalForm(value) {
      NormalFormIsKept(TrustedDenial(lower), value);
    } else if NormalizeTrusted(lower, value) == Some(value) && value != "." {
      KeptIsInNormalForm(TrustedDenial(lower), value);
    }
  }

  // Every path the worker accepts, it accepts unchanged, and so does the trusted normalizer.
  lemma WorkerPathsAreTrusted(lower: Lowering, value: string)
    requires NormalizeWorker(lower, value).Some?
    ensures NormalizeWorker(lower, value) == Some(value)
    ensures NormalizeTrusted(lower, value) == Some(value)
  {
    CheckedExactly(WorkerDenial(lower), value);
    WorkerPathsExactly(lower, value);
  }

  // ----- What neither lets through -----

  // The directory, or anything in it.
  ghost predicate Within(path: string, directory: string) {
    path == directory || directory + "/" <= path
  }

  // Repository internals, pipelines and credentials, by path or by name.
  ghost predicate Secret(path: string, name: string) {
    || Within(path, ".git") || Within(path, ".github/workflows") || Within(path, ".circleci")
    || Within(path, ".buildkite") || Within(path, ".ssh") || Within(path, ".aws") || Within(path, ".config/gcloud")
    || name == ".env" || name == ".env.local" || ".env." <= name || name == ".npmrc" || name == ".pypirc"
    || name == ".netrc" || name == "id_rsa" || name == "id_ed25519" || name == "credentials"
    || name == "credentials.json" || name == "credentials.yml" || name == "credentials.yaml"
    || name == "service-account.json"
  }

  lemma PrefixIsDenied(lowered: string, i: nat)
    requires i < |DENIED_PREFIXES| && Within(lowered, DENIED_PREFIXES[i])
    ensures DeniedPrefix(lowered)
  {
  }

  lemma WithinIsDenied(lowered: string)
    requires
      || Within(lowered, ".git") || Within(lowered, ".github/workflows") || Within(lowered, ".circleci")
      || Within(lowered, ".buildkite") || Within(lowered, ".ssh") || Within(lowered, ".aws")
      || Within(lowered, ".config/gcloud")
    ensures DeniedPrefix(lowered)
  {
    if Within(lowered, ".git") { PrefixIsDenied(lowered, 0); }
    else if Within(lowered, ".github/workflows") { PrefixIsDenied(lowered, 1); }
    else if Within(lowered, ".circleci") { PrefixIsDenied(lowered, 2); }
    else if Within(lowered, ".buildkite") { PrefixIsDenied(lowered, 3); }
    else if Within(lowered, ".ssh") { PrefixIsDenied(lowered, 4); }
    else if Within(lowered, ".aws") { PrefixIsDenied(lowered, 5); }
    else { PrefixIsDenied(lowered, 6); }
  }

  lemma SecretIsDenied(lower: Lowering, path: string, name: string)
    requires Secret(Lower(lower, path), Lower(lower, name))
    ensures TrustedDenies(lower, path, name) && WorkerDenies(lower, path, name)
  {
    var lowered, last := Lower(lower, path), Lower(lower, name);
    if !DeniedName(last) { WithinIsDenied(lowered); }
    WorkerDeniesMore(lower, path, name);
  }

  // Whatever the case of its letters, no path to a secret gets past either normalizer, however it is
  // written.
  lemma SecretsAreRefused(lower: Lowering, value: string, n: string)
    ensures NormalizeTrusted(lower, value) == Some(n) ==>
      !Secret(Lower(lower, n), Lower(lower, Name(Components(Split(value, '/')))))
    ensures NormalizeWorker(lower, value) == Some(n) ==> !Secret(Lower(lower, n), Lower(lower, LastOf(n)))
  {
    var name := Name(Components(Split(value, '/')));
    if Secret(Lower(lower, n), Lower(lower, name)) { SecretIsDenied(lower, n, name); }
    if Secret(Lower(lower, n), Lower(lower, LastOf(n))) {
      SecretIsDenied(lower, n, LastOf(n));
      CheckedExactly(WorkerDenial(lower), value);
    }
  }

  // And no path that gets past one leaves the repository.
  lemma AcceptedPathsStayInside(lower: Lowering, value: string)
    requires NormalizeTrusted(lower, value).Some?
    ensures var n := NormalizeTrusted(lower, value).value;
      n == "." || (n != "" && n[0] != '/' && forall part | part in Split(n, '/') :: part !in {"", ".", ".."})
  {
    var n := NormalizeTrusted(lower, value).value;
    TrustedIdempotent(lower, value);
    if n != "." { KeptIsInNormalForm(TrustedDenial(lower), n); }
  }

  lemma {:induction false} LowerIsIdentity(lower: Lowering, s: string)
    requires forall c | c in s :: lower(c) == [c]
    ensures Lower(lower, s) == s
  {
    if s != "" { LowerIsIdentity(lower, s[1..]); }
  }

  lemma RootName(name: string)
    requires WellFormed(name) && Plain(name) && '/' !in name
    ensures InNormalForm(name) && LastOf(name) == name
  {
    SplitPlain(name, '/');
  }

  lemma SplitDotted(name: string)
    requires '/' !in name
    ensures Split("./" + name, '/') == [".", name]
  {
    var dot := ".";
    SplitFirst(dot, name, '/');
    SplitPlain(name, '/');
    assert "./" + name == dot + ['/'] + name;
  }

  lemma DotVanishes(name: string)
    requires Plain(name)
    ensures Components([".", name]) == [name] == Components([name])
  {
    var parts := [".", name];
    assert parts[1..] == [name];
    ComponentsOfPlain([name]);
  }

  // A leading "./" changes nothing.
  lemma DotSlash(denies: Denial, name: string)
    requires WellFormed(name) && Plain(name) && '/' !in name
    ensures Canonicalized(denies, "./" + name) == Canonicalized(denies, name)
  {
    SplitPlain(name, '/');
    SplitDotted(name);
    DotVanishes(name);
    var dotted := "./" + name;
    assert WellFormed(dotted) && dotted[0] == '.';
  }

  lemma PemIsNotDenied()
    ensures !DeniedPrefix(".pem") && !DeniedName(".pem")
  {
    var pem := ".pem";
    assert pem[1] == 'p';
    forall i | 0 <= i < |DENIED_PREFIXES| ensures DENIED_PREFIXES[i][1] != 'p' {}
    assert ".env."[1] == 'e';
    forall n | n in DENIED_NAMES ensures n != pem { assert |n| != 4 || n[1] != 'p'; }
  }

  lemma PemIsAccepted(lower: Lowering)
    requires forall c | c in ".pem" :: lower(c) == [c]
    ensures !TrustedDenies(lower, ".pem", ".pem") && WorkerDenies(lower, ".pem", ".pem")
  {
    LowerIsIdentity(lower, ".pem");
    PemIsNotDenied();
    PemHasNoSuffix();
  }

  lemma PemHasNoSuffix()
    ensures Suffix(".pem") == "" && "" !in KEY_SUFFIXES && LooksLikeKey(".pem")
  {
    assert forall k | k in KEY_SUFFIXES :: |k| == 4;
    assert EndsWith(".pem", KEY_SUFFIXES[1]);
  }

  // There are such names: a file called just ".pem".
  lemma TrustedAcceptsMore(lower: Lowering)
    requires forall c | c in ".pem" :: lower(c) == [c]
    ensures NormalizeTrusted(lower, ".pem") == Some(".pem")
    ensures NormalizeWorker(lower, ".pem") == None
  {
    RootName(".pem");
    PemIsAccepted(lower);
    NormalFormIsKept(TrustedDenial(lower), ".pem");
    CheckedExactly(WorkerDenial(lower), ".pem");
  }

  lemma PyIsNotDenied()
    ensures !DeniedPrefix("a.py") && !DeniedName("a.py")
  {
    var name := "a.py";
    assert name[0] == 'a';
    forall i | 0 <= i < |DENIED_PREFIXES| ensures DENIED_PREFIXES[i][0] == '.' {}
    assert ".env."[0] == '.';
    forall n | n in DENIED_NAMES ensures n != name { assert |n| != 4 || n[0] == '.'; }
  }

  lemma PyIsAccepted(lower: Lowering)
    requires forall c | c in "a.py" :: lower(c) == [c]
    ensures !TrustedDenies(lower, "a.py", "a.py")
  {
    var name := "a.py";
    LowerIsIdentity(lower, name);
    PyIsNotDenied();
    assert name[1] == '.' && forall j | 1 < j < 4 :: name[j] != '.';
    assert LastIndex(name, '.') == 1 && name[1..] == ".py";
    LowerIsIdentity(lower, ".py");
    assert forall k | k in KEY_SUFFIXES :: |k| == 4;
  }

  // A root file that is not denied is kept, with a leading "./" or without.
  lemma RootFileIsKept(denies: Denial, name: string)
    requires WellFormed(name) && Plain(name) && '/' !in name && !denies(name, name)
    ensures Canonicalized(denies, name) == Some(name)
    ensures Canonicalized(denies, "./" + name) == Some(name)
  {
    RootName(name);
    NormalFormIsKept(denies, name);
    DotSlash(denies, name);
  }

  lemma PyIsARootFile()
    ensures WellFormed("a.py") && Plain("a.py") && '/' !in "a.py"
    ensures "./" + "a.py" == "./a.py"
  {}

  lemma DotSlashVanishes(lower: Lowering)
    requires forall c | c in "a.py" :: lower(c) == [c]
    ensures NormalizeTrusted(lower, "a.py") == Some("a.py")
    ensures NormalizeTrusted(lower, "./a.py") == Some("a.py")
  {
    PyIsAccepted(lower);
    PyIsARootFile();
    var denies, name := TrustedDenial(lower), "a.py";
    assert !denies(name, name);
    RootFileIsKept(denies, name);
  }
}
