// Git objects as values. An object id is modelled by the object it names: equal
// ids mean equal contents, which is what an injective digest gives.
module Git {
  import opened Options

  type Path = string

  datatype Entry = Entry(mode: string, content: string)

  // A recursive listing of the blobs of a tree.
  type Tree = map<Path, Entry>

  datatype Message = MigrationMessage(migration: int) | OtherMessage(text: string)

  datatype Commit = Commit(tree: Tree, parents: seq<Commit>, message: Message, date: int)

  datatype Ref = MigrationBranch(migration: int) | OtherBranch(name: string)

  // One edit of a stored patch artifact.
  datatype Edit = Edit(path: Path, expected: Option<string>, content: string, steps: seq<string>)

  // The digest of a patch artifact, modelled by the edits it was computed from.
  datatype PatchDigest = PatchDigest(edits: seq<Edit>)
}
