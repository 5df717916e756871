/** The fingerprint of a target's copy-files build phases
    (`CopyFilesContentHasher.hash(identifier:copyFiles:)`).

    The hasher turns a list of copy-files actions into a Merkle tree: one node
    per action, in input order, each with a `name`, `destination`, `files` and
    optional `subpath` child; the `files` child holds one node per file, sorted
    by path, each with a `content`, `isReference`, `codeSignOnCopy` and optional
    `condition` child. Every composite node's hash is the combiner applied to
    its children's hashes, in their stored order.

    The digest behind `ContentHashing`, reading a file's bytes for
    `hash(path:)` and `PlatformConditionContentHashing` are collaborators whose
    code is not part of this model: they are the function-valued fields of
    `ContentHasher` and `CopyFilesContentHasher`. Each of them can fail, as
    every one of them is called with `try`; the first failure, in Swift's
    evaluation order, aborts the whole computation. */
module CopyFilesHashing {
  import opened Wrappers
  import opened Paths

  type Hash = string

  datatype MerkleNode = MerkleNode(hash: Hash, identifier: string, children: seq<MerkleNode>)

  /** An error raised by a collaborator, e.g. an unreadable file. */
  datatype HashError = HashError(message: string)

  datatype PlatformCondition = PlatformCondition(platformFilters: seq<string>)

  /** The fields of a `CopyFileElement` that the hasher reads; `path` is the
      path's string form. */
  datatype CopyFileElement = CopyFileElement(
    path: string,
    condition: Option<PlatformCondition>,
    isReference: bool,
    codeSignOnCopy: bool)

  /** A copy-files build phase; `destination` is the destination's raw value. */
  datatype CopyFilesAction = CopyFilesAction(
    name: string,
    destination: string,
    subpath: Option<string>,
    files: seq<CopyFileElement>)

  /** `ContentHashing`: hashes of strings, booleans and file contents, and the
      combiner over an ordered list of child hashes. */
  datatype ContentHasher = ContentHasher(
    hashString: string -> Result<Hash, HashError>,
    hashBool: bool -> Result<Hash, HashError>,
    hashPath: string -> Result<Hash, HashError>,
    combine: seq<Hash> -> Result<Hash, HashError>)

  /** The hasher object with its two injected collaborators. */
  datatype CopyFilesContentHasher = CopyFilesContentHasher(
    contentHasher: ContentHasher,
    platformConditionContentHasher: (string, PlatformCondition) -> Result<MerkleNode, HashError>)

  /** A node without children: `MerkleNode(hash:identifier:)`. */
  function Leaf(hash: Hash, identifier: string): MerkleNode
  {
    MerkleNode(hash, identifier, [])
  }

  function Hashes(nodes: seq<MerkleNode>): (r: seq<Hash>)
  {
    seq(|nodes|, i requires 0 <= i < |nodes| => nodes[i].hash)
  }

  function Identifiers(nodes: seq<MerkleNode>): (r: seq<string>)
  {
    seq(|nodes|, i requires 0 <= i < |nodes| => nodes[i].identifier)
  }

  /** The Merkle invariant of one node: its hash is the combiner applied to
      its children's hashes, in their stored order. */
  predicate Combined(c: ContentHasher, n: MerkleNode)
  {
    c.combine(Hashes(n.children)) == Success(n.hash)
  }

  /** The combiner never maps two different child lists to the same hash.
      Digests are not injective; this is the "overwhelming probability"
      assumption, and only the lemmas that need it require it. */
  ghost predicate CombineInjective(c: ContentHasher)
  {
    forall xs, ys :: c.combine(xs).Success? && c.combine(xs) == c.combine(ys) ==> xs == ys
  }

  // ---------------------------------------------------------------------------
  // Canonical order of an action's files

  predicate SortedByPath(s: seq<CopyFileElement>)
  {
    forall i, j :: 0 <= i < j < |s| ==> LessOrEqual(s[i].path, s[j].path)
  }

  /** Any two files that share a path are the same file. This holds when
      paths are distinct; it is what makes the sorted order unique. */
  ghost predicate SamePathSameFile(m: multiset<CopyFileElement>)
  {
    forall x, y :: x in m && y in m && x.path == y.path ==> x == y
  }

  function InsertByPath(x: CopyFileElement, s: seq<CopyFileElement>): (r: seq<CopyFileElement>)
    ensures |r| == |s| + 1
    ensures multiset(r) == multiset(s) + multiset{x}
    ensures SortedByPath(s) ==> SortedByPath(r)
  {
    if s == [] || LessOrEqual(x.path, s[0].path) then
      assert SortedByPath(s) ==> SortedByPath([x] + s) by {
        if SortedByPath(s) {
          forall k | 0 <= k < |s| ensures LessOrEqual(x.path, s[k].path) {
            if k > 0 { LessOrEqualTransitive(x.path, s[0].path, s[k].path); }
          }
          SortedCons(x, s);
        }
      }
      [x] + s
    else
      var rest := InsertByPath(x, s[1..]);
      assert s == [s[0]] + s[1..];
      assert SortedByPath(s) ==> SortedByPath([s[0]] + rest) by {
        if SortedByPath(s) {
          SortedTail(s);
          InsertAfterHeadSorted(x, s, rest);
        }
      }
      [s[0]] + rest
  }

  /** A sequence stays sorted when an element no greater than all of it is
      put in front. */
  lemma SortedCons(y: CopyFileElement, s: seq<CopyFileElement>)
    requires SortedByPath(s)
    requires forall k :: 0 <= k < |s| ==> LessOrEqual(y.path, s[k].path)
    ensures SortedByPath([y] + s)
  {
    var t := [y] + s;
    forall i, j | 0 <= i < j < |t| ensures LessOrEqual(t[i].path, t[j].path) {
      assert t[j] == s[j - 1];
      if i > 0 {
        assert t[i] == s[i - 1];
      }
    }
  }

  /** The head of a sorted sequence, put in front of the insertion of a
      larger element into its tail, keeps the result sorted. */
  lemma InsertAfterHeadSorted(x: CopyFileElement, s: seq<CopyFileElement>, rest: seq<CopyFileElement>)
    requires s != [] && !LessOrEqual(x.path, s[0].path)
    requires multiset(rest) == multiset(s[1..]) + multiset{x}
    requires SortedByPath(s) && SortedByPath(rest)
    ensures SortedByPath([s[0]] + rest)
  {
    LessOrEqualTotal(x.path, s[0].path);
    forall k | 0 <= k < |rest| ensures LessOrEqual(s[0].path, rest[k].path) {
      assert rest[k] in multiset(rest);
      if rest[k] != x {
        assert rest[k] in multiset(s[1..]);
        var m :| 0 <= m < |s[1..]| && s[1..][m] == rest[k];
        assert s[m + 1] == rest[k];
      }
    }
    SortedCons(s[0], rest);
  }

  /** `files.sorted(by: { $0.path < $1.path })`. Swift's sort is not stable;
      for files that share a path this insertion sort picks one order. */
  function SortByPath(s: seq<CopyFileElement>): (r: seq<CopyFileElement>)
    ensures |r| == |s|
    ensures multiset(r) == multiset(s)
    ensures SortedByPath(r)
  {
    if s == [] then []
    else
      assert s == [s[0]] + s[1..];
      InsertByPath(s[0], SortByPath(s[1..]))
  }

  /** Two path-sorted orderings of the same files are equal when files that
      share a path are identical. */
  lemma {:induction false} SortedUnique(s1: seq<CopyFileElement>, s2: seq<CopyFileElement>)
    requires SortedByPath(s1) && SortedByPath(s2)
    requires multiset(s1) == multiset(s2)
    requires SamePathSameFile(multiset(s1))
    ensures s1 == s2
  {
    if s1 == [] {
      assert |multiset(s2)| == 0;
    } else {
      assert s2 != [] by { assert s1[0] in multiset(s2); }
      SortedHeadsEqual(s1, s2);
      SortedTail(s1);
      SortedTail(s2);
      TailsArePermutations(s1, s2);
      SamePathSameFileInTail(s1);
      SortedUnique(s1[1..], s2[1..]);
    }
  }

  lemma TailsArePermutations(s1: seq<CopyFileElement>, s2: seq<CopyFileElement>)
    requires s1 != [] && s2 != [] && s1[0] == s2[0]
    requires multiset(s1) == multiset(s2)
    ensures multiset(s1[1..]) == multiset(s2[1..])
  {
    assert s1 == [s1[0]] + s1[1..] && s2 == [s2[0]] + s2[1..];
    assert multiset(s1) == multiset{s1[0]} + multiset(s1[1..]);
    assert multiset(s2) == multiset{s2[0]} + multiset(s2[1..]);
    assert multiset(s1[1..]) == multiset(s1) - multiset{s1[0]};
  }

  lemma SamePathSameFileInTail(s: seq<CopyFileElement>)
    requires s != [] && SamePathSameFile(multiset(s))
    ensures SamePathSameFile(multiset(s[1..]))
  {
    assert s == [s[0]] + s[1..];
    assert multiset(s[1..]) <= multiset(s);
  }

  lemma SortedTail(s: seq<CopyFileElement>)
    requires SortedByPath(s) && s != []
    ensures SortedByPath(s[1..])
  {
    forall i, j | 0 <= i < j < |s[1..]| ensures LessOrEqual(s[1..][i].path, s[1..][j].path) {
      assert s[1..][i] == s[i + 1] && s[1..][j] == s[j + 1];
    }
  }

  /** The first element of a path-sorted sequence has the least path. */
  lemma SortedHeadIsLeast(s: seq<CopyFileElement>, x: CopyFileElement)
    requires SortedByPath(s) && x in s
    ensures LessOrEqual(s[0].path, x.path)
  {
    var k :| 0 <= k < |s| && s[k] == x;
    if k == 0 {
      LessOrEqualTotal(x.path, x.path);
    }
  }

  lemma SortedHeadsEqual(s1: seq<CopyFileElement>, s2: seq<CopyFileElement>)
    requires SortedByPath(s1) && SortedByPath(s2) && s1 != [] && s2 != []
    requires multiset(s1) == multiset(s2)
    requires SamePathSameFile(multiset(s1))
    ensures s1[0] == s2[0]
  {
    assert s1[0] in multiset(s2) && s2[0] in multiset(s1);
    SortedHeadIsLeast(s2, s1[0]);
    SortedHeadIsLeast(s1, s2[0]);
    LessOrEqualAntisymmetric(s1[0].path, s2[0].path);
  }

  /** Reordering an action's files does not change their canonical order. */
  lemma SortByPathPermutationInvariant(s1: seq<CopyFileElement>, s2: seq<CopyFileElement>)
    requires multiset(s1) == multiset(s2)
    requires SamePathSameFile(multiset(s1))
    ensures SortByPath(s1) == SortByPath(s2)
  {
    SortedUnique(SortByPath(s1), SortByPath(s2));
  }

  // ---------------------------------------------------------------------------
  // The hasher

  /** Only reading a file can fail: the digest of strings and booleans, the
      combiner and the platform-condition hasher never throw. */
  ghost predicate OnlyFilesCanFail(h: CopyFilesContentHasher)
  {
    && (forall s :: h.contentHasher.hashString(s).Success?)
    && (forall b :: h.contentHasher.hashBool(b).Success?)
    && (forall hashes :: h.contentHasher.combine(hashes).Success?)
    && (forall id, c :: h.platformConditionContentHasher(id, c).Success?)
  }

  /** Every collaborator returns a value on every input: in addition, no
      file is unreadable. */
  ghost predicate CollaboratorsSucceed(h: CopyFilesContentHasher)
  {
    OnlyFilesCanFail(h) && forall p :: h.contentHasher.hashPath(p).Success?
  }

  /** The children of a file node: `content`, `isReference`, `codeSignOnCopy`,
      then the condition node when the file has a condition. */
  function FileChildren(h: CopyFilesContentHasher, file: CopyFileElement): (r: Result<seq<MerkleNode>, HashError>)
    ensures h.contentHasher.hashPath(file.path).Failure? ==> r == Failure(h.contentHasher.hashPath(file.path).error)
    ensures CollaboratorsSucceed(h) ==> r.Success?
    ensures r.Failure? ==>
      || h.contentHasher.hashPath(file.path) == Failure(r.error)
      || (h.contentHasher.hashPath(file.path).Success? && h.contentHasher.hashBool(file.isReference) == Failure(r.error))
      || (h.contentHasher.hashPath(file.path).Success? && h.contentHasher.hashBool(file.isReference).Success?
          && h.contentHasher.hashBool(file.codeSignOnCopy) == Failure(r.error))
      || (h.contentHasher.hashPath(file.path).Success? && h.contentHasher.hashBool(file.isReference).Success?
          && h.contentHasher.hashBool(file.codeSignOnCopy).Success? && file.condition.Some?
          && h.platformConditionContentHasher("condition", file.condition.value) == Failure(r.error))
    ensures r.Success? ==>
      && |r.value| == (if file.condition.Some? then 4 else 3)
      && Identifiers(r.value)[..3] == ["content", "isReference", "codeSignOnCopy"]
      && h.contentHasher.hashPath(file.path) == Success(r.value[0].hash)
      && h.contentHasher.hashBool(file.isReference) == Success(r.value[1].hash)
      && h.contentHasher.hashBool(file.codeSignOnCopy) == Success(r.value[2].hash)
      && (file.condition.Some? ==>
            h.platformConditionContentHasher("condition", file.condition.value) == Success(r.value[3]))
  {
    var content :- h.contentHasher.hashPath(file.path);
    var isReference :- h.contentHasher.hashBool(file.isReference);
    var codeSignOnCopy :- h.contentHasher.hashBool(file.codeSignOnCopy);
    var base := [Leaf(content, "content"), Leaf(isReference, "isReference"), Leaf(codeSignOnCopy, "codeSignOnCopy")];
    assert Identifiers(base) == ["content", "isReference", "codeSignOnCopy"];
    match file.condition
    case None => Success(base)
    case Some(condition) =>
      var conditionNode :- h.platformConditionContentHasher("condition", condition);
      assert Identifiers(base + [conditionNode])[..3] == Identifiers(base);
      Success(base + [conditionNode])
  }

  /** The node of one file, labelled by the file's path. */
  function HashFile(h: CopyFilesContentHasher, file: CopyFileElement): (r: Result<MerkleNode, HashError>)
    ensures h.contentHasher.hashPath(file.path).Failure? ==> r == Failure(h.contentHasher.hashPath(file.path).error)
    ensures CollaboratorsSucceed(h) ==> r.Success?
    ensures r.Failure? ==>
      || FileChildren(h, file) == Failure(r.error)
      || (FileChildren(h, file).Success? && h.contentHasher.combine(Hashes(FileChildren(h, file).value)) == Failure(r.error))
    ensures r.Success? ==>
      && r.value.identifier == file.path
      && |r.value.children| == (if file.condition.Some? then 4 else 3)
      && Identifiers(r.value.children)[..3] == ["content", "isReference", "codeSignOnCopy"]
      && h.contentHasher.hashPath(file.path) == Success(r.value.children[0].hash)
      && h.contentHasher.hashBool(file.isReference) == Success(r.value.children[1].hash)
      && h.contentHasher.hashBool(file.codeSignOnCopy) == Success(r.value.children[2].hash)
      && (file.condition.Some? ==>
            h.platformConditionContentHasher("condition", file.condition.value) == Success(r.value.children[3]))
      && Combined(h.contentHasher, r.value)
  {
    var children :- FileChildren(h, file);
    var hash :- h.contentHasher.combine(Hashes(children));
    Success(MerkleNode(hash, file.path, children))
  }

  /** The file nodes of an action's files, in path order; on failure, the
      error of the first file, in that order, whose node fails. */
  function FileNodes(h: CopyFilesContentHasher, files: seq<CopyFileElement>): (r: Result<seq<MerkleNode>, HashError>)
    ensures r.Failure? ==>
      exists k :: 0 <= k < |files| && HashFile(h, SortByPath(files)[k]) == Failure(r.error)
                  && forall i :: 0 <= i < k ==> HashFile(h, SortByPath(files)[i]).Success?
  {
    var sorted := SortByPath(files);
    var r := MapAll(sorted, (f: CopyFileElement) => HashFile(h, f));
    assert r.Failure? ==>
      exists k :: 0 <= k < |sorted| && HashFile(h, sorted[k]) == Failure(r.error)
                  && forall i :: 0 <= i < k ==> HashFile(h, sorted[i]).Success?;
    r
  }

  /** The `files` child of an action: one file node per file, in path order. */
  function FilesNode(h: CopyFilesContentHasher, files: seq<CopyFileElement>): (r: Result<MerkleNode, HashError>)
    ensures CollaboratorsSucceed(h) ==> r.Success?
    ensures r.Failure? ==>
      || FileNodes(h, files) == Failure(r.error)
      || (FileNodes(h, files).Success? && h.contentHasher.combine(Hashes(FileNodes(h, files).value)) == Failure(r.error))
    ensures r.Success? ==>
      && r.value.identifier == "files"
      && |r.value.children| == |files|
      && (forall i :: 0 <= i < |files| ==> HashFile(h, SortByPath(files)[i]) == Success(r.value.children[i]))
      && (forall i, j :: 0 <= i < j < |files| ==>
            LessOrEqual(r.value.children[i].identifier, r.value.children[j].identifier))
      && Combined(h.contentHasher, r.value)
  {
    var sorted := SortByPath(files);
    var fileNodes :- FileNodes(h, files);
    var filesHash :- h.contentHasher.combine(Hashes(fileNodes));
    assert forall i :: 0 <= i < |files| ==> fileNodes[i].identifier == sorted[i].path;
    Success(MerkleNode(filesHash, "files", fileNodes))
  }

  /** The children of an action node: `name`, `destination`, `files`, then
      `subpath` when the action has one. */
  function ActionChildren(h: CopyFilesContentHasher, action: CopyFilesAction): (r: Result<seq<MerkleNode>, HashError>)
    ensures CollaboratorsSucceed(h) ==> r.Success?
    ensures r.Failure? ==>
      || h.contentHasher.hashString(action.name) == Failure(r.error)
      || (h.contentHasher.hashString(action.name).Success? && h.contentHasher.hashString(action.destination) == Failure(r.error))
      || (h.contentHasher.hashString(action.name).Success? && h.contentHasher.hashString(action.destination).Success?
          && FilesNode(h, action.files) == Failure(r.error))
      || (h.contentHasher.hashString(action.name).Success? && h.contentHasher.hashString(action.destination).Success?
          && FilesNode(h, action.files).Success? && action.subpath.Some?
          && h.contentHasher.hashString(action.subpath.value) == Failure(r.error))
    ensures r.Success? ==>
      && |r.value| == (if action.subpath.Some? then 4 else 3)
      && Identifiers(r.value) == ["name", "destination", "files"] + (if action.subpath.Some? then ["subpath"] else [])
      && h.contentHasher.hashString(action.name) == Success(r.value[0].hash)
      && h.contentHasher.hashString(action.destination) == Success(r.value[1].hash)
      && FilesNode(h, action.files) == Success(r.value[2])
      && (action.subpath.Some? ==> h.contentHasher.hashString(action.subpath.value) == Success(r.value[3].hash))
  {
    var name :- h.contentHasher.hashString(action.name);
    var destination :- h.contentHasher.hashString(action.destination);
    var filesNode :- FilesNode(h, action.files);
    match action.subpath
    case None =>
      Success(ActionChildNodes(name, destination, filesNode, None))
    case Some(subpath) =>
      var subpathHash :- h.contentHasher.hashString(subpath);
      Success(ActionChildNodes(name, destination, filesNode, Some(subpathHash)))
  }

  /** The children of an action node once each part is hashed. */
  function ActionChildNodes(name: Hash, destination: Hash, filesNode: MerkleNode, subpath: Option<Hash>): (r: seq<MerkleNode>)
    requires filesNode.identifier == "files"
    ensures |r| == (if subpath.Some? then 4 else 3)
    ensures Identifiers(r) == ["name", "destination", "files"] + (if subpath.Some? then ["subpath"] else [])
    ensures r[0].hash == name && r[1].hash == destination && r[2] == filesNode
    ensures subpath.Some? ==> r[3].hash == subpath.value
  {
    var base := [Leaf(name, "name"), Leaf(destination, "destination"), filesNode];
    assert Identifiers(base) == ["name", "destination", "files"];
    match subpath
    case None =>
      assert ["name", "destination", "files"] + [] == ["name", "destination", "files"];
      base
    case Some(s) =>
      assert Identifiers(base + [Leaf(s, "subpath")]) == Identifiers(base) + ["subpath"];
      base + [Leaf(s, "subpath")]
  }

  /** The node of one action, labelled by the action's name. Its `files`
      child holds one node per file, in path order. */
  function HashAction(h: CopyFilesContentHasher, action: CopyFilesAction): (r: Result<MerkleNode, HashError>)
    ensures CollaboratorsSucceed(h) ==> r.Success?
    ensures r.Failure? ==>
      || ActionChildren(h, action) == Failure(r.error)
      || (ActionChildren(h, action).Success?
          && h.contentHasher.combine(Hashes(ActionChildren(h, action).value)) == Failure(r.error))
    ensures r.Success? ==>
      && r.value.identifier == action.name
      && |r.value.children| == (if action.subpath.Some? then 4 else 3)
      && Identifiers(r.value.children)
         == ["name", "destination", "files"] + (if action.subpath.Some? then ["subpath"] else [])
      && h.contentHasher.hashString(action.name) == Success(r.value.children[0].hash)
      && h.contentHasher.hashString(action.destination) == Success(r.value.children[1].hash)
      && FilesNode(h, action.files) == Success(r.value.children[2])
      && (action.subpath.Some? ==>
            h.contentHasher.hashString(action.subpath.value) == Success(r.value.children[3].hash))
      && Combined(h.contentHasher, r.value)
  {
    var children :- ActionChildren(h, action);
    var hash :- h.contentHasher.combine(Hashes(children));
    Success(MerkleNode(hash, action.name, children))
  }

  /** The action nodes, in input order. */
  function ActionNodes(h: CopyFilesContentHasher, copyFiles: seq<CopyFilesAction>): Result<seq<MerkleNode>, HashError>
  {
    MapAll(copyFiles, (a: CopyFilesAction) => HashAction(h, a))
  }

  /** `hash(identifier:copyFiles:)`: the root node has one child per action,
      in input order (actions are not sorted), and carries the caller's
      identifier. */
  function HashCopyFiles(h: CopyFilesContentHasher, identifier: string, copyFiles: seq<CopyFilesAction>): (r: Result<MerkleNode, HashError>)
    ensures r.Success? ==>
      && r.value.identifier == identifier
      && |r.value.children| == |copyFiles|
      && (forall i :: 0 <= i < |copyFiles| ==> HashAction(h, copyFiles[i]) == Success(r.value.children[i]))
      && Combined(h.contentHasher, r.value)
    ensures (exists i :: 0 <= i < |copyFiles| && HashAction(h, copyFiles[i]).Failure?) ==> r.Failure?
    ensures CollaboratorsSucceed(h) ==> r.Success?
    ensures r.Failure? ==>
      || (exists k :: 0 <= k < |copyFiles| && HashAction(h, copyFiles[k]) == Failure(r.error)
                      && forall i :: 0 <= i < k ==> HashAction(h, copyFiles[i]).Success?)
      || (ActionNodes(h, copyFiles).Success?
          && h.contentHasher.combine(Hashes(ActionNodes(h, copyFiles).value)) == Failure(r.error))
  {
    var children :- ActionNodes(h, copyFiles);
    var hash :- h.contentHasher.combine(Hashes(children));
    Success(MerkleNode(hash, identifier, children))
  }

  // ---------------------------------------------------------------------------
  // Properties

  /** Fail-fast: one unreadable file anywhere aborts the whole computation,
      and no node is produced. When that file's path is the only one that
      cannot be read and no other collaborator throws, the call fails with
      exactly the error reading it raised. */
  lemma UnreadableFileAbortsHash(h: CopyFilesContentHasher, identifier: string, copyFiles: seq<CopyFilesAction>, i: nat, j: nat)
    requires i < |copyFiles| && j < |copyFiles[i].files|
    requires h.contentHasher.hashPath(copyFiles[i].files[j].path).Failure?
    ensures HashCopyFiles(h, identifier, copyFiles).Failure?
    ensures OnlyFilesCanFail(h)
            && (forall q :: q != copyFiles[i].files[j].path ==> h.contentHasher.hashPath(q).Success?)
            ==> HashCopyFiles(h, identifier, copyFiles)
                == Failure(h.contentHasher.hashPath(copyFiles[i].files[j].path).error)
  {
    UnreadableFileFailsHash(h, identifier, copyFiles, i, j);
    var p := copyFiles[i].files[j].path;
    if OnlyFilesCanFail(h) && (forall q :: q != p ==> h.contentHasher.hashPath(q).Success?) {
      var e := HashCopyFiles(h, identifier, copyFiles).error;
      HashCopyFilesFailureIsUnreadable(h, identifier, copyFiles);
      var i', j' :| 0 <= i' < |copyFiles| && 0 <= j' < |copyFiles[i'].files|
                    && h.contentHasher.hashPath(copyFiles[i'].files[j'].path) == Failure(e);
      assert copyFiles[i'].files[j'].path == p;
    }
  }

  lemma UnreadableFileFailsHash(h: CopyFilesContentHasher, identifier: string, copyFiles: seq<CopyFilesAction>, i: nat, j: nat)
    requires i < |copyFiles| && j < |copyFiles[i].files|
    requires h.contentHasher.hashPath(copyFiles[i].files[j].path).Failure?
    ensures HashCopyFiles(h, identifier, copyFiles).Failure?
  {
    var file := copyFiles[i].files[j];
    var sorted := SortByPath(copyFiles[i].files);
    assert file in multiset(sorted);
    var k :| 0 <= k < |sorted| && sorted[k] == file;
    assert HashFile(h, sorted[k]).Failure?;
  }

  /** When only reading a file can fail, a failing file node carries the
      error reading that file raised. */
  lemma FileFailureIsUnreadable(h: CopyFilesContentHasher, file: CopyFileElement)
    requires OnlyFilesCanFail(h) && HashFile(h, file).Failure?
    ensures h.contentHasher.hashPath(file.path) == Failure(HashFile(h, file).error)
  {
  }

  /** When only reading a file can fail, a failing `files` node carries the
      error of reading one of the action's own files. */
  lemma FilesFailureIsUnreadable(h: CopyFilesContentHasher, files: seq<CopyFileElement>)
    requires OnlyFilesCanFail(h) && FilesNode(h, files).Failure?
    ensures exists j :: 0 <= j < |files| && h.contentHasher.hashPath(files[j].path) == Failure(FilesNode(h, files).error)
  {
    var e := FilesNode(h, files).error;
    assert FileNodes(h, files) == Failure(e);
    var sorted := SortByPath(files);
    var k :| 0 <= k < |files| && HashFile(h, sorted[k]) == Failure(e);
    FileFailureIsUnreadable(h, sorted[k]);
    assert sorted[k] in multiset(files);
    var j :| 0 <= j < |files| && files[j] == sorted[k];
  }

  /** When only reading a file can fail, a failing action node carries the
      error of reading one of the action's files. */
  lemma ActionFailureIsUnreadable(h: CopyFilesContentHasher, action: CopyFilesAction)
    requires OnlyFilesCanFail(h) && HashAction(h, action).Failure?
    ensures exists j :: 0 <= j < |action.files|
                        && h.contentHasher.hashPath(action.files[j].path) == Failure(HashAction(h, action).error)
  {
    var e := HashAction(h, action).error;
    assert ActionChildren(h, action) == Failure(e);
    assert FilesNode(h, action.files) == Failure(e);
    FilesFailureIsUnreadable(h, action.files);
  }

  /** When only reading a file can fail, the whole call fails only with the
      error of reading a file some action refers to. */
  lemma HashCopyFilesFailureIsUnreadable(h: CopyFilesContentHasher, identifier: string, copyFiles: seq<CopyFilesAction>)
    requires OnlyFilesCanFail(h) && HashCopyFiles(h, identifier, copyFiles).Failure?
    ensures exists i, j :: 0 <= i < |copyFiles| && 0 <= j < |copyFiles[i].files|
                           && h.contentHasher.hashPath(copyFiles[i].files[j].path)
                              == Failure(HashCopyFiles(h, identifier, copyFiles).error)
  {
    var e := HashCopyFiles(h, identifier, copyFiles).error;
    var i :| 0 <= i < |copyFiles| && HashAction(h, copyFiles[i]) == Failure(e);
    ActionFailureIsUnreadable(h, copyFiles[i]);
  }

  lemma ReadableIfHashSucceeds(h: CopyFilesContentHasher, identifier: string, copyFiles: seq<CopyFilesAction>, i: nat, j: nat)
    requires i < |copyFiles| && j < |copyFiles[i].files|
    requires HashCopyFiles(h, identifier, copyFiles).Success?
    ensures h.contentHasher.hashPath(copyFiles[i].files[j].path).Success?
  {
    if h.contentHasher.hashPath(copyFiles[i].files[j].path).Failure? {
      UnreadableFileFailsHash(h, identifier, copyFiles, i, j);
    }
  }

  /** When only reading a file can fail, the call succeeds exactly when every
      file some action refers to can be read. */
  lemma HashCopyFilesSucceedsIffFilesReadable(h: CopyFilesContentHasher, identifier: string, copyFiles: seq<CopyFilesAction>)
    requires OnlyFilesCanFail(h)
    ensures HashCopyFiles(h, identifier, copyFiles).Success?
        <==> forall i, j :: 0 <= i < |copyFiles| && 0 <= j < |copyFiles[i].files| ==>
                              h.contentHasher.hashPath(copyFiles[i].files[j].path).Success?
  {
    if HashCopyFiles(h, identifier, copyFiles).Failure? {
      HashCopyFilesFailureIsUnreadable(h, identifier, copyFiles);
    } else {
      forall i, j | 0 <= i < |copyFiles| && 0 <= j < |copyFiles[i].files|
        ensures h.contentHasher.hashPath(copyFiles[i].files[j].path).Success?
      {
        ReadableIfHashSucceeds(h, identifier, copyFiles, i, j);
      }
    }
  }

  /** Reordering an action's files leaves the action's node, and so its
      `files` child and its hash, unchanged, provided files that share a
      path are identical (e.g. all paths are distinct). */
  lemma FilesOrderDoesNotChangeActionHash(h: CopyFilesContentHasher, action: CopyFilesAction, files: seq<CopyFileElement>)
    requires multiset(files) == multiset(action.files)
    requires SamePathSameFile(multiset(action.files))
    ensures HashAction(h, action.(files := files)) == HashAction(h, action)
  {
    SortByPathPermutationInvariant(files, action.files);
    assert FileNodes(h, files) == FileNodes(h, action.files);
    HashActionDependsOnFilesNode(h, action.(files := files), action);
  }

  /** An action's node depends on its files only through the `files` node. */
  lemma HashActionDependsOnFilesNode(h: CopyFilesContentHasher, a: CopyFilesAction, b: CopyFilesAction)
    requires a.name == b.name && a.destination == b.destination && a.subpath == b.subpath
    requires FileNodes(h, a.files) == FileNodes(h, b.files)
    ensures HashAction(h, a) == HashAction(h, b)
  {
    assert FilesNode(h, a.files) == FilesNode(h, b.files);
    ActionChildrenDependsOnFilesNode(h, a, b);
  }

  lemma ActionChildrenDependsOnFilesNode(h: CopyFilesContentHasher, a: CopyFilesAction, b: CopyFilesAction)
    requires a.name == b.name && a.destination == b.destination && a.subpath == b.subpath
    requires FilesNode(h, a.files) == FilesNode(h, b.files)
    ensures ActionChildren(h, a) == ActionChildren(h, b)
  {
  }

  /** Reordering the files of one action leaves the root fingerprint
      unchanged. */
  lemma FilesOrderDoesNotChangeFingerprint(
    h: CopyFilesContentHasher, identifier: string, copyFiles: seq<CopyFilesAction>, i: nat, files: seq<CopyFileElement>)
    requires i < |copyFiles|
    requires multiset(files) == multiset(copyFiles[i].files)
    requires SamePathSameFile(multiset(copyFiles[i].files))
    ensures HashCopyFiles(h, identifier, copyFiles[i := copyFiles[i].(files := files)])
            == HashCopyFiles(h, identifier, copyFiles)
  {
    var reordered := copyFiles[i := copyFiles[i].(files := files)];
    FilesOrderDoesNotChangeActionHash(h, copyFiles[i], files);
    assert forall k :: 0 <= k < |copyFiles| ==> HashAction(h, reordered[k]) == HashAction(h, copyFiles[k]);
    assert MapAll(reordered, (a: CopyFilesAction) => HashAction(h, a))
        == MapAll(copyFiles, (a: CopyFilesAction) => HashAction(h, a)) by {
      MapAllPointwise(reordered, copyFiles, (a: CopyFilesAction) => HashAction(h, a));
    }
  }

  /** `MapAll` only depends on the results of `f` on the elements. */
  lemma {:induction false} MapAllPointwise<T, U, E>(xs: seq<T>, ys: seq<T>, f: T -> Result<U, E>)
    requires |xs| == |ys|
    requires forall k :: 0 <= k < |xs| ==> f(xs[k]) == f(ys[k])
    ensures MapAll(xs, f) == MapAll(ys, f)
  {
    if xs != [] {
      MapAllPointwise(xs[1..], ys[1..], f);
    }
  }

  /** An absent subpath does not collide with a present one: under an
      injective combiner, adding a subpath changes the action's hash. */
  lemma SubpathPresenceChangesActionHash(h: CopyFilesContentHasher, action: CopyFilesAction, subpath: string)
    requires action.subpath.None?
    requires CombineInjective(h.contentHasher)
    requires HashAction(h, action).Success? && HashAction(h, action.(subpath := Some(subpath))).Success?
    ensures HashAction(h, action).value.hash != HashAction(h, action.(subpath := Some(subpath))).value.hash
  {
    var n1 := HashAction(h, action).value;
    var n2 := HashAction(h, action.(subpath := Some(subpath))).value;
    assert |Hashes(n1.children)| != |Hashes(n2.children)|;
  }

  /** An absent platform condition does not collide with a present one:
      under an injective combiner, adding a condition changes the file's
      hash. */
  lemma ConditionPresenceChangesFileHash(h: CopyFilesContentHasher, file: CopyFileElement, condition: PlatformCondition)
    requires file.condition.None?
    requires CombineInjective(h.contentHasher)
    requires HashFile(h, file).Success? && HashFile(h, file.(condition := Some(condition))).Success?
    ensures HashFile(h, file).value.hash != HashFile(h, file.(condition := Some(condition))).value.hash
  {
    var n1 := HashFile(h, file).value;
    var n2 := HashFile(h, file.(condition := Some(condition))).value;
    assert |Hashes(n1.children)| != |Hashes(n2.children)|;
  }

  // ---------------------------------------------------------------------------
  // Avalanche: a changed file content changes the fingerprint

  /** Under an injective combiner, two combined nodes whose children differ
      in one hash have different hashes. */
  lemma ChildHashDecidesRoot(c: ContentHasher, n1: MerkleNode, n2: MerkleNode, k: nat)
    requires CombineInjective(c) && Combined(c, n1) && Combined(c, n2)
    requires k < |n1.children| && k < |n2.children|
    requires Hashes(n1.children)[k] != Hashes(n2.children)[k]
    ensures n1.hash != n2.hash
  {
    assert Hashes(n1.children) != Hashes(n2.children);
  }

  /** The same hasher reading file contents through `hashPath` instead. */
  function WithFileContents(h: CopyFilesContentHasher, hashPath: string -> Result<Hash, HashError>): (r: CopyFilesContentHasher)
    ensures r.contentHasher.hashPath == hashPath
    ensures r.contentHasher.combine == h.contentHasher.combine
  {
    h.(contentHasher := h.contentHasher.(hashPath := hashPath))
  }

  lemma ContentChangesFileHash(h: CopyFilesContentHasher, hashPath: string -> Result<Hash, HashError>, file: CopyFileElement)
    requires CombineInjective(h.contentHasher)
    requires hashPath(file.path) != h.contentHasher.hashPath(file.path)
    requires HashFile(h, file).Success? && HashFile(WithFileContents(h, hashPath), file).Success?
    ensures HashFile(h, file).value.hash != HashFile(WithFileContents(h, hashPath), file).value.hash
  {
    var n1 := HashFile(h, file).value;
    var n2 := HashFile(WithFileContents(h, hashPath), file).value;
    assert Hashes(n1.children)[0] != Hashes(n2.children)[0];
  }

  lemma ContentChangesFilesHash(h: CopyFilesContentHasher, hashPath: string -> Result<Hash, HashError>, files: seq<CopyFileElement>, j: nat)
    requires j < |files|
    requires CombineInjective(h.contentHasher)
    requires hashPath(files[j].path) != h.contentHasher.hashPath(files[j].path)
    requires FilesNode(h, files).Success? && FilesNode(WithFileContents(h, hashPath), files).Success?
    ensures FilesNode(h, files).value.hash != FilesNode(WithFileContents(h, hashPath), files).value.hash
  {
    var h2 := WithFileContents(h, hashPath);
    var sorted := SortByPath(files);
    assert files[j] in multiset(sorted);
    var k :| 0 <= k < |sorted| && sorted[k] == files[j];
    var files1 := FilesNode(h, files).value;
    var files2 := FilesNode(h2, files).value;
    assert HashFile(h, sorted[k]) == Success(files1.children[k]);
    assert HashFile(h2, sorted[k]) == Success(files2.children[k]);
    ContentChangesFileHash(h, hashPath, sorted[k]);
    ChildHashDecidesRoot(h.contentHasher, files1, files2, k);
  }

  lemma ContentChangesActionHash(h: CopyFilesContentHasher, hashPath: string -> Result<Hash, HashError>, action: CopyFilesAction, j: nat)
    requires j < |action.files|
    requires CombineInjective(h.contentHasher)
    requires hashPath(action.files[j].path) != h.contentHasher.hashPath(action.files[j].path)
    requires HashAction(h, action).Success? && HashAction(WithFileContents(h, hashPath), action).Success?
    ensures HashAction(h, action).value.hash != HashAction(WithFileContents(h, hashPath), action).value.hash
  {
    var h2 := WithFileContents(h, hashPath);
    ContentChangesFilesHash(h, hashPath, action.files, j);
    var n1 := HashAction(h, action).value;
    var n2 := HashAction(h2, action).value;
    assert Hashes(n1.children)[2] != Hashes(n2.children)[2];
  }

  /** Changing the content of one file referenced by any action changes the
      root fingerprint, when the combiner is injective. */
  lemma ContentChangesFingerprint(
    h: CopyFilesContentHasher, hashPath: string -> Result<Hash, HashError>,
    identifier: string, copyFiles: seq<CopyFilesAction>, i: nat, j: nat)
    requires i < |copyFiles| && j < |copyFiles[i].files|
    requires CombineInjective(h.contentHasher)
    requires hashPath(copyFiles[i].files[j].path) != h.contentHasher.hashPath(copyFiles[i].files[j].path)
    requires HashCopyFiles(h, identifier, copyFiles).Success?
    requires HashCopyFiles(WithFileContents(h, hashPath), identifier, copyFiles).Success?
    ensures HashCopyFiles(h, identifier, copyFiles).value.hash
         != HashCopyFiles(WithFileContents(h, hashPath), identifier, copyFiles).value.hash
  {
    var h2 := WithFileContents(h, hashPath);
    var root1 := HashCopyFiles(h, identifier, copyFiles).value;
    var root2 := HashCopyFiles(h2, identifier, copyFiles).value;
    assert HashAction(h, copyFiles[i]) == Success(root1.children[i]);
    assert HashAction(h2, copyFiles[i]) == Success(root2.children[i]);
    ContentChangesActionHash(h, hashPath, copyFiles[i], j);
    ChildHashDecidesRoot(h.contentHasher, root1, root2, i);
  }

  /** When no collaborator fails, before or after the change, the success
      premises of `ContentChangesFingerprint` hold: changing the content of
      any file of any action changes the root fingerprint. */
  lemma ContentChangesFingerprintWhenNothingFails(
    h: CopyFilesContentHasher, hashPath: string -> Result<Hash, HashError>,
    identifier: string, copyFiles: seq<CopyFilesAction>, i: nat, j: nat)
    requires i < |copyFiles| && j < |copyFiles[i].files|
    requires CombineInjective(h.contentHasher)
    requires CollaboratorsSucceed(h) && forall p :: hashPath(p).Success?
    requires hashPath(copyFiles[i].files[j].path) != h.contentHasher.hashPath(copyFiles[i].files[j].path)
    ensures HashCopyFiles(h, identifier, copyFiles).Success?
    ensures HashCopyFiles(WithFileContents(h, hashPath), identifier, copyFiles).Success?
    ensures HashCopyFiles(h, identifier, copyFiles).value.hash
         != HashCopyFiles(WithFileContents(h, hashPath), identifier, copyFiles).value.hash
  {
    assert CollaboratorsSucceed(WithFileContents(h, hashPath));
    ContentChangesFingerprint(h, hashPath, identifier, copyFiles, i, j);
  }
}
