// Tree artifacts: the sorted entries that an upload derives from a local
// directory, the validation of a manifest, and the directory that a download
// creates from it.
//
// A path is text; its parts are what stands between the slashes.

module TreeManifests {
  import opened Outcomes
  import Sorting
  import Strings
  import Transfers

  type Parts = seq<string>
  type Bytes = Transfers.Bytes
  type Digest = Transfers.Digest

  const MAXIMUM_ENTRIES: nat := 1_000_000
  const MAXIMUM_PATH_BYTES: nat := 16_384
  const READ_ONLY: int := 0x124
  const READ_AND_EXECUTE: int := 0x16D

  // ---------------------------------------------------------------------- paths

  function Split(path: string): (parts: Parts)
    ensures parts != []
  {
    if path == [] then [""]
    else
      var rest := Split(path[1..]);
      if path[0] == '/' then [""] + rest else [[path[0]] + rest[0]] + rest[1..]
  }

  function Join(parts: Parts): string
    requires parts != []
  {
    if |parts| == 1 then parts[0] else parts[0] + "/" + Join(parts[1..])
  }

  predicate Plain(part: string) { '/' !in part }

  ghost predicate AllPlain(parts: Parts) {
    forall i :: 0 <= i < |parts| ==> Plain(parts[i])
  }

  lemma {:induction false} SplitPlain(part: string)
    requires Plain(part)
    ensures Split(part) == [part]
  {
    if part != [] {
      SplitPlain(part[1..]);
      assert part == [part[0]] + part[1..];
    }
  }

  lemma {:induction false} SplitFirst(part: string, rest: string)
    requires Plain(part)
    ensures Split(part + "/" + rest) == [part] + Split(rest)
  {
    var path := part + "/" + rest;
    if part == [] {
      assert path[1..] == rest;
    } else {
      assert path[1..] == part[1..] + "/" + rest;
      SplitFirst(part[1..], rest);
      assert part == [part[0]] + part[1..];
    }
  }

  /** Parts without slashes can be read back from their path. */
  lemma {:induction false} SplitJoin(parts: Parts)
    requires parts != [] && AllPlain(parts)
    ensures Split(Join(parts)) == parts
  {
    if |parts| == 1 {
      SplitPlain(parts[0]);
    } else {
      SplitJoin(parts[1..]);
      SplitFirst(parts[0], Join(parts[1..]));
    }
  }

  lemma {:induction false} JoinSplit(path: string)
    ensures Join(Split(path)) == path && AllPlain(Split(path))
  {
    if path != [] {
      JoinSplit(path[1..]);
      var rest, parts := Split(path[1..]), Split(path);
      if path[0] == '/' {
        assert parts[1..] == rest;
      } else {
        assert parts[1..] == rest[1..];
        assert |rest| > 1 ==> Join(parts) == [path[0]] + (rest[0] + "/" + Join(rest[1..]));
      }
    }
  }

  /** A path is a proper prefix, as text, of every path below it. */
  lemma {:induction false} JoinPrefix(parts: Parts, k: nat)
    requires 0 < k < |parts|
    ensures Join(parts[..k]) <= Join(parts) && |Join(parts[..k])| < |Join(parts)|
  {
    if k == 1 {
      assert parts[..1] == [parts[0]];
    } else {
      JoinPrefix(parts[1..], k - 1);
      assert parts[..k][1..] == parts[1..][..k - 1];
      assert parts[..k][0] == parts[0];
    }
  }

  lemma AncestorBelow(parts: Parts, k: nat)
    requires 0 < k < |parts|
    ensures Strings.Below(Join(parts[..k]), Join(parts))
  {
    JoinPrefix(parts, k);
    Strings.PrefixBelow(Join(parts[..k]), Join(parts));
  }

  function Utf8Length(text: string): nat {
    if text == [] then 0
    else
      var code := text[0] as int;
      (if code < 0x80 then 1 else if code < 0x800 then 2 else if code < 0x1_0000 then 3 else 4) + Utf8Length(text[1..])
  }

  predicate Canonical(path: string) {
    && path != [] && Utf8Length(path) <= MAXIMUM_PATH_BYTES && path[0] != '/' && '\\' !in path
    && forall part :: part in Split(path) ==> part !in {"", ".", ".."}
  }

  /** How many values the bits of n bytes of UTF-8 can tell apart: seven bits in one byte, or 5 n + 1 in n. */
  function Payload(n: nat): nat {
    if n == 0 then 0 else if n == 1 then 0x80 else if n == 2 then 0x20 * 0x40 else 0x20 * Payload(n - 1)
  }

  /** Characters take the fewest bytes that hold them, and the bytes of a text add up. */
  lemma Utf8LengthMeaning(c: char, text: string)
    ensures Utf8Length([]) == 0 && Utf8Length([c] + text) == Utf8Length([c]) + Utf8Length(text)
    ensures var n := Utf8Length([c]); n >= 1 && Payload(n - 1) <= c as nat < Payload(n)
  {
    assert ([c] + text)[1..] == text && [c][1..] == [];
    assert Payload(4) == 0x20 * Payload(3) == 0x20 * (0x20 * Payload(2)) == 0x20_0000;
  }

  /**
   Where a path leads from a directory below the root, part by part: two dots go up,
   one dot and an empty part stay. None once it leaves the root.
   */
  function Resolve(here: Parts, parts: Parts): Option<Parts>
    decreases |parts|
  {
    if parts == [] then Some(here)
    else if parts[0] == ".." then if here == [] then None else Resolve(here[..|here| - 1], parts[1..])
    else if parts[0] in {".", ""} then Resolve(here, parts[1..])
    else Resolve(here + [parts[0]], parts[1..])
  }

  /** Every part leads one level down exactly if all are names, and then these are the levels. */
  lemma {:induction false} ResolveNames(here: Parts, parts: Parts)
    ensures var r := Resolve(here, parts);
      && (r.Some? ==> |r.value| <= |here| + |parts|)
      && (r.Some? && |r.value| == |here| + |parts| <==> forall part :: part in parts ==> part !in {"", ".", ".."})
      && (r.Some? && |r.value| == |here| + |parts| ==> r.value == here + parts)
    decreases |parts|
  {
    if parts != [] {
      var first, rest := parts[0], parts[1..];
      assert forall part :: part in parts <==> part == first || part in rest;
      assert first in parts;
      if first == ".." {
        if here != [] {
          ResolveNames(here[..|here| - 1], rest);
        }
      } else if first in {".", ""} {
        ResolveNames(here, rest);
      } else {
        ResolveNames(here + [first], rest);
      }
    }
  }

  /** A canonical path is one without backslashes, of limited length, that leads exactly to its own parts. */
  lemma CanonicalMeaning(path: string)
    ensures Canonical(path) <==>
      Resolve([], Split(path)) == Some(Split(path)) && '\\' !in path && Utf8Length(path) <= 16_384
  {
    var parts := Split(path);
    ResolveNames([], parts);
    assert [] + parts == parts;
    if path == [] || path[0] == '/' {
      assert parts[0] == "" && parts[0] in parts;
    }
  }

  /** On its way, a canonical path goes one level down with every part, and never leaves the root. */
  lemma StaysInside(path: string, k: nat)
    requires Canonical(path) && k <= |Split(path)|
    ensures Resolve([], Split(path)[..k]) == Some(Split(path)[..k])
  {
    var parts := Split(path)[..k];
    ResolveNames([], parts);
    assert forall part :: part in parts ==> part in Split(path);
    assert [] + parts == parts;
  }

  function Parent(path: string): Option<string> {
    var parts := Split(path);
    if |parts| == 1 then None else Some(Join(parts[..|parts| - 1]))
  }

  // ------------------------------------------------------------------- manifests

  /** A digest is missing if its text is not a well-formed one. */
  datatype Kind =
    | DirectoryEntry
    | FileEntry(artifactId: string, sizeBytes: int, digest: Option<Digest>)
    | OtherEntry

  /** An entry of a manifest; `exactFields` says that it has the fields of its type and no others. */
  datatype Entry = Entry(path: string, kind: Kind, mode: int, exactFields: bool)

  predicate CharacterAllowed(c: char) {
    'A' <= c <= 'Z' || 'a' <= c <= 'z' || '0' <= c <= '9' || c in "_-"
  }

  predicate ArtifactIdValid(id: string) {
    && |id| >= 5 && id[..4] == "art_" && |id| <= 132
    && forall i :: 4 <= i < |id| ==> CharacterAllowed(id[i])
  }

  predicate FieldsValid(e: Entry) {
    && e.exactFields
    && match e.kind
       case DirectoryEntry => e.mode == READ_AND_EXECUTE
       case FileEntry(artifactId, sizeBytes, digest) =>
         ArtifactIdValid(artifactId) && sizeBytes >= 0 && digest.Some? && e.mode in {READ_ONLY, READ_AND_EXECUTE}
       case OtherEntry => false
  }

  /** Letters, digits, hyphen and underscore, by their ASCII codes. */
  lemma CharacterMeaning(c: char)
    ensures CharacterAllowed(c) <==>
      48 <= c as int <= 57 || 65 <= c as int <= 90 || 97 <= c as int <= 122 || c as int == 45 || c as int == 95
  {
  }

  ghost predicate NamedArtifact(id: string, name: string) {
    id == "art_" + name && 1 <= |name| <= 128 && forall c :: c in name ==> CharacterAllowed(c)
  }

  /** An id is a prefix and a name of up to 128 characters. */
  lemma ArtifactIdMeaning(id: string)
    ensures ArtifactIdValid(id) <==> exists name :: NamedArtifact(id, name)
  {
    if ArtifactIdValid(id) {
      assert NamedArtifact(id, id[4..]);
    }
    if name :| NamedArtifact(id, name) {
      forall i | 4 <= i < |id| ensures CharacterAllowed(id[i]) {
        assert id[i] == name[i - 4];
      }
    }
  }

  /** The fields of an accepted entry: directories are 0555, files 0444 or 0555. */
  lemma FieldsMeaning(e: Entry)
    ensures FieldsValid(e) <==> e.exactFields && match e.kind
      case DirectoryEntry => e.mode == 5 * 64 + 5 * 8 + 5
      case FileEntry(id, size, digest) =>
        && ArtifactIdValid(id) && size >= 0 && digest != None
        && (e.mode == 4 * 64 + 4 * 8 + 4 || e.mode == 5 * 64 + 5 * 8 + 5)
      case OtherEntry => false
  {
  }

  ghost predicate DirectoryBefore(entries: seq<Entry>, i: nat, path: string)
    requires i <= |entries|
  {
    exists j :: 0 <= j < i && entries[j].kind.DirectoryEntry? && entries[j].path == path
  }

  /** What is required of the i-th entry: its path, its place, its parent and its fields. */
  ghost predicate EntryAcceptable(entries: seq<Entry>, i: nat)
    requires i < |entries|
  {
    var e := entries[i];
    && Canonical(e.path) && FieldsValid(e)
    && (i > 0 ==> Strings.Below(entries[i - 1].path, e.path))
    && (Parent(e.path).Some? ==> DirectoryBefore(entries, i, Parent(e.path).value))
  }

  ghost predicate Acceptable(entries: seq<Entry>) {
    |entries| <= 1_000_000 && forall i :: 0 <= i < |entries| ==> EntryAcceptable(entries, i)
  }

  datatype Error =
    | TooManyEntries | NotCanonical | ParentOmitted | FieldsInvalid
    | Linked | NotRegular | HardLinked
    | MissingParent | ParentIsFile | Exists | DownloadFailed | VerificationFailed

  method Validate(entries: seq<Entry>) returns (r: Result<seq<Entry>, Error>)
    ensures r.Success? <==> Acceptable(entries)
    ensures r.Success? ==> r.value == entries
  {
    if |entries| > MAXIMUM_ENTRIES {
      return Failure(TooManyEntries);
    }
    var previous: Option<string> := None;
    var directories: set<string> := {};
    for i := 0 to |entries|
      invariant forall j :: 0 <= j < i ==> EntryAcceptable(entries, j)
      invariant previous == if i == 0 then None else Some(entries[i - 1].path)
      invariant forall path :: path in directories <==> DirectoryBefore(entries, i, path)
    {
      var e := entries[i];
      if !Canonical(e.path) || (previous.Some? && !Strings.Below(previous.value, e.path)) {
        assert !EntryAcceptable(entries, i);
        return Failure(NotCanonical);
      }
      var parent := Parent(e.path);
      if parent.Some? && parent.value !in directories {
        assert !EntryAcceptable(entries, i);
        return Failure(ParentOmitted);
      }
      if !FieldsValid(e) {
        assert !EntryAcceptable(entries, i);
        return Failure(FieldsInvalid);
      }
      if e.kind.DirectoryEntry? {
        directories := directories + {e.path};
      }
      assert EntryAcceptable(entries, i);
      previous := Some(e.path);
    }
    return Success(entries);
  }

  /** Paths increase, so none is repeated. */
  lemma {:induction false} PathsIncrease(entries: seq<Entry>, i: nat, j: nat)
    requires Acceptable(entries) && i < j < |entries|
    ensures Strings.Below(entries[i].path, entries[j].path)
    decreases j
  {
    assert EntryAcceptable(entries, j);
    if i < j - 1 {
      PathsIncrease(entries, i, j - 1);
      Strings.Transitive(entries[i].path, entries[j - 1].path, entries[j].path);
    }
  }

  lemma PathsUnique(entries: seq<Entry>, i: nat, j: nat)
    requires Acceptable(entries) && i < |entries| && j < |entries| && entries[i].path == entries[j].path
    ensures i == j
  {
    if i < j {
      PathsIncrease(entries, i, j);
      Strings.Asymmetric(entries[i].path, entries[j].path);
    } else if j < i {
      PathsIncrease(entries, j, i);
      Strings.Asymmetric(entries[j].path, entries[i].path);
    }
  }

  /** Every ancestor of every entry is an earlier directory. */
  lemma {:induction false} AncestorsEarlier(entries: seq<Entry>, i: nat, k: nat)
    requires Acceptable(entries) && i < |entries| && 0 < k < |Split(entries[i].path)|
    ensures DirectoryBefore(entries, i, Join(Split(entries[i].path)[..k]))
    decreases i
  {
    var path := entries[i].path;
    var parts := Split(path);
    assert EntryAcceptable(entries, i);
    var parent := Parent(path).value;
    var j :| 0 <= j < i && entries[j].kind.DirectoryEntry? && entries[j].path == parent;
    if k < |parts| - 1 {
      JoinSplit(path);
      SplitJoin(parts[..|parts| - 1]);
      assert parts[..|parts| - 1][..k] == parts[..k];
      AncestorsEarlier(entries, j, k);
    }
  }

  /** No file is an ancestor of an entry. */
  lemma NoFileAbove(entries: seq<Entry>, i: nat, k: nat, j: nat)
    requires Acceptable(entries) && i < |entries| && 0 < k < |Split(entries[i].path)|
    requires j < |entries| && entries[j].path == Join(Split(entries[i].path)[..k])
    ensures entries[j].kind.DirectoryEntry? && j < i
  {
    AncestorsEarlier(entries, i, k);
    var d :| 0 <= d < i && entries[d].kind.DirectoryEntry? && entries[d].path == Join(Split(entries[i].path)[..k]);
    PathsUnique(entries, d, j);
  }

  /** No path of an accepted manifest ever leaves the root, and each leads to its own parts. */
  lemma AcceptedStaysInside(entries: seq<Entry>, i: nat, k: nat)
    requires Acceptable(entries) && i < |entries| && k <= |Split(entries[i].path)|
    ensures Resolve([], Split(entries[i].path)[..k]) == Some(Split(entries[i].path)[..k])
  {
    assert EntryAcceptable(entries, i);
    StaysInside(entries[i].path, k);
  }

  // -------------------------------------------------------------------- download

  datatype Item = Folder | Kept(bytes: Bytes)

  /** A directory on disk: the paths in it, and what is at each of them. */
  type Contents = map<string, Item>

  /** What a manifest describes. */
  ghost predicate Describes(entries: seq<Entry>, path: string, directory: bool) {
    exists i :: 0 <= i < |entries| && entries[i].path == path && entries[i].kind.DirectoryEntry? == directory
  }

  /** An earlier attempt may have left some of it, and files that are not as described. */
  ghost predicate PartOf(contents: Contents, entries: seq<Entry>) {
    forall path :: path in contents ==> Describes(entries, path, contents[path].Folder?)
  }

  /** The entry describes a file with these bytes. */
  predicate Asked(e: Entry, bytes: Bytes, sha256: Bytes -> Digest) {
    e.kind.FileEntry? && e.kind.sizeBytes == |bytes| && e.kind.digest == Some(sha256(bytes))
  }

  predicate InPlace(contents: Contents, e: Entry, sha256: Bytes -> Digest) {
    && e.path in contents
    && match contents[e.path]
       case Folder => e.kind.DirectoryEntry?
       case Kept(bytes) => Asked(e, bytes, sha256)
  }

  ghost predicate WholeOf(contents: Contents, entries: seq<Entry>, sha256: Bytes -> Digest) {
    && PartOf(contents, entries)
    && forall i :: 0 <= i < |entries| ==> InPlace(contents, entries[i], sha256)
  }

  /** Whatever was there before, and whoever sent the files: two whole trees of one manifest are the same. */
  lemma WholeIsUnique(entries: seq<Entry>, a: Contents, b: Contents, sha256: Bytes -> Digest)
    requires Acceptable(entries) && Transfers.Injective(sha256)
    requires WholeOf(a, entries, sha256) && WholeOf(b, entries, sha256)
    ensures a == b
  {
    forall path | path in a ensures path in b && a[path] == b[path] {
      var i :| 0 <= i < |entries| && entries[i].path == path;
      assert InPlace(a, entries[i], sha256) && InPlace(b, entries[i], sha256);
    }
    forall path | path in b ensures path in a {
      var i :| 0 <= i < |entries| && entries[i].path == path;
      assert InPlace(a, entries[i], sha256);
    }
  }

  predicate Creatable(contents: Contents, path: string, directory: bool) {
    && (Parent(path).Some? ==> Parent(path).value in contents && contents[Parent(path).value].Folder?)
    && (path in contents ==> contents[path].Folder? == directory)
  }

  /** Creates a path, unless its parent is missing or something of the other kind is there. */
  method Create(contents: Contents, path: string, item: Item) returns (r: Result<Contents, Error>)
    ensures r.Success? <==> Creatable(contents, path, item.Folder?)
    ensures r.Success? ==> r.value == contents[path := item]
  {
    var parent := Parent(path);
    if parent.Some? && parent.value !in contents {
      return Failure(MissingParent);
    }
    if parent.Some? && !contents[parent.value].Folder? {
      return Failure(ParentIsFile);
    }
    if path in contents && contents[path].Folder? != item.Folder? {
      return Failure(Exists);
    }
    return Success(contents[path := item]);
  }

  /** Two descriptions of one path by one manifest agree. */
  lemma DescribedOnce(entries: seq<Entry>, path: string, a: bool, b: bool)
    requires Acceptable(entries) && Describes(entries, path, a) && Describes(entries, path, b)
    ensures a == b
  {
    var i :| 0 <= i < |entries| && entries[i].path == path && entries[i].kind.DirectoryEntry? == a;
    var j :| 0 <= j < |entries| && entries[j].path == path && entries[j].kind.DirectoryEntry? == b;
    PathsUnique(entries, i, j);
  }

  /** The directories of the first n entries exist. */
  ghost predicate DirectoriesMade(contents: Contents, entries: seq<Entry>, n: nat)
    requires n <= |entries|
  {
    forall i :: 0 <= i < n && entries[i].kind.DirectoryEntry? ==>
      entries[i].path in contents && contents[entries[i].path].Folder?
  }

  /** With the directories before it made, an entry can be created. */
  lemma CanCreate(contents: Contents, entries: seq<Entry>, n: nat, i: nat)
    requires Acceptable(entries) && i <= n <= |entries| && i < |entries|
    requires PartOf(contents, entries) && DirectoriesMade(contents, entries, n)
    ensures Creatable(contents, entries[i].path, entries[i].kind.DirectoryEntry?)
  {
    var e := entries[i];
    assert EntryAcceptable(entries, i);
    if e.path in contents {
      DescribedOnce(entries, e.path, contents[e.path].Folder?, e.kind.DirectoryEntry?);
    }
  }

  /** Putting an item of its kind at an entry keeps what was made, and what is in place elsewhere. */
  lemma Placed(contents: Contents, entries: seq<Entry>, n: nat, i: nat, item: Item, sha256: Bytes -> Digest)
    requires Acceptable(entries) && n <= |entries| && i < |entries|
    requires item.Folder? == entries[i].kind.DirectoryEntry?
    requires PartOf(contents, entries) && DirectoriesMade(contents, entries, n)
    ensures var after := contents[entries[i].path := item];
      && PartOf(after, entries) && DirectoriesMade(after, entries, n)
      && forall k :: 0 <= k < |entries| && k != i ==>
        (InPlace(after, entries[k], sha256) <==> InPlace(contents, entries[k], sha256))
  {
    forall k | 0 <= k < |entries| && k != i ensures entries[k].path != entries[i].path {
      if entries[k].path == entries[i].path {
        PathsUnique(entries, k, i);
      }
    }
    assert Describes(entries, entries[i].path, item.Folder?);
  }

  /** Removing a file keeps the directories. */
  lemma Removed(contents: Contents, entries: seq<Entry>, i: nat)
    requires Acceptable(entries) && i < |entries| && entries[i].kind.FileEntry?
    requires PartOf(contents, entries) && DirectoriesMade(contents, entries, |entries|)
    ensures PartOf(contents - {entries[i].path}, entries)
    ensures DirectoriesMade(contents - {entries[i].path}, entries, |entries|)
  {
    forall k | 0 <= k < |entries| && entries[k].kind.DirectoryEntry? ensures entries[k].path != entries[i].path {
      if entries[k].path == entries[i].path {
        PathsUnique(entries, k, i);
      }
    }
  }

  /** What an attempt leaves on disk, and the error that stopped it. */
  datatype Reception = Received(contents: Contents) | Stopped(contents: Contents, error: Error)

  /** A file can be had if it is in place, or the server answers with what is asked. */
  predicate Obtainable(contents: Contents, e: Entry, answer: Option<Bytes>, sha256: Bytes -> Digest) {
    InPlace(contents, e, sha256) || (answer.Some? && Asked(e, answer.value, sha256))
  }

  /**
   Receives one file: what is in place stays, and anything else there is removed and
   downloaded again. A download that fails or is not what is asked leaves nothing.
   */
  method Receive(contents: Contents, e: Entry, answer: Option<Bytes>, sha256: Bytes -> Digest) returns (r: Reception)
    requires e.kind.FileEntry? && Creatable(contents, e.path, false)
    ensures r.Received? <==> Obtainable(contents, e, answer, sha256)
    ensures r.Received? ==>
      r.contents == if InPlace(contents, e, sha256) then contents else contents[e.path := Kept(answer.value)]
    ensures r.Stopped? ==>
      r.contents == contents - {e.path} && r.error == if answer.None? then DownloadFailed else VerificationFailed
  {
    if e.path in contents && Asked(e, contents[e.path].bytes, sha256) {
      return Received(contents);
    }
    var cleared := contents - {e.path};
    if answer.None? {
      return Stopped(cleared, DownloadFailed);
    }
    ParentElsewhere(e.path);
    var made := Create(cleared, e.path, Kept(answer.value));
    if !Asked(e, answer.value, sha256) {
      assert made.value - {e.path} == cleared;
      return Stopped(made.value - {e.path}, VerificationFailed);
    }
    assert made.value == contents[e.path := Kept(answer.value)];
    return Received(made.value);
  }

  lemma ParentElsewhere(path: string)
    ensures Parent(path) != Some(path)
  {
    var parts := Split(path);
    if |parts| > 1 {
      JoinSplit(path);
      AncestorBelow(parts, |parts| - 1);
      if Parent(path).value == path {
        Strings.Asymmetric(path, path);
      }
    }
  }

  /**
   Creates the directories in the order of the manifest, then receives the files
   in any order from any server. Nothing ever lacks its parent or meets a path of
   another kind; the attempt completes exactly if every file is there already or
   is answered as described, and then the tree is what the manifest describes,
   byte for byte. An attempt that stops leaves what another one can start from.
   */
  method CreateTree(entries: seq<Entry>, before: Contents, order: seq<nat>, answers: seq<Option<Bytes>>,
                    sha256: Bytes -> Digest)
    returns (r: Reception)
    requires Acceptable(entries) && PartOf(before, entries) && |answers| == |entries|
    requires forall k :: 0 <= k < |order| ==> order[k] < |entries| && entries[order[k]].kind.FileEntry?
    requires forall i :: 0 <= i < |entries| && entries[i].kind.FileEntry? ==> i in order
    ensures PartOf(r.contents, entries)
    ensures r.Received? <==>
      forall i :: 0 <= i < |entries| && entries[i].kind.FileEntry? ==>
        Obtainable(before, entries[i], answers[i], sha256)
    ensures r.Received? ==> WholeOf(r.contents, entries, sha256)
    ensures r.Stopped? ==> r.error in {DownloadFailed, VerificationFailed}
  {
    var contents := before;
    for i := 0 to |entries|
      invariant PartOf(contents, entries) && DirectoriesMade(contents, entries, i)
      invariant forall k :: 0 <= k < |entries| && entries[k].kind.FileEntry? ==>
        (InPlace(contents, entries[k], sha256) <==> InPlace(before, entries[k], sha256))
    {
      assert EntryAcceptable(entries, i);
      if entries[i].kind.DirectoryEntry? {
        CanCreate(contents, entries, i, i);
        Placed(contents, entries, i, i, Folder, sha256);
        var made := Create(contents, entries[i].path, Folder);
        contents := made.value;
      }
    }
    r := ReceiveFiles(entries, contents, order, answers, sha256);
  }

  method ReceiveFiles(entries: seq<Entry>, before: Contents, order: seq<nat>, answers: seq<Option<Bytes>>,
                      sha256: Bytes -> Digest)
    returns (r: Reception)
    requires Acceptable(entries) && |answers| == |entries|
    requires PartOf(before, entries) && DirectoriesMade(before, entries, |entries|)
    requires forall k :: 0 <= k < |order| ==> order[k] < |entries| && entries[order[k]].kind.FileEntry?
    requires forall i :: 0 <= i < |entries| && entries[i].kind.FileEntry? ==> i in order
    ensures PartOf(r.contents, entries)
    ensures r.Received? <==>
      forall i :: 0 <= i < |entries| && entries[i].kind.FileEntry? ==>
        Obtainable(before, entries[i], answers[i], sha256)
    ensures r.Received? ==> WholeOf(r.contents, entries, sha256)
    ensures r.Stopped? ==> r.error in {DownloadFailed, VerificationFailed}
  {
    var contents := before;
    for k := 0 to |order|
      invariant PartOf(contents, entries) && DirectoriesMade(contents, entries, |entries|)
      invariant forall j :: 0 <= j < k ==> InPlace(contents, entries[order[j]], sha256)
      invariant forall i :: 0 <= i < |entries| && entries[i].kind.FileEntry? ==>
        (Obtainable(contents, entries[i], answers[i], sha256) <==> Obtainable(before, entries[i], answers[i], sha256))
    {
      var i := order[k];
      CanCreate(contents, entries, |entries|, i);
      var received := Receive(contents, entries[i], answers[i], sha256);
      if received.Stopped? {
        Removed(contents, entries, i);
        return received;
      }
      if !InPlace(contents, entries[i], sha256) {
        Placed(contents, entries, |entries|, i, Kept(answers[i].value), sha256);
      }
      contents := received.contents;
    }
    forall i | 0 <= i < |entries| ensures InPlace(contents, entries[i], sha256) {
      assert EntryAcceptable(entries, i);
      if entries[i].kind.FileEntry? {
        var k :| 0 <= k < |order| && order[k] == i;
      }
    }
    return Received(contents);
  }

  /**
   Gives every file its mode, then makes the directories read-only, the last one
   of the manifest first.
   */
  method Seal(entries: seq<Entry>) returns (order: seq<nat>, modes: map<string, int>)
    requires Acceptable(entries)
    ensures forall i: nat :: i in order <==> i < |entries| && entries[i].kind.DirectoryEntry?
    ensures forall a, b :: 0 <= a < b < |order| ==> order[a] > order[b]
    ensures Permitted(modes, entries)
  {
    order, modes := [], map[];
    for i := 0 to |entries|
      invariant forall j :: 0 <= j < i && entries[j].kind.FileEntry? ==> Permits(modes, entries[j])
    {
      if entries[i].kind.FileEntry? {
        PermitsOthers(modes, entries, i);
        modes := modes[entries[i].path := entries[i].mode];
      }
    }
    var k := |entries|;
    while k > 0
      invariant 0 <= k <= |entries|
      invariant forall i: nat :: i in order <==> k <= i < |entries| && entries[i].kind.DirectoryEntry?
      invariant forall a, b :: 0 <= a < b < |order| ==> order[a] > order[b]
      invariant forall j :: 0 <= j < |entries| && (entries[j].kind.FileEntry? || j >= k) ==> Permits(modes, entries[j])
    {
      k := k - 1;
      assert EntryAcceptable(entries, k);
      if entries[k].kind.DirectoryEntry? {
        assert forall a :: 0 <= a < |order| ==> order[a] in order;
        PermitsOthers(modes, entries, k);
        order := order + [k];
        modes := modes[entries[k].path := READ_AND_EXECUTE];
      }
    }
  }

  predicate Permits(modes: map<string, int>, e: Entry) { e.path in modes && modes[e.path] == e.mode }

  ghost predicate Permitted(modes: map<string, int>, entries: seq<Entry>) {
    forall i :: 0 <= i < |entries| ==> Permits(modes, entries[i])
  }

  lemma PermitsOthers(modes: map<string, int>, entries: seq<Entry>, i: nat)
    requires Acceptable(entries) && i < |entries|
    ensures forall k :: 0 <= k < |entries| && k != i && Permits(modes, entries[k]) ==>
      Permits(modes[entries[i].path := entries[i].mode], entries[k])
  {
    forall k | 0 <= k < |entries| && k != i ensures entries[k].path != entries[i].path {
      if entries[k].path == entries[i].path {
        PathsUnique(entries, k, i);
      }
    }
  }

  /** A directory is sealed after every directory below it. */
  lemma ChildrenSealedFirst(entries: seq<Entry>, order: seq<nat>, a: nat, b: nat, k: nat)
    requires Acceptable(entries) && a < |order| && b < |order|
    requires forall c, d :: 0 <= c < d < |order| ==> order[c] > order[d]
    requires order[a] < |entries| && order[b] < |entries|
    requires 0 < k < |Split(entries[order[b]].path)|
    requires entries[order[a]].path == Join(Split(entries[order[b]].path)[..k])
    ensures b < a
  {
    NoFileAbove(entries, order[b], k, order[a]);
  }

  // ---------------------------------------------------------------------- upload

  /** What a name in a local directory stands for. */
  datatype Node =
    | Directory(children: seq<(string, Node)>)
    | File(regular: bool, links: nat, executable: bool, bytes: Bytes)
    | SymbolicLink(toDirectory: bool)

  /** A path below the source, and what is there. */
  datatype Local = Local(parts: Parts, node: Node)

  predicate ListedAsDirectory(node: Node) {
    node.Directory? || (node.SymbolicLink? && node.toDirectory)
  }

  /** The names of one directory that are, or are not, directories. */
  function Level(children: seq<(string, Node)>, prefix: Parts, directories: bool): seq<Local> {
    if children == [] then []
    else
      var (name, node) := children[0];
      (if ListedAsDirectory(node) == directories then [Local(prefix + [name], node)] else [])
      + Level(children[1..], prefix, directories)
  }

  /** A directory walked from the top: its directories, its files, then what is below. */
  function Walk(children: seq<(string, Node)>, prefix: Parts): seq<Local>
    decreases children, 1
  {
    Level(children, prefix, true) + Level(children, prefix, false) + Below(children, prefix)
  }

  function Below(children: seq<(string, Node)>, prefix: Parts): seq<Local>
    decreases children, 0
  {
    if children == [] then []
    else
      var (name, node) := children[0];
      assert children[0].1 < children[0];
      (if node.Directory? then Walk(node.children, prefix + [name]) else [])
      + Below(children[1..], prefix)
  }

  /** What is at a path in a directory. */
  function Lookup(children: seq<(string, Node)>, parts: Parts): Option<Node>
    requires parts != []
    decreases |parts|, |children|
  {
    if children == [] then None
    else if children[0].0 != parts[0] then Lookup(children[1..], parts)
    else if |parts| == 1 then Some(children[0].1)
    else if children[0].1.Directory? then Lookup(children[0].1.children, parts[1..])
    else None
  }

  /** A file system: names in one directory differ, and none is empty, a dot name or holds a slash. */
  ghost predicate WellNamed(children: seq<(string, Node)>)
    decreases children
  {
    && (forall i, j :: 0 <= i < j < |children| ==> children[i].0 != children[j].0)
    && (forall i :: 0 <= i < |children| ==> Plain(children[i].0) && children[i].0 !in {"", ".", ".."})
    && forall i :: 0 <= i < |children| && children[i].1.Directory? ==>
      children[i].1 < children[i] && WellNamed(children[i].1.children)
  }

  lemma {:induction false} LookupNamed(children: seq<(string, Node)>, parts: Parts)
    requires parts != [] && Lookup(children, parts).Some?
    ensures exists i :: 0 <= i < |children| && children[i].0 == parts[0]
    decreases |parts|, |children|
  {
    if children[0].0 != parts[0] {
      LookupNamed(children[1..], parts);
      var i :| 0 <= i < |children| - 1 && children[1..][i].0 == parts[0];
      assert children[i + 1].0 == parts[0];
    }
  }

  lemma WellNamedTail(children: seq<(string, Node)>)
    requires WellNamed(children) && children != []
    ensures WellNamed(children[1..])
  {
    var rest := children[1..];
    forall i | 0 <= i < |rest| && rest[i].1.Directory?
      ensures rest[i].1 < rest[i] && WellNamed(rest[i].1.children)
    {
      assert rest[i] == children[i + 1];
    }
  }

  /** Names differ, so what the tail finds is not hidden by the head. */
  lemma LookupTail(children: seq<(string, Node)>, parts: Parts)
    requires WellNamed(children) && children != [] && parts != [] && Lookup(children[1..], parts).Some?
    ensures Lookup(children, parts) == Lookup(children[1..], parts)
  {
    LookupNamed(children[1..], parts);
    var i :| 0 <= i < |children| - 1 && children[1..][i].0 == parts[0];
    assert children[i + 1].0 == parts[0];
  }

  /** An entry is what its path leads to. */
  ghost predicate Leads(children: seq<(string, Node)>, prefix: Parts, e: Local) {
    && |prefix| < |e.parts| && e.parts[..|prefix|] == prefix
    && Lookup(children, e.parts[|prefix|..]) == Some(e.node)
  }

  lemma {:induction false} LevelLeads(children: seq<(string, Node)>, prefix: Parts, directories: bool, e: Local)
    requires WellNamed(children) && e in Level(children, prefix, directories)
    ensures Leads(children, prefix, e) && |e.parts| == |prefix| + 1 && ListedAsDirectory(e.node) == directories
  {
    var head := Local(prefix + [children[0].0], children[0].1);
    if e == head && ListedAsDirectory(children[0].1) == directories {
      assert e.parts[|prefix|..] == [children[0].0];
    } else {
      WellNamedTail(children);
      LevelLeads(children[1..], prefix, directories, e);
      LookupTail(children, e.parts[|prefix|..]);
    }
  }

  lemma {:induction false} WalkLeads(children: seq<(string, Node)>, prefix: Parts, e: Local)
    requires WellNamed(children) && e in Walk(children, prefix)
    ensures Leads(children, prefix, e)
    decreases children, 1
  {
    if e in Level(children, prefix, true) {
      LevelLeads(children, prefix, true, e);
    } else if e in Level(children, prefix, false) {
      LevelLeads(children, prefix, false, e);
    } else {
      BelowLeads(children, prefix, e);
    }
  }

  lemma {:induction false} BelowLeads(children: seq<(string, Node)>, prefix: Parts, e: Local)
    requires WellNamed(children) && e in Below(children, prefix)
    ensures Leads(children, prefix, e) && |e.parts| > |prefix| + 1
    decreases children, 0
  {
    var (name, node) := children[0];
    assert children[0].1 < children[0];
    if node.Directory? && e in Walk(node.children, prefix + [name]) {
      WalkLeads(node.children, prefix + [name], e);
      var parts := e.parts[|prefix|..];
      assert parts[1..] == e.parts[|prefix + [name]|..];
      assert e.parts[..|prefix + [name]|] == prefix + [name];
      assert parts[0] == e.parts[|prefix|] == name;
      assert e.parts[..|prefix|] == (prefix + [name])[..|prefix|];
    } else {
      WellNamedTail(children);
      BelowLeads(children[1..], prefix, e);
      LookupTail(children, e.parts[|prefix|..]);
    }
  }

  /** Whatever a path leads to is listed. */
  lemma {:induction false} Listed(children: seq<(string, Node)>, prefix: Parts, parts: Parts)
    requires parts != [] && Lookup(children, parts).Some?
    ensures Local(prefix + parts, Lookup(children, parts).value) in Walk(children, prefix)
    decreases |parts|
  {
    if |parts| == 1 {
      LevelListed(children, prefix, parts);
    } else {
      BelowListed(children, prefix, parts);
    }
  }

  lemma {:induction false} LevelListed(children: seq<(string, Node)>, prefix: Parts, parts: Parts)
    requires |parts| == 1 && Lookup(children, parts).Some?
    ensures
      var node := Lookup(children, parts).value;
      Local(prefix + parts, node) in Level(children, prefix, ListedAsDirectory(node))
    decreases |children|
  {
    if children[0].0 != parts[0] {
      LevelListed(children[1..], prefix, parts);
    } else {
      assert parts == [children[0].0];
    }
  }

  lemma {:induction false} BelowListed(children: seq<(string, Node)>, prefix: Parts, parts: Parts)
    requires |parts| > 1 && Lookup(children, parts).Some?
    ensures Local(prefix + parts, Lookup(children, parts).value) in Below(children, prefix)
    decreases |parts|, |children|
  {
    if children[0].0 != parts[0] {
      BelowListed(children[1..], prefix, parts);
    } else {
      Listed(children[0].1.children, prefix + [children[0].0], parts[1..]);
      assert prefix + [children[0].0] + parts[1..] == prefix + parts;
    }
  }

  // ------------------------------------------------------------- no path is twice

  ghost predicate DistinctParts(s: seq<Local>) {
    forall i, j :: 0 <= i < j < |s| ==> s[i].parts != s[j].parts
  }

  lemma DistinctAppend(a: seq<Local>, b: seq<Local>)
    requires DistinctParts(a) && DistinctParts(b)
    requires forall x, y :: x in a && y in b ==> x.parts != y.parts
    ensures DistinctParts(a + b)
  {
    var s := a + b;
    forall i, j | 0 <= i < j < |s|
      ensures s[i].parts != s[j].parts
    {
      if i < |a| <= j {
        assert s[i] in a && s[j] in b;
      }
    }
  }

  lemma {:induction false} LevelDistinct(children: seq<(string, Node)>, prefix: Parts, directories: bool)
    requires WellNamed(children)
    ensures DistinctParts(Level(children, prefix, directories))
  {
    if children != [] {
      var rest := Level(children[1..], prefix, directories);
      WellNamedTail(children);
      LevelDistinct(children[1..], prefix, directories);
      var head := Local(prefix + [children[0].0], children[0].1);
      forall y | y in rest
        ensures y.parts != head.parts
      {
        LevelLeads(children[1..], prefix, directories, y);
        HeadHidden(children, y.parts[|prefix|..]);
      }
      if ListedAsDirectory(children[0].1) == directories {
        DistinctAppend([head], rest);
      }
    }
  }

  /** What the tail finds does not start with the name of the head. */
  lemma HeadHidden(children: seq<(string, Node)>, parts: Parts)
    requires WellNamed(children) && children != [] && parts != [] && Lookup(children[1..], parts).Some?
    ensures parts[0] != children[0].0
  {
    LookupNamed(children[1..], parts);
    var i :| 0 <= i < |children| - 1 && children[1..][i].0 == parts[0];
    assert children[i + 1].0 == parts[0];
  }

  lemma {:induction false} WalkDistinct(children: seq<(string, Node)>, prefix: Parts)
    requires WellNamed(children)
    ensures DistinctParts(Walk(children, prefix))
    decreases children, 1
  {
    var directories, files, below := Level(children, prefix, true), Level(children, prefix, false), Below(children,
                                                                                                          prefix);
    LevelDistinct(children, prefix, true);
    LevelDistinct(children, prefix, false);
    BelowDistinct(children, prefix);
    forall x, y | x in directories && y in files
      ensures x.parts != y.parts
    {
      LevelLeads(children, prefix, true, x);
      LevelLeads(children, prefix, false, y);
    }
    DistinctAppend(directories, files);
    forall x, y | x in directories + files && y in below
      ensures x.parts != y.parts
    {
      LevelLeads(children, prefix, x in directories, x);
      BelowLeads(children, prefix, y);
    }
    DistinctAppend(directories + files, below);
  }

  lemma {:induction false} BelowDistinct(children: seq<(string, Node)>, prefix: Parts)
    requires WellNamed(children)
    ensures DistinctParts(Below(children, prefix))
    decreases children, 0
  {
    if children != [] {
      var (name, node) := children[0];
      assert children[0].1 < children[0];
      WellNamedTail(children);
      BelowDistinct(children[1..], prefix);
      if node.Directory? {
        var inside, rest := Walk(node.children, prefix + [name]), Below(children[1..], prefix);
        WalkDistinct(node.children, prefix + [name]);
        forall x, y | x in inside && y in rest
          ensures x.parts != y.parts
        {
          WalkLeads(node.children, prefix + [name], x);
          BelowLeads(children[1..], prefix, y);
          HeadHidden(children, y.parts[|prefix|..]);
          assert x.parts[..|prefix| + 1] == prefix + [name];
          assert x.parts[|prefix|] == name && y.parts[|prefix|] == y.parts[|prefix|..][0];
        }
        DistinctAppend(inside, rest);
      }
    }
  }

  /** The parts of a path that leads somewhere are names. */
  lemma {:induction false} LookupPlain(children: seq<(string, Node)>, parts: Parts)
    requires WellNamed(children) && parts != [] && Lookup(children, parts).Some?
    ensures forall k :: 0 <= k < |parts| ==> Plain(parts[k]) && parts[k] !in {"", ".", ".."}
    decreases |parts|, |children|
  {
    if children[0].0 != parts[0] {
      WellNamedTail(children);
      LookupPlain(children[1..], parts);
    } else if |parts| > 1 {
      LookupPlain(children[0].1.children, parts[1..]);
      forall k | 0 <= k < |parts|
        ensures Plain(parts[k]) && parts[k] !in {"", ".", ".."}
      {
        if k > 0 {
          assert parts[k] == parts[1..][k - 1];
        }
      }
    }
  }

  /** Whatever is at a path, a directory is at its parent. */
  lemma {:induction false} LookupParent(children: seq<(string, Node)>, parts: Parts)
    requires |parts| > 1 && Lookup(children, parts).Some?
    ensures
      var parent := Lookup(children, parts[..|parts| - 1]);
      parent.Some? && parent.value.Directory?
    decreases |parts|, |children|
  {
    if children[0].0 != parts[0] {
      LookupParent(children[1..], parts);
    } else if |parts| > 2 {
      LookupParent(children[0].1.children, parts[1..]);
      assert parts[1..][..|parts| - 2] == parts[..|parts| - 1][1..];
    }
  }

  function PathOf(e: Local): string {
    if e.parts == [] then "" else Join(e.parts)
  }

  const ByPath: Local -> string := (e: Local) => PathOf(e)

  /** What an upload can hold: directories, and regular files with one name, at canonical paths. */
  predicate Uploadable(e: Local) {
    && !e.node.SymbolicLink? && (e.node.File? ==> e.node.regular && e.node.links == 1)
    && Canonical(PathOf(e))
  }

  /** The entries of a local directory in the order of their paths. */
  method LocalEntries(children: seq<(string, Node)>) returns (r: Result<seq<Local>, Error>)
    ensures r.Success? <==>
      |Walk(children, [])| <= 1_000_000 && forall e :: e in Walk(children, []) ==> Uploadable(e)
    ensures r.Success? ==> r.value == Sorting.SortBy(Sorting.ByText(ByPath), Walk(children, []))
  {
    var walked := Walk(children, []);
    var entries: seq<Local> := [];
    for k := 0 to |walked|
      invariant entries == walked[..k]
      invariant forall j :: 0 <= j < k ==> Uploadable(walked[j])
    {
      var e := walked[k];
      assert e in walked;
      if e.node.SymbolicLink? {
        return Failure(Linked);
      }
      if e.node.File? && !e.node.regular {
        return Failure(NotRegular);
      }
      if e.node.File? && e.node.links != 1 {
        return Failure(HardLinked);
      }
      if !Canonical(PathOf(e)) {
        return Failure(NotCanonical);
      }
      entries := entries + [e];
    }
    if |entries| > MAXIMUM_ENTRIES {
      return Failure(TooManyEntries);
    }
    assert walked[..|walked|] == walked;
    return Success(Sorting.SortBy(Sorting.ByText(ByPath), entries));
  }

  /** The manifest of uploaded entries: `ids` says which artifact holds the file at a path. */
  function ManifestEntry(e: Local, ids: Parts -> string, sha256: Bytes -> Digest): Entry {
    match e.node
    case Directory(_) => Entry(PathOf(e), DirectoryEntry, READ_AND_EXECUTE, true)
    case File(_, _, executable, bytes) =>
      Entry(PathOf(e), FileEntry(ids(e.parts), |bytes|, Some(sha256(bytes))),
            if executable then READ_AND_EXECUTE else READ_ONLY, true)
    case SymbolicLink(_) => Entry(PathOf(e), OtherEntry, 0, false)
  }

  function Manifest(entries: seq<Local>, ids: Parts -> string, sha256: Bytes -> Digest): (manifest: seq<Entry>)
    ensures |manifest| == |entries|
    ensures forall i :: 0 <= i < |entries| ==> manifest[i] == ManifestEntry(entries[i], ids, sha256)
  {
    seq(|entries|, i requires 0 <= i < |entries| => ManifestEntry(entries[i], ids, sha256))
  }

  /** Files are stored as artifacts with well-formed ids. */
  ghost predicate StoredWell(ids: Parts -> string) {
    forall parts :: ArtifactIdValid(ids(parts))
  }

  /** Entries that a walk of the source found, sorted by path. */
  ghost predicate SortedWalk(sorted: seq<Local>, children: seq<(string, Node)>) {
    && (forall e :: e in sorted <==> e in Walk(children, []))
    && forall i, j :: 0 <= i < j < |sorted| ==> Strings.Below(PathOf(sorted[i]), PathOf(sorted[j]))
  }

  /** No two entries have the same path, so sorting puts them in strictly increasing order. */
  lemma WalkSorts(children: seq<(string, Node)>)
    requires WellNamed(children)
    ensures SortedWalk(Sorting.SortBy(Sorting.ByText(ByPath), Walk(children, [])), children)
  {
    var walked := Walk(children, []);
    var sorted := Sorting.SortBy(Sorting.ByText(ByPath), walked);
    WalkDistinct(children, []);
    forall i, j | 0 <= i < j < |walked|
      ensures ByPath(walked[i]) != ByPath(walked[j])
    {
      PathIdentifies(children, walked[i]);
      PathIdentifies(children, walked[j]);
    }
    Sorting.PermutationKeepsDistinct(ByPath, walked, sorted);
    Sorting.ByTextTotal(ByPath);
    Sorting.SortedBy(Sorting.ByText(ByPath), walked);
    forall i, j | 0 <= i < j < |sorted|
      ensures Strings.Below(PathOf(sorted[i]), PathOf(sorted[j]))
    {
      assert Sorting.ByText(ByPath)(sorted[i], sorted[j]) && ByPath(sorted[i]) != ByPath(sorted[j]);
    }
    forall e ensures e in sorted <==> e in walked {
      assert e in sorted <==> e in multiset(sorted);
      assert e in walked <==> e in multiset(walked);
    }
  }

  lemma PathIdentifies(children: seq<(string, Node)>, e: Local)
    requires WellNamed(children) && e in Walk(children, [])
    ensures e.parts != [] && Lookup(children, e.parts) == Some(e.node)
    ensures Split(PathOf(e)) == e.parts
  {
    WalkLeads(children, [], e);
    assert e.parts[0..] == e.parts;
    LookupPlain(children, e.parts);
    SplitJoin(e.parts);
  }

  /** The parent of an entry is listed before it, as a directory. */
  lemma ParentBefore(sorted: seq<Local>, children: seq<(string, Node)>, i: nat)
    requires WellNamed(children) && SortedWalk(sorted, children) && i < |sorted| && |sorted[i].parts| > 1
    ensures exists j ::
      0 <= j < i && sorted[j].node.Directory? &&
      sorted[j].parts == sorted[i].parts[..|sorted[i].parts| - 1]
  {
    var e := sorted[i];
    PathIdentifies(children, e);
    var parent := e.parts[..|e.parts| - 1];
    LookupParent(children, e.parts);
    Listed(children, [], parent);
    assert [] + parent == parent;
    var d := Local(parent, Lookup(children, parent).value);
    assert d in sorted;
    var j :| 0 <= j < |sorted| && sorted[j] == d;
    AncestorBelow(e.parts, |e.parts| - 1);
    Strings.Asymmetric(PathOf(d), PathOf(e));
  }

  lemma FieldsAccepted(e: Local, ids: Parts -> string, sha256: Bytes -> Digest)
    requires StoredWell(ids) && Uploadable(e)
    ensures FieldsValid(ManifestEntry(e, ids, sha256))
  {
  }

  lemma ParentAccepted(children: seq<(string, Node)>, sorted: seq<Local>, ids: Parts -> string,
                       sha256: Bytes -> Digest, i: nat)
    requires WellNamed(children) && SortedWalk(sorted, children) && i < |sorted|
    requires Parent(PathOf(sorted[i])).Some?
    ensures DirectoryBefore(Manifest(sorted, ids, sha256), i, Parent(PathOf(sorted[i])).value)
  {
    var e, manifest := sorted[i], Manifest(sorted, ids, sha256);
    assert e in sorted;
    PathIdentifies(children, e);
    ParentBefore(sorted, children, i);
    var j :| 0 <= j < i && sorted[j].node.Directory? && sorted[j].parts == e.parts[..|e.parts| - 1];
    assert manifest[j].kind.DirectoryEntry? && manifest[j].path == Join(e.parts[..|e.parts| - 1]);
  }

  /** The validator accepts the manifest of every tree that can be uploaded. */
  lemma UploadIsAccepted(children: seq<(string, Node)>, sorted: seq<Local>, ids: Parts -> string,
                         sha256: Bytes -> Digest)
    requires WellNamed(children) && StoredWell(ids) && SortedWalk(sorted, children)
    requires |sorted| <= 1_000_000 && forall e :: e in sorted ==> Uploadable(e)
    ensures Acceptable(Manifest(sorted, ids, sha256))
  {
    var manifest := Manifest(sorted, ids, sha256);
    forall i | 0 <= i < |manifest|
      ensures EntryAcceptable(manifest, i)
    {
      var e := sorted[i];
      assert e in sorted;
      FieldsAccepted(e, ids, sha256);
      assert manifest[i].path == PathOf(e);
      if Parent(PathOf(e)).Some? {
        ParentAccepted(children, sorted, ids, sha256, i);
      }
    }
  }

  /** A server that answers with the uploaded bytes lets every file be received, whatever is there already. */
  lemma HonestAnswers(sorted: seq<Local>, ids: Parts -> string, sha256: Bytes -> Digest, before: Contents, i: nat)
    requires i < |sorted| && sorted[i].node.File?
    ensures Obtainable(before, Manifest(sorted, ids, sha256)[i], Some(sorted[i].node.bytes), sha256)
  {
  }

  /** Downloading what was uploaded gives the same tree: paths, directories, contents of files, and modes. */
  lemma RoundTrip(children: seq<(string, Node)>, sorted: seq<Local>, ids: Parts -> string, sha256: Bytes -> Digest,
                  contents: Contents, modes: map<string, int>, parts: Parts)
    requires WellNamed(children) && SortedWalk(sorted, children) && Transfers.Injective(sha256)
    requires forall e :: e in sorted ==> Uploadable(e)
    requires WholeOf(contents, Manifest(sorted, ids, sha256), sha256)
    requires Permitted(modes, Manifest(sorted, ids, sha256))
    requires parts != [] && AllPlain(parts)
    ensures match Lookup(children, parts)
      case None => Join(parts) !in contents
      case Some(Directory(_)) =>
        Join(parts) in contents && contents[Join(parts)] == Folder && Join(parts) in modes
        && modes[Join(parts)] == READ_AND_EXECUTE
      case Some(File(_, _, executable, bytes)) =>
        Join(parts) in contents && contents[Join(parts)] == Kept(bytes) && Join(parts) in modes
        && modes[Join(parts)] == if executable then READ_AND_EXECUTE else READ_ONLY
      case Some(SymbolicLink(_)) => false
  {
    var manifest := Manifest(sorted, ids, sha256);
    if Lookup(children, parts).Some? {
      var e := Local(parts, Lookup(children, parts).value);
      Listed(children, [], parts);
      assert [] + parts == parts;
      assert e in sorted && Uploadable(e);
      var i :| 0 <= i < |sorted| && sorted[i] == e;
      assert manifest[i] == ManifestEntry(e, ids, sha256);
      assert InPlace(contents, manifest[i], sha256) && Permits(modes, manifest[i]);
    } else if Join(parts) in contents {
      assert Describes(manifest, Join(parts), contents[Join(parts)].Folder?);
      var i :| 0 <= i < |manifest| && manifest[i].path == Join(parts);
      var e := sorted[i];
      assert e in sorted;
      PathIdentifies(children, e);
      SplitJoin(parts);
    }
  }
}
