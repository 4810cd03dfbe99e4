/** Deriving a plugin's (group, name) identity from the source location of
    the code that registers it. */
module Identity {
  import opened Wrappers
  import Paths

  datatype Identity = Identity(group: string, name: string)

  /** Why no identity could be derived. */
  datatype IdentityError =
    | NoCallerInfo              // the caller lookup reported failure
    | ArcaneLocation(file: string)  // fewer than two directory levels

  /** The recursion behind `NonEmpty`, free of postconditions so that proofs
      by induction over it do not drag `NonEmpty`'s quantified contract
      through every unfolding. */
  function Kept(parts: seq<string>): seq<string>
  {
    if parts == [] then []
    else (if parts[0] == "" then [] else [parts[0]]) + Kept(parts[1..])
  }

  /** What `NonEmpty` promises, proved about its recursion. */
  lemma {:induction false} KeptProperties(parts: seq<string>)
    ensures |Kept(parts)| <= |parts|
    ensures forall i :: 0 <= i < |Kept(parts)| ==> Kept(parts)[i] != ""
    ensures forall x :: x in Kept(parts) <==> x in parts && x != ""
    ensures (forall i :: 0 <= i < |parts| ==> parts[i] != "") ==> Kept(parts) == parts
    decreases |parts|
  {
    if parts != [] {
      KeptProperties(parts[1..]);
      assert parts == [parts[0]] + parts[1..];
    }
  }

  /** The non-empty pieces of a list, in their order. */
  function NonEmpty(parts: seq<string>): (r: seq<string>)
    ensures |r| <= |parts|
    ensures forall i :: 0 <= i < |r| ==> r[i] != ""
    ensures forall x :: x in r <==> x in parts && x != ""
    ensures (forall i :: 0 <= i < |parts| ==> parts[i] != "") ==> r == parts
  {
    KeptProperties(parts);
    Kept(parts)
  }

  /** The usable directory levels of a file location: every slash-separated
      piece but the last (the file name), empty pieces dropped. */
  function DirSegments(file: string): (r: seq<string>)
    ensures |r| < |Paths.Split(file, '/')|
    ensures forall k :: 0 <= k < |r| ==> r[k] != ""
  {
    var parts := Paths.Split(file, '/');
    NonEmpty(parts[..|parts| - 1])
  }

  /** The identity a registration gets. An explicit non-empty group and name
      are used as they are, without consulting the caller; otherwise the
      caller's location must be available and have two directory levels: the
      directory holding the file names the plugin and its parent names the
      group, each filling in only what the spec left empty. */
  function ResolveIdentity(group: string, name: string, file: string, ok: bool): (r: Result<Identity, IdentityError>)
    ensures r.Success? ==> r.value.group != "" && r.value.name != ""
    ensures r.Success? && group != "" ==> r.value.group == group
    ensures r.Success? && name != "" ==> r.value.name == name
    ensures group != "" && name != "" ==> r == Success(Identity(group, name))
    ensures (group == "" || name == "") && !ok ==> r == Failure(NoCallerInfo)
    ensures (group == "" || name == "") && ok ==> (r.Success? <==> |DirSegments(file)| >= 2)
  {
    if group != "" && name != "" then Success(Identity(group, name))
    else if !ok then Failure(NoCallerInfo)
    else
      var dirs := DirSegments(file);
      if |dirs| < 2 then Failure(ArcaneLocation(file))
      else Success(Identity(
        if group != "" then group else dirs[|dirs| - 2],
        if name != "" then name else dirs[|dirs| - 1]))
  }

  /** For a location written as directories followed by a file name, the
      derived identity is the last two non-empty directories; with fewer than
      two of them derivation fails. */
  lemma ResolveFromPath(dirs: seq<string>, fileName: string)
    requires forall i :: 0 <= i < |dirs| ==> '/' !in dirs[i]
    requires '/' !in fileName
    ensures var used := NonEmpty(dirs);
      var r := ResolveIdentity("", "", Paths.Join(dirs + [fileName], '/'), true);
      && (r.Success? <==> |used| >= 2)
      && (r.Success? ==> r.value == Identity(used[|used| - 2], used[|used| - 1]))
  {
    var parts := dirs + [fileName];
    assert forall i :: 0 <= i < |parts| ==> '/' !in parts[i];
    Paths.SplitJoin(parts, '/');
    assert parts[..|parts| - 1] == dirs;
  }

  /** The recursion distributes over concatenation. */
  lemma {:induction false} KeptAppend(a: seq<string>, b: seq<string>)
    ensures Kept(a + b) == Kept(a) + Kept(b)
    decreases |a|
  {
    if a == [] {
      assert a + b == b;
    } else {
      assert (a + b)[0] == a[0];
      assert (a + b)[1..] == a[1..] + b;
      KeptAppend(a[1..], b);
    }
  }

  /** Dropping empty pieces works piece by piece, so it keeps the order of
      the pieces it keeps. */
  lemma NonEmptyAppend(a: seq<string>, b: seq<string>)
    ensures NonEmpty(a + b) == NonEmpty(a) + NonEmpty(b)
  {
    KeptAppend(a, b);
  }

  // Proof steps.

  lemma DirSegmentsOfSplit(file: string, parts: seq<string>)
    requires Paths.Split(file, '/') == parts
    ensures DirSegments(file) == NonEmpty(parts[..|parts| - 1])
  {
  }

  lemma NonEmptyEndingWith(prefix: seq<string>, g: string, n: string)
    requires g != "" && n != ""
    ensures NonEmpty(prefix + [g, n]) == NonEmpty(prefix) + [g, n]
  {
    NonEmptyAppend(prefix, [g, n]);
    assert NonEmpty([g, n]) == [g, n];
  }

  lemma SlashFreeAppend(prefix: seq<string>, g: string, n: string)
    requires forall i :: 0 <= i < |prefix| ==> '/' !in prefix[i]
    requires '/' !in g && '/' !in n
    ensures forall i :: 0 <= i < |prefix + [g, n]| ==> '/' !in (prefix + [g, n])[i]
  {
    forall i | 0 <= i < |prefix + [g, n]| ensures '/' !in (prefix + [g, n])[i] {
      if i < |prefix| {
        assert (prefix + [g, n])[i] == prefix[i];
      }
    }
  }

  lemma JoinUnderPrefix(prefix: seq<string>, g: string, n: string, f: string)
    ensures Paths.Join((prefix + [g, n]) + [f], '/') == Paths.Join(prefix + [g, n, f], '/')
  {
    assert (prefix + [g, n]) + [f] == prefix + [g, n, f];
  }

  // Locations built from pieces.

  /** The directory levels of a location written as slash-free directories
      followed by a file name are the non-empty directories, in order. */
  lemma DirSegmentsJoin(dirs: seq<string>, fileName: string)
    requires forall i :: 0 <= i < |dirs| ==> '/' !in dirs[i]
    requires '/' !in fileName
    ensures DirSegments(Paths.Join(dirs + [fileName], '/')) == NonEmpty(dirs)
  {
    var parts := dirs + [fileName];
    assert forall i :: 0 <= i < |parts| ==> '/' !in parts[i];
    Paths.SplitJoin(parts, '/');
    assert parts[..|parts| - 1] == dirs;
    DirSegmentsOfSplit(Paths.Join(parts, '/'), parts);
  }

  /** Whatever precedes them, an absolute root's empty piece included, the
      two directories holding a file are its last two directory levels. */
  lemma DirSegmentsUnderPrefix(prefix: seq<string>, g: string, n: string, f: string)
    requires forall i :: 0 <= i < |prefix| ==> '/' !in prefix[i]
    requires '/' !in g && '/' !in n && '/' !in f
    requires g != "" && n != ""
    ensures DirSegments(Paths.Join(prefix + [g, n, f], '/')) == NonEmpty(prefix) + [g, n]
  {
    SlashFreeAppend(prefix, g, n);
    DirSegmentsJoin(prefix + [g, n], f);
    JoinUnderPrefix(prefix, g, n, f);
    NonEmptyEndingWith(prefix, g, n);
  }

  /** Hence a plugin registered from `<anything>/<g>/<n>/<file>` is plugin
      `n` of group `g`. */
  lemma ResolveUnderPrefix(prefix: seq<string>, g: string, n: string, f: string)
    requires forall i :: 0 <= i < |prefix| ==> '/' !in prefix[i]
    requires '/' !in g && '/' !in n && '/' !in f
    requires g != "" && n != ""
    ensures ResolveIdentity("", "", Paths.Join(prefix + [g, n, f], '/'), true) == Success(Identity(g, n))
  {
    DirSegmentsUnderPrefix(prefix, g, n, f);
  }

  /** With an explicit identity, the caller data cannot change the outcome. */
  lemma ExplicitIgnoresLocation(group: string, name: string, file1: string, ok1: bool, file2: string, ok2: bool)
    requires group != "" && name != ""
    ensures ResolveIdentity(group, name, file1, ok1) == ResolveIdentity(group, name, file2, ok2)
  {
  }
}
