/**
 * The repository state of gitlet: blob and commit identities, commits held by
 * value, branches, the two staging areas, and the repository object that owns
 * them together with the on-disk object stores and the working directory.
 */
module Gitlet {
  import opened Wrappers

  /** A SHA-1 digest in hexadecimal: always 40 characters, so never "". */
  type Hash = s: string | |s| == 40 witness "0000000000000000000000000000000000000000"

  /** Hashes shorter than this are abbreviations (the source's `magicNumber`). */
  const FullHashLength := 40

  /** File name to blob hash. */
  type Tracked = map<string, Hash>

  /**
   * A commit, with its parents embedded by value. A merge commit carries a
   * second parent and answers true to IsMerge().
   */
  datatype Commit =
    | Regular(message: string, timestamp: int, parent: Option<Commit>, tracked: Tracked)
    | Merge(message: string, timestamp: int, parent: Option<Commit>, parent2: Option<Commit>, tracked: Tracked)
  {
    /** True exactly for a commit built as a merge. */
    predicate IsMerge()
      ensures IsMerge() <==> Merge?
    {
      Merge?
    }

    /** Whether the commit records a blob hash for `fileName`. */
    predicate IsTracked(fileName: string)
      ensures IsTracked(fileName) <==> fileName in tracked.Keys
    {
      fileName in tracked
    }

    /** The blob hash recorded for `fileName`, None (null) when untracked. */
    function GetHashFromFileName(fileName: string): (r: Option<Hash>)
      ensures r.Some? <==> IsTracked(fileName)
      ensures r.Some? ==> r.value == tracked[fileName]
    {
      Get(tracked, fileName)
    }

    /** Records `hash` for `fileName`; nothing else about the commit changes. */
    function TrackFile(fileName: string, hash: Hash): (c: Commit)
      ensures c.IsTracked(fileName) && c.GetHashFromFileName(fileName) == Some(hash)
      ensures forall f :: f != fileName ==> c.GetHashFromFileName(f) == GetHashFromFileName(f)
      ensures c.tracked.Keys == tracked.Keys + {fileName}
      ensures c.(tracked := tracked) == this
    {
      this.(tracked := tracked[fileName := hash])
    }

    /** Forgets `fileName`; nothing else about the commit changes. */
    function UnTrackFile(fileName: string): (c: Commit)
      ensures !c.IsTracked(fileName)
      ensures forall f :: f != fileName ==> c.GetHashFromFileName(f) == GetHashFromFileName(f)
      ensures c.tracked.Keys == tracked.Keys - {fileName}
      ensures c.(tracked := tracked) == this
    {
      this.(tracked := tracked - {fileName})
    }
  }

  /** Copies a tracked-files map entry by entry, as the commit constructor does. */
  method CopyTracked(from: Tracked) returns (r: Tracked)
    ensures r == from
  {
    r := map[];
    var rest := from.Keys;
    while rest != {}
      invariant rest <= from.Keys
      invariant r.Keys == from.Keys - rest
      invariant forall f :: f in r ==> r[f] == from[f]
      decreases rest
    {
      var f :| f in rest;
      r := r[f := from[f]];
      rest := rest - {f};
    }
  }

  /**
   * A new regular commit: it tracks exactly what its parent tracks, or nothing
   * when it has no parent. The timestamp, which the source sets right after
   * construction and before the commit's hash is ever taken, is a parameter.
   */
  method NewCommit(message: string, timestamp: int, parent: Option<Commit>) returns (c: Commit)
    ensures c.Regular? && c.message == message && c.timestamp == timestamp && c.parent == parent
    ensures parent.Some? ==> c.tracked == parent.value.tracked
    ensures parent.None? ==> c.tracked == map[]
  {
    var tracked: Tracked := map[];
    if parent.Some? {
      tracked := CopyTracked(parent.value.tracked);
    }
    c := Regular(message, timestamp, parent, tracked);
  }

  /** A merge commit: parent1's tracked files, parent2 recorded, IsMerge() true. */
  method NewMerge(parent1: Commit, parent2: Commit, message: string, timestamp: int) returns (c: Commit)
    ensures c.IsMerge() && c.message == message && c.timestamp == timestamp
    ensures c.parent == Some(parent1) && c.parent2 == Some(parent2)
    ensures c.tracked == parent1.tracked
  {
    var base := NewCommit(message, timestamp, Some(parent1));
    c := Merge(base.message, base.timestamp, base.parent, Some(parent2), base.tracked);
  }

  /** Every hash a map tracks is a stored blob. */
  predicate Stored(m: Tracked, blobs: map<Hash, string>) {
    forall f :: f in m ==> m[f] in blobs
  }

  /** True when `prefix` is an initial segment of `name` (`name.substring(0, prefix.length()).equals(prefix)`). */
  predicate HasPrefix(name: Hash, prefix: string) {
    prefix <= name
  }

  /** The index of the first name in `names` that starts with `prefix`, if any. */
  function FirstWithPrefix(names: seq<Hash>, prefix: string): (r: Option<nat>)
    ensures r.Some? ==> r.value < |names| && HasPrefix(names[r.value], prefix)
    ensures r.Some? ==> forall j :: 0 <= j < r.value ==> !HasPrefix(names[j], prefix)
    ensures r.None? <==> forall j :: 0 <= j < |names| ==> !HasPrefix(names[j], prefix)
  {
    if names == [] then None
    else if HasPrefix(names[0], prefix) then Some(0)
    else match FirstWithPrefix(names[1..], prefix)
      case None => None
      case Some(i) => Some(i + 1)
  }

  /** The commit name Commit.fromHash looks up for `hash`, given the listing `names`. */
  function ResolvedName(names: seq<Hash>, hash: string): string {
    if |hash| >= FullHashLength then hash
    else match FirstWithPrefix(names, hash)
      case None => hash
      case Some(i) => names[i]
  }

  /**
   * Commit.fromHash: a string shorter than a full hash becomes the first name
   * of `names` (the listing of the commit folder) that starts with it, if any;
   * the resulting name is then looked up in the commit store, and a missing
   * commit is an error (None).
   */
  method CommitFromHash(commits: map<Hash, Commit>, names: seq<Hash>, hash: string) returns (name: string, r: Option<Commit>)
    ensures |hash| >= FullHashLength ==> name == hash
    ensures |hash| < FullHashLength && (forall i :: 0 <= i < |names| ==> !HasPrefix(names[i], hash)) ==> name == hash
    ensures |hash| < FullHashLength && (exists i :: 0 <= i < |names| && HasPrefix(names[i], hash)) ==>
              exists i :: 0 <= i < |names| && name == names[i] && HasPrefix(names[i], hash) &&
                          forall j :: 0 <= j < i ==> !HasPrefix(names[j], hash)
    ensures name == ResolvedName(names, hash)
    ensures r == Get(commits, name)
  {
    name := hash;
    if |hash| < FullHashLength {
      var i := 0;
      while i < |names|
        invariant 0 <= i <= |names|
        invariant forall j :: 0 <= j < i ==> !HasPrefix(names[j], hash)
      {
        if HasPrefix(names[i], hash) {
          name := names[i];
          break;
        }
        i := i + 1;
      }
    }
    if name in commits {
      r := Some(commits[name]);
    } else {
      r := None;
    }
  }

  /** A branch: a fixed name and a pointer to a commit hash. */
  class Branch {
    const name: string
    var commitHash: Hash

    constructor (name: string, commitHash: Hash)
      ensures this.name == name && this.commitHash == commitHash
    {
      this.name := name;
      this.commitHash := commitHash;
    }

    /** The branch's commit pointer, as the constructor or the last SetCommit left it. */
    function GetCommitHash(): (r: Hash)
      reads this
      ensures r == commitHash
    {
      commitHash
    }

    method SetCommit(hash: Hash)
      modifies this
      ensures GetCommitHash() == hash
    {
      commitHash := hash;
    }
  }

  /** A staging area: file name to blob hash ("" in the removal area). */
  class StagingArea {
    var area: map<string, string>

    constructor ()
      ensures area == map[]
    {
      area := map[];
    }

    /** The area itself. */
    function GetFiles(): (r: map<string, string>)
      reads this
      ensures r == area
    {
      area
    }

    predicate HasFile(fileName: string)
      reads this
      ensures HasFile(fileName) <==> fileName in GetFiles()
    {
      fileName in area
    }

    /** An alias of HasFile. */
    predicate IsStaged(fileName: string)
      reads this
      ensures IsStaged(fileName) == HasFile(fileName)
    {
      HasFile(fileName)
    }

    method Stage(fileName: string, hash: string)
      modifies this
      ensures GetFiles() == old(GetFiles())[fileName := hash]
    {
      area := area[fileName := hash];
    }

    method Unstage(fileName: string)
      modifies this
      ensures GetFiles() == old(GetFiles()) - {fileName}
    {
      area := area - {fileName};
    }

    method Clear()
      modifies this
      ensures GetFiles() == map[]
    {
      area := map[];
    }
  }

  /**
   * The repository: branches and the head branch, the add and removal areas,
   * the commit and blob folders as maps from hash to content, and the working
   * directory as a map from file name to contents. The two hash functions are
   * uninterpreted: SHA-1 of the contents, and SHA-1 of the serialised commit.
   */
  class Repository {
    var branches: map<string, Branch>
    var headBranch: Branch
    const staging: StagingArea
    const removing: StagingArea
    var commits: map<Hash, Commit>
    var blobs: map<Hash, string>
    var workdir: map<string, string>
    const blobId: string -> Hash
    const commitId: Commit -> Hash

    /**
     * The invariants every saved snapshot keeps: the head branch is the branch
     * of its name, every branch is stored under its own name and points to a
     * stored commit, every stored object sits under its own hash, every blob a
     * stored commit or the add area refers to is stored, and no file is in both
     * areas at once.
     */
    ghost predicate Valid()
      reads this`branches, this`headBranch, this`commits, this`blobs, staging, removing, branches.Values
    {
      BranchesValid() && StoresValid() && AreasValid()
    }

    /** The head branch is the branch of its name; every branch is stored under its own name and points to a stored commit. */
    ghost predicate BranchesValid()
      reads this`branches, this`headBranch, this`commits, branches.Values
    {
      && headBranch.name in branches && branches[headBranch.name] == headBranch
      && (forall n :: n in branches ==> branches[n].name == n && branches[n].commitHash in commits)
    }

    /** Every stored object sits under its own hash, and every blob a stored commit tracks is stored. */
    ghost predicate StoresValid()
      reads this`commits, this`blobs
    {
      && (forall h :: h in commits ==> commitId(commits[h]) == h && Stored(commits[h].tracked, blobs))
      && (forall h :: h in blobs ==> blobId(blobs[h]) == h)
    }

    /** The two areas are distinct objects with disjoint files, and every staged hash is a stored blob. */
    ghost predicate AreasValid()
      reads this`blobs, staging, removing
    {
      && staging != removing
      && (forall f :: f in staging.area ==> |staging.area[f]| == FullHashLength && staging.area[f] in blobs)
      && staging.area.Keys !! removing.area.Keys
    }

    /** The head branch points to a stored commit. */
    ghost predicate HasHead()
      reads this`headBranch, this`commits, headBranch
    {
      headBranch.commitHash in commits
    }

    /**
     * The state `init` leaves: a root commit with no parent, no files and the
     * epoch timestamp, and a branch "master" pointing to it as the head.
     */
    constructor Init(blobId: string -> Hash, commitId: Commit -> Hash, workdir: map<string, string>)
      ensures Valid()
      ensures fresh(staging) && fresh(removing) && fresh(headBranch)
      ensures headBranch.name == "master" && branches.Keys == {"master"}
      ensures Head() == Regular("initial commit", 0, None, map[])
      ensures commits == map[commitId(Head()) := Head()]
      ensures staging.area == map[] && removing.area == map[] && blobs == map[]
      ensures this.workdir == workdir && this.blobId == blobId && this.commitId == commitId
    {
      var root := NewCommit("initial commit", 0, None);
      var master := new Branch("master", commitId(root));
      this.blobId := blobId;
      this.commitId := commitId;
      this.workdir := workdir;
      commits := map[commitId(root) := root];
      blobs := map[];
      branches := map["master" := master];
      headBranch := master;
      staging := new StagingArea();
      removing := new StagingArea();
    }

    /** The branch called `name`, null when there is none. */
    function GetBranch(name: string): (b: Branch?)
      reads this
      ensures b != null <==> name in branches
      ensures b != null ==> b == branches[name]
    {
      if name in branches then branches[name] else null
    }

    /** The commit the head branch points to. */
    function Head(): (r: Commit)
      reads this`headBranch, this`commits, headBranch
      requires HasHead()
      ensures headBranch.commitHash in commits && r == commits[headBranch.commitHash]
    {
      commits[headBranch.commitHash]
    }

    /** Stores `b` under its name, replacing any branch of that name. */
    method AddBranch(b: Branch)
      modifies this`branches
      ensures branches == old(branches)[b.name := b]
      ensures GetBranch(b.name) == b
    {
      branches := branches[b.name := b];
    }

    /** Deletes the branch of `b`'s name and no other. */
    method RemoveBranch(b: Branch)
      modifies this`branches
      ensures branches == old(branches) - {b.name}
      ensures GetBranch(b.name) == null
    {
      branches := branches - {b.name};
    }

    method SetHeadBranch(b: Branch)
      modifies this`headBranch
      ensures headBranch == b
    {
      headBranch := b;
    }

    /** Commit.save: stores `c` under its hash. */
    method SaveCommit(c: Commit)
      modifies this`commits
      ensures commits == old(commits)[commitId(c) := c]
    {
      commits := commits[commitId(c) := c];
    }

    /** Blob.save: stores `contents` under its hash. */
    method SaveBlob(contents: string) returns (id: Hash)
      modifies this`blobs
      ensures id == blobId(contents) && blobs == old(blobs)[id := contents]
    {
      id := blobId(contents);
      blobs := blobs[id := contents];
    }

    /**
     * The working copy of `fileName` does not match `expected`: it is missing
     * and not marked for removal, or present with contents of another hash.
     */
    ghost predicate Differs(fileName: string, expected: string)
      reads this`workdir, removing
    {
      || (fileName !in workdir && fileName !in removing.area)
      || (fileName in workdir && blobId(workdir[fileName]) != expected)
    }

    /**
     * The files `unstagedFiles` reports: a staged file whose working copy does
     * not match its staged hash, or an unstaged head-tracked file whose working
     * copy does not match its tracked hash.
     */
    ghost predicate IsUnstaged(fileName: string)
      reads this`workdir, this`headBranch, this`commits, headBranch, staging, removing
      requires HasHead()
    {
      || (fileName in staging.area && Differs(fileName, staging.area[fileName]))
      || (fileName !in staging.area && fileName in Head().tracked && Differs(fileName, Head().tracked[fileName]))
    }

    /**
     * Modifications not staged for commit: each reported file maps to true
     * when it was deleted and to false when it was modified.
     */
    method UnstagedFiles() returns (files: map<string, bool>)
      requires Valid()
      ensures forall f :: f in files <==> IsUnstaged(f)
      ensures forall f :: f in files ==> files[f] == (f !in workdir)
    {
      files := map[];
      var staged := staging.area;
      var rest := staged.Keys;
      while rest != {}
        invariant rest <= staged.Keys
        invariant forall f :: f in files <==> f in staged && f !in rest && Differs(f, staged[f])
        invariant forall f :: f in files ==> files[f] == (f !in workdir)
        decreases rest
      {
        var f :| f in rest;
        if f !in workdir {
          if !removing.HasFile(f) {
            files := files[f := true];
          }
        } else if blobId(workdir[f]) != staged[f] {
          files := files[f := false];
        }
        rest := rest - {f};
      }
      var tracked := Head().tracked;
      rest := tracked.Keys;
      while rest != {}
        invariant rest <= tracked.Keys
        invariant forall f :: f in files <==>
          || (f in staged && Differs(f, staged[f]))
          || (f !in staged && f in tracked && f !in rest && Differs(f, tracked[f]))
        invariant forall f :: f in files ==> files[f] == (f !in workdir)
        decreases rest
      {
        var f :| f in rest;
        if !staging.IsStaged(f) {
          if f !in workdir {
            if !removing.HasFile(f) {
              files := files[f := true];
            }
          } else if blobId(workdir[f]) != tracked[f] {
            files := files[f := false];
          }
        }
        rest := rest - {f};
      }
    }

    /** A file neither tracked by the head commit nor staged for addition. */
    ghost predicate IsUntracked(fileName: string)
      reads this`headBranch, this`commits, headBranch, staging
      requires HasHead()
    {
      fileName !in Head().tracked && fileName !in staging.area
    }

    /** The names among `files` that are untracked, in their order. */
    ghost function Untracked(files: seq<string>): (r: seq<string>)
      reads this`headBranch, this`commits, headBranch, staging
      requires HasHead()
      ensures |r| <= |files|
      ensures forall f :: f in r <==> f in files && IsUntracked(f)
    {
      if files == [] then []
      else Untracked(files[..|files| - 1]) + (if IsUntracked(files[|files| - 1]) then [files[|files| - 1]] else [])
    }

    /**
     * Untracked files of the working directory; `files` is the directory
     * listing (Utils.plainFilenamesIn, which is not part of this model).
     */
    method UntrackedFiles(files: seq<string>) returns (r: seq<string>)
      requires Valid()
      ensures r == Untracked(files)
    {
      r := [];
      var i := 0;
      while i < |files|
        invariant 0 <= i <= |files|
        invariant r == Untracked(files[..i])
      {
        assert files[..i + 1][..i] == files[..i];
        if Head().GetHashFromFileName(files[i]) == None && !staging.IsStaged(files[i]) {
          r := r + [files[i]];
        }
        i := i + 1;
      }
      assert files[..|files|] == files;
    }
  }
}
