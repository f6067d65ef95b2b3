/**
 * The gitlet commands as transitions of a Repository: each checks its reject
 * conditions in the source's order, reports which one applied (or Done), and
 * otherwise updates the staging areas, the stores, the branch pointers and the
 * working directory. Directory listings and the clock are parameters.
 *
 * A method's modifies clause is part of what it promises: an object or field
 * it does not name (another branch, the commit store, ...) keeps its value.
 */
module Command {
  import opened Wrappers
  import opened Gitlet
  import opened MergeCommand

  /** What a command reports: Done, or the message it prints before stopping. */
  datatype Outcome =
    | Done
    | FileDoesNotExist       // "File does not exist."
    | NoCommitMessage        // "Please enter a commit message."
    | NoChanges              // "No changes added to the commit."
    | NoReasonToRemove       // "No reason to remove the file."
    | BranchExists           // "A branch with that name already exists."
    | NoSuchBranch           // "No such branch exists." / "A branch with that name does not exist."
    | CannotRemoveCurrent    // "Cannot remove the current branch."
    | AlreadyOnBranch        // "No need to checkout the current branch."
    | UntrackedInTheWay      // "There is an untracked file in the way; ..."
    | NoSuchCommit           // Commit.fromHash found no commit under the resolved name
    | FileNotInCommit        // "File does not exist in that commit."
    | NotFound               // "Found no commit with that message."
    | UncommittedChanges     // "You have uncommitted changes."
    | MergeWithSelf          // "Cannot merge a branch with itself."
    | GivenIsAncestor        // "Given branch is an ancestor of the current branch."
    | FastForwarded          // "Current branch fast-forwarded."
    | Merged(conflict: bool) // a merge commit was made; conflict: "Encountered a merge conflict."
    | NoSplitPoint           // getSplitPoint returned null

  // ---------------------------------------------------------------------------
  // Working-directory conditions

  /** `listing` (Utils.plainFilenamesIn of the working directory) names exactly its files. */
  ghost predicate Lists(listing: seq<string>, workdir: map<string, string>) {
    forall f :: f in listing <==> f in workdir
  }

  /** The working directory a full checkout of `tracked` writes: every tracked file with its blob's contents. */
  function Files(tracked: Tracked, blobs: map<Hash, string>): map<string, string>
    requires Stored(tracked, blobs)
  {
    map f | f in tracked :: blobs[tracked[f]]
  }

  /** No modification of a tracked or staged file is left unstaged (unstagedFiles() is empty). */
  ghost predicate NoUnstaged(r: Repository)
    reads r`workdir, r`headBranch, r`commits, r.headBranch, r.staging, r.removing
    requires r.HasHead()
  {
    forall f :: !r.IsUnstaged(f)
  }

  /** No file of the working directory is untracked (untrackedFiles() is empty). */
  ghost predicate NoUntracked(r: Repository)
    reads r`workdir, r`headBranch, r`commits, r.headBranch, r.staging, r.removing
    requires r.HasHead()
  {
    forall f :: f in r.workdir ==> !r.IsUntracked(f)
  }

  /** Nothing staged, nothing marked for removal, nothing unstaged, nothing untracked. */
  ghost predicate Clean(r: Repository)
    reads r`workdir, r`headBranch, r`commits, r.headBranch, r.staging, r.removing
    requires r.HasHead()
  {
    && r.staging.area == map[]
    && r.removing.area == map[]
    && NoUnstaged(r)
    && NoUntracked(r)
  }

  /** The working directory holds exactly the head commit's files, and the repository is clean. */
  ghost predicate CheckedOut(r: Repository)
    reads r`workdir, r`headBranch, r`commits, r`blobs, r.headBranch, r.staging, r.removing
    requires r.HasHead()
  {
    && Stored(r.Head().tracked, r.blobs)
    && r.workdir == Files(r.Head().tracked, r.blobs)
    && Clean(r)
  }

  /**
   * A working directory that holds exactly the head commit's files, with
   * empty areas, is clean: a full checkout leaves nothing to commit and
   * nothing in the way.
   */
  lemma {:induction false} CheckedOutIsClean(r: Repository)
    requires r.Valid()
    requires r.staging.area == map[] && r.removing.area == map[]
    requires Stored(r.Head().tracked, r.blobs)
    requires r.workdir == Files(r.Head().tracked, r.blobs)
    ensures CheckedOut(r)
  {
    var t := r.Head().tracked;
    forall f
      ensures !r.IsUnstaged(f)
    {
      if f in t {
        assert r.blobId(r.blobs[t[f]]) == t[f];
      }
    }
  }

  /** unstagedFiles() is empty exactly when no file is unstaged. */
  method CheckUnstaged(r: Repository) returns (none: bool)
    requires r.Valid()
    ensures none <==> NoUnstaged(r)
  {
    var files := r.UnstagedFiles();
    none := |files| == 0;
    if !none {
      var f :| f in files;
      assert r.IsUnstaged(f);
    }
  }

  /** untrackedFiles() is empty exactly when no file of the working directory is untracked. */
  method CheckUntracked(r: Repository, listing: seq<string>) returns (none: bool)
    requires r.Valid() && Lists(listing, r.workdir)
    ensures none <==> NoUntracked(r)
  {
    var files := r.UntrackedFiles(listing);
    none := |files| == 0;
    if !none {
      assert files[0] in files;
      assert r.IsUntracked(files[0]) && files[0] in r.workdir;
    } else {
      forall f | f in r.workdir
        ensures !r.IsUntracked(f)
      {
        assert f in listing;
        assert f !in files;
      }
    }
  }

  /** The deletion loop of a full checkout: every listed file is removed from `workdir`. */
  method DeleteListed(workdir: map<string, string>, listing: seq<string>) returns (w: map<string, string>)
    ensures forall f :: f in w <==> f in workdir && f !in listing
    ensures forall f :: f in w ==> w[f] == workdir[f]
  {
    w := workdir;
    var i := 0;
    while i < |listing|
      invariant 0 <= i <= |listing|
      invariant forall f :: f in w <==> f in workdir && f !in listing[..i]
      invariant forall f :: f in w ==> w[f] == workdir[f]
    {
      assert forall f :: f in listing[..i + 1] <==> f in listing[..i] || f == listing[i];
      w := w - {listing[i]};
      i := i + 1;
    }
    assert listing[..i] == listing;
  }

  /** The writing loop of a full checkout: every file of `tracked` gets its blob's contents. */
  method WriteTracked(workdir: map<string, string>, tracked: Tracked, blobs: map<Hash, string>)
    returns (w: map<string, string>)
    requires Stored(tracked, blobs)
    ensures forall f :: f in w <==> f in workdir || f in tracked
    ensures forall f :: f in w ==> w[f] == if f in tracked then blobs[tracked[f]] else workdir[f]
  {
    w := workdir;
    var rest := tracked.Keys;
    while rest != {}
      invariant rest <= tracked.Keys
      invariant forall f :: f in w <==> f in workdir || (f in tracked && f !in rest)
      invariant forall f :: f in w ==> w[f] == if f in tracked && f !in rest then blobs[tracked[f]] else workdir[f]
      decreases rest
    {
      var f :| f in rest;
      w := w[f := blobs[tracked[f]]];
      rest := rest - {f};
    }
  }

  /** Replaces the whole working directory by the files of `tracked`. */
  method CheckoutAll(r: Repository, listing: seq<string>, tracked: Tracked)
    requires Lists(listing, r.workdir) && Stored(tracked, r.blobs)
    modifies r`workdir
    ensures r.workdir == Files(tracked, r.blobs)
  {
    var w := DeleteListed(r.workdir, listing);
    assert w == map[];
    w := WriteTracked(w, tracked, r.blobs);
    r.workdir := w;
  }

  /**
   * The full checkout that ends checkout branch, reset and merge: the
   * working directory is replaced by the head commit's files, which leaves
   * a repository with empty areas clean.
   */
  method CheckOutHead(r: Repository, listing: seq<string>)
    requires r.Valid() && Lists(listing, r.workdir)
    requires r.staging.area == map[] && r.removing.area == map[]
    modifies r`workdir
    ensures r.Valid() && CheckedOut(r)
  {
    assert Stored(r.Head().tracked, r.blobs) by {
      assert r.Head() == r.commits[r.headBranch.commitHash];
    }
    CheckoutAll(r, listing, r.Head().tracked);
    CheckedOutIsClean(r);
  }

  // ---------------------------------------------------------------------------
  // add, rm, commit

  /**
   * add: a missing file is rejected; a file marked for removal is only taken
   * out of the removal area; otherwise the file is staged (StageFile).
   */
  method Add(r: Repository, fileName: string) returns (o: Outcome)
    requires r.Valid()
    modifies r`blobs, r.staging, r.removing
    ensures r.Valid()
    ensures fileName !in r.workdir ==>
      && o == FileDoesNotExist && r.blobs == old(r.blobs)
      && r.staging.area == old(r.staging.area) && r.removing.area == old(r.removing.area)
    ensures fileName in r.workdir && fileName in old(r.removing.area) ==>
      && o == Done && r.blobs == old(r.blobs)
      && r.staging.area == old(r.staging.area) && r.removing.area == old(r.removing.area) - {fileName}
    ensures fileName in r.workdir && fileName !in old(r.removing.area) ==>
      && o == Done && r.removing.area == old(r.removing.area)
      && Staged(r.staging.area, r.blobs, old(r.staging.area), old(r.blobs), fileName, r.workdir[fileName],
                r.blobId, r.Head().tracked)
      && !r.IsUnstaged(fileName) && !r.IsUntracked(fileName)
  {
    if fileName !in r.workdir {
      return FileDoesNotExist;
    }
    if r.removing.HasFile(fileName) {
      r.removing.Unstage(fileName);
      return Done;
    }
    StageFile(r, fileName);
    o := Done;
  }

  /**
   * The effect of staging `contents` as `fileName`: the blob is stored, and the
   * file is unstaged when the head already tracks that blob, staged otherwise.
   */
  ghost predicate Staged(area: map<string, string>, blobs: map<Hash, string>,
                         area0: map<string, string>, blobs0: map<Hash, string>,
                         fileName: string, contents: string, blobId: string -> Hash, head: Tracked) {
    && blobs == blobs0[blobId(contents) := contents]
    && area == if Get(head, fileName) == Some(blobId(contents)) then area0 - {fileName}
               else area0[fileName := blobId(contents)]
  }

  /**
   * The staging part of add: afterwards the file is neither untracked nor an
   * unstaged modification.
   */
  method StageFile(r: Repository, fileName: string)
    requires r.Valid() && fileName in r.workdir && fileName !in r.removing.area
    modifies r`blobs, r.staging
    ensures r.Valid()
    ensures Staged(r.staging.area, r.blobs, old(r.staging.area), old(r.blobs), fileName, r.workdir[fileName],
                   r.blobId, r.Head().tracked)
    ensures !r.IsUnstaged(fileName) && !r.IsUntracked(fileName)
  {
    var id := r.SaveBlob(r.workdir[fileName]);
    if Some(id) == r.Head().GetHashFromFileName(fileName) {
      r.staging.Unstage(fileName);
    } else {
      r.staging.Stage(fileName, id);
    }
  }

  /**
   * rm: a file neither staged nor tracked by the head is rejected; a staged
   * file is only unstaged; a tracked file is marked for removal (MarkRemoved).
   */
  method Rm(r: Repository, fileName: string) returns (o: Outcome)
    requires r.Valid()
    modifies r`workdir, r.staging, r.removing
    ensures r.Valid()
    ensures fileName !in old(r.staging.area) && fileName !in r.Head().tracked ==>
      && o == NoReasonToRemove && r.workdir == old(r.workdir)
      && r.staging.area == old(r.staging.area) && r.removing.area == old(r.removing.area)
    ensures fileName in old(r.staging.area) ==>
      && o == Done && r.workdir == old(r.workdir)
      && r.staging.area == old(r.staging.area) - {fileName} && r.removing.area == old(r.removing.area)
    ensures fileName !in old(r.staging.area) && fileName in r.Head().tracked ==>
      && o == Done && r.workdir == old(r.workdir) - {fileName}
      && r.staging.area == old(r.staging.area) && r.removing.area == old(r.removing.area)[fileName := ""]
      && !r.IsUnstaged(fileName) && !r.IsUntracked(fileName)
  {
    if !r.staging.HasFile(fileName) && !r.Head().IsTracked(fileName) {
      return NoReasonToRemove;
    }
    if r.staging.HasFile(fileName) {
      r.staging.Unstage(fileName);
      return Done;
    }
    MarkRemoved(r, fileName);
    o := Done;
  }

  /**
   * The removal part of rm: the file is marked for removal and deleted from
   * the working directory; it is then neither untracked nor unstaged.
   */
  method MarkRemoved(r: Repository, fileName: string)
    requires r.Valid() && fileName !in r.staging.area && fileName in r.Head().tracked
    modifies r`workdir, r.removing
    ensures r.Valid()
    ensures r.workdir == old(r.workdir) - {fileName} && r.removing.area == old(r.removing.area)[fileName := ""]
    ensures !r.IsUnstaged(fileName) && !r.IsUntracked(fileName)
  {
    r.removing.Stage(fileName, "");
    r.workdir := r.workdir - {fileName};
  }

  /**
   * The tracked files of a new commit: the parent's map with every staged
   * entry upserted and then every key of the removal area deleted.
   */
  ghost predicate Snapshotted(t: Tracked, parent: Tracked, staged: map<string, string>, removed: map<string, string>) {
    && (forall f {:trigger f in t} :: f in t <==> f !in removed && (f in staged || f in parent))
    && (forall f {:trigger t[f]} :: f in t ==> t[f] == if f in staged then staged[f] else parent[f])
  }

  /** The first loop of commit: every staged entry is tracked with its staged hash. */
  method TrackStaged(parent: Tracked, staged: map<string, string>, blobs: map<Hash, string>, c0: Commit)
    returns (c: Commit)
    requires c0.tracked == parent && Stored(parent, blobs)
    requires forall f :: f in staged ==> |staged[f]| == FullHashLength && staged[f] in blobs
    ensures c.(tracked := c0.tracked) == c0
    ensures Snapshotted(c.tracked, parent, staged, map[])
    ensures Stored(c.tracked, blobs)
  {
    c := c0;
    var rest := staged.Keys;
    while rest != {}
      invariant rest <= staged.Keys
      invariant c.(tracked := c0.tracked) == c0
      invariant Snapshotted(c.tracked, parent, staged - rest, map[])
      invariant Stored(c.tracked, blobs)
      decreases rest
    {
      var f :| f in rest;
      c := c.TrackFile(f, staged[f]);
      rest := rest - {f};
    }
    assert staged - rest == staged;
  }

  /** The second loop of commit: every key of the removal area is untracked. */
  method UntrackRemoved(parent: Tracked, staged: map<string, string>, removed: map<string, string>,
                        blobs: map<Hash, string>, c0: Commit) returns (c: Commit)
    requires Snapshotted(c0.tracked, parent, staged, map[]) && Stored(c0.tracked, blobs)
    ensures c.(tracked := c0.tracked) == c0
    ensures Snapshotted(c.tracked, parent, staged, removed)
    ensures Stored(c.tracked, blobs)
  {
    c := c0;
    var rest := removed.Keys;
    assert removed - rest == map[];
    while rest != {}
      invariant rest <= removed.Keys
      invariant c.(tracked := c0.tracked) == c0
      invariant Snapshotted(c.tracked, parent, staged, removed - rest)
      invariant Stored(c.tracked, blobs)
      decreases rest
    {
      var f :| f in rest;
      c := c.UnTrackFile(f);
      rest := rest - {f};
    }
    assert removed - rest == removed;
  }

  /** What commit makes of the head `parent` and the two areas. */
  ghost predicate Committed(c: Commit, parent: Commit, message: string, timestamp: int,
                            staged: map<string, string>, removed: map<string, string>) {
    && c.Regular? && c.message == message && c.timestamp == timestamp && c.parent == Some(parent)
    && Snapshotted(c.tracked, parent.tracked, staged, removed)
  }

  /**
   * commit: an empty message or two empty areas are rejected; otherwise a
   * commit whose parent is the head and whose files are the head's, updated
   * by the two areas, is made (MakeCommit).
   */
  method CommitCommand(r: Repository, message: string, timestamp: int) returns (o: Outcome)
    requires r.Valid()
    modifies r`commits, r.headBranch, r.staging, r.removing
    ensures r.Valid()
    ensures message == "" || (old(r.staging.area) == map[] && old(r.removing.area) == map[]) ==>
      && o == (if message == "" then NoCommitMessage else NoChanges)
      && r.commits == old(r.commits) && r.headBranch.commitHash == old(r.headBranch.commitHash)
      && r.staging.area == old(r.staging.area) && r.removing.area == old(r.removing.area)
    ensures message != "" && (old(r.staging.area) != map[] || old(r.removing.area) != map[]) ==>
      && o == Done
      && Committed(r.Head(), old(r.Head()), message, timestamp, old(r.staging.area), old(r.removing.area))
      && r.staging.area == map[] && r.removing.area == map[]
      && r.commits == old(r.commits)[r.headBranch.commitHash := r.Head()]
  {
    if message == "" {
      return NoCommitMessage;
    }
    if |r.staging.GetFiles()| == 0 && |r.removing.GetFiles()| == 0 {
      return NoChanges;
    }
    MakeCommit(r, message, timestamp);
    o := Done;
  }

  /**
   * The part of commit after its checks: the new commit is stored under its
   * hash, the head branch moves to it, and both areas are emptied.
   */
  method MakeCommit(r: Repository, message: string, timestamp: int)
    requires r.Valid()
    modifies r`commits, r.headBranch, r.staging, r.removing
    ensures r.Valid()
    ensures Committed(r.Head(), old(r.Head()), message, timestamp, old(r.staging.area), old(r.removing.area))
    ensures r.staging.area == map[] && r.removing.area == map[]
    ensures r.commits == old(r.commits)[r.headBranch.commitHash := r.Head()]
  {
    var head := r.Head();
    var base := NewCommit(message, timestamp, Some(head));
    assert Stored(head.tracked, r.blobs) by {
      assert head == r.commits[r.headBranch.commitHash];
    }
    var c := TrackStaged(head.tracked, r.staging.GetFiles(), r.blobs, base);
    c := UntrackRemoved(head.tracked, r.staging.GetFiles(), r.removing.GetFiles(), r.blobs, c);
    r.staging.Clear();
    r.removing.Clear();
    r.SaveCommit(c);
    r.headBranch.SetCommit(r.commitId(c));
  }

  /**
   * Staging contents X as `fileName` and then committing gives a commit whose
   * version of `fileName` is X: checking that file out of the new commit
   * (CheckoutFile) writes exactly X back.
   */
  lemma StageCommitRoundTrip(c: Commit, head: Commit, message: string, timestamp: int,
                             area: map<string, string>, blobs: map<Hash, string>,
                             area0: map<string, string>, blobs0: map<Hash, string>,
                             removed: map<string, string>, fileName: string, contents: string,
                             blobId: string -> Hash)
    requires Staged(area, blobs, area0, blobs0, fileName, contents, blobId, head.tracked)
    requires Committed(c, head, message, timestamp, area, removed)
    requires fileName !in removed
    ensures fileName in c.tracked && c.tracked[fileName] in blobs && blobs[c.tracked[fileName]] == contents
  {
  }

  // ---------------------------------------------------------------------------
  // branch, rm-branch

  /** branch: a taken name is rejected; otherwise a new branch at the head commit is added. */
  method BranchCommand(r: Repository, branchName: string) returns (o: Outcome)
    requires r.Valid()
    modifies r`branches
    ensures r.Valid()
    ensures branchName in old(r.branches) ==> o == BranchExists && r.branches == old(r.branches)
    ensures branchName !in old(r.branches) ==>
      && o == Done
      && branchName in r.branches && r.branches == old(r.branches)[branchName := r.branches[branchName]]
      && fresh(r.branches[branchName])
      && r.branches[branchName].name == branchName
      && r.branches[branchName].commitHash == r.headBranch.commitHash
  {
    if r.GetBranch(branchName) != null {
      return BranchExists;
    }
    var b := new Branch(branchName, r.headBranch.GetCommitHash());
    r.AddBranch(b);
    o := Done;
  }

  /** rm-branch: the current branch and a missing branch are rejected; otherwise that branch is deleted. */
  method RmBranch(r: Repository, branchName: string) returns (o: Outcome)
    requires r.Valid()
    modifies r`branches
    ensures r.Valid()
    ensures branchName == r.headBranch.name ==> o == CannotRemoveCurrent && r.branches == old(r.branches)
    ensures branchName != r.headBranch.name && branchName !in old(r.branches) ==>
      o == NoSuchBranch && r.branches == old(r.branches)
    ensures branchName != r.headBranch.name && branchName in old(r.branches) ==>
      o == Done && r.branches == old(r.branches) - {branchName}
  {
    if r.headBranch.name == branchName {
      return CannotRemoveCurrent;
    }
    var b := r.GetBranch(branchName);
    if b == null {
      return NoSuchBranch;
    }
    r.RemoveBranch(b);
    o := Done;
  }

  // ---------------------------------------------------------------------------
  // checkout, reset, find

  /**
   * checkout [commit] -- file: the commit is resolved from a possibly
   * abbreviated hash; a missing commit or a file it does not track is
   * rejected; otherwise the working copy of the file becomes that blob.
   */
  method CheckoutFile(r: Repository, names: seq<Hash>, commitHash: string, fileName: string) returns (o: Outcome)
    requires r.Valid()
    modifies r`workdir
    ensures r.Valid()
    ensures Get(r.commits, ResolvedName(names, commitHash)).None? ==>
      o == NoSuchCommit && r.workdir == old(r.workdir)
    ensures Get(r.commits, ResolvedName(names, commitHash)).Some? ==>
      var c := r.commits[ResolvedName(names, commitHash)];
      && (fileName !in c.tracked ==> o == FileNotInCommit && r.workdir == old(r.workdir))
      && (fileName in c.tracked ==> o == Done && r.workdir == old(r.workdir)[fileName := r.blobs[c.tracked[fileName]]])
  {
    var name, commit := CommitFromHash(r.commits, names, commitHash);
    if commit.None? {
      return NoSuchCommit;
    }
    var c := commit.value;
    if !c.IsTracked(fileName) {
      return FileNotInCommit;
    }
    r.workdir := r.workdir[fileName := r.blobs[c.tracked[fileName]]];
    o := Done;
  }

  /**
   * checkout -- file: the head commit's version of the file is written back;
   * an unstaged file then no longer differs from what the head tracks.
   */
  method CheckoutHeadFile(r: Repository, names: seq<Hash>, fileName: string) returns (o: Outcome)
    requires r.Valid()
    modifies r`workdir
    ensures r.Valid()
    ensures o == Done || o == FileNotInCommit
    ensures o == Done <==> fileName in r.Head().tracked
    ensures o == FileNotInCommit ==> r.workdir == old(r.workdir)
    ensures o == Done ==> r.workdir == old(r.workdir)[fileName := r.blobs[r.Head().tracked[fileName]]]
    ensures o == Done && fileName !in r.staging.area ==> !r.IsUnstaged(fileName)
  {
    o := CheckoutFile(r, names, r.headBranch.GetCommitHash(), fileName);
    if o == Done {
      assert r.blobId(r.blobs[r.Head().tracked[fileName]]) == r.Head().tracked[fileName];
    }
  }

  /**
   * checkout branch: a missing branch, the current branch and a repository
   * that is not clean are rejected; otherwise the branch is checked out
   * (SwitchTo).
   */
  method CheckoutBranch(r: Repository, listing: seq<string>, branchName: string) returns (o: Outcome)
    requires r.Valid() && Lists(listing, r.workdir)
    modifies r`headBranch, r`workdir
    ensures r.Valid()
    ensures branchName !in r.branches ==>
      o == NoSuchBranch && r.headBranch == old(r.headBranch) && r.workdir == old(r.workdir)
    ensures branchName in r.branches && branchName == old(r.headBranch).name ==>
      o == AlreadyOnBranch && r.headBranch == old(r.headBranch) && r.workdir == old(r.workdir)
    ensures branchName in r.branches && branchName != old(r.headBranch).name && !old(Clean(r)) ==>
      o == UntrackedInTheWay && r.headBranch == old(r.headBranch) && r.workdir == old(r.workdir)
    ensures branchName in r.branches && branchName != old(r.headBranch).name && old(Clean(r)) ==>
      o == Done && r.headBranch == r.branches[branchName] && CheckedOut(r)
  {
    var b := r.GetBranch(branchName);
    if b == null {
      return NoSuchBranch;
    }
    if r.headBranch.name == branchName {
      return AlreadyOnBranch;
    }
    var noUnstaged := CheckUnstaged(r);
    var noUntracked := CheckUntracked(r, listing);
    if |r.staging.GetFiles()| != 0 || |r.removing.GetFiles()| != 0 || !noUnstaged || !noUntracked {
      return UntrackedInTheWay;
    }
    SwitchTo(r, listing, b);
    o := Done;
  }

  /**
   * The part of checkout branch after its checks: `b` becomes the head branch
   * and the working directory is replaced by its commit's files, which
   * leaves the repository clean.
   */
  method SwitchTo(r: Repository, listing: seq<string>, b: Branch)
    requires r.Valid() && Lists(listing, r.workdir) && b.name in r.branches && r.branches[b.name] == b
    requires r.staging.area == map[] && r.removing.area == map[]
    modifies r`headBranch, r`workdir
    ensures r.Valid() && r.headBranch == b && CheckedOut(r)
  {
    r.SetHeadBranch(b);
    CheckOutHead(r, listing);
  }

  /**
   * reset: the commit is resolved from a possibly abbreviated hash; a missing
   * commit, an unstaged modification or an untracked file is rejected;
   * otherwise the commit is checked out on the head branch (ResetTo).
   */
  method Reset(r: Repository, names: seq<Hash>, listing: seq<string>, commitHash: string) returns (o: Outcome)
    requires r.Valid() && Lists(listing, r.workdir)
    modifies r`workdir, r.headBranch, r.staging, r.removing
    ensures r.Valid()
    ensures Get(r.commits, ResolvedName(names, commitHash)).None? || !old(NoUnstaged(r) && NoUntracked(r)) ==>
      && o == (if Get(r.commits, ResolvedName(names, commitHash)).None? then NoSuchCommit else UntrackedInTheWay)
      && r.headBranch.commitHash == old(r.headBranch.commitHash) && r.workdir == old(r.workdir)
      && r.staging.area == old(r.staging.area) && r.removing.area == old(r.removing.area)
    ensures Get(r.commits, ResolvedName(names, commitHash)).Some? && old(NoUnstaged(r) && NoUntracked(r)) ==>
      && o == Done
      && r.headBranch.commitHash == ResolvedName(names, commitHash)
      && r.Head() == r.commits[ResolvedName(names, commitHash)]
      && CheckedOut(r)
  {
    var name, commit := CommitFromHash(r.commits, names, commitHash);
    if commit.None? {
      return NoSuchCommit;
    }
    var noUnstaged := CheckUnstaged(r);
    var noUntracked := CheckUntracked(r, listing);
    if !noUnstaged || !noUntracked {
      return UntrackedInTheWay;
    }
    ResetTo(r, listing, name);
    o := Done;
  }

  /**
   * The part of reset after its checks: both areas are emptied, the head
   * branch moves to the commit stored under `name` and the working directory
   * is replaced by its files, which leaves the repository clean.
   */
  method ResetTo(r: Repository, listing: seq<string>, name: Hash)
    requires r.Valid() && Lists(listing, r.workdir) && name in r.commits
    modifies r`workdir, r.headBranch, r.staging, r.removing
    ensures r.Valid()
    ensures r.headBranch.commitHash == name && r.Head() == r.commits[name]
    ensures CheckedOut(r)
  {
    var c := r.commits[name];
    r.staging.Clear();
    r.removing.Clear();
    r.headBranch.SetCommit(r.commitId(c));
    CheckOutHead(r, listing);
  }

  /** `xs` is `ys` with some elements left out, the rest kept in their order. */
  ghost predicate Subsequence<T>(xs: seq<T>, ys: seq<T>)
    decreases |ys|
  {
    if xs == [] then true
    else if ys == [] then false
    else (xs[|xs| - 1] == ys[|ys| - 1] && Subsequence(xs[..|xs| - 1], ys[..|ys| - 1]))
         || Subsequence(xs, ys[..|ys| - 1])
  }

  /** The names among `names`, in order, whose commit has message `message`. */
  function Matching(names: seq<Hash>, commits: map<Hash, Commit>, message: string): (ids: seq<Hash>)
    requires forall i :: 0 <= i < |names| ==> names[i] in commits
    ensures |ids| <= |names|
    ensures Subsequence(ids, names)
    ensures forall h :: h in ids <==> h in names && commits[h].message == message
  {
    if names == [] then []
    else
      var last := names[|names| - 1];
      var earlier := Matching(names[..|names| - 1], commits, message);
      if commits[last].message == message then
        assert (earlier + [last])[..|earlier|] == earlier;
        earlier + [last]
      else
        earlier
  }

  /**
   * find: the ids of all stored commits with the given message, in the order
   * of the commit folder's listing `names`; NotFound when there is none.
   */
  method Find(r: Repository, names: seq<Hash>, message: string) returns (o: Outcome, ids: seq<Hash>)
    requires r.Valid()
    requires forall h :: h in names <==> h in r.commits
    ensures ids == Matching(names, r.commits, message)
    ensures forall h :: h in ids <==> h in r.commits && r.commits[h].message == message
    ensures o == (if ids == [] then NotFound else Done)
  {
    ids := [];
    var i := 0;
    while i < |names|
      invariant 0 <= i <= |names|
      invariant ids == Matching(names[..i], r.commits, message)
    {
      assert names[..i + 1][..i] == names[..i];
      var commit := r.commits[names[i]];
      if commit.message == message {
        ids := ids + [r.commitId(commit)];
      }
      i := i + 1;
    }
    assert names[..i] == names;
    o := if ids == [] then NotFound else Done;
  }

  // ---------------------------------------------------------------------------
  // merge

  /**
   * checkRun: a missing branch, then staged, removed or unstaged changes,
   * then untracked files, then the current branch itself, are rejected.
   */
  method CheckRun(r: Repository, listing: seq<string>, branchName: string) returns (o: Outcome)
    requires r.Valid() && Lists(listing, r.workdir)
    ensures o == Done || o == NoSuchBranch || o == UncommittedChanges || o == UntrackedInTheWay || o == MergeWithSelf
    ensures o == NoSuchBranch <==> branchName !in r.branches
    ensures o == UncommittedChanges <==>
      branchName in r.branches && !(r.staging.area == map[] && r.removing.area == map[] && NoUnstaged(r))
    ensures o == UntrackedInTheWay <==>
      branchName in r.branches && r.staging.area == map[] && r.removing.area == map[] && NoUnstaged(r) && !NoUntracked(r)
    ensures o == MergeWithSelf <==> branchName in r.branches && Clean(r) && branchName == r.headBranch.name
    ensures o == Done <==> branchName in r.branches && Clean(r) && branchName != r.headBranch.name
  {
    if r.GetBranch(branchName) == null {
      return NoSuchBranch;
    }
    var noUnstaged := CheckUnstaged(r);
    if |r.staging.GetFiles()| != 0 || |r.removing.GetFiles()| != 0 || !noUnstaged {
      return UncommittedChanges;
    }
    var noUntracked := CheckUntracked(r, listing);
    if !noUntracked {
      return UntrackedInTheWay;
    }
    if r.headBranch.name == branchName {
      return MergeWithSelf;
    }
    o := Done;
  }

  /**
   * What merge makes of head `h`, target `t` and split point `s`: a merge
   * commit with parents head and target, the given message and timestamp,
   * and for every file the three-way resolution; the conflict flag is set
   * exactly when some file conflicts.
   */
  ghost predicate MergeRecorded(m: Commit, h: Commit, t: Commit, s: Commit, message: string, timestamp: int,
                                blobs: map<Hash, string>, blobId: string -> Hash, conflict: bool) {
    && m.IsMerge() && m.parent == Some(h) && m.parent2 == Some(t)
    && m.message == message && m.timestamp == timestamp
    && Stored(h.tracked, blobs) && Stored(t.tracked, blobs)
    && (forall f :: Get(m.tracked, f) == MergedAt(h.tracked, t.tracked, s.tracked, f, blobs, blobId))
    && (conflict <==> exists f :: ResolveAt(h.tracked, t.tracked, s.tracked, f).Conflict?)
  }

  /**
   * The blob store after a merge commit: the old store `blobs` plus
   * `created`, which holds only conflict files the merge commit `m` tracks,
   * each under its own hash.
   */
  ghost predicate ConflictBlobsAdded(blobs': map<Hash, string>, blobs: map<Hash, string>, created: map<Hash, string>,
                                     m: Commit, h: Commit, t: Commit, s: Commit, blobId: string -> Hash) {
    && blobs' == blobs + created
    && CreatedConsistent(created, blobId)
    && forall x :: x in created ==>
         exists f :: ResolveAt(h.tracked, t.tracked, s.tracked, f).Conflict? && Get(m.tracked, f) == Some(x)
  }

  /**
   * merge: after checkRun's rejections, the split point of the head commit
   * and the target commit decides: none stops the command; one with the
   * target's hash changes nothing; one with the head's hash fast-forwards
   * (FastForward); any other makes a merge commit (MergeCommits).
   */
  method Merge(r: Repository, listing: seq<string>, branchName: string, timestamp: int) returns (o: Outcome)
    requires r.Valid() && Lists(listing, r.workdir)
    modifies r`commits, r`blobs, r`workdir, r.headBranch
    ensures r.Valid()
    ensures !(branchName in r.branches && old(Clean(r)) && branchName != r.headBranch.name) ==>
      && (o == NoSuchBranch || o == UncommittedChanges || o == UntrackedInTheWay || o == MergeWithSelf)
      && r.commits == old(r.commits) && r.blobs == old(r.blobs)
      && r.headBranch.commitHash == old(r.headBranch.commitHash) && r.workdir == old(r.workdir)
    ensures o == NoSuchBranch <==> branchName !in r.branches
    ensures o == UncommittedChanges <==>
      branchName in r.branches && !old(r.staging.area == map[] && r.removing.area == map[] && NoUnstaged(r))
    ensures o == UntrackedInTheWay <==>
      branchName in r.branches && old(r.staging.area == map[] && r.removing.area == map[] && NoUnstaged(r) && !NoUntracked(r))
    ensures o == MergeWithSelf <==> branchName in r.branches && old(Clean(r)) && branchName == r.headBranch.name
    ensures branchName in r.branches && old(Clean(r)) && branchName != r.headBranch.name ==>
      var head := old(r.Head());
      var target := old(r.commits[r.branches[branchName].commitHash]);
      var split := SplitPoint(Some(head), target, r.commitId);
      && (split.None? || r.commitId(split.value) == r.commitId(target) ==>
            && o == (if split.None? then NoSplitPoint else GivenIsAncestor)
            && r.commits == old(r.commits) && r.blobs == old(r.blobs)
            && r.headBranch.commitHash == old(r.headBranch.commitHash) && r.workdir == old(r.workdir))
      && (split.Some? && r.commitId(split.value) != r.commitId(target) && r.commitId(split.value) == r.commitId(head) ==>
            && o == FastForwarded && r.Head() == target
            && r.commits == old(r.commits) && r.blobs == old(r.blobs) && CheckedOut(r))
      && (split.Some? && r.commitId(split.value) != r.commitId(target) && r.commitId(split.value) != r.commitId(head) ==>
            && o.Merged?
            && MergeRecorded(r.Head(), head, target, split.value,
                             "Merged " + branchName + " into " + r.headBranch.name + ".", timestamp,
                             old(r.blobs), r.blobId, o.conflict)
            && r.commits == old(r.commits)[r.headBranch.commitHash := r.Head()]
            && (exists created :: ConflictBlobsAdded(r.blobs, old(r.blobs), created, r.Head(), head, target, split.value,
                                                     r.blobId))
            && CheckedOut(r))
  {
    o := CheckRun(r, listing, branchName);
    if o != Done {
      return;
    }
    var targetBranch := r.GetBranch(branchName);
    var head := r.Head();
    var target := r.commits[targetBranch.GetCommitHash()];
    var split := GetSplitPoint(head, target, r.commitId);
    if split.None? {
      return NoSplitPoint;
    }
    if r.commitId(split.value) == r.commitId(target) {
      return GivenIsAncestor;
    }
    if r.commitId(split.value) == r.commitId(head) {
      FastForward(r, listing, targetBranch.commitHash);
      return FastForwarded;
    }
    var message := "Merged " + targetBranch.name + " into " + r.headBranch.name + ".";
    var conflict, created := MergeCommits(r, listing, target, split.value, message, timestamp);
    o := Merged(conflict);
  }

  /** The fast-forward case of merge: the head branch moves to `to` and its files are checked out. */
  method FastForward(r: Repository, listing: seq<string>, to: Hash)
    requires r.Valid() && Lists(listing, r.workdir) && to in r.commits
    requires r.staging.area == map[] && r.removing.area == map[]
    modifies r`workdir, r.headBranch
    ensures r.Valid() && r.headBranch.commitHash == to && r.Head() == r.commits[to] && CheckedOut(r)
  {
    r.headBranch.SetCommit(to);
    CheckOutHead(r, listing);
  }

  /**
   * The merge-commit case of merge: runMain builds the merge commit of the
   * head and `target` from split point `split`, the conflict blobs it made
   * are stored, the commit is stored, the head branch moves to it and its
   * files are checked out.
   */
  method MergeCommits(r: Repository, listing: seq<string>, target: Commit, split: Commit, message: string,
                      timestamp: int) returns (conflict: bool, ghost created: map<Hash, string>)
    requires r.Valid() && Lists(listing, r.workdir) && Stored(target.tracked, r.blobs)
    requires r.staging.area == map[] && r.removing.area == map[]
    modifies r`commits, r`blobs, r`workdir, r.headBranch
    ensures r.Valid()
    ensures MergeRecorded(r.Head(), old(r.Head()), target, split, message, timestamp, old(r.blobs), r.blobId, conflict)
    ensures r.commits == old(r.commits)[r.headBranch.commitHash := r.Head()]
    ensures ConflictBlobsAdded(r.blobs, old(r.blobs), created, r.Head(), old(r.Head()), target, split, r.blobId)
    ensures CheckedOut(r)
  {
    var head := r.Head();
    assert Stored(head.tracked, r.blobs);
    var merge := NewMerge(head, target, message, timestamp);
    var merge', c, cr := RunMain(head, target, split, merge, r.blobs, r.blobId);
    conflict, created := c, cr;
    StoreMerge(r, merge', cr);
    CheckOutHead(r, listing);
  }

  /**
   * The bookkeeping of a merge commit: the conflict blobs `created` are added
   * to the blob store, `m` to the commit store, and the head branch moves
   * to it.
   */
  method StoreMerge(r: Repository, m: Commit, created: map<Hash, string>)
    requires r.Valid() && CreatedConsistent(created, r.blobId)
    requires forall f :: f in m.tracked ==> m.tracked[f] in r.blobs || m.tracked[f] in created
    modifies r`commits, r`blobs, r.headBranch
    ensures r.Valid()
    ensures r.blobs == old(r.blobs) + created
    ensures r.commits == old(r.commits)[r.commitId(m) := m]
    ensures r.headBranch.commitHash == r.commitId(m) && r.Head() == m
  {
    r.blobs := r.blobs + created;
    r.SaveCommit(m);
    r.headBranch.SetCommit(r.commitId(m));
  }
}
