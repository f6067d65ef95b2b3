/**
 * The merge engine of `gitlet merge`: the split-point search over the commit
 * graph, the map helpers the three-way reconciliation is built from, the
 * reconciliation phases themselves and the conflict-file synthesis.
 */
module MergeCommand {
  import opened Wrappers
  import opened Gitlet

  // ---------------------------------------------------------------------------
  // Map helpers

  /** `r` holds the entries of `a` whose file name `b` also tracks, with `a`'s hashes. */
  ghost predicate IsIntersection(r: Tracked, a: Tracked, b: Tracked) {
    && (forall f {:trigger f in r} :: f in r <==> f in a && f in b)
    && (forall f {:trigger r[f]} :: f in r ==> r[f] == a[f])
  }

  /** `r` holds the entries of `a` whose file name `b` does not track. */
  ghost predicate IsDifference(r: Tracked, a: Tracked, b: Tracked) {
    && (forall f {:trigger f in r} :: f in r <==> f in a && f !in b)
    && (forall f {:trigger r[f]} :: f in r ==> r[f] == a[f])
  }

  /**
   * `r` holds the files of `a` that `b` changed, each mapped to `b`'s hash,
   * or to "" when `b` no longer tracks it.
   */
  ghost predicate IsModification(r: map<string, string>, a: Tracked, b: Tracked) {
    && (forall f {:trigger f in r} :: f in r <==> f in a && Get(b, f) != Some(a[f]))
    && (forall f {:trigger r[f]} :: f in r ==> r[f] == if f in b then b[f] else "")
  }

  /** intersection(a, b). */
  method Intersection(a: Tracked, b: Tracked) returns (r: Tracked)
    ensures IsIntersection(r, a, b)
  {
    r := map[];
    var rest := a.Keys;
    while rest != {}
      invariant rest <= a.Keys
      invariant r.Keys == (a.Keys - rest) * b.Keys
      invariant forall f :: f in r ==> r[f] == a[f]
      decreases rest
    {
      var f :| f in rest;
      if f in b {
        r := r[f := a[f]];
      }
      rest := rest - {f};
    }
  }

  /** aNotInB(a, b). */
  method ANotInB(a: Tracked, b: Tracked) returns (r: Tracked)
    ensures IsDifference(r, a, b)
  {
    r := map[];
    var rest := a.Keys;
    while rest != {}
      invariant rest <= a.Keys
      invariant r.Keys == (a.Keys - rest) - b.Keys
      invariant forall f :: f in r ==> r[f] == a[f]
      decreases rest
    {
      var f :| f in rest;
      if f !in b {
        r := r[f := a[f]];
      }
      rest := rest - {f};
    }
  }

  /** modified(a, b). */
  method Modified(a: Tracked, b: Tracked) returns (r: map<string, string>)
    ensures IsModification(r, a, b)
  {
    r := map[];
    var rest := a.Keys;
    while rest != {}
      invariant rest <= a.Keys
      invariant r.Keys == set f | f in a && f !in rest && Get(b, f) != Some(a[f])
      invariant forall f :: f in r ==> r[f] == if f in b then b[f] else ""
      decreases rest
    {
      var f :| f in rest;
      if f !in b {
        r := r[f := ""];
      } else if b[f] != a[f] {
        r := r[f := b[f]];
      }
      rest := rest - {f};
    }
  }

  /** The hashes an intersection keeps are stored when both sides' hashes are. */
  lemma IntersectionReadable(r: Tracked, a: Tracked, b: Tracked, blobs: map<Hash, string>)
    requires IsIntersection(r, a, b) && Stored(a, blobs) && Stored(b, blobs)
    ensures ExistReadable(r, b, blobs)
  {
  }

  /** The hashes a modification map holds are readable when the changed side's hashes are stored. */
  lemma ModifiedReadable(r: map<string, string>, a: Tracked, b: Tracked, blobs: map<Hash, string>)
    requires IsModification(r, a, b) && Stored(b, blobs)
    ensures ReadableValues(r, blobs)
  {
  }

  /**
   * Whatever two maps satisfy the contracts of Intersection and ANotInB for
   * the same arguments, together they partition `a`.
   */
  lemma IntersectionANotInBPartition(a: Tracked, b: Tracked, both: Tracked, only: Tracked)
    requires IsIntersection(both, a, b) && IsDifference(only, a, b)
    ensures both.Keys !! only.Keys
    ensures both + only == a
  {
    assert (both + only).Keys == a.Keys;
  }

  // ---------------------------------------------------------------------------
  // Split-point search

  /** `x` is `t` itself or reachable from `t` through first and second parents. */
  ghost predicate Ancestor(x: Commit, t: Commit) {
    || x == t
    || (t.parent.Some? && Ancestor(x, t.parent.value))
    || (t.Merge? && t.parent2.Some? && Ancestor(x, t.parent2.value))
  }

  /** `y` is `a` or lies on `a`'s chain of first parents. */
  ghost predicate OnFirstParentChain(y: Commit, a: Commit) {
    y == a || (a.parent.Some? && OnFirstParentChain(y, a.parent.value))
  }

  /** The number of commit nodes in the history below `t`, counted as a tree. */
  ghost function Size(t: Option<Commit>): nat {
    match t
    case None => 0
    case Some(c) => 1 + Size(c.parent) + (if c.Merge? then Size(c.parent2) else 0)
  }

  /**
   * The order in which recursiveSearchTarget visits the history of `t`: each
   * commit, then (for a merge) the history of its second parent, then its first
   * parent. The first visited commit whose hash is `x`, if any.
   */
  ghost function Dfs(t: Option<Commit>, x: Hash, id: Commit -> Hash): Option<Commit>
    decreases Size(t)
  {
    match t
    case None => None
    case Some(c) =>
      if id(c) == x then Some(c)
      else
        var second := if c.Merge? then Dfs(c.parent2, x, id) else None;
        if second.Some? then second else Dfs(c.parent, x, id)
  }

  /**
   * What recursiveIterateCurrentSearchTarget finds for `cur`: for a merge, first
   * what it finds for the second parent, then `cur` itself searched in `b`.
   */
  ghost function Detour(cur: Option<Commit>, b: Commit, id: Commit -> Hash): Option<Commit>
    decreases Size(cur)
  {
    match cur
    case None => None
    case Some(c) =>
      var second := if c.Merge? then Detour(c.parent2, b, id) else None;
      if second.Some? then second else Dfs(Some(b), id(c), id)
  }

  /** What getSplitPoint returns: the first Detour hit along `a`'s first-parent chain. */
  ghost function SplitPoint(a: Option<Commit>, b: Commit, id: Commit -> Hash): Option<Commit>
    decreases Size(a)
  {
    match a
    case None => None
    case Some(c) =>
      var here := Detour(Some(c), b, id);
      if here.Some? then here else SplitPoint(c.parent, b, id)
  }

  /** recursiveSearchTarget: looks for a commit with `current`'s hash in the history of `target`. */
  method SearchTarget(current: Commit, target: Option<Commit>, id: Commit -> Hash) returns (r: Option<Commit>)
    ensures r == Dfs(target, id(current), id)
    decreases Size(target)
  {
    var t := target;
    while t.Some?
      invariant Size(t) <= Size(target)
      invariant Dfs(t, id(current), id) == Dfs(target, id(current), id)
      decreases Size(t)
    {
      var c := t.value;
      if id(c) == id(current) {
        return Some(c);
      }
      if c.IsMerge() {
        var second := SearchTarget(current, c.parent2, id);
        if second.Some? {
          return second;
        }
      }
      t := c.parent;
    }
    return None;
  }

  /** recursiveIterateCurrentSearchTarget: the second-parent detour of `current`, then `current` itself. */
  method RecursiveIterateCurrentSearchTarget(current: Option<Commit>, target: Commit, id: Commit -> Hash)
    returns (r: Option<Commit>)
    ensures r == Detour(current, target, id)
    decreases Size(current)
  {
    if current.None? {
      return None;
    }
    var c := current.value;
    if c.IsMerge() {
      r := RecursiveIterateCurrentSearchTarget(c.parent2, target, id);
      if r.Some? {
        return r;
      }
    }
    r := SearchTarget(c, Some(target), id);
  }

  /** getSplitPoint: walks `a`'s first-parent chain and returns the first hit. */
  method GetSplitPoint(a: Commit, b: Commit, id: Commit -> Hash) returns (r: Option<Commit>)
    ensures r == SplitPoint(Some(a), b, id)
  {
    var cur := Some(a);
    while cur.Some?
      invariant SplitPoint(cur, b, id) == SplitPoint(Some(a), b, id)
      decreases Size(cur)
    {
      var found := RecursiveIterateCurrentSearchTarget(cur, b, id);
      if found.Some? {
        return found;
      }
      cur := cur.value.parent;
    }
    return None;
  }

  /** A commit recursiveSearchTarget returns has the hash searched for and lies in the searched history. */
  lemma {:induction false} DfsSound(t: Option<Commit>, x: Hash, id: Commit -> Hash)
    requires Dfs(t, x, id).Some?
    ensures t.Some? && Ancestor(Dfs(t, x, id).value, t.value) && id(Dfs(t, x, id).value) == x
    decreases Size(t)
  {
    var c := t.value;
    if id(c) != x {
      var second := if c.Merge? then Dfs(c.parent2, x, id) else None;
      if second.Some? {
        DfsSound(c.parent2, x, id);
      } else {
        DfsSound(c.parent, x, id);
      }
    }
  }

  /** recursiveSearchTarget returns null only when no commit of the searched history has that hash. */
  lemma {:induction false} DfsComplete(t: Option<Commit>, x: Hash, id: Commit -> Hash, r: Commit)
    requires t.Some? && Ancestor(r, t.value)
    requires Dfs(t, x, id).None?
    ensures id(r) != x
    decreases Size(t)
  {
    var c := t.value;
    if r != c {
      if c.parent.Some? && Ancestor(r, c.parent.value) {
        DfsComplete(c.parent, x, id, r);
      } else {
        DfsComplete(c.parent2, x, id, r);
      }
    }
  }

  /** Whatever the detour of `cur` finds is in `b`'s history and shares its hash with a commit of `cur`'s history. */
  lemma {:induction false} DetourSound(cur: Option<Commit>, b: Commit, id: Commit -> Hash)
    requires Detour(cur, b, id).Some?
    ensures cur.Some? && Ancestor(Detour(cur, b, id).value, b)
    ensures cur.Some? && exists y :: Ancestor(y, cur.value) && id(y) == id(Detour(cur, b, id).value)
    decreases Size(cur)
  {
    var c := cur.value;
    var s := Detour(cur, b, id).value;
    var second := if c.Merge? then Detour(c.parent2, b, id) else None;
    if second.Some? {
      DetourSound(c.parent2, b, id);
      var y :| Ancestor(y, c.parent2.value) && id(y) == id(s);
      assert Ancestor(y, c);
    } else {
      DfsSound(Some(b), id(c), id);
      assert Ancestor(c, c);
    }
  }

  /**
   * A split point getSplitPoint returns is in the target's history and has the
   * hash of some commit in the head's history: a common ancestor up to hash.
   */
  lemma {:induction false} SplitPointSound(a: Option<Commit>, b: Commit, id: Commit -> Hash)
    requires SplitPoint(a, b, id).Some?
    ensures a.Some? && Ancestor(SplitPoint(a, b, id).value, b)
    ensures a.Some? && exists y :: Ancestor(y, a.value) && id(y) == id(SplitPoint(a, b, id).value)
    decreases Size(a)
  {
    var c := a.value;
    var s := SplitPoint(a, b, id).value;
    if Detour(Some(c), b, id).Some? {
      DetourSound(Some(c), b, id);
    } else {
      SplitPointSound(c.parent, b, id);
      var y :| Ancestor(y, c.parent.value) && id(y) == id(s);
      assert Ancestor(y, c);
    }
  }

  /**
   * getSplitPoint returns null only when no commit on the head's first-parent
   * chain has the hash of any commit in the target's history.
   */
  lemma {:induction false} SplitPointNone(a: Commit, b: Commit, id: Commit -> Hash, y: Commit, r: Commit)
    requires SplitPoint(Some(a), b, id).None?
    requires OnFirstParentChain(y, a) && Ancestor(r, b)
    ensures id(r) != id(y)
    decreases Size(Some(a))
  {
    if y == a {
      assert Dfs(Some(b), id(a), id).None?;
      DfsComplete(Some(b), id(a), id, r);
    } else {
      SplitPointNone(a.parent.value, b, id, y, r);
    }
  }

  /**
   * The fast-forward case: when the head commit is not a merge commit and lies
   * in the target's history, the split point has the head's hash.
   */
  lemma FastForwardSplit(h: Commit, t: Commit, id: Commit -> Hash)
    requires !h.IsMerge() && Ancestor(h, t)
    ensures SplitPoint(Some(h), t, id).Some?
    ensures id(SplitPoint(Some(h), t, id).value) == id(h)
  {
    if Dfs(Some(t), id(h), id).None? {
      DfsComplete(Some(t), id(h), id, h);
    }
    DfsSound(Some(t), id(h), id);
  }

  /** Reachability through first and second parents is transitive. */
  lemma {:induction false} AncestorTransitive(x: Commit, y: Commit, z: Commit)
    requires Ancestor(x, y) && Ancestor(y, z)
    ensures Ancestor(x, z)
    decreases Size(Some(z))
  {
    if y != z {
      if z.parent.Some? && Ancestor(y, z.parent.value) {
        AncestorTransitive(x, y, z.parent.value);
      } else {
        AncestorTransitive(x, y, z.parent2.value);
      }
    }
  }

  /**
   * The first-match order of the split-point search: when the head is a merge
   * commit, its second parent is tried before the head itself. So when the
   * target descends from a merge-commit head whose second parent is a
   * regular commit, the split point has that second parent's hash, not
   * (unless the hashes coincide) the head's, and no fast-forward happens.
   */
  lemma MergeHeadSplitsAtSecondParent(h: Commit, t: Commit, id: Commit -> Hash)
    requires h.IsMerge() && h.parent2.Some? && !h.parent2.value.IsMerge() && Ancestor(h, t)
    ensures SplitPoint(Some(h), t, id).Some?
    ensures id(SplitPoint(Some(h), t, id).value) == id(h.parent2.value)
  {
    var p := h.parent2.value;
    assert Ancestor(p, p);
    assert Ancestor(p, h);
    AncestorTransitive(p, h, t);
    if Dfs(Some(t), id(p), id).None? {
      DfsComplete(Some(t), id(p), id, p);
    }
    DfsSound(Some(t), id(p), id);
    assert Detour(Some(p), t, id) == Dfs(Some(t), id(p), id);
    assert Detour(Some(h), t, id) == Detour(Some(p), t, id);
  }

  /** A hash derived from a commit's message, for writing out concrete histories. */
  function MessageHash(c: Commit): Hash {
    var padded := c.message + "0000000000000000000000000000000000000000";
    assert |padded| >= 40;
    padded[..40]
  }

  /**
   * A history where that happens: a branch made from a merge-commit head and
   * then advanced has the head's second parent as split point, with a hash
   * different from both head and target, so merging it back runs a
   * three-way merge instead of a fast-forward.
   */
  lemma MergeHeadNoFastForward()
    ensures
      var root := Regular("root", 0, None, map[]);
      var other := Regular("other", 1, Some(root), map[]);
      var main := Regular("main", 2, Some(root), map[]);
      var head := Merge("head", 3, Some(main), Some(other), map[]);
      var feature := Regular("feature", 4, Some(head), map[]);
      && Ancestor(head, feature)
      && SplitPoint(Some(head), feature, MessageHash) == Some(other)
      && MessageHash(other) != MessageHash(head)
      && MessageHash(other) != MessageHash(feature)
  {
    var root := Regular("root", 0, None, map[]);
    var other := Regular("other", 1, Some(root), map[]);
    var main := Regular("main", 2, Some(root), map[]);
    var head := Merge("head", 3, Some(main), Some(other), map[]);
    var feature := Regular("feature", 4, Some(head), map[]);
    assert MessageHash(other)[0] == 'o' && MessageHash(head)[0] == 'h' && MessageHash(feature)[0] == 'f';
    assert Dfs(Some(other), MessageHash(other), MessageHash) == Some(other);
    assert Dfs(Some(head), MessageHash(other), MessageHash) == Some(other);
    assert Dfs(Some(feature), MessageHash(other), MessageHash) == Some(other);
    assert Detour(Some(other), feature, MessageHash) == Some(other);
    assert Detour(Some(head), feature, MessageHash) == Some(other);
  }

  // ---------------------------------------------------------------------------
  // Conflict files

  /** mergeFilesReal: the conflict file, head side first, each side followed by its marker line. */
  function MergeFilesReal(headContent: string, targetContent: string): string {
    "<<<<<<< HEAD\n" + headContent + "=======\n" + targetContent + ">>>>>>>\n"
  }

  /** The layout of a conflict file: both sides, in order, between the three marker lines, and nothing else. */
  lemma MergeFilesRealLayout(headContent: string, targetContent: string)
    ensures var r := MergeFilesReal(headContent, targetContent);
      && |r| == |headContent| + |targetContent| + 29
      && r[..13] == "<<<<<<< HEAD\n"
      && r[13..13 + |headContent|] == headContent
      && r[13 + |headContent|..21 + |headContent|] == "=======\n"
      && r[21 + |headContent|..|r| - 8] == targetContent
      && r[|r| - 8..] == ">>>>>>>\n"
  {
  }

  /** A hash a merge may read: null, "", or the hash of a stored blob. */
  predicate Readable(blobs: map<Hash, string>, hash: Option<string>) {
    hash.Some? && hash.value != "" ==> hash.value in blobs
  }

  /** The contents read for a hash: "" for a null or "" hash, else the stored blob. */
  function Content(blobs: map<Hash, string>, hash: Option<string>): string
    requires Readable(blobs, hash)
  {
    if hash.None? || hash.value == "" then "" else blobs[hash.value]
  }

  /** mergeFiles: the conflict file for two hashes, a null or "" side counting as empty. */
  function MergeFiles(blobs: map<Hash, string>, hash1: Option<string>, hash2: Option<string>): (r: string)
    requires Readable(blobs, hash1) && Readable(blobs, hash2)
  {
    MergeFilesReal(Content(blobs, hash1), Content(blobs, hash2))
  }

  /**
   * How mergeFiles reads its two hashes: a null or "" hash as an empty side,
   * any other as the contents of its stored blob.
   */
  lemma MergeFilesSides(blobs: map<Hash, string>, hash1: Option<string>, hash2: Option<string>)
    requires Readable(blobs, hash1) && Readable(blobs, hash2)
    ensures hash1.None? || hash1.value == "" ==> MergeFiles(blobs, hash1, hash2) == MergeFilesReal("", Content(blobs, hash2))
    ensures hash2.None? || hash2.value == "" ==> MergeFiles(blobs, hash1, hash2) == MergeFilesReal(Content(blobs, hash1), "")
    ensures hash1.Some? && hash1.value != "" && hash2.Some? && hash2.value != "" ==>
      MergeFiles(blobs, hash1, hash2) == MergeFilesReal(blobs[hash1.value], blobs[hash2.value])
  {
  }

  // ---------------------------------------------------------------------------
  // Three-way reconciliation

  /** What a merge does with one file. A conflict records both sides, None for a deleted side. */
  datatype Resolution = Take(hash: Hash) | Untrack | Conflict(headSide: Option<Hash>, targetSide: Option<Hash>)

  /** Keeps a side as it is: its hash, or nothing when that side does not have the file. */
  function Keep(side: Option<Hash>): Resolution {
    if side.Some? then Take(side.value) else Untrack
  }

  /**
   * The three-way rule for one file, given its hash in head, target and split
   * point (None where the file is not tracked): when both sides agree, or only
   * one side changed it relative to the split point, the merge keeps the only
   * change; when both changed it differently (deleting counts as a change),
   * it is a conflict.
   */
  function Resolve(h: Option<Hash>, t: Option<Hash>, s: Option<Hash>): (r: Resolution)
    ensures r.Conflict? <==> h != t && h != s && t != s
    ensures r.Conflict? ==> r.headSide == h && r.targetSide == t
    ensures h == s ==> r == Keep(t)
    ensures t == s ==> r == Keep(h)
    ensures !r.Conflict? ==> r == Keep(h) || r == Keep(t)
  {
    if h == t then Keep(h)
    else if h == s then Keep(t)
    else if t == s then Keep(h)
    else Conflict(h, t)
  }

  /** What the merge commit tracks for a file resolved as `r`: a conflict tracks the synthesised file. */
  function Effect(r: Resolution, blobs: map<Hash, string>, blobId: string -> Hash): Option<Hash>
    requires r.Conflict? ==> Readable(blobs, r.headSide) && Readable(blobs, r.targetSide)
  {
    match r
    case Take(x) => Some(x)
    case Untrack => None
    case Conflict(a, b) => Some(blobId(MergeFiles(blobs, a, b)))
  }

  /** The resolution of file `f` when merging target map `t` into head map `h` from split map `s`. */
  function ResolveAt(h: Tracked, t: Tracked, s: Tracked, f: string): Resolution {
    Resolve(Get(h, f), Get(t, f), Get(s, f))
  }

  /** What the merge commit tracks for `f`. */
  function MergedAt(h: Tracked, t: Tracked, s: Tracked, f: string, blobs: map<Hash, string>, blobId: string -> Hash): Option<Hash>
    requires Stored(h, blobs) && Stored(t, blobs)
  {
    Effect(ResolveAt(h, t, s, f), blobs, blobId)
  }

  /**
   * What a reconciliation phase has produced so far: the merge commit's
   * tracked files, the conflict flag, and the conflict blobs it saved.
   */
  datatype PhaseState = PhaseState(tracked: Tracked, conflict: bool, created: map<Hash, string>)

  /** Records a synthesised conflict file for `f`: saved, tracked and flagged. */
  function WithConflict(st: PhaseState, f: string, contents: string, blobId: string -> Hash): PhaseState {
    PhaseState(st.tracked[f := blobId(contents)], true, st.created[blobId(contents) := contents])
  }

  /** Every blob a phase saved is stored under its own hash. */
  predicate CreatedConsistent(created: map<Hash, string>, blobId: string -> Hash) {
    forall x :: x in created ==> blobId(created[x]) == x
  }

  /** existRun's test for a file both sides track: both changed it, each differently from the split point. */
  predicate ExistConflicts(h: Hash, t: Hash, s: Option<Hash>) {
    h != t && Some(t) != s && Some(h) != s
  }

  /** The hash existRun tracks for a file both sides track. */
  function ExistHash(h: Hash, t: Hash, s: Option<Hash>, blobs: map<Hash, string>, blobId: string -> Hash): Hash
    requires h in blobs && t in blobs
  {
    if ExistConflicts(h, t, s) then blobId(MergeFiles(blobs, Some(h), Some(t)))
    else if Some(h) == s then t
    else h
  }

  /** The files existRun may visit, with every hash it reads stored. */
  predicate ExistDomain(order: seq<string>, e: Tracked, target: Tracked, blobs: map<Hash, string>) {
    (forall g :: g in order ==> g in e && g in target) && Stored(e, blobs) && Stored(target, blobs)
  }

  /** One iteration of existRun, on file `f`. */
  function ExistStep(st: PhaseState, f: string, e: Tracked, target: Tracked, split: Tracked,
                     blobs: map<Hash, string>, blobId: string -> Hash): PhaseState
    requires f in e && f in target && Stored(e, blobs) && Stored(target, blobs)
  {
    var h, t, s := e[f], target[f], Get(split, f);
    if ExistConflicts(h, t, s) then WithConflict(st, f, MergeFiles(blobs, Some(h), Some(t)), blobId)
    else st.(tracked := st.tracked[f := if Some(h) == s then t else h])
  }

  /** existRun's state after visiting the files of `order`, in that order. */
  function ExistFold(order: seq<string>, e: Tracked, target: Tracked, split: Tracked, init: PhaseState,
                     blobs: map<Hash, string>, blobId: string -> Hash): PhaseState
    requires ExistDomain(order, e, target, blobs)
    decreases |order|
  {
    if order == [] then init
    else
      var last := order[|order| - 1];
      ExistStep(ExistFold(order[..|order| - 1], e, target, split, init, blobs, blobId), last, e, target, split, blobs, blobId)
  }

  /** After existRun, a visited file tracks existRun's hash; every other file is as before. */
  lemma {:induction false} ExistFoldTracked(order: seq<string>, e: Tracked, target: Tracked, split: Tracked,
                                            init: PhaseState, blobs: map<Hash, string>, blobId: string -> Hash, g: string)
    requires ExistDomain(order, e, target, blobs)
    ensures Get(ExistFold(order, e, target, split, init, blobs, blobId).tracked, g) ==
            (if g in order then Some(ExistHash(e[g], target[g], Get(split, g), blobs, blobId)) else Get(init.tracked, g))
    decreases |order|
  {
    if order != [] {
      var prefix := order[..|order| - 1];
      assert order == prefix + [order[|order| - 1]];
      ExistFoldTracked(prefix, e, target, split, init, blobs, blobId, g);
    }
  }

  /** existRun reports a conflict exactly when some visited file is in conflict. */
  lemma {:induction false} ExistFoldConflict(order: seq<string>, e: Tracked, target: Tracked, split: Tracked,
                                             init: PhaseState, blobs: map<Hash, string>, blobId: string -> Hash)
    requires ExistDomain(order, e, target, blobs)
    ensures ExistFold(order, e, target, split, init, blobs, blobId).conflict <==>
            (init.conflict || exists g :: g in order && ExistConflicts(e[g], target[g], Get(split, g)))
    decreases |order|
  {
    if order != [] {
      var prefix := order[..|order| - 1];
      assert order == prefix + [order[|order| - 1]];
      ExistFoldConflict(prefix, e, target, split, init, blobs, blobId);
    }
  }

  /** existRun saves every conflict file it tracks, each under its own hash. */
  lemma {:induction false} ExistFoldCreated(order: seq<string>, e: Tracked, target: Tracked, split: Tracked,
                                            init: PhaseState, blobs: map<Hash, string>, blobId: string -> Hash)
    requires ExistDomain(order, e, target, blobs)
    requires CreatedConsistent(init.created, blobId)
    ensures var r := ExistFold(order, e, target, split, init, blobs, blobId);
      && CreatedConsistent(r.created, blobId)
      && init.created.Keys <= r.created.Keys
      && (forall g :: g in order && ExistConflicts(e[g], target[g], Get(split, g)) ==>
           ExistHash(e[g], target[g], Get(split, g), blobs, blobId) in r.created)
      && (forall x :: x in r.created ==>
           || x in init.created
           || exists g :: g in order && ExistConflicts(e[g], target[g], Get(split, g))
                          && ExistHash(e[g], target[g], Get(split, g), blobs, blobId) == x)
    decreases |order|
  {
    if order != [] {
      var prefix := order[..|order| - 1];
      assert order == prefix + [order[|order| - 1]];
      ExistFoldCreated(prefix, e, target, split, init, blobs, blobId);
    }
  }

  /** The files existRun reads: each one target tracks too, and every hash stored. */
  predicate ExistReadable(e: Tracked, target: Tracked, blobs: map<Hash, string>) {
    e.Keys <= target.Keys && Stored(e, blobs) && Stored(target, blobs)
  }

  /** existRun's effect on the tracked files: each file of `e` tracks ExistHash, every other is as in `m`. */
  ghost predicate ExistTracked(m': Tracked, e: Tracked, target: Tracked, split: Tracked, m: Tracked,
                         blobs: map<Hash, string>, blobId: string -> Hash)
    requires ExistReadable(e, target, blobs)
  {
    forall f {:trigger Get(m', f)} ::
      Get(m', f) ==
        (if f in e
         then Some(ExistHash(e[f], target[f], Get(split, f), blobs, blobId))
         else Get(m, f))
  }

  /** existRun's conflict flag: raised when it was, or when some file of `e` is in conflict. */
  ghost predicate ExistFlagged(c': bool, e: Tracked, target: Tracked, split: Tracked, c: bool)
    requires e.Keys <= target.Keys
  {
    c' <==> (c || exists f :: f in e && ExistConflicts(e[f], target[f], Get(split, f)))
  }

  /** Every conflict file existRun tracks is among the blobs `created`. */
  ghost predicate ExistSaved(created: map<Hash, string>, e: Tracked, target: Tracked, split: Tracked,
                       blobs: map<Hash, string>, blobId: string -> Hash)
    requires ExistReadable(e, target, blobs)
  {
    forall f ::
      f in e && ExistConflicts(e[f], target[f], Get(split, f)) ==>
        ExistHash(e[f], target[f], Get(split, f), blobs, blobId) in created
  }

  /** Every blob in `created` is a conflict file existRun tracks. */
  ghost predicate ExistSavedOnly(created: map<Hash, string>, e: Tracked, target: Tracked, split: Tracked,
                           blobs: map<Hash, string>, blobId: string -> Hash)
    requires ExistReadable(e, target, blobs)
  {
    forall x :: x in created ==>
      exists f :: f in e && ExistConflicts(e[f], target[f], Get(split, f))
                  && ExistHash(e[f], target[f], Get(split, f), blobs, blobId) == x
  }

  /** existRun: files tracked by both head (with the hashes given) and target. */
  method ExistRun(existsInHeadAndTarget: Tracked, target: Commit, split: Commit, merge: Tracked,
                  blobs: map<Hash, string>, blobId: string -> Hash, conflict: bool)
    returns (merge': Tracked, conflict': bool, created: map<Hash, string>)
    requires ExistReadable(existsInHeadAndTarget, target.tracked, blobs)
    ensures ExistTracked(merge', existsInHeadAndTarget, target.tracked, split.tracked, merge, blobs, blobId)
    ensures ExistFlagged(conflict', existsInHeadAndTarget, target.tracked, split.tracked, conflict)
    ensures CreatedConsistent(created, blobId)
    ensures ExistSaved(created, existsInHeadAndTarget, target.tracked, split.tracked, blobs, blobId)
    ensures ExistSavedOnly(created, existsInHeadAndTarget, target.tracked, split.tracked, blobs, blobId)
  {
    ghost var init := PhaseState(merge, conflict, map[]);
    ghost var order: seq<string> := [];
    merge', conflict', created := merge, conflict, map[];
    var rest := existsInHeadAndTarget.Keys;
    while rest != {}
      invariant rest <= existsInHeadAndTarget.Keys
      invariant forall g :: g in order <==> g in existsInHeadAndTarget && g !in rest
      invariant ExistDomain(order, existsInHeadAndTarget, target.tracked, blobs)
      invariant PhaseState(merge', conflict', created) ==
                ExistFold(order, existsInHeadAndTarget, target.tracked, split.tracked, init, blobs, blobId)
      decreases rest
    {
      var f :| f in rest;
      var h := existsInHeadAndTarget[f];
      var t := target.tracked[f];
      var s := split.GetHashFromFileName(f);
      ghost var next := ExistStep(PhaseState(merge', conflict', created), f, existsInHeadAndTarget,
                                  target.tracked, split.tracked, blobs, blobId);
      if ExistConflicts(h, t, s) {
        conflict' := true;
        var contents := MergeFiles(blobs, Some(h), Some(t));
        created := created[blobId(contents) := contents];
        merge' := merge'[f := blobId(contents)];
      } else {
        var hashOfFile := h;
        if Some(h) == s {
          hashOfFile := t;
        }
        merge' := merge'[f := hashOfFile];
      }
      assert PhaseState(merge', conflict', created) == next;
      assert (order + [f])[..|order|] == order;
      order := order + [f];
      rest := rest - {f};
    }
    forall g
      ensures Get(merge', g) ==
        (if g in existsInHeadAndTarget
         then Some(ExistHash(existsInHeadAndTarget[g], target.tracked[g], Get(split.tracked, g), blobs, blobId))
         else Get(merge, g))
    {
      ExistFoldTracked(order, existsInHeadAndTarget, target.tracked, split.tracked, init, blobs, blobId, g);
    }
    ExistFoldConflict(order, existsInHeadAndTarget, target.tracked, split.tracked, init, blobs, blobId);
    ExistFoldCreated(order, existsInHeadAndTarget, target.tracked, split.tracked, init, blobs, blobId);
  }

  /** `m'` is `m` with the entries of `candidates` whose name `guard` tracks laid over it. */
  ghost predicate TrackedWhere(m': Tracked, candidates: Tracked, guard: Tracked, m: Tracked) {
    forall f {:trigger Get(m', f)} ::
      Get(m', f) == if f in candidates && f in guard then Some(candidates[f]) else Get(m, f)
  }

  /** `m'` is `m` with every entry of `entries` laid over it. */
  ghost predicate TrackedAll(m': Tracked, entries: Tracked, m: Tracked) {
    forall f {:trigger Get(m', f)} :: Get(m', f) == if f in entries then Some(entries[f]) else Get(m, f)
  }

  /**
   * inTargetNoHeadRun: tracks the entries of `candidates` whose name `guard`
   * tracks. (runMain runs the same loop inline over the head-only files.)
   */
  method InTargetNoHeadRun(candidates: Tracked, guard: Tracked, merge: Tracked) returns (merge': Tracked)
    ensures TrackedWhere(merge', candidates, guard, merge)
  {
    merge' := merge;
    var rest := candidates.Keys;
    while rest != {}
      invariant rest <= candidates.Keys
      invariant forall f ::
        Get(merge', f) ==
          if f in candidates && f !in rest && f in guard then Some(candidates[f]) else Get(merge, f)
      decreases rest
    {
      var f :| f in rest;
      if f in guard {
        merge' := merge'[f := candidates[f]];
      }
      rest := rest - {f};
    }
  }

  /** The plain loops of runMain: track every entry of `entries`. */
  method TrackAll(entries: Tracked, merge: Tracked) returns (merge': Tracked)
    ensures TrackedAll(merge', entries, merge)
  {
    merge' := merge;
    var rest := entries.Keys;
    while rest != {}
      invariant rest <= entries.Keys
      invariant forall f ::
        Get(merge', f) ==
          if f in entries && f !in rest then Some(entries[f]) else Get(merge, f)
      decreases rest
    {
      var f :| f in rest;
      merge' := merge'[f := entries[f]];
      rest := rest - {f};
    }
  }

  /**
   * The test headModifiedRun and targetModifiedRun apply to a file one side
   * deleted since the split point: the other side still tracks it, changed.
   */
  predicate DeletedConflict(f: string, other: Tracked, split: Tracked) {
    f in split && f in other && split[f] != other[f]
  }

  /** The hashes `modified` maps to that a merge may read. */
  predicate ReadableValues(modified: map<string, string>, blobs: map<Hash, string>) {
    forall f :: f in modified ==> Readable(blobs, Some(modified[f]))
  }

  /**
   * The conflict file for `f` when one side deleted it: the deleted side reads
   * as empty; `headSideDeleted` says which side goes first in the file.
   */
  function DeletedContents(f: string, deleted: map<string, string>, otherModified: map<string, string>,
                           headSideDeleted: bool, blobs: map<Hash, string>): string
    requires f in deleted && ReadableValues(deleted, blobs) && ReadableValues(otherModified, blobs)
  {
    if headSideDeleted then MergeFiles(blobs, Some(deleted[f]), Get(otherModified, f))
    else MergeFiles(blobs, Get(otherModified, f), Some(deleted[f]))
  }

  /** What a deleted-file phase tracks for a file one side deleted: a conflict file or nothing. */
  function DeletedHash(f: string, deleted: map<string, string>, otherModified: map<string, string>,
                       other: Tracked, split: Tracked, headSideDeleted: bool,
                       blobs: map<Hash, string>, blobId: string -> Hash): Option<Hash>
    requires f in deleted && ReadableValues(deleted, blobs) && ReadableValues(otherModified, blobs)
  {
    if DeletedConflict(f, other, split)
    then Some(blobId(DeletedContents(f, deleted, otherModified, headSideDeleted, blobs)))
    else None
  }

  /** One iteration of headModifiedRun / targetModifiedRun, on file `f` of `deleted`. */
  function DeletedStep(st: PhaseState, f: string, deleted: map<string, string>, otherModified: map<string, string>,
                       other: Tracked, split: Tracked, headSideDeleted: bool,
                       blobs: map<Hash, string>, blobId: string -> Hash): PhaseState
    requires f in deleted && ReadableValues(deleted, blobs) && ReadableValues(otherModified, blobs)
  {
    if deleted[f] != "" then st
    else if DeletedConflict(f, other, split)
    then WithConflict(st, f, DeletedContents(f, deleted, otherModified, headSideDeleted, blobs), blobId)
    else st.(tracked := st.tracked - {f})
  }

  /** The state of a deleted-file phase after visiting the files of `order`, in that order. */
  function DeletedFold(order: seq<string>, deleted: map<string, string>, otherModified: map<string, string>,
                       other: Tracked, split: Tracked, headSideDeleted: bool, init: PhaseState,
                       blobs: map<Hash, string>, blobId: string -> Hash): PhaseState
    requires forall g :: g in order ==> g in deleted
    requires ReadableValues(deleted, blobs) && ReadableValues(otherModified, blobs)
    decreases |order|
  {
    if order == [] then init
    else
      DeletedStep(DeletedFold(order[..|order| - 1], deleted, otherModified, other, split, headSideDeleted, init, blobs, blobId),
                  order[|order| - 1], deleted, otherModified, other, split, headSideDeleted, blobs, blobId)
  }

  /** After a deleted-file phase, a visited deleted file tracks DeletedHash; every other file is as before. */
  lemma {:induction false} DeletedFoldTracked(order: seq<string>, deleted: map<string, string>,
                                              otherModified: map<string, string>, other: Tracked, split: Tracked,
                                              headSideDeleted: bool, init: PhaseState,
                                              blobs: map<Hash, string>, blobId: string -> Hash, g: string)
    requires forall x :: x in order ==> x in deleted
    requires ReadableValues(deleted, blobs) && ReadableValues(otherModified, blobs)
    ensures Get(DeletedFold(order, deleted, otherModified, other, split, headSideDeleted, init, blobs, blobId).tracked, g) ==
            (if g in order && deleted[g] == ""
             then DeletedHash(g, deleted, otherModified, other, split, headSideDeleted, blobs, blobId)
             else Get(init.tracked, g))
    decreases |order|
  {
    if order != [] {
      var prefix := order[..|order| - 1];
      assert order == prefix + [order[|order| - 1]];
      DeletedFoldTracked(prefix, deleted, otherModified, other, split, headSideDeleted, init, blobs, blobId, g);
    }
  }

  /** A deleted-file phase reports a conflict exactly when some visited deleted file is in conflict. */
  lemma {:induction false} DeletedFoldConflict(order: seq<string>, deleted: map<string, string>,
                                               otherModified: map<string, string>, other: Tracked, split: Tracked,
                                               headSideDeleted: bool, init: PhaseState,
                                               blobs: map<Hash, string>, blobId: string -> Hash)
    requires forall x :: x in order ==> x in deleted
    requires ReadableValues(deleted, blobs) && ReadableValues(otherModified, blobs)
    ensures DeletedFold(order, deleted, otherModified, other, split, headSideDeleted, init, blobs, blobId).conflict <==>
            (init.conflict || exists g :: g in order && deleted[g] == "" && DeletedConflict(g, other, split))
    decreases |order|
  {
    if order != [] {
      var prefix := order[..|order| - 1];
      assert order == prefix + [order[|order| - 1]];
      DeletedFoldConflict(prefix, deleted, otherModified, other, split, headSideDeleted, init, blobs, blobId);
    }
  }

  /** A deleted-file phase saves every conflict file it tracks, each under its own hash. */
  lemma {:induction false} DeletedFoldCreated(order: seq<string>, deleted: map<string, string>,
                                              otherModified: map<string, string>, other: Tracked, split: Tracked,
                                              headSideDeleted: bool, init: PhaseState,
                                              blobs: map<Hash, string>, blobId: string -> Hash)
    requires forall x :: x in order ==> x in deleted
    requires ReadableValues(deleted, blobs) && ReadableValues(otherModified, blobs)
    requires CreatedConsistent(init.created, blobId)
    ensures var r := DeletedFold(order, deleted, otherModified, other, split, headSideDeleted, init, blobs, blobId);
      && CreatedConsistent(r.created, blobId)
      && init.created.Keys <= r.created.Keys
      && (forall g :: g in order && deleted[g] == "" && DeletedConflict(g, other, split) ==>
           DeletedHash(g, deleted, otherModified, other, split, headSideDeleted, blobs, blobId).value in r.created)
      && (forall x :: x in r.created ==>
           || x in init.created
           || exists g :: g in order && deleted[g] == "" && DeletedConflict(g, other, split)
                          && DeletedHash(g, deleted, otherModified, other, split, headSideDeleted, blobs, blobId) == Some(x))
    decreases |order|
  {
    if order != [] {
      var prefix := order[..|order| - 1];
      assert order == prefix + [order[|order| - 1]];
      DeletedFoldCreated(prefix, deleted, otherModified, other, split, headSideDeleted, init, blobs, blobId);
    }
  }

  /**
   * A deleted-file phase's effect on the tracked files: each file of
   * `deleted` mapped to "" tracks DeletedHash (untracked without a conflict),
   * every other is as in `m`.
   */
  ghost predicate DeletedTracked(m': Tracked, deleted: map<string, string>, otherModified: map<string, string>,
                           other: Tracked, split: Tracked, headSideDeleted: bool, m: Tracked,
                           blobs: map<Hash, string>, blobId: string -> Hash)
    requires ReadableValues(deleted, blobs) && ReadableValues(otherModified, blobs)
  {
    forall f {:trigger Get(m', f)} ::
      Get(m', f) ==
        (if f in deleted && deleted[f] == ""
         then DeletedHash(f, deleted, otherModified, other, split, headSideDeleted, blobs, blobId)
         else Get(m, f))
  }

  /** A deleted-file phase's conflict flag: raised when it was, or when some deleted file is in conflict. */
  ghost predicate DeletedFlagged(c': bool, deleted: map<string, string>, other: Tracked, split: Tracked, c: bool) {
    c' <==> (c || exists f :: f in deleted && deleted[f] == "" && DeletedConflict(f, other, split))
  }

  /** Every conflict file a deleted-file phase tracks is among the blobs `created`. */
  ghost predicate DeletedSaved(created: map<Hash, string>, deleted: map<string, string>, otherModified: map<string, string>,
                         other: Tracked, split: Tracked, headSideDeleted: bool,
                         blobs: map<Hash, string>, blobId: string -> Hash)
    requires ReadableValues(deleted, blobs) && ReadableValues(otherModified, blobs)
  {
    forall f ::
      f in deleted && deleted[f] == "" && DeletedConflict(f, other, split) ==>
        DeletedHash(f, deleted, otherModified, other, split, headSideDeleted, blobs, blobId).value in created
  }

  /** Every blob in `created` is a conflict file a deleted-file phase tracks. */
  ghost predicate DeletedSavedOnly(created: map<Hash, string>, deleted: map<string, string>, otherModified: map<string, string>,
                             other: Tracked, split: Tracked, headSideDeleted: bool,
                             blobs: map<Hash, string>, blobId: string -> Hash)
    requires ReadableValues(deleted, blobs) && ReadableValues(otherModified, blobs)
  {
    forall x :: x in created ==>
      exists f :: f in deleted && deleted[f] == "" && DeletedConflict(f, other, split)
                  && DeletedHash(f, deleted, otherModified, other, split, headSideDeleted, blobs, blobId) == Some(x)
  }

  /**
   * headModifiedRun: for every file the head deleted since the split point
   * (headModified maps it to ""), a conflict file with an empty head side when
   * the target changed it, else the file is untracked.
   */
  method HeadModifiedRun(headModified: map<string, string>, targetModified: map<string, string>,
                         target: Commit, split: Commit, merge: Tracked,
                         blobs: map<Hash, string>, blobId: string -> Hash, conflict: bool)
    returns (merge': Tracked, conflict': bool, created: map<Hash, string>)
    requires ReadableValues(headModified, blobs) && ReadableValues(targetModified, blobs)
    ensures DeletedTracked(merge', headModified, targetModified, target.tracked, split.tracked, true, merge, blobs, blobId)
    ensures DeletedFlagged(conflict', headModified, target.tracked, split.tracked, conflict)
    ensures CreatedConsistent(created, blobId)
    ensures DeletedSaved(created, headModified, targetModified, target.tracked, split.tracked, true, blobs, blobId)
    ensures DeletedSavedOnly(created, headModified, targetModified, target.tracked, split.tracked, true, blobs, blobId)
  {
    ghost var init := PhaseState(merge, conflict, map[]);
    ghost var order: seq<string> := [];
    merge', conflict', created := merge, conflict, map[];
    var rest := headModified.Keys;
    while rest != {}
      invariant rest <= headModified.Keys
      invariant forall g :: g in order <==> g in headModified && g !in rest
      invariant PhaseState(merge', conflict', created) ==
                DeletedFold(order, headModified, targetModified, target.tracked, split.tracked, true, init, blobs, blobId)
      decreases rest
    {
      var f :| f in rest;
      ghost var next := DeletedStep(PhaseState(merge', conflict', created), f, headModified, targetModified,
                                    target.tracked, split.tracked, true, blobs, blobId);
      if headModified[f] == "" {
        if DeletedConflict(f, target.tracked, split.tracked) {
          conflict' := true;
          var contents := MergeFiles(blobs, Some(headModified[f]), Get(targetModified, f));
          created := created[blobId(contents) := contents];
          merge' := merge'[f := blobId(contents)];
        } else {
          merge' := merge' - {f};
        }
      }
      assert PhaseState(merge', conflict', created) == next;
      assert (order + [f])[..|order|] == order;
      order := order + [f];
      rest := rest - {f};
    }
    forall g
      ensures Get(merge', g) ==
        (if g in headModified && headModified[g] == ""
         then DeletedHash(g, headModified, targetModified, target.tracked, split.tracked, true, blobs, blobId)
         else Get(merge, g))
    {
      DeletedFoldTracked(order, headModified, targetModified, target.tracked, split.tracked, true, init, blobs, blobId, g);
    }
    DeletedFoldConflict(order, headModified, targetModified, target.tracked, split.tracked, true, init, blobs, blobId);
    DeletedFoldCreated(order, headModified, targetModified, target.tracked, split.tracked, true, init, blobs, blobId);
  }

  /**
   * targetModifiedRun: for every file the target deleted since the split point
   * (targetModified maps it to ""), a conflict file with an empty target side
   * when the head changed it, else the file is untracked.
   */
  method TargetModifiedRun(headModified: map<string, string>, targetModified: map<string, string>,
                           head: Commit, split: Commit, merge: Tracked,
                           blobs: map<Hash, string>, blobId: string -> Hash, conflict: bool)
    returns (merge': Tracked, conflict': bool, created: map<Hash, string>)
    requires ReadableValues(headModified, blobs) && ReadableValues(targetModified, blobs)
    ensures DeletedTracked(merge', targetModified, headModified, head.tracked, split.tracked, false, merge, blobs, blobId)
    ensures DeletedFlagged(conflict', targetModified, head.tracked, split.tracked, conflict)
    ensures CreatedConsistent(created, blobId)
    ensures DeletedSaved(created, targetModified, headModified, head.tracked, split.tracked, false, blobs, blobId)
    ensures DeletedSavedOnly(created, targetModified, headModified, head.tracked, split.tracked, false, blobs, blobId)
  {
    ghost var init := PhaseState(merge, conflict, map[]);
    ghost var order: seq<string> := [];
    merge', conflict', created := merge, conflict, map[];
    var rest := targetModified.Keys;
    while rest != {}
      invariant rest <= targetModified.Keys
      invariant forall g :: g in order <==> g in targetModified && g !in rest
      invariant PhaseState(merge', conflict', created) ==
                DeletedFold(order, targetModified, headModified, head.tracked, split.tracked, false, init, blobs, blobId)
      decreases rest
    {
      var f :| f in rest;
      ghost var next := DeletedStep(PhaseState(merge', conflict', created), f, targetModified, headModified,
                                    head.tracked, split.tracked, false, blobs, blobId);
      if targetModified[f] == "" {
        if DeletedConflict(f, head.tracked, split.tracked) {
          conflict' := true;
          var contents := MergeFiles(blobs, Get(headModified, f), Some(targetModified[f]));
          created := created[blobId(contents) := contents];
          merge' := merge'[f := blobId(contents)];
        } else {
          merge' := merge' - {f};
        }
      }
      assert PhaseState(merge', conflict', created) == next;
      assert (order + [f])[..|order|] == order;
      order := order + [f];
      rest := rest - {f};
    }
    forall g
      ensures Get(merge', g) ==
        (if g in targetModified && targetModified[g] == ""
         then DeletedHash(g, targetModified, headModified, head.tracked, split.tracked, false, blobs, blobId)
         else Get(merge, g))
    {
      DeletedFoldTracked(order, targetModified, headModified, head.tracked, split.tracked, false, init, blobs, blobId, g);
    }
    DeletedFoldConflict(order, targetModified, headModified, head.tracked, split.tracked, false, init, blobs, blobId);
    DeletedFoldCreated(order, targetModified, headModified, head.tracked, split.tracked, false, init, blobs, blobId);
  }

  /**
   * The phases of runMain, followed for one file: whichever phases touch it,
   * the merge commit ends up tracking what the three-way rule says, a hash it
   * tracks is stored or among the conflict blobs saved, and some phase flags
   * it as a conflict exactly when the three-way rule does.
   */
  lemma ReconcileFile(f: string, h: Tracked, t: Tracked, s: Tracked,
                      both: Tracked, headOnly: Tracked, targetOnly: Tracked,
                      headSplit: Tracked, targetSplit: Tracked,
                      hm: map<string, string>, tm: map<string, string>,
                      m1: Tracked, m2: Tracked, m3: Tracked, m4: Tracked, m5: Tracked, m6: Tracked, m7: Tracked,
                      blobs: map<Hash, string>, blobId: string -> Hash, created: map<Hash, string>)
    requires Stored(h, blobs) && Stored(t, blobs)
    requires ReadableValues(hm, blobs) && ReadableValues(tm, blobs)
    requires f in both <==> f in h && f in t
    requires f in both ==> both[f] == h[f]
    requires f in headOnly <==> f in h && f !in s && f !in t
    requires f in headOnly ==> headOnly[f] == h[f]
    requires f in targetOnly <==> f in t && f !in s && f !in h
    requires f in targetOnly ==> targetOnly[f] == t[f]
    requires f in headSplit <==> f in h && f in s
    requires f in targetSplit <==> f in t && f in s
    requires f in hm <==> f in s && Get(h, f) != Some(s[f])
    requires f in hm ==> hm[f] == (if f in h then h[f] else "")
    requires f in tm <==> f in s && Get(t, f) != Some(s[f])
    requires f in tm ==> tm[f] == (if f in t then t[f] else "")
    requires Get(m1, f) == (if f in both then Some(ExistHash(both[f], t[f], Get(s, f), blobs, blobId)) else Get(h, f))
    requires Get(m2, f) == (if f in targetOnly && f in headSplit then Get(targetOnly, f) else Get(m1, f))
    requires Get(m3, f) == (if f in headOnly && f in targetSplit then Get(headOnly, f) else Get(m2, f))
    requires Get(m4, f) == (if f in headOnly then Some(headOnly[f]) else Get(m3, f))
    requires Get(m5, f) == (if f in targetOnly then Some(targetOnly[f]) else Get(m4, f))
    requires Get(m6, f) ==
      (if f in hm && hm[f] == "" then DeletedHash(f, hm, tm, t, s, true, blobs, blobId) else Get(m5, f))
    requires Get(m7, f) ==
      (if f in tm && tm[f] == "" then DeletedHash(f, tm, hm, h, s, false, blobs, blobId) else Get(m6, f))
    requires f in both && ExistConflicts(both[f], t[f], Get(s, f)) ==>
      ExistHash(both[f], t[f], Get(s, f), blobs, blobId) in created
    requires f in hm && hm[f] == "" && DeletedConflict(f, t, s) ==>
      DeletedHash(f, hm, tm, t, s, true, blobs, blobId).value in created
    requires f in tm && tm[f] == "" && DeletedConflict(f, h, s) ==>
      DeletedHash(f, tm, hm, h, s, false, blobs, blobId).value in created
    ensures Get(m7, f) == MergedAt(h, t, s, f, blobs, blobId)
    ensures f in m7 ==> m7[f] in blobs || m7[f] in created
    ensures ResolveAt(h, t, s, f).Conflict? <==>
      || (f in both && ExistConflicts(both[f], t[f], Get(s, f)))
      || (f in hm && hm[f] == "" && DeletedConflict(f, t, s))
      || (f in tm && tm[f] == "" && DeletedConflict(f, h, s))
  {
    if f in s && f !in t {
      assert f in tm && tm[f] == "";
    } else if f in s && f !in h {
      assert f in hm && hm[f] == "";
    } else if f in h && f in t {
      ExistHashResolves(h[f], t[f], Get(s, f), blobs, blobId);
    }
  }

  /**
   * What runMain's map helpers and phases give, in order: the file sets from
   * head `h`, target `t` and split point `s`, the tracked files `m1`..`m7`
   * after each phase, the conflict blobs and the conflict flags.
   */
  ghost predicate RunMainSteps(h: Tracked, t: Tracked, s: Tracked, both: Tracked, onlyH: Tracked, onlyT: Tracked,
                               headOnly: Tracked, targetOnly: Tracked, headSplit: Tracked, targetSplit: Tracked,
                               hm: map<string, string>, tm: map<string, string>,
                               m1: Tracked, m2: Tracked, m3: Tracked, m4: Tracked, m5: Tracked, m6: Tracked, m7: Tracked,
                               blobs: map<Hash, string>, blobId: string -> Hash,
                               cr1: map<Hash, string>, cr2: map<Hash, string>, cr3: map<Hash, string>,
                               c1: bool, c2: bool, c3: bool)
  {
    && Stored(h, blobs) && Stored(t, blobs)
    && IsIntersection(both, h, t) && IsIntersection(headSplit, h, s) && IsIntersection(targetSplit, t, s)
    && IsDifference(onlyH, h, s) && IsDifference(onlyT, t, s)
    && IsDifference(headOnly, onlyH, onlyT) && IsDifference(targetOnly, onlyT, onlyH)
    && IsModification(hm, s, h) && IsModification(tm, s, t)
    && ReadableValues(hm, blobs) && ReadableValues(tm, blobs)
    && ExistReadable(both, t, blobs)
    && ExistTracked(m1, both, t, s, h, blobs, blobId)
    && TrackedWhere(m2, targetOnly, headSplit, m1) && TrackedWhere(m3, headOnly, targetSplit, m2)
    && TrackedAll(m4, headOnly, m3) && TrackedAll(m5, targetOnly, m4)
    && DeletedTracked(m6, hm, tm, t, s, true, m5, blobs, blobId)
    && DeletedTracked(m7, tm, hm, h, s, false, m6, blobs, blobId)
    && ExistSaved(cr1, both, t, s, blobs, blobId)
    && DeletedSaved(cr2, hm, tm, t, s, true, blobs, blobId)
    && DeletedSaved(cr3, tm, hm, h, s, false, blobs, blobId)
    && ExistFlagged(c1, both, t, s, false)
    && DeletedFlagged(c2, hm, t, s, c1) && DeletedFlagged(c3, tm, h, s, c2)
  }

  /**
   * The phases of runMain, followed for every file (see ReconcileFile), given
   * the contracts of the map helpers and of the phases exactly as runMain
   * calls them.
   */
  lemma ReconcileAll(h: Tracked, t: Tracked, s: Tracked, both: Tracked, onlyH: Tracked, onlyT: Tracked,
                     headOnly: Tracked, targetOnly: Tracked, headSplit: Tracked, targetSplit: Tracked,
                     hm: map<string, string>, tm: map<string, string>,
                     m1: Tracked, m2: Tracked, m3: Tracked, m4: Tracked, m5: Tracked, m6: Tracked, m7: Tracked,
                     blobs: map<Hash, string>, blobId: string -> Hash,
                     cr1: map<Hash, string>, cr2: map<Hash, string>, cr3: map<Hash, string>,
                     c1: bool, c2: bool, c3: bool)
    requires RunMainSteps(h, t, s, both, onlyH, onlyT, headOnly, targetOnly, headSplit, targetSplit, hm, tm,
                          m1, m2, m3, m4, m5, m6, m7, blobs, blobId, cr1, cr2, cr3, c1, c2, c3)
    ensures forall f :: Get(m7, f) == MergedAt(h, t, s, f, blobs, blobId)
    ensures forall f :: f in m7 ==> m7[f] in blobs || m7[f] in cr1 + cr2 + cr3
    ensures c3 <==> exists f :: ResolveAt(h, t, s, f).Conflict?
  {
    forall f
      ensures Get(m7, f) == MergedAt(h, t, s, f, blobs, blobId)
      ensures f in m7 ==> m7[f] in blobs || m7[f] in cr1 + cr2 + cr3
      ensures ResolveAt(h, t, s, f).Conflict? <==>
        || (f in both && ExistConflicts(both[f], t[f], Get(s, f)))
        || (f in hm && hm[f] == "" && DeletedConflict(f, t, s))
        || (f in tm && tm[f] == "" && DeletedConflict(f, h, s))
    {
      ReconcileFile(f, h, t, s, both, headOnly, targetOnly, headSplit, targetSplit, hm, tm,
                    m1, m2, m3, m4, m5, m6, m7, blobs, blobId, cr1 + cr2 + cr3);
    }
  }

  /** A blob existRun saved is what the merge commit tracks for a file in conflict. */
  lemma ExistCreatedResolves(x: Hash, h: Tracked, t: Tracked, s: Tracked, both: Tracked, cr: map<Hash, string>,
                             blobs: map<Hash, string>, blobId: string -> Hash)
    requires Stored(h, blobs) && Stored(t, blobs) && IsIntersection(both, h, t) && ExistReadable(both, t, blobs)
    requires ExistSavedOnly(cr, both, t, s, blobs, blobId) && x in cr
    ensures exists f :: ResolveAt(h, t, s, f).Conflict? && MergedAt(h, t, s, f, blobs, blobId) == Some(x)
  {
    var f :| f in both && ExistConflicts(both[f], t[f], Get(s, f)) && ExistHash(both[f], t[f], Get(s, f), blobs, blobId) == x;
    ExistHashResolves(h[f], t[f], Get(s, f), blobs, blobId);
    assert ResolveAt(h, t, s, f) == Resolve(Some(h[f]), Some(t[f]), Get(s, f));
  }

  /** A blob headModifiedRun saved is what the merge commit tracks for a file in conflict. */
  lemma HeadDeletedCreatedResolves(x: Hash, h: Tracked, t: Tracked, s: Tracked,
                                   hm: map<string, string>, tm: map<string, string>, cr: map<Hash, string>,
                                   blobs: map<Hash, string>, blobId: string -> Hash)
    requires Stored(h, blobs) && Stored(t, blobs) && IsModification(hm, s, h) && IsModification(tm, s, t)
    requires ReadableValues(hm, blobs) && ReadableValues(tm, blobs)
    requires DeletedSavedOnly(cr, hm, tm, t, s, true, blobs, blobId) && x in cr
    ensures exists f :: ResolveAt(h, t, s, f).Conflict? && MergedAt(h, t, s, f, blobs, blobId) == Some(x)
  {
    var f :| f in hm && hm[f] == "" && DeletedConflict(f, t, s)
             && DeletedHash(f, hm, tm, t, s, true, blobs, blobId) == Some(x);
    assert f !in h && f in tm && tm[f] == t[f];
    assert ResolveAt(h, t, s, f) == Conflict(None, Some(t[f]));
  }

  /** A blob targetModifiedRun saved is what the merge commit tracks for a file in conflict. */
  lemma TargetDeletedCreatedResolves(x: Hash, h: Tracked, t: Tracked, s: Tracked,
                                     hm: map<string, string>, tm: map<string, string>, cr: map<Hash, string>,
                                     blobs: map<Hash, string>, blobId: string -> Hash)
    requires Stored(h, blobs) && Stored(t, blobs) && IsModification(hm, s, h) && IsModification(tm, s, t)
    requires ReadableValues(hm, blobs) && ReadableValues(tm, blobs)
    requires DeletedSavedOnly(cr, tm, hm, h, s, false, blobs, blobId) && x in cr
    ensures exists f :: ResolveAt(h, t, s, f).Conflict? && MergedAt(h, t, s, f, blobs, blobId) == Some(x)
  {
    var f :| f in tm && tm[f] == "" && DeletedConflict(f, h, s)
             && DeletedHash(f, tm, hm, h, s, false, blobs, blobId) == Some(x);
    assert f !in t && f in hm && hm[f] == h[f];
    assert ResolveAt(h, t, s, f) == Conflict(Some(h[f]), None);
  }

  /** Every blob the phases of runMain saved is what the merge commit tracks for a file in conflict. */
  lemma CreatedResolves(h: Tracked, t: Tracked, s: Tracked, both: Tracked, hm: map<string, string>, tm: map<string, string>,
                        cr1: map<Hash, string>, cr2: map<Hash, string>, cr3: map<Hash, string>,
                        blobs: map<Hash, string>, blobId: string -> Hash)
    requires Stored(h, blobs) && Stored(t, blobs) && IsIntersection(both, h, t) && ExistReadable(both, t, blobs)
    requires IsModification(hm, s, h) && IsModification(tm, s, t)
    requires ReadableValues(hm, blobs) && ReadableValues(tm, blobs)
    requires ExistSavedOnly(cr1, both, t, s, blobs, blobId)
    requires DeletedSavedOnly(cr2, hm, tm, t, s, true, blobs, blobId)
    requires DeletedSavedOnly(cr3, tm, hm, h, s, false, blobs, blobId)
    ensures forall x :: x in cr1 + cr2 + cr3 ==>
      exists f :: ResolveAt(h, t, s, f).Conflict? && MergedAt(h, t, s, f, blobs, blobId) == Some(x)
  {
    forall x | x in cr1 + cr2 + cr3
      ensures exists f :: ResolveAt(h, t, s, f).Conflict? && MergedAt(h, t, s, f, blobs, blobId) == Some(x)
    {
      if x in cr3 {
        TargetDeletedCreatedResolves(x, h, t, s, hm, tm, cr3, blobs, blobId);
      } else if x in cr2 {
        HeadDeletedCreatedResolves(x, h, t, s, hm, tm, cr2, blobs, blobId);
      } else {
        ExistCreatedResolves(x, h, t, s, both, cr1, blobs, blobId);
      }
    }
  }

  /** The conflict blobs of several phases, pooled, are still each stored under their own hash. */
  lemma CreatedUnion(cr1: map<Hash, string>, cr2: map<Hash, string>, blobId: string -> Hash)
    requires CreatedConsistent(cr1, blobId) && CreatedConsistent(cr2, blobId)
    ensures CreatedConsistent(cr1 + cr2, blobId)
  {
  }

  /** existRun agrees with the three-way rule on every file both sides track. */
  lemma ExistHashResolves(h: Hash, t: Hash, s: Option<Hash>, blobs: map<Hash, string>, blobId: string -> Hash)
    requires h in blobs && t in blobs
    ensures ExistConflicts(h, t, s) <==> Resolve(Some(h), Some(t), s).Conflict?
    ensures Some(ExistHash(h, t, s, blobs, blobId)) == Effect(Resolve(Some(h), Some(t), s), blobs, blobId)
  {
  }

  /**
   * runMain: reconciles head and target from their split point into `merge`
   * (a fresh merge commit tracking the head's files), returning the merge
   * commit, whether any file conflicted, and the conflict blobs it saved.
   */
  method RunMain(head: Commit, target: Commit, split: Commit, merge: Commit,
                 blobs: map<Hash, string>, blobId: string -> Hash)
    returns (merge': Commit, conflict: bool, created: map<Hash, string>)
    requires merge.tracked == head.tracked
    requires Stored(head.tracked, blobs) && Stored(target.tracked, blobs)
    ensures merge'.(tracked := merge.tracked) == merge
    ensures forall f ::
      Get(merge'.tracked, f) == MergedAt(head.tracked, target.tracked, split.tracked, f, blobs, blobId)
    ensures conflict <==> exists f :: ResolveAt(head.tracked, target.tracked, split.tracked, f).Conflict?
    ensures CreatedConsistent(created, blobId)
    ensures forall f :: f in merge'.tracked ==> merge'.tracked[f] in blobs || merge'.tracked[f] in created
    ensures forall x :: x in created ==>
      exists f :: ResolveAt(head.tracked, target.tracked, split.tracked, f).Conflict?
                  && MergedAt(head.tracked, target.tracked, split.tracked, f, blobs, blobId) == Some(x)
  {
    var headSplitDiff := Intersection(head.tracked, split.tracked);
    var targetSplitDiff := Intersection(target.tracked, split.tracked);
    var existsInHeadAndTarget := Intersection(head.tracked, target.tracked);
    var onlyInHead := ANotInB(head.tracked, split.tracked);
    var onlyInTarget := ANotInB(target.tracked, split.tracked);
    var inTargetButNotInHead := ANotInB(onlyInTarget, onlyInHead);
    var inHeadButNotInTarget := ANotInB(onlyInHead, onlyInTarget);
    var headModified := Modified(split.tracked, head.tracked);
    var targetModified := Modified(split.tracked, target.tracked);
    IntersectionReadable(existsInHeadAndTarget, head.tracked, target.tracked, blobs);
    ModifiedReadable(headModified, split.tracked, head.tracked, blobs);
    ModifiedReadable(targetModified, split.tracked, target.tracked, blobs);

    var m1, c1, cr1 := ExistRun(existsInHeadAndTarget, target, split, merge.tracked, blobs, blobId, false);
    var m2 := InTargetNoHeadRun(inTargetButNotInHead, headSplitDiff, m1);
    var m3 := InTargetNoHeadRun(inHeadButNotInTarget, targetSplitDiff, m2);
    var m4 := TrackAll(inHeadButNotInTarget, m3);
    var m5 := TrackAll(inTargetButNotInHead, m4);
    var m6, c2, cr2 := HeadModifiedRun(headModified, targetModified, target, split, m5, blobs, blobId, c1);
    var m7, c3, cr3 := TargetModifiedRun(headModified, targetModified, head, split, m6, blobs, blobId, c2);
    merge', conflict, created := merge.(tracked := m7), c3, cr1 + cr2 + cr3;

    CreatedUnion(cr1, cr2, blobId);
    CreatedUnion(cr1 + cr2, cr3, blobId);
    ReconcileAll(head.tracked, target.tracked, split.tracked, existsInHeadAndTarget, onlyInHead, onlyInTarget,
                 inHeadButNotInTarget, inTargetButNotInHead, headSplitDiff, targetSplitDiff, headModified, targetModified,
                 m1, m2, m3, m4, m5, m6, m7, blobs, blobId, cr1, cr2, cr3, c1, c2, c3);
    CreatedResolves(head.tracked, target.tracked, split.tracked, existsInHeadAndTarget, headModified, targetModified,
                    cr1, cr2, cr3, blobs, blobId);
  }
}
