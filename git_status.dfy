/**
 * The staged-change test of `GitManager::has_staged_changes` (src/git.rs):
 * git2 status flags and the scan over the status list.
 */
module GitStatus {

  type Path = string

  /** The bits of git2's `Status`; a status is the set of bits raised (`CURRENT` is the empty set). */
  datatype StatusFlag =
    | IndexNew | IndexModified | IndexDeleted | IndexRenamed | IndexTypechange
    | WtNew | WtModified | WtDeleted | WtTypechange | WtRenamed | WtUnreadable
    | Ignored | Conflicted

  /** The flags that describe a difference between HEAD and the index. */
  const IndexFlags: set<StatusFlag> := {IndexNew, IndexModified, IndexDeleted, IndexRenamed, IndexTypechange}

  /** `status.intersects(INDEX_NEW | INDEX_MODIFIED | INDEX_DELETED | INDEX_RENAMED | INDEX_TYPECHANGE)`. */
  predicate IsStaged(status: set<StatusFlag>) {
    status * IndexFlags != {}
  }

  /** One entry of the status list: a path and its flags. */
  datatype StatusEntry = StatusEntry(path: Path, status: set<StatusFlag>)

  /** Some entry of the list carries an index flag. */
  predicate SomeStaged(entries: seq<StatusEntry>) {
    exists i :: 0 <= i < |entries| && IsStaged(entries[i].status)
  }

  /** The loop of `has_staged_changes`: walk the entries and stop at the first staged one. */
  method ScanForStaged(entries: seq<StatusEntry>) returns (found: bool)
    ensures found <==> SomeStaged(entries)
    ensures found ==> exists i :: 0 <= i < |entries| && IsStaged(entries[i].status)
    ensures !found ==> forall i :: 0 <= i < |entries| ==> entries[i].status * IndexFlags == {}
  {
    for i := 0 to |entries|
      invariant forall j :: 0 <= j < i ==> !IsStaged(entries[j].status)
    {
      if IsStaged(entries[i].status) {
        return true;
      }
    }
    return false;
  }

  /** An entry is staged exactly when it carries one of the five index flags. */
  lemma StagedIffIndexFlag(status: set<StatusFlag>)
    ensures IsStaged(status) <==>
      IndexNew in status || IndexModified in status || IndexDeleted in status ||
      IndexRenamed in status || IndexTypechange in status
  {
    if IsStaged(status) {
      var f :| f in status * IndexFlags;
      assert f in IndexFlags;
    } else {
      assert IndexNew !in status * IndexFlags && IndexModified !in status * IndexFlags;
      assert IndexDeleted !in status * IndexFlags && IndexRenamed !in status * IndexFlags;
      assert IndexTypechange !in status * IndexFlags;
    }
  }

  /** Worktree-only, untracked, ignored and conflicted flags never make an entry staged. */
  lemma WorktreeOnlyNotStaged(entries: seq<StatusEntry>)
    requires forall i :: 0 <= i < |entries| ==>
      entries[i].status <= {WtNew, WtModified, WtDeleted, WtTypechange, WtRenamed, WtUnreadable, Ignored, Conflicted}
    ensures !SomeStaged(entries)
  {
  }
}
