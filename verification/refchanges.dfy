/**
 The ref changes of one push, and the classifier that decides which of them
 the hook hands to the commit checker. A change is skipped when it deletes
 its ref, when its target is the all-zero object id, or when its ref lives in
 the git-notes namespace; the model tests these in that order.
 */
module RefChanges {
  import opened Options
  import opened Text

  datatype ChangeType = Add | Update | Delete

  /** One ref update of a push: the ref, the kind of update, and the old and new object ids. */
  datatype RefChange = RefChange(refId: string, kind: ChangeType, fromHash: string, toHash: string)

  /** The object id meaning "no object": forty `'0'` characters. */
  const ZeroHash: string := "0000000000000000000000000000000000000000"

  /** The namespace git keeps its notes in; pushes of notes are never checked. */
  const NotesNamespace: string := "refs/notes/"

  /** Why a ref change is not checked, one case per skip rule. */
  datatype SkipReason = Deleted | NoTarget | GitNotes

  /** The position of a skip rule in the order the model tests them. */
  function Rank(reason: SkipReason): nat {
    match reason
    case Deleted => 0
    case NoTarget => 1
    case GitNotes => 2
  }

  /** Whether a skip rule, taken on its own, matches `rc`. */
  predicate Applies(reason: SkipReason, rc: RefChange) {
    match reason
    case Deleted => rc.kind == Delete
    case NoTarget => rc.toHash == ZeroHash
    case GitNotes => StartsWith(rc.refId, NotesNamespace)
  }

  /**
   The first skip rule that matches `rc`, testing them in rank order,
   or `None` when `rc` is to be checked.
   */
  function Classify(rc: RefChange): (r: Option<SkipReason>)
    ensures r.Some? ==> Applies(r.value, rc)
    ensures r.Some? ==> forall earlier :: Rank(earlier) < Rank(r.value) ==> !Applies(earlier, rc)
    ensures r.None? <==> forall reason :: !Applies(reason, rc)
  {
    if rc.kind == Delete then assert Applies(Deleted, rc); Some(Deleted)
    else if rc.toHash == ZeroHash then assert Applies(NoTarget, rc); Some(NoTarget)
    else if StartsWith(rc.refId, NotesNamespace) then assert Applies(GitNotes, rc); Some(GitNotes)
    else None
  }

  /** The ref change is handed to the commit checker. */
  predicate ShouldCheck(rc: RefChange) {
    Classify(rc).None?
  }

  /** A ref change is checked exactly when it is not a deletion, has a target and is not a note. */
  lemma ShouldCheckIff(rc: RefChange)
    ensures ShouldCheck(rc) <==>
      rc.kind != Delete && rc.toHash != ZeroHash && !StartsWith(rc.refId, NotesNamespace)
  {
  }

}
