/** `SwiperView.onOpen` (src/main.ts:209-236): select the note to review and
    mount a card for it, or mount nothing. */
module SwiperView {
  import opened Wrappers
  import opened Vault
  import opened ReviewSelection
  import opened NoteCard
  import opened Gesture

  /** The card `onOpen` mounts for the vault's files, if any. */
  function OpenView(files: seq<NoteFile>): (r: Option<Card>)
    ensures r.None? <==> forall n :: n in files ==> !IsReviewNote(n)
    ensures r.Some? ==> r.value.note in files && IsReviewNote(r.value.note)
    ensures r.Some? ==> r.value.session == Idle && r.value.surface == Fresh
  {
    match SelectReviewNote(files)
    case None => None
    case Some(n) => Some(Mount(n))
  }

  /** The card is mounted on the first file, in vault order, that passes
      both tests: `reviewNotes[0]`. */
  lemma OpensOnFirstSurvivor(files: seq<NoteFile>, i: int)
    requires 0 <= i < |files| && IsReviewNote(files[i])
    requires forall j :: 0 <= j < i ==> !IsReviewNote(files[j])
    ensures OpenView(files) == Some(Mount(files[i]))
  {
    SelectIsFirstSurvivor(files, i);
  }

  /** With two review notes A and B in the inbox, the card opens on A. */
  lemma OpensOnFirstOfTwo(a: NoteFile, b: NoteFile)
    requires IsReviewNote(a) && IsReviewNote(b)
    ensures OpenView([a, b]) == Some(Mount(a))
  {
  }
}
