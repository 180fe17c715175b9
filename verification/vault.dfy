/** The host vault's view of a markdown file, as far as the plugin reads it:
    its vault-relative path and the tag list the metadata cache reports for it. */
module Vault {
  import opened Wrappers

  /** `tags` is `None` when the metadata cache has no entry for the file or the
      entry has no tag list. */
  datatype NoteFile = NoteFile(path: string, tags: Option<seq<string>>)
}
