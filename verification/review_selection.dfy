/** Which vault files are reviewed, and which one the card is bound to
    (src/main.ts:216-235): a folder filter, then a tag filter, then the first
    survivor. */
module ReviewSelection {
  import opened Wrappers
  import opened Vault

  /** The review folder, hard-coded in `onOpen`. */
  const InboxFolder: string := "0 Inbox"

  /** `Array.prototype.filter`: the elements satisfying `p`, in their order. */
  function Filter<T>(s: seq<T>, p: T -> bool): (r: seq<T>)
    ensures |r| <= |s|
    ensures forall i :: 0 <= i < |r| ==> r[i] in s && p(r[i])
    ensures forall i :: 0 <= i < |s| ==> (s[i] in r <==> p(s[i]))
    decreases |s|
  {
    if |s| == 0 then []
    else if p(s[0]) then [s[0]] + Filter(s[1..], p)
    else Filter(s[1..], p)
  }

  /** Each passing element occurs in the result as often as in the input, and
      no failing element occurs at all. */
  lemma {:induction false} FilterKeepsMultiplicity<T>(s: seq<T>, p: T -> bool, x: T)
    ensures multiset(Filter(s, p))[x] == if p(x) then multiset(s)[x] else 0
    decreases |s|
  {
    if |s| > 0 {
      assert s == [s[0]] + s[1..];
      FilterKeepsMultiplicity(s[1..], p, x);
    }
  }

  /** Filtering distributes over concatenation, so the result keeps the input
      order: whatever passes in `a` comes before whatever passes in `b`. */
  lemma {:induction false} FilterAppend<T>(a: seq<T>, b: seq<T>, p: T -> bool)
    ensures Filter(a + b, p) == Filter(a, p) + Filter(b, p)
    decreases |a|
  {
    if |a| > 0 {
      assert (a + b)[0] == a[0];
      assert (a + b)[1..] == a[1..] + b;
      FilterAppend(a[1..], b, p);
    } else {
      assert a + b == b;
    }
  }

  /** The first test: `path.startsWith("0 Inbox/") || path === "0 Inbox"`. */
  predicate InFolder(path: string)
  {
    InboxFolder + "/" <= path || path == InboxFolder
  }

  /** A path strictly inside the folder, `rest` being the part after the separator. */
  function Descendant(rest: string): string
  {
    InboxFolder + "/" + rest
  }

  /** A path passes the folder test exactly when it is the folder itself or
      lies anywhere beneath it. */
  lemma InFolderIsFolderOrDescendant(path: string)
    ensures InFolder(path) <==> path == InboxFolder || exists rest :: path == Descendant(rest)
  {
    var pre := InboxFolder + "/";
    if pre <= path {
      var rest := path[|pre|..];
      assert path == pre + rest;
      assert path == Descendant(rest);
    }
  }

  /** A sibling whose name merely starts with the folder's name is not inside it. */
  lemma SiblingFolderExcluded(path: string)
    requires |path| > |InboxFolder| && path[..|InboxFolder|] == InboxFolder
    requires path[|InboxFolder|] != '/'
    ensures !InFolder(path)
  {
  }

  lemma FolderExamples()
    ensures InFolder("0 Inbox")
    ensures InFolder("0 Inbox/a/b.md")
    ensures !InFolder("0 Inboxes/x.md")
    ensures !InFolder("x/0 Inbox/y.md")
  {
    assert "0 Inbox/a/b.md" == Descendant("a/b.md");
    SiblingFolderExcluded("0 Inboxes/x.md");
    assert "x/0 Inbox/y.md"[0] != (InboxFolder + "/")[0];
  }

  /** The callback given to `some`: it ignores the tag and returns the
      string "review". */
  function TagCallback(tag: string): string
  {
    "review"
  }

  /** JavaScript truthiness of a string. */
  predicate Truthy(s: string) { s != "" }

  /** `Array.prototype.some`: some element makes the callback return a truthy value. */
  predicate AnySatisfies(tags: seq<string>, callback: string -> string)
    decreases |tags|
  {
    |tags| > 0 && (Truthy(callback(tags[0])) || AnySatisfies(tags[1..], callback))
  }

  /** The second test: `cache?.tags?.some(TagCallback)` is truthy. */
  predicate HasReviewTag(n: NoteFile)
  {
    n.tags.Some? && AnySatisfies(n.tags.value, TagCallback)
  }

  /** Because the callback never looks at the tag, the tag test holds exactly
      when a tag list exists and is non-empty, whatever the tags say. */
  lemma TagTestIgnoresTagValues(n: NoteFile)
    ensures HasReviewTag(n) <==> n.tags.Some? && |n.tags.value| > 0
  {
  }

  predicate IsReviewNote(n: NoteFile)
  {
    InFolder(n.path) && HasReviewTag(n)
  }

  /** `reviewNotes`: the folder filter, then the tag filter. */
  function ReviewNotes(files: seq<NoteFile>): seq<NoteFile>
  {
    Filter(Filter(files, (f: NoteFile) => InFolder(f.path)), HasReviewTag)
  }

  /** Two filters in a row keep what a single filter by their conjunction keeps,
      in the same order. */
  lemma {:induction false} FilterTwiceIsFilterBoth<T>(s: seq<T>, p: T -> bool, q: T -> bool, both: T -> bool)
    requires forall x :: both(x) == (p(x) && q(x))
    ensures Filter(Filter(s, p), q) == Filter(s, both)
    decreases |s|
  {
    if |s| > 0 {
      FilterTwiceIsFilterBoth(s[1..], p, q, both);
      if p(s[0]) {
        assert Filter(s, p) == [s[0]] + Filter(s[1..], p);
        assert Filter(s, p)[1..] == Filter(s[1..], p);
      }
    }
  }

  /** The review list is the vault's file list filtered by the combined test,
      order preserved. */
  lemma ReviewNotesIsOneFilter(files: seq<NoteFile>)
    ensures ReviewNotes(files) == Filter(files, IsReviewNote)
    ensures forall n :: n in ReviewNotes(files) <==> n in files && IsReviewNote(n)
  {
    FilterTwiceIsFilterBoth(files, (f: NoteFile) => InFolder(f.path), HasReviewTag, IsReviewNote);
  }

  /** The first element of a filtered list is the first element that passes. */
  lemma {:induction false} FilterHeadIsFirstPassing<T>(s: seq<T>, p: T -> bool, i: int)
    requires 0 <= i < |s| && p(s[i])
    requires forall j :: 0 <= j < i ==> !p(s[j])
    ensures |Filter(s, p)| > 0 && Filter(s, p)[0] == s[i]
    decreases i
  {
    if i > 0 {
      assert !p(s[0]);
      FilterHeadIsFirstPassing(s[1..], p, i - 1);
    }
  }

  /** The note the card is bound to: `None` when nothing survives both filters
      (no card is created), otherwise a surviving note from the vault. */
  function SelectReviewNote(files: seq<NoteFile>): (r: Option<NoteFile>)
    ensures r.None? <==> forall n :: n in files ==> !IsReviewNote(n)
    ensures r.Some? ==> r.value in files && IsReviewNote(r.value)
  {
    ReviewNotesIsOneFilter(files);
    var rs := ReviewNotes(files);
    if |rs| == 0 then None else Some(rs[0])
  }

  /** The bound note is the first file, in vault order, that passes both tests. */
  lemma SelectIsFirstSurvivor(files: seq<NoteFile>, i: int)
    requires 0 <= i < |files| && IsReviewNote(files[i])
    requires forall j :: 0 <= j < i ==> !IsReviewNote(files[j])
    ensures SelectReviewNote(files) == Some(files[i])
  {
    ReviewNotesIsOneFilter(files);
    FilterHeadIsFirstPassing(files, IsReviewNote, i);
  }
}
