/**
 * The file list of the `FileUploader` component: what a drop does to it, the messages for
 * rejected files, when an automatic upload starts, and what removing an entry does.
 * The list may be absent (the component's state starts out as its `value` prop, which may be
 * undefined).
 */
module Uploader {
  import opened Types

  const DEFAULT_MAX_SIZE: nat := 1024 * 1024 * 2
  const DEFAULT_MAX_FILES: nat := 1
  const DEFAULT_MULTIPLE: bool := false

  const FILE_TOO_LARGE := "file-too-large"
  const FILE_INVALID_TYPE := "file-invalid-type"

  /** One reason the drop zone gives for rejecting a file: a code and its own message. */
  datatype DropzoneError = DropzoneError(code: string, message: string)

  /** A rejected file and the reasons for it. */
  datatype FileRejection = FileRejection(file: File, errors: seq<DropzoneError>)

  /** The size, count and mode settings after the defaults of the destructuring are applied. */
  datatype Settings = Settings(maxSize: nat, maxFiles: nat, multiple: bool)

  function WithDefaults(maxSize: Option<nat>, maxFiles: Option<nat>, multiple: Option<bool>): (s: Settings)
    ensures s.maxSize == (if maxSize.Some? then maxSize.value else 2 * 1024 * 1024)
    ensures s.maxFiles == (if maxFiles.Some? then maxFiles.value else 1)
    ensures s.multiple == (multiple.Some? && multiple.value)
  {
    Settings(
      if maxSize.Some? then maxSize.value else DEFAULT_MAX_SIZE,
      if maxFiles.Some? then maxFiles.value else DEFAULT_MAX_FILES,
      if multiple.Some? then multiple.value else DEFAULT_MULTIPLE)
  }

  /** `files?.length ?? 0`, and the list an absent one stands for. */
  function ListOf(files: Option<seq<File>>): seq<File>
  {
    if files.Some? then files.value else []
  }

  /** The two early returns of `onDrop`: several files in single-file mode, or too many in all. */
  predicate DropRefused(files: Option<seq<File>>, accepted: seq<File>, maxFiles: nat, multiple: bool)
    ensures !DropRefused(files, accepted, maxFiles, multiple) ==> |ListOf(files) + accepted| <= maxFiles
    ensures |accepted| > maxFiles ==> DropRefused(files, accepted, maxFiles, multiple)
  {
    (!multiple && maxFiles == 1 && |accepted| > 1) || |ListOf(files)| + |accepted| > maxFiles
  }

  /** The guard of the automatic upload, on the list as it was and the list as it is now. */
  predicate AutoUploadGuard(
    files: Option<seq<File>>, hasOnUpload: bool, accepted: seq<File>, updated: seq<File>, maxFiles: nat)
    ensures files.None? || !hasOnUpload || accepted == [] ==>
      !AutoUploadGuard(files, hasOnUpload, accepted, updated, maxFiles)
    ensures AutoUploadGuard(files, hasOnUpload, accepted, updated, maxFiles) ==> 1 <= |updated| <= maxFiles
  {
    files.Some? && hasOnUpload && |accepted| > 0 && |updated| > 0 && |updated| <= maxFiles
  }

  /**
   * The message for one rejection reason; `maxSizeLabel` is the component's maximum size as
   * its byte formatter renders it.
   */
  function ErrorMessage(file: File, e: DropzoneError, maxSizeLabel: string): (m: string)
    ensures e.code == FILE_TOO_LARGE ==>
      m == "File " + file.name + " is too large. Max size is " + maxSizeLabel
    ensures e.code == FILE_INVALID_TYPE ==> m == "File " + file.name + " has invalid type"
    ensures e.code != FILE_TOO_LARGE && e.code != FILE_INVALID_TYPE ==> m == e.message
  {
    if e.code == FILE_TOO_LARGE then "File " + file.name + " is too large. Max size is " + maxSizeLabel
    else if e.code == FILE_INVALID_TYPE then "File " + file.name + " has invalid type"
    else e.message
  }

  /** `parts.join(sep)`. */
  function Join(parts: seq<string>, sep: string): (r: string)
    ensures parts == [] ==> r == ""
    ensures |parts| == 1 ==> r == parts[0]
  {
    if parts == [] then "" else if |parts| == 1 then parts[0] else parts[0] + sep + Join(parts[1..], sep)
  }

  /** The description shown for one rejected file: its reasons' messages, comma separated. */
  function RejectionDescription(r: FileRejection, maxSizeLabel: string): (desc: string)
    ensures r.errors == [] ==> desc == ""
    ensures |r.errors| == 1 ==> desc == ErrorMessage(r.file, r.errors[0], maxSizeLabel)
  {
    Join(seq(|r.errors|, i requires 0 <= i < |r.errors| => ErrorMessage(r.file, r.errors[i], maxSizeLabel)), ", ")
  }

  /**
   * The position `splice(start, 1)` works at: a negative start counts back from the end
   * (and stops at the front), a start past the end is the end.
   */
  function SpliceStart(len: nat, start: int): (k: nat)
    ensures k <= len
    ensures 0 <= start <= len ==> k == start
    ensures start > len ==> k == len
    ensures start < 0 ==> k == if len + start < 0 then 0 else len + start
  {
    if start < 0 then (if len + start < 0 then 0 else len + start)
    else if start > len then len
    else start
  }

  /** `s` after `splice(start, 1)`: the element at the splice position, if any, is gone. */
  function SpliceOne<T>(s: seq<T>, start: int): (r: seq<T>)
    ensures var k := SpliceStart(|s|, start);
      && |r| == (if k < |s| then |s| - 1 else |s|)
      && (forall j :: 0 <= j < k && j < |r| ==> r[j] == s[j])
      && (forall j :: k <= j < |r| ==> r[j] == s[j + 1])
    ensures 0 <= start < |s| ==> |r| == |s| - 1 && multiset(r) + multiset{s[start]} == multiset(s)
    ensures start >= |s| ==> r == s
  {
    var k := SpliceStart(|s|, start);
    if k < |s| then
      assert s == s[..k] + [s[k]] + s[k + 1..];
      s[..k] + s[k + 1..]
    else s
  }

  class FileUploader {
    const maxSize: nat
    const maxFiles: nat
    const multiple: bool
    /** Whether an `onUpload` handler was passed. */
    const hasOnUpload: bool
    /** `formatBytes(maxSize)`. */
    const maxSizeLabel: string
    var files: Option<seq<File>>

    predicate WithinLimit()
      reads this
    {
      |ListOf(files)| <= maxFiles
    }

    constructor (value: Option<seq<File>>, settings: Settings, hasOnUpload: bool, maxSizeLabel: string)
      ensures files == value
      ensures maxSize == settings.maxSize && maxFiles == settings.maxFiles && multiple == settings.multiple
      ensures this.hasOnUpload == hasOnUpload && this.maxSizeLabel == maxSizeLabel
    {
      files := value;
      maxSize, maxFiles, multiple := settings.maxSize, settings.maxFiles, settings.multiple;
      this.hasOnUpload, this.maxSizeLabel := hasOnUpload, maxSizeLabel;
    }

    /**
     * `onDrop`. Returns the description shown for each rejected file, in order, and the list
     * handed to `onUpload` when the automatic upload starts.
     */
    method OnDrop(accepted: seq<File>, rejected: seq<FileRejection>)
      returns (notices: seq<string>, uploadRequest: Option<seq<File>>)
      modifies this
      ensures DropRefused(old(files), accepted, maxFiles, multiple) ==>
        files == old(files) && notices == [] && uploadRequest == None
      ensures !DropRefused(old(files), accepted, maxFiles, multiple) ==>
        files == Some(ListOf(old(files)) + accepted)
        && |notices| == |rejected|
        && (forall i :: 0 <= i < |rejected| ==> notices[i] == RejectionDescription(rejected[i], maxSizeLabel))
        && uploadRequest ==
             (if AutoUploadGuard(old(files), hasOnUpload, accepted, files.value, maxFiles) then files else None)
      ensures WithinLimit() || files == old(files)
      ensures old(WithinLimit()) ==> WithinLimit()
    {
      notices, uploadRequest := [], None;
      if !multiple && maxFiles == 1 && |accepted| > 1 {
        return;
      }
      if |ListOf(files)| + |accepted| > maxFiles {
        return;
      }
      var prior := files;
      var updated := if files.Some? then files.value + accepted else accepted;
      assert updated == ListOf(prior) + accepted;
      files := Some(updated);
      for i := 0 to |rejected|
        invariant files == Some(updated)
        invariant |notices| == i
        invariant forall j :: 0 <= j < i ==> notices[j] == RejectionDescription(rejected[j], maxSizeLabel)
      {
        notices := notices + [RejectionDescription(rejected[i], maxSizeLabel)];
      }
      if prior.Some? && hasOnUpload && |accepted| > 0 && |updated| > 0 && |updated| <= maxFiles {
        uploadRequest := Some(updated);
      }
    }

    /** `handleRemoveFile`: with no list nothing happens; otherwise the list loses `splice(index, 1)`. */
    method HandleRemoveFile(index: int)
      modifies this
      ensures old(files).None? ==> files == old(files)
      ensures old(files).Some? ==> files == Some(SpliceOne(old(files).value, index))
      ensures old(WithinLimit()) ==> WithinLimit()
    {
      if files.None? {
        return;
      }
      var newFiles := SpliceOne(files.value, index);
      files := Some(newFiles);
    }
  }

  /** On a drop that goes through, the guard reduces to: there was a list, a handler and a file. */
  lemma AutoUploadOnAcceptedDrop(
    files: Option<seq<File>>, hasOnUpload: bool, accepted: seq<File>, maxFiles: nat, multiple: bool)
    requires !DropRefused(files, accepted, maxFiles, multiple)
    ensures AutoUploadGuard(files, hasOnUpload, accepted, ListOf(files) + accepted, maxFiles) <==>
      files.Some? && hasOnUpload && |accepted| > 0
  {
  }

  /** Removing the entry a drop of one file appended gives back the list before the drop. */
  lemma RemoveUndoesDrop(s: seq<File>, f: File)
    ensures SpliceOne(s + [f], |s|) == s
  {
    var r := SpliceOne(s + [f], |s|);
    assert |r| == |s|;
    assert forall j :: 0 <= j < |s| ==> r[j] == s[j];
  }
}
