/**
 The byte budget of a build request: the upload and everything extracted from
 it stay within what the work directory has left when the request is admitted
 (internal/builddaemon/build_request.go and workspace.go).

 Sizes are numbers of bytes; where input or output may fail is part of the input.
 */
module Admission {
  import opened Sums

  function OrDefault(value: int, fallback: int): int {
    if value <= 0 then fallback else value
  }

  function Min(a: int, b: int): int {
    if a <= b then a else b
  }

  function Max(a: int, b: int): int {
    if a >= b then a else b
  }

  // ------------------------------------------------------------------- copying

  datatype Fault = NoFault | OpenFails | CopyFails(after: nat) | ReadFails | CloseFails

  /** Copies at most `limit` bytes, then looks whether there is one more. */
  method CopyWithLimit(size: nat, limit: nat, fault: Fault) returns (written: nat, exceeded: bool, failed: bool)
    ensures written <= limit && written <= size
    ensures failed <==> fault.CopyFails? || fault.ReadFails?
    ensures !failed ==> written == Min(size, limit) && (exceeded <==> size > limit)
    ensures failed ==>
            !exceeded && written == if fault.CopyFails? then Min(fault.after, Min(size, limit)) else Min(size, limit)
  {
    var available := Min(size, limit);
    if fault.CopyFails? {
      return Min(fault.after, available), false, true;
    }
    if fault.ReadFails? {
      return available, false, true;
    }
    return available, size > limit, false;
  }

  // -------------------------------------------------------- the task directory

  /** The directory of one request: the saved archive and the extracted files, by path. */
  class TaskDir {
    var zip: nat
    var files: map<string, nat>

    /** The most bytes the directory ever held, and all that were ever written to it. */
    ghost var peak: nat
    ghost var written: nat

    ghost function Bytes(): nat
      reads this
    {
      TotalNotNegative(files);
      zip + Total(files)
    }

    ghost predicate Valid()
      reads this
    {
      Bytes() <= peak <= written
    }

    constructor ()
      ensures Valid() && zip == 0 && files == map[] && written == 0
    {
      zip, files, peak, written := 0, map[], 0, 0;
    }

    method SaveZip(size: nat)
      requires Valid() && zip == 0
      modifies this
      ensures Valid() && zip == size && files == old(files)
      ensures Bytes() == old(Bytes()) + size && peak == Max(old(peak), Bytes())
      ensures written == old(written) + size
    {
      zip := size;
      peak, written := Max(peak, Bytes()), written + size;
    }

    /** Opening for writing truncates a file that is already there. */
    method Create(path: string)
      requires Valid()
      modifies this
      ensures Valid() && zip == old(zip) && files == old(files)[path := 0]
      ensures Bytes() <= old(Bytes()) && peak == old(peak) && written == old(written)
    {
      TotalStored(files, path, 0);
      files := files[path := 0];
    }

    method Write(path: string, size: nat)
      requires Valid() && path in files && files[path] == 0
      modifies this
      ensures Valid() && zip == old(zip) && files == old(files)[path := size]
      ensures Bytes() == old(Bytes()) + size && peak == Max(old(peak), Bytes())
      ensures written == old(written) + size
    {
      TotalStored(files, path, size);
      files := files[path := size];
      peak, written := Max(peak, Bytes()), written + size;
    }

    method Remove(path: string)
      requires Valid() && path in files
      modifies this
      ensures Valid() && zip == old(zip) && files == old(files) - {path}
      ensures Bytes() == old(Bytes()) - old(files[path]) && peak == old(peak) && written == old(written)
    {
      TotalWithout(files, path);
      files := files - {path};
    }

    method RemoveAll()
      requires Valid()
      modifies this
      ensures Valid() && zip == 0 && files == map[] && Bytes() == 0
      ensures peak == old(peak) && written == old(written)
    {
      zip, files := 0, map[];
    }
  }

  // ---------------------------------------------------------------- extraction

  /** An entry of the archive; `path` is where it is extracted to. */
  datatype ArchiveFile =
    | Directory(validPath: bool, made: bool)
    | File(path: string, validPath: bool, declared: nat, size: nat, fault: Fault)

  datatype Extraction = Extracted | OverLimit | Failed

  /** What the entries hold in all. */
  function Sizes(files: seq<ArchiveFile>): nat {
    if files == [] then 0
    else Sizes(files[..|files| - 1]) + (if files[|files| - 1].File? then files[|files| - 1].size else 0)
  }

  /** The files that the entries leave: of two with one path the later one. */
  function Contents(files: seq<ArchiveFile>): map<string, nat> {
    if files == [] then map[]
    else
      var before := Contents(files[..|files| - 1]);
      var file := files[|files| - 1];
      if file.File? then before[file.path := file.size] else before
  }

  /** The archive can be extracted within the limits. */
  ghost predicate Extractable(files: seq<ArchiveFile>, maxBytes: int, maxFiles: int) {
    |files| <= maxFiles && forall i :: 0 <= i < |files| ==> FileFits(files, i, maxBytes)
  }

  ghost predicate FileFits(files: seq<ArchiveFile>, i: nat, maxBytes: int)
    requires i < |files|
  {
    && files[i].validPath
    && (files[i].Directory? ==> files[i].made)
    && (files[i].File? ==>
          files[i].fault.NoFault? && Sizes(files[..i]) + Max(files[i].declared, files[i].size) <= maxBytes)
  }

  /** The fault is none of those that end a copy early. */
  predicate Copies(fault: Fault) {
    fault.NoFault? || fault.CloseFails?
  }

  /** Entry `i` is one whose declared or actual size is more than what is left. */
  ghost predicate Overflows(files: seq<ArchiveFile>, i: nat, maxBytes: int)
    requires i < |files|
  {
    && files[i].validPath && files[i].File?
    && (|| Sizes(files[..i]) + files[i].declared > maxBytes
        || (Copies(files[i].fault) && Sizes(files[..i]) + files[i].size > maxBytes))
  }

  /** Entry `i` is the first one that cannot be extracted. */
  ghost predicate FailsFirst(files: seq<ArchiveFile>, maxBytes: int, i: nat) {
    i < |files| && !FileFits(files, i, maxBytes) && forall j :: 0 <= j < i ==> FileFits(files, j, maxBytes)
  }

  /** The archive has too many entries, or the first one that cannot be extracted is too large. */
  ghost predicate ExceedsLimits(files: seq<ArchiveFile>, maxBytes: int, maxFiles: int) {
    || |files| > maxFiles
    || exists i: nat :: FailsFirst(files, maxBytes, i) && Overflows(files, i, maxBytes)
  }

  lemma OneFailure(files: seq<ArchiveFile>, maxBytes: int, maxFiles: int, i: nat)
    requires FailsFirst(files, maxBytes, i) && |files| <= maxFiles
    ensures ExceedsLimits(files, maxBytes, maxFiles) <==> Overflows(files, i, maxBytes)
  {
    forall k: nat | FailsFirst(files, maxBytes, k)
      ensures k == i
    {
    }
  }

  /** One file is extracted within what is left. */
  method ExtractFile(dir: TaskDir, file: ArchiveFile, remaining: nat) returns (r: Extraction, written: nat)
    requires dir.Valid() && file.File?
    modifies dir
    ensures dir.Valid() && dir.zip == old(dir.zip)
    ensures written <= remaining && dir.written == old(dir.written) + written
    ensures dir.Bytes() <= old(dir.Bytes()) + written && dir.peak <= Max(old(dir.peak), old(dir.Bytes()) + written)
    ensures r.Extracted? <==> file.fault.NoFault? && file.size <= remaining
    ensures r.OverLimit? <==> Copies(file.fault) && file.size > remaining
    ensures r.Extracted? ==> written == file.size && dir.files == old(dir.files)[file.path := file.size]
  {
    if file.fault.OpenFails? {
      return Failed, 0;
    }
    dir.Create(file.path);
    var exceeded, failed;
    written, exceeded, failed := CopyWithLimit(file.size, remaining, file.fault);
    dir.Write(file.path, written);
    if failed {
      return Failed, written;
    }
    if exceeded {
      dir.Remove(file.path);
      return OverLimit, written;
    }
    r := if file.fault.CloseFails? then Failed else Extracted;
  }

  /** Files are extracted one after the other within what is left. */
  method ExtractZip(dir: TaskDir, readable: bool, files: seq<ArchiveFile>, maxBytes: int, maxFiles: int)
    returns (r: Extraction)
    requires dir.Valid() && dir.files == map[]
    modifies dir
    ensures dir.Valid() && dir.zip == old(dir.zip)
    ensures dir.peak <= Max(old(dir.peak), dir.zip + Max(0, maxBytes))
    ensures dir.written <= old(dir.written) + Max(0, maxBytes)
    ensures r.Extracted? <==> readable && Extractable(files, maxBytes, maxFiles)
    ensures r.OverLimit? <==> readable && ExceedsLimits(files, maxBytes, maxFiles)
    ensures r.Extracted? ==> dir.files == Contents(files) && dir.written == old(dir.written) + Sizes(files)
  {
    if !readable {
      return Failed;
    }
    if |files| > maxFiles {
      return OverLimit;
    }
    var extractedBytes := 0;
    for i := 0 to |files|
      invariant forall j :: 0 <= j < i ==> FileFits(files, j, maxBytes)
      invariant extractedBytes == Sizes(files[..i])
      invariant dir.Valid() && dir.zip == old(dir.zip) && dir.files == Contents(files[..i])
      invariant dir.Bytes() <= dir.zip + extractedBytes && extractedBytes <= Max(0, maxBytes)
      invariant dir.written == old(dir.written) + extractedBytes
      invariant dir.peak <= Max(old(dir.peak), dir.zip + Max(0, maxBytes))
    {
      assert files[..i + 1][..i] == files[..i];
      var file := files[i];
      if !file.validPath {
        OneFailure(files, maxBytes, maxFiles, i);
        return Failed;
      }
      if file.Directory? {
        if !file.made {
          OneFailure(files, maxBytes, maxFiles, i);
          return Failed;
        }
        continue;
      }
      var remaining := maxBytes - extractedBytes;
      if remaining < 0 || file.declared > remaining {
        OneFailure(files, maxBytes, maxFiles, i);
        return OverLimit;
      }
      var one, written := ExtractFile(dir, file, remaining);
      if !one.Extracted? {
        OneFailure(files, maxBytes, maxFiles, i);
        return one;
      }
      extractedBytes := extractedBytes + written;
    }
    assert files[..|files|] == files;
    r := Extracted;
  }

  /** Some entry that holds anything is overwritten by a later one. */
  ghost predicate Overwrites(files: seq<ArchiveFile>) {
    exists i, j :: 0 <= i < j < |files| && OverwrittenBy(files[i], files[j])
  }

  ghost predicate OverwrittenBy(file: ArchiveFile, later: ArchiveFile) {
    file.File? && later.File? && file.path == later.path && file.size > 0
  }

  ghost predicate LastOf(files: seq<ArchiveFile>, i: nat, path: string) {
    && i < |files| && files[i].File? && files[i].path == path
    && forall j :: i < j < |files| && files[j].File? ==> files[j].path != path
  }

  /** A file left by the entries is the last one of its path. */
  lemma {:induction false} ContentsAreLast(files: seq<ArchiveFile>, path: string) returns (last: nat)
    ensures path in Contents(files) <==> exists i :: 0 <= i < |files| && files[i].File? && files[i].path == path
    ensures path in Contents(files) ==> LastOf(files, last, path) && files[last].size == Contents(files)[path]
  {
    last := 0;
    if files != [] {
      var n := |files| - 1;
      last := ContentsAreLast(files[..n], path);
      assert forall i :: 0 <= i < n ==> files[..n][i] == files[i];
      if files[n].File? && files[n].path == path {
        last := n;
      }
    }
  }

  /** The files left hold no more than the entries, and as much exactly when nothing is overwritten. */
  lemma {:induction false} ContentsSize(files: seq<ArchiveFile>)
    ensures Total(Contents(files)) <= Sizes(files)
    ensures Total(Contents(files)) == Sizes(files) <==> !Overwrites(files)
  {
    if files != [] {
      var n := |files| - 1;
      var before, file := files[..n], files[n];
      ContentsSize(before);
      LastOverwrites(files);
      if file.File? {
        TotalStored(Contents(before), file.path, file.size);
        var last := ContentsAreLast(before, file.path);
        if file.path in Contents(before) && Contents(before)[file.path] > 0 {
          assert OverwrittenBy(files[last], files[n]);
        } else if i :| 0 <= i < n && OverwrittenBy(files[i], files[n]) {
          assert before[i] == files[i];
          assert i < last && OverwrittenBy(before[i], before[last]);
        }
      }
    }
  }

  /** Entries overwrite each other among all but the last, or the last one overwrites. */
  lemma LastOverwrites(files: seq<ArchiveFile>)
    requires files != []
    ensures var n := |files| - 1;
      Overwrites(files) <==> Overwrites(files[..n]) || exists i :: 0 <= i < n && OverwrittenBy(files[i], files[n])
  {
    var n := |files| - 1;
    var before := files[..n];
    if Overwrites(files) {
      var i, j :| 0 <= i < j < |files| && OverwrittenBy(files[i], files[j]);
      if j < n {
        assert OverwrittenBy(before[i], before[j]);
      }
    }
    if Overwrites(before) {
      var i, j :| 0 <= i < j < |before| && OverwrittenBy(before[i], before[j]);
      assert OverwrittenBy(files[i], files[j]);
    }
  }

  // ----------------------------------------------------------------- admission

  datatype Limits = Limits(retainedTasks: int, workDirBytes: int, requestBytes: int, extractedBytes: int,
                           archiveFiles: int)

  const DEFAULT_RETAINED_TASKS := 100
  const DEFAULT_WORK_DIR_BYTES := 0x2_0000_0000
  const DEFAULT_REQUEST_BYTES := 0x2000_0000
  const DEFAULT_EXTRACTED_BYTES := 0x1_0000_0000
  const DEFAULT_ARCHIVE_FILES := 100000

  /**
   The request as it comes: `body` is how much of it is read until the form is
   complete or found to be malformed, `wellFormed` are the checks of the form before
   the task directory is made, `made` and `counted` whether that works and the saved
   file can be measured, `readable` whether the archive opens, `usable` the checks
   of the extracted context.
   */
  datatype Upload = Upload(body: nat, wellFormed: bool, made: bool, declared: int, size: nat, fault: Fault,
                           counted: bool, readable: bool, archive: seq<ArchiveFile>, usable: bool)

  datatype Admitted = Accepted | TooManyTasks | NoSpace | TooLarge | Rejected

  /** What the work directory had left when the request came. */
  function Budget(limits: Limits, dirBytes: nat): int {
    OrDefault(limits.workDirBytes, DEFAULT_WORK_DIR_BYTES) - dirBytes
  }

  /** Saves the upload within the limit. */
  method SaveUpload(dir: TaskDir, upload: Upload, maxBytes: nat) returns (saved: bool, exceeded: bool)
    requires dir.Valid() && dir.zip == 0 && dir.files == map[] && dir.written == 0
    modifies dir
    ensures dir.Valid() && dir.files == map[] && dir.zip == dir.Bytes() == dir.peak == dir.written <= maxBytes
    ensures saved <==> Max(upload.declared, upload.size) <= maxBytes && Copies(upload.fault)
    ensures exceeded <==> upload.declared > maxBytes || (Copies(upload.fault) && upload.size > maxBytes)
    ensures saved ==> dir.zip == upload.size
  {
    if upload.declared > maxBytes {
      return false, true;
    }
    if upload.fault.OpenFails? {
      return false, false;
    }
    var written, more, failed := CopyWithLimit(upload.size, maxBytes, upload.fault);
    dir.SaveZip(written);
    return !failed && !more, more;
  }

  /** What the request and its upload may have, and what may be extracted from it. */
  function MaxRequest(limits: Limits, dirBytes: nat): int {
    Min(OrDefault(limits.requestBytes, DEFAULT_REQUEST_BYTES), Budget(limits, dirBytes))
  }

  function MaxExtracted(limits: Limits, dirBytes: nat, upload: Upload): int {
    Min(OrDefault(limits.extractedBytes, DEFAULT_EXTRACTED_BYTES), Budget(limits, dirBytes) - upload.size)
  }

  /** There is room for a task and for bytes, the form was read within the limit, and it is what it must be. */
  predicate Received(limits: Limits, retained: nat, dirBytes: nat, upload: Upload) {
    && retained < OrDefault(limits.retainedTasks, DEFAULT_RETAINED_TASKS)
    && 0 < Budget(limits, dirBytes)
    && upload.body <= MaxRequest(limits, dirBytes)
    && upload.wellFormed && upload.made
  }

  /** The upload is saved and measured. */
  predicate Saved(limits: Limits, retained: nat, dirBytes: nat, upload: Upload) {
    && Received(limits, retained, dirBytes, upload)
    && Max(upload.declared, upload.size) <= MaxRequest(limits, dirBytes) && Copies(upload.fault) && upload.counted
  }

  /**
   The admission steps in order, in the request's own new directory. Whatever
   the upload holds and wherever it fails, all that is ever written to it, and
   so what it holds at any moment, is within the budget; a refused request
   leaves nothing in it. Which refusal a request gets depends on the first step
   that does not pass.
   */
  method Admit(limits: Limits, retained: nat, dirBytes: nat, upload: Upload, dir: TaskDir) returns (r: Admitted)
    requires dir.Valid() && dir.zip == 0 && dir.files == map[] && dir.written == 0
    modifies dir
    ensures dir.Bytes() <= dir.peak <= dir.written <= Max(0, Budget(limits, dirBytes))
    ensures r.Accepted? ==> dir.zip == upload.size && dir.files == Contents(upload.archive)
    ensures r.Accepted? ==> dir.written == upload.size + Sizes(upload.archive)
    ensures !r.Accepted? ==> dir.Bytes() == 0
    ensures r.Accepted? <==>
      && Saved(limits, retained, dirBytes, upload) && upload.size < Budget(limits, dirBytes)
      && upload.readable && upload.usable
      && Extractable(upload.archive, MaxExtracted(limits, dirBytes, upload),
                     OrDefault(limits.archiveFiles, DEFAULT_ARCHIVE_FILES))
    ensures r.TooManyTasks? <==> retained >= OrDefault(limits.retainedTasks, DEFAULT_RETAINED_TASKS)
    ensures r.NoSpace? <==>
      && retained < OrDefault(limits.retainedTasks, DEFAULT_RETAINED_TASKS)
      && (|| Budget(limits, dirBytes) <= 0
          || (Saved(limits, retained, dirBytes, upload) && upload.size >= Budget(limits, dirBytes)))
    ensures r.TooLarge? <==>
      && retained < OrDefault(limits.retainedTasks, DEFAULT_RETAINED_TASKS)
      && 0 < Budget(limits, dirBytes)
      && (|| upload.body > MaxRequest(limits, dirBytes)
          || (&& Received(limits, retained, dirBytes, upload)
              && (|| upload.declared > MaxRequest(limits, dirBytes)
                  || (Copies(upload.fault) && upload.size > MaxRequest(limits, dirBytes))))
          || (&& Saved(limits, retained, dirBytes, upload) && upload.size < Budget(limits, dirBytes) && upload.readable
              && ExceedsLimits(upload.archive, MaxExtracted(limits, dirBytes, upload),
                               OrDefault(limits.archiveFiles, DEFAULT_ARCHIVE_FILES))))
  {
    if retained >= OrDefault(limits.retainedTasks, DEFAULT_RETAINED_TASKS) {
      return TooManyTasks;
    }
    var remaining := OrDefault(limits.workDirBytes, DEFAULT_WORK_DIR_BYTES) - dirBytes;
    if remaining <= 0 {
      return NoSpace;
    }
    var maxRequest := OrDefault(limits.requestBytes, DEFAULT_REQUEST_BYTES);
    if remaining < maxRequest {
      maxRequest := remaining;
    }
    if upload.body > maxRequest {
      return TooLarge;
    }
    if !upload.wellFormed || !upload.made {
      return Rejected;
    }
    var saved, exceeded := SaveUpload(dir, upload, maxRequest);
    if !saved {
      dir.RemoveAll();
      return if exceeded then TooLarge else Rejected;
    }
    if !upload.counted {
      dir.RemoveAll();
      return Rejected;
    }
    remaining := remaining - dir.zip;
    if remaining <= 0 {
      dir.RemoveAll();
      return NoSpace;
    }
    var maxExtracted := OrDefault(limits.extractedBytes, DEFAULT_EXTRACTED_BYTES);
    if remaining < maxExtracted {
      maxExtracted := remaining;
    }
    var extraction :=
        ExtractZip(dir, upload.readable, upload.archive, maxExtracted,
            OrDefault(limits.archiveFiles, DEFAULT_ARCHIVE_FILES));
    if !extraction.Extracted? {
      dir.RemoveAll();
      return if extraction.OverLimit? then TooLarge else Rejected;
    }
    if !upload.usable {
      dir.RemoveAll();
      return Rejected;
    }
    r := Accepted;
  }

  /** What can be extracted is no larger than its limit. */
  lemma {:induction false} ExtractableFits(files: seq<ArchiveFile>, maxBytes: nat, maxFiles: int, n: nat)
    requires Extractable(files, maxBytes, maxFiles) && n <= |files|
    ensures Sizes(files[..n]) <= maxBytes
  {
    if n > 0 {
      ExtractableFits(files, maxBytes, maxFiles, n - 1);
      assert files[..n][..n - 1] == files[..n - 1];
      assert FileFits(files, n - 1, maxBytes);
    }
  }
}
