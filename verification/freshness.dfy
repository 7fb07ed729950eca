/**
 * The modification-time rules that decide whether a copy is transferred,
 * in either direction. Timestamps are plain integers; the time-zone
 * stripping of the Lambda code is not modelled.
 */
module Freshness {
  import opened Wrappers

  /** What the S3 `head_object` call reports for one key. */
  datatype HeadResult =
    | Found(lastModified: int)      // the object exists, with its LastModified time
    | NoSuchKey                     // the call raised the "no such key" exception
    | HeadFailed(message: string)   // the call raised any other exception

  /** What the push pass does with one local file once the lookup has answered. */
  datatype UploadDecision = Upload | UpToDate | LookupFailed(message: string)

  /**
   * Pull rule: a download is skipped only when a local copy exists whose
   * modification time is at least the S3 LastModified time.
   */
  predicate ShouldDownload(localMtime: Option<int>, s3Mtime: int)
  {
    match localMtime
    case None => true
    case Some(l) => !(l >= s3Mtime)
  }

  /**
   * Push rule: the upload flag starts set and is cleared only when S3 has
   * the key with a LastModified time at least the local one; an exception
   * other than "no such key" abandons the file.
   */
  function DecideUpload(head: HeadResult, localMtime: int): (d: UploadDecision)
    ensures d.Upload? <==> head.NoSuchKey? || (head.Found? && localMtime > head.lastModified)
    ensures d.UpToDate? <==> head.Found? && localMtime <= head.lastModified
    ensures d.LookupFailed? <==> head.HeadFailed?
  {
    match head
    case HeadFailed(m) => LookupFailed(m)
    case NoSuchKey => Upload
    case Found(s3Mtime) => if localMtime <= s3Mtime then UpToDate else Upload
  }

  /**
   * For a file present on both sides, exactly one of three things holds:
   * the pull rule chooses to download it, the push rule chooses to upload
   * it, or the two timestamps are equal and neither rule chooses a
   * transfer.
   */
  lemma TransferTrichotomy(localMtime: int, s3Mtime: int)
    ensures ShouldDownload(Some(localMtime), s3Mtime) <==> localMtime < s3Mtime
    ensures DecideUpload(Found(s3Mtime), localMtime).Upload? <==> s3Mtime < localMtime
    ensures !(ShouldDownload(Some(localMtime), s3Mtime) && DecideUpload(Found(s3Mtime), localMtime).Upload?)
    ensures localMtime == s3Mtime ==>
              !ShouldDownload(Some(localMtime), s3Mtime) && DecideUpload(Found(s3Mtime), localMtime).UpToDate?
  {
  }

  /** A missing local file is always downloaded, whatever the S3 time. */
  lemma MissingFileDownloads(s3Mtime: int)
    ensures ShouldDownload(None, s3Mtime)
  {
  }
}
