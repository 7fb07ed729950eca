/**
 * The push pass (`sync_efs_to_s3`): walk the mount and upload every file
 * that S3 lacks or holds an older copy of. Every error is swallowed; the
 * result is the list of keys uploaded, in traversal order.
 *
 * The directory walk is given as the sequence of files it yields, each
 * with its path relative to the mount and its modification time; S3 is a
 * pair of oracles for `head_object` and `upload_file`.
 */
module PushSync {
  import opened Wrappers
  import opened Freshness
  import opened ObjectKeys

  /** A file met by the walk: its path relative to the mount and its modification time. */
  datatype LocalFile = LocalFile(relativePath: string, mtime: int)

  /** The S3 calls the pass makes, keyed by S3 key. */
  datatype PushEffects = PushEffects(
    headObject: string -> HeadResult,
    upload: string -> Option<string>)   // the error `upload_file` raised, or None

  /**
   * Whether handling one file reaches the upload call and that call
   * returns: the lookup must say to upload, and the upload must not raise.
   */
  predicate Uploads(file: LocalFile, fx: PushEffects)
  {
    var key := ToS3Key(file.relativePath);
    DecideUpload(fx.headObject(key), file.mtime).Upload? && fx.upload(key).None?
  }

  /** The pass over the walk; a file whose handling raised is left out and the walk goes on. */
  function SyncEfsToS3(files: seq<LocalFile>, fx: PushEffects): (uploaded: seq<string>)
    ensures |uploaded| <= |files|
    ensures forall k :: k in uploaded ==> '\\' !in k
    decreases |files|
  {
    if |files| == 0 then []
    else
      var prev := SyncEfsToS3(files[..|files| - 1], fx);
      var file := files[|files| - 1];
      if Uploads(file, fx) then prev + [ToS3Key(file.relativePath)] else prev
  }

  /** The pass over a walk split in two uploads the first part's keys, then the second's. */
  lemma {:induction false} SyncEfsToS3Append(a: seq<LocalFile>, b: seq<LocalFile>, fx: PushEffects)
    ensures SyncEfsToS3(a + b, fx) == SyncEfsToS3(a, fx) + SyncEfsToS3(b, fx)
    decreases |b|
  {
    if |b| == 0 {
      assert a + b == a;
    } else {
      var ab := a + b;
      var b' := b[..|b| - 1];
      assert ab[..|ab| - 1] == a + b';
      assert ab[|ab| - 1] == b[|b| - 1];
      SyncEfsToS3Append(a, b', fx);
    }
  }

  /**
   * A key is reported exactly when some walked file with that key reached
   * the upload call and the call returned.
   */
  lemma {:induction false} UploadedIff(files: seq<LocalFile>, fx: PushEffects, key: string)
    ensures key in SyncEfsToS3(files, fx) <==>
              exists i :: 0 <= i < |files| && ToS3Key(files[i].relativePath) == key && Uploads(files[i], fx)
    decreases |files|
  {
    if |files| > 0 {
      var n := |files| - 1;
      var init := files[..n];
      var prev := SyncEfsToS3(init, fx);
      UploadedIff(init, fx, key);
      if key in SyncEfsToS3(files, fx) {
        if key in prev {
          var i :| 0 <= i < n && ToS3Key(init[i].relativePath) == key && Uploads(init[i], fx);
          assert files[i] == init[i];
          assert 0 <= i < |files| && ToS3Key(files[i].relativePath) == key && Uploads(files[i], fx);
        } else {
          assert 0 <= n < |files| && ToS3Key(files[n].relativePath) == key && Uploads(files[n], fx);
        }
      } else {
        forall i | 0 <= i < |files| && ToS3Key(files[i].relativePath) == key
          ensures !Uploads(files[i], fx)
        {
          if i < n {
            assert init[i] == files[i];
          }
        }
      }
    }
  }

  /** A file whose lookup found an S3 copy at least as new is never uploaded. */
  lemma UpToDateFileNotUploaded(file: LocalFile, fx: PushEffects)
    requires fx.headObject(ToS3Key(file.relativePath)).Found?
    requires file.mtime <= fx.headObject(ToS3Key(file.relativePath)).lastModified
    ensures !Uploads(file, fx)
  {
  }

  /** A file whose lookup failed with anything but "no such key" is never uploaded. */
  lemma FailedLookupNotUploaded(file: LocalFile, fx: PushEffects)
    requires fx.headObject(ToS3Key(file.relativePath)).HeadFailed?
    ensures !Uploads(file, fx)
  {
  }
}
