# S3 ⇄ EFS sync Lambda, modelled in Dafny

This project models the reconciliation logic of the `lambda_function.py`
module of an S3-to-EFS synchronisation Lambda. S3, the mounted EFS file
system and the clock are abstracted away:

- the bucket listing is a sequence of `(key, LastModified)` pairs, and
  modification times are plain integers;
- in the pull pass, the local side is a map from key (the path relative
  to the mount) to modification time; in the push pass, it is the
  sequence of files the directory walk yields, each a relative path with
  its modification time;
- `mkdir`, `download_file` and `upload_file` are oracle parameters that
  return the error text they raised, or `None`;
- `list_objects_v2` is an oracle with a three-way result: it raised (with
  its error text), the response has no `Contents`, or the listed objects;
- `head_object` is an oracle with a three-way result: the object's
  LastModified time, "no such key", or any other error (with its text).

Modules, one per piece of the source:

- `Wrappers` (`wrappers.dfy`): `Option` and a map lookup.
- `Freshness` (`freshness.dfy`): the download rule of the pull pass, the
  three-way upload decision of the push pass, and how the two relate.
- `ObjectKeys` (`object_keys.dfy`): the S3 key derived from a relative path.
- `PullSync` (`pull_sync.dfy`): `lambda_handler`, as a per-object decision,
  a left fold over the listing, and the shaping of the status record.
- `PushSync` (`push_sync.dfy`): `sync_efs_to_s3`, as a fold over the files
  the directory walk yields.
- `FileSize` (`file_size.dfy`): the unit that `get_file_size` chooses.

The code takes no lock, never deletes anything on either side, has no
dry-run mode, and does not abort a pass on a failure: it records the
failure of one object or file and moves on to the next.

## Model

| member | source | states |
|---|---|---|
| `Freshness.TransferTrichotomy` | lambda_function.py:58-64 | For a file present on both sides, the pull rule chooses to download iff the local time is strictly earlier than LastModified. The push rule chooses to upload iff the local time is strictly later. So the two rules never both choose a transfer, and on equal times neither does. The push half is the rule at lines 122-134. Whether a chosen transfer happens also depends on the directory, download or upload call succeeding. |
| `Freshness.MissingFileDownloads` | lambda_function.py:58-59 | An object with no local file at its path is always chosen for download. |
| `Freshness.DecideUpload` | lambda_function.py:122-134 | Upload iff the lookup reports "no such key" or the local time is strictly later than the S3 time. An S3 copy at least as new gives UpToDate. Any other lookup error abandons the file. |
| `ObjectKeys.ToS3Key` | lambda_function.py:117-118 | The key has the path's length and, at every position, the path's character, except that each backslash becomes `/`. The key contains no backslash. |
| `ObjectKeys.SlashPathIsItsOwnKey` | lambda_function.py:118 | A relative path without backslashes is used unchanged as the key. |
| `ObjectKeys.ToS3KeyIdempotent` | lambda_function.py:118 | Normalising a key a second time changes nothing. |
| `ObjectKeys.ToS3KeyAppend` | lambda_function.py:117-118 | Key derivation commutes with concatenating path pieces. |
| `PullSync.SyncObject` | lambda_function.py:51-75 | An object is Downloaded iff its directory was prepared, the pull rule chose it, and the download did not raise. It is Skipped iff the directory was prepared and the local copy is at least as new. Otherwise it is Errored, with the message `Error syncing <key>: <cause>`, where the cause is the directory error if there was one and the download error otherwise. |
| `PullSync.PullAll` | lambda_function.py:44-75 | There is one outcome per listed object. The downloaded list, the error list and the skipped objects together number exactly the objects in the listing. |
| `PullSync.EachObjectDecidedAlone` | lambda_function.py:47-75 | The outcome at each position is the per-object decision for that object, given the local times and the effects' answers. A failure on one object does not stop later objects from being handled. |
| `PullSync.PullAllAppend` | lambda_function.py:44-75 | The pass over a listing `a + b` equals the pass over `a` followed by the pass over `b`, field by field. So `downloaded` and `errors` keep listing order. |
| `PullSync.DownloadedIff` | lambda_function.py:67-70 | A key is in `downloaded` iff some listed object with that key was downloaded. |
| `PullSync.ErrorsIff` | lambda_function.py:72-75 | A message is in `errors` iff some listed object failed with exactly that message. |
| `PullSync.LambdaHandler` | lambda_function.py:20-102 | The status is 200 iff both environment variables are present, creating the mount directory succeeds and listing succeeds; otherwise it is 500 with the error text. A missing variable gives the KeyError text `'S3_BUCKET'` or `'EFS_PATH'`. A listing without `Contents` gives "No objects to sync". Otherwise the status is "Sync completed", the counts equal the lengths of the detail lists, the lists are those of the fold, and the two counts sum to at most the number of listed objects. |
| `PushSync.SyncEfsToS3` | lambda_function.py:108-147 | The pass is total: it never raises. It returns at most one key per walked file, and no returned key contains a backslash. |
| `PushSync.SyncEfsToS3Append` | lambda_function.py:112-139 | The pass over a walk `a + b` returns the keys uploaded for `a` followed by those for `b`. The result keeps traversal order, and a walk cut short returns the uploads of the files it reached. |
| `PushSync.UploadedIff` | lambda_function.py:120-142 | A key is returned iff some walked file with that key reached the upload call and the call returned. |
| `PushSync.UpToDateFileNotUploaded` | lambda_function.py:123-130 | A file whose S3 copy is at least as new is never uploaded. |
| `PushSync.FailedLookupNotUploaded` | lambda_function.py:123-143 | A file whose lookup raised anything other than "no such key" is never uploaded. |
| `FileSize.SelectUnit` | lambda_function.py:149-156 | The loop picks B below 1024 bytes, KB below 1024², MB below 1024³, GB below 1024⁴, and TB otherwise. The value it formats is exactly the byte count divided by 1024 to the unit's rank, and it is below 1024 unless the unit is TB. |
| `FileSize.UnitForMonotonic` | lambda_function.py:152-156 | A larger byte count is never reported in a smaller unit. |

## Left out

- The boto3 calls and the filesystem are oracles. What they actually do is not modelled: which exception `head_object` raises for a missing key, where bytes land, or which mtime a download leaves on disk. So nothing claims that a second run is a no-op.
- Pagination: only the first `list_objects_v2` page is read by the handler, and the model's listing is that page.
- `os.walk` traversal order and `os.path.join`/`relpath` semantics (absolute keys, `..`) are inputs. The walk is the sequence of files it yields. An exception that ends the walk early is modelled by the prefix it reached (see `PushSync.SyncEfsToS3Append`).
- The local map gives, for each key, what the existence check and `getmtime` see for that key when the loop reaches it. Changes made by the run itself are not modelled. The run's own directory creation can make a folder-marker key such as `d/` exist locally. An earlier download to an aliasing path (`a//b` then `a/b`) can refresh the file. In the code, both can turn a download into a skip.
- `PushSync.SyncEfsToS3`: the `head_object` and `upload_file` oracles are fixed functions of the key, so an upload does not change what a later lookup of the same key reports. `ToS3Key` is not injective: a file named `a\b` at the mount root and a file `b` under `a/` both map to `a/b`. In the code, the second lookup would see the first upload and normally skip. The model answers both lookups alike and may report the key twice.
- `os.path.getmtime` failing (a file vanishing mid-run) is not modelled, in either pass. In the pull pass that means after the existence check (lines 59-60). In the push pass it means after the walk yielded the file and `head_object` returned (line 126); there such a failure would leave the file un-uploaded (line 141). The local time is always available.
- Time zones: both sides' times are plain integers, whereas the code compares a naive local time with a tz-stripped S3 time.
- Logging, JSON serialisation, the `utcnow().isoformat()` timestamps and the module-level client and logger setup.
- `FileSize.SelectUnit`: the `.1f` formatting of the scaled value and floating-point rounding are not modelled. The scaled value is an exact real, which equals the float result for every byte count below 2^53. Below that bound the count converts to a float exactly and dividing by 1024 is exact; from 2^53 on, the conversion rounds. The chosen unit is not affected.
