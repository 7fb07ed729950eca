/**
 * The pull pass of the Lambda handler: list the bucket, then for every
 * listed object either download it to the mount or skip it, recording a
 * per-object failure and carrying on with the next object.
 *
 * S3 and the filesystem are oracles: directory creation and downloads
 * map their argument to the error text they raised, or `None` when they
 * succeeded; the listing has its own three-way result.
 */
module PullSync {
  import opened Wrappers
  import opened Freshness

  /** One entry of the listing's `Contents`: its key and LastModified time. */
  datatype S3Object = S3Object(key: string, lastModified: int)

  /** What `list_objects_v2` gave back for the bucket. */
  datatype Listing =
    | ListFailed(message: string)       // the call raised
    | NoContents                        // the response has no `Contents` entry
    | Contents(objects: seq<S3Object>)  // the first page of the listing, in order

  /** The effects the handler performs, each reporting the error it raised. */
  datatype PullEffects = PullEffects(
    makeMountDir: string -> Option<string>,   // creating the mount path itself
    listObjects: string -> Listing,            // listing the bucket
    makeParentDir: string -> Option<string>,  // creating the directory above an object's local path
    download: string -> Option<string>)       // downloading one key

  /** The fate of one listed object. */
  datatype ObjectOutcome = Downloaded | Skipped | Errored(message: string)

  /** The text recorded for an object whose handling raised `cause`. */
  function SyncError(key: string, cause: string): string
  {
    "Error syncing " + key + ": " + cause
  }

  /**
   * Handles one object: prepare its directory, compare times against the
   * local copy (keyed by the object's key), download when the rule says so.
   */
  function SyncObject(obj: S3Object, local: map<string, int>, fx: PullEffects): (r: ObjectOutcome)
    ensures r.Downloaded? <==>
              && fx.makeParentDir(obj.key).None?
              && ShouldDownload(Lookup(local, obj.key), obj.lastModified)
              && fx.download(obj.key).None?
    ensures r.Skipped? <==>
              fx.makeParentDir(obj.key).None? && !ShouldDownload(Lookup(local, obj.key), obj.lastModified)
    ensures r.Errored? ==>
              r.message == SyncError(obj.key,
                                     if fx.makeParentDir(obj.key).Some? then fx.makeParentDir(obj.key).value
                                     else fx.download(obj.key).value)
  {
    match fx.makeParentDir(obj.key)
    case Some(cause) => Errored(SyncError(obj.key, cause))
    case None =>
      if !ShouldDownload(Lookup(local, obj.key), obj.lastModified) then Skipped
      else
        match fx.download(obj.key)
        case Some(cause) => Errored(SyncError(obj.key, cause))
        case None => Downloaded
  }

  /** The state of the loop: one outcome per object seen, plus the two detail lists. */
  datatype PullReport = PullReport(outcomes: seq<ObjectOutcome>, downloaded: seq<string>, errors: seq<string>)

  /** Number of skipped objects among some outcomes. */
  function CountSkipped(outcomes: seq<ObjectOutcome>): nat
  {
    if |outcomes| == 0 then 0
    else CountSkipped(outcomes[..|outcomes| - 1]) + (if outcomes[|outcomes| - 1].Skipped? then 1 else 0)
  }

  /** One iteration of the loop over the listing. */
  function Step(report: PullReport, obj: S3Object, local: map<string, int>, fx: PullEffects): PullReport
  {
    var o := SyncObject(obj, local, fx);
    match o
    case Downloaded => PullReport(report.outcomes + [o], report.downloaded + [obj.key], report.errors)
    case Skipped => PullReport(report.outcomes + [o], report.downloaded, report.errors)
    case Errored(m) => PullReport(report.outcomes + [o], report.downloaded, report.errors + [m])
  }

  /**
   * The loop over the listing, as a left fold. Every object receives
   * exactly one outcome, and the downloaded, errored and skipped objects
   * together account for the whole listing.
   */
  function PullAll(objects: seq<S3Object>, local: map<string, int>, fx: PullEffects): (r: PullReport)
    ensures |r.outcomes| == |objects|
    ensures |r.downloaded| + |r.errors| + CountSkipped(r.outcomes) == |objects|
    decreases |objects|
  {
    if |objects| == 0 then PullReport([], [], [])
    else
      var prev := PullAll(objects[..|objects| - 1], local, fx);
      Step(prev, objects[|objects| - 1], local, fx)
  }

  /** One more object extends the pass by one step of the loop. */
  lemma PullAllSnoc(objects: seq<S3Object>, local: map<string, int>, fx: PullEffects)
    requires |objects| > 0
    ensures PullAll(objects, local, fx)
            == Step(PullAll(objects[..|objects| - 1], local, fx), objects[|objects| - 1], local, fx)
  {
  }

  /** The outcome list grows by the last object's outcome. */
  lemma OutcomesSnoc(objects: seq<S3Object>, local: map<string, int>, fx: PullEffects)
    requires |objects| > 0
    ensures PullAll(objects, local, fx).outcomes
            == PullAll(objects[..|objects| - 1], local, fx).outcomes + [SyncObject(objects[|objects| - 1], local, fx)]
  {
    PullAllSnoc(objects, local, fx);
  }

  /**
   * The outcome at each position is `SyncObject` of the object listed
   * there, given `local` and `fx`: a failure on one object does not stop
   * the loop from handling the objects after it.
   */
  lemma {:induction false} EachObjectDecidedAlone(objects: seq<S3Object>, local: map<string, int>, fx: PullEffects)
    ensures forall i :: 0 <= i < |objects| ==> PullAll(objects, local, fx).outcomes[i] == SyncObject(objects[i], local, fx)
    decreases |objects|
  {
    if |objects| > 0 {
      var n := |objects| - 1;
      var init := objects[..n];
      var prev := PullAll(init, local, fx).outcomes;
      var now := PullAll(objects, local, fx).outcomes;
      OutcomesSnoc(objects, local, fx);
      EachObjectDecidedAlone(init, local, fx);
      DecidedAlonePrefix(objects, prev, now, local, fx);
    }
  }

  /** Extends "position i holds `SyncObject` of object i" from all but the last object to all of them. */
  lemma DecidedAlonePrefix(objects: seq<S3Object>, prev: seq<ObjectOutcome>, now: seq<ObjectOutcome>,
                           local: map<string, int>, fx: PullEffects)
    requires |objects| > 0
    requires now == prev + [SyncObject(objects[|objects| - 1], local, fx)]
    requires |prev| == |objects| - 1
    requires forall i :: 0 <= i < |prev| ==> prev[i] == SyncObject(objects[..|objects| - 1][i], local, fx)
    ensures forall i :: 0 <= i < |objects| ==> now[i] == SyncObject(objects[i], local, fx)
  {
    forall i | 0 <= i < |objects|
      ensures now[i] == SyncObject(objects[i], local, fx)
    {
      if i < |prev| {
        assert objects[..|objects| - 1][i] == objects[i];
        assert now[i] == prev[i];
      }
    }
  }

  /** Field-wise concatenation of two reports. */
  function Concat(a: PullReport, b: PullReport): PullReport
  {
    PullReport(a.outcomes + b.outcomes, a.downloaded + b.downloaded, a.errors + b.errors)
  }

  /** A step only appends, so it can be taken after a concatenation or inside its second half. */
  lemma StepConcat(a: PullReport, b: PullReport, obj: S3Object, local: map<string, int>, fx: PullEffects)
    ensures Step(Concat(a, b), obj, local, fx) == Concat(a, Step(b, obj, local, fx))
  {
  }

  /**
   * The pass over a listing split in two is the pass over the first part
   * followed by the pass over the second: both detail lists keep listing
   * order.
   */
  lemma {:induction false} PullAllAppend(a: seq<S3Object>, b: seq<S3Object>, local: map<string, int>, fx: PullEffects)
    ensures PullAll(a + b, local, fx) == Concat(PullAll(a, local, fx), PullAll(b, local, fx))
    decreases |b|
  {
    if |b| == 0 {
      assert a + b == a;
      assert Concat(PullAll(a, local, fx), PullReport([], [], [])) == PullAll(a, local, fx);
    } else {
      var ab := a + b;
      var b' := b[..|b| - 1];
      var last := b[|b| - 1];
      assert ab[..|ab| - 1] == a + b';
      assert ab[|ab| - 1] == last;
      PullAllSnoc(ab, local, fx);
      PullAllSnoc(b, local, fx);
      PullAllAppend(a, b', local, fx);
      StepConcat(PullAll(a, local, fx), PullAll(b', local, fx), last, local, fx);
    }
  }

  /** Whether the loop downloaded `obj`. */
  predicate WasDownloaded(obj: S3Object, local: map<string, int>, fx: PullEffects)
  {
    SyncObject(obj, local, fx).Downloaded?
  }

  /** Whether the loop recorded `message` for `obj`. */
  predicate FailedWith(obj: S3Object, local: map<string, int>, fx: PullEffects, message: string)
  {
    SyncObject(obj, local, fx) == Errored(message)
  }

  /** The downloaded list grows by the last object's key exactly when that object was downloaded. */
  lemma DownloadedSnoc(objects: seq<S3Object>, local: map<string, int>, fx: PullEffects)
    requires |objects| > 0
    ensures var last := objects[|objects| - 1];
            var prev := PullAll(objects[..|objects| - 1], local, fx).downloaded;
            PullAll(objects, local, fx).downloaded
            == if WasDownloaded(last, local, fx) then prev + [last.key] else prev
  {
    PullAllSnoc(objects, local, fx);
  }

  /** The error list grows by the last object's message exactly when that object failed. */
  lemma ErrorsSnoc(objects: seq<S3Object>, local: map<string, int>, fx: PullEffects)
    requires |objects| > 0
    ensures var o := SyncObject(objects[|objects| - 1], local, fx);
            var prev := PullAll(objects[..|objects| - 1], local, fx).errors;
            PullAll(objects, local, fx).errors == if o.Errored? then prev + [o.message] else prev
  {
    PullAllSnoc(objects, local, fx);
  }

  /** Membership in a list that a step may have extended by one element. */
  lemma InSnoc<T>(prev: seq<T>, now: seq<T>, x: T, added: bool, y: T)
    requires now == if added then prev + [x] else prev
    ensures y in now <==> y in prev || (added && y == x)
  {
  }

  /** Some listed object with key `key` was downloaded. */
  predicate SomeDownloaded(objects: seq<S3Object>, local: map<string, int>, fx: PullEffects, key: string)
  {
    exists i :: 0 <= i < |objects| && objects[i].key == key && WasDownloaded(objects[i], local, fx)
  }

  /** Some listed object failed with `message`. */
  predicate SomeFailed(objects: seq<S3Object>, local: map<string, int>, fx: PullEffects, message: string)
  {
    exists i :: 0 <= i < |objects| && FailedWith(objects[i], local, fx, message)
  }

  /** `SomeDownloaded` on a listing is `SomeDownloaded` on all but its last object, or that object. */
  lemma SomeDownloadedSnoc(objects: seq<S3Object>, local: map<string, int>, fx: PullEffects, key: string)
    requires |objects| > 0
    ensures var n := |objects| - 1;
            SomeDownloaded(objects, local, fx, key) <==>
              SomeDownloaded(objects[..n], local, fx, key)
              || (objects[n].key == key && WasDownloaded(objects[n], local, fx))
  {
    var n := |objects| - 1;
    var init := objects[..n];
    if SomeDownloaded(objects, local, fx, key) {
      var i :| 0 <= i < |objects| && objects[i].key == key && WasDownloaded(objects[i], local, fx);
      if i < n {
        assert init[i] == objects[i];
      }
    }
    if SomeDownloaded(init, local, fx, key) {
      var i :| 0 <= i < n && init[i].key == key && WasDownloaded(init[i], local, fx);
      assert objects[i] == init[i];
    }
  }

  /** `SomeFailed` on a listing is `SomeFailed` on all but its last object, or that object. */
  lemma SomeFailedSnoc(objects: seq<S3Object>, local: map<string, int>, fx: PullEffects, message: string)
    requires |objects| > 0
    ensures var n := |objects| - 1;
            SomeFailed(objects, local, fx, message) <==>
              SomeFailed(objects[..n], local, fx, message) || FailedWith(objects[n], local, fx, message)
  {
    var n := |objects| - 1;
    var init := objects[..n];
    if SomeFailed(objects, local, fx, message) {
      var i :| 0 <= i < |objects| && FailedWith(objects[i], local, fx, message);
      if i < n {
        assert init[i] == objects[i];
      }
    }
    if SomeFailed(init, local, fx, message) {
      var i :| 0 <= i < n && FailedWith(init[i], local, fx, message);
      assert objects[i] == init[i];
    }
  }

  /** A key is in the downloaded list exactly when some listed object with that key was downloaded. */
  lemma {:induction false} DownloadedIff(objects: seq<S3Object>, local: map<string, int>, fx: PullEffects, key: string)
    ensures key in PullAll(objects, local, fx).downloaded <==> SomeDownloaded(objects, local, fx, key)
    decreases |objects|
  {
    if |objects| > 0 {
      var n := |objects| - 1;
      var init := objects[..n];
      var last := objects[n];
      var prev := PullAll(init, local, fx).downloaded;
      var now := PullAll(objects, local, fx).downloaded;
      DownloadedSnoc(objects, local, fx);
      DownloadedIff(init, local, fx, key);
      SomeDownloadedSnoc(objects, local, fx, key);
      InSnoc(prev, now, last.key, WasDownloaded(last, local, fx), key);
    }
  }

  /** A message is in the error list exactly when some listed object failed with it. */
  lemma {:induction false} ErrorsIff(objects: seq<S3Object>, local: map<string, int>, fx: PullEffects, message: string)
    ensures message in PullAll(objects, local, fx).errors <==> SomeFailed(objects, local, fx, message)
    decreases |objects|
  {
    if |objects| > 0 {
      var n := |objects| - 1;
      var init := objects[..n];
      var o := SyncObject(objects[n], local, fx);
      var prev := PullAll(init, local, fx).errors;
      var now := PullAll(objects, local, fx).errors;
      ErrorsSnoc(objects, local, fx);
      ErrorsIff(init, local, fx, message);
      SomeFailedSnoc(objects, local, fx, message);
      var cause := if o.Errored? then o.message else message;
      InSnoc(prev, now, cause, o.Errored?, message);
    }
  }

  /** The body of the handler's response. */
  datatype Body =
    | NothingToSync
    | Completed(downloadedFiles: nat, errorCount: nat, downloaded: seq<string>, errors: seq<string>)
    | Failed(error: string)
  {
    /** The `message` field of a 200 response. */
    function Message(): string
      requires !Failed?
    {
      if NothingToSync? then "No objects to sync" else "Sync completed"
    }
  }

  /** The handler's return value: an HTTP-style status code and a body. */
  datatype Response = Response(statusCode: int, body: Body)

  const BucketVar := "S3_BUCKET"
  const MountVar := "EFS_PATH"

  /** The text of the exception raised when an environment variable is missing. */
  function MissingVariable(name: string): string
  {
    "'" + name + "'"
  }

  /**
   * The handler. Any failure before the loop (a missing variable, the
   * mount directory, the listing) yields status 500 with the error text;
   * otherwise the status is 200, either with "No objects to sync" or with
   * the counts and detail lists of the loop.
   */
  function LambdaHandler(environ: map<string, string>, local: map<string, int>, fx: PullEffects): (r: Response)
    ensures r.statusCode == 200 || r.statusCode == 500
    ensures r.statusCode == 500 <==> r.body.Failed?
    ensures r.statusCode == 200 <==>
              && BucketVar in environ && MountVar in environ
              && fx.makeMountDir(environ[MountVar]).None?
              && !fx.listObjects(environ[BucketVar]).ListFailed?
    ensures BucketVar !in environ ==> r.body == Failed(MissingVariable(BucketVar))
    ensures BucketVar in environ && MountVar !in environ ==> r.body == Failed(MissingVariable(MountVar))
    ensures BucketVar in environ && MountVar in environ && fx.makeMountDir(environ[MountVar]).Some? ==>
              r.body == Failed(fx.makeMountDir(environ[MountVar]).value)
    ensures BucketVar in environ && MountVar in environ && fx.makeMountDir(environ[MountVar]).None?
            && fx.listObjects(environ[BucketVar]).ListFailed? ==>
              r.body == Failed(fx.listObjects(environ[BucketVar]).message)
    ensures r.body.NothingToSync? <==>
              r.statusCode == 200 && fx.listObjects(environ[BucketVar]).NoContents?
    ensures r.body.NothingToSync? ==> r.body.Message() == "No objects to sync"
    ensures r.body.Completed? ==>
              && r.body.Message() == "Sync completed"
              && r.body.downloadedFiles == |r.body.downloaded|
              && r.body.errorCount == |r.body.errors|
              && var objects := fx.listObjects(environ[BucketVar]).objects;
                 && r.body.downloadedFiles + r.body.errorCount <= |objects|
                 && r.body.downloaded == PullAll(objects, local, fx).downloaded
                 && r.body.errors == PullAll(objects, local, fx).errors
  {
    if BucketVar !in environ then Response(500, Failed(MissingVariable(BucketVar)))
    else if MountVar !in environ then Response(500, Failed(MissingVariable(MountVar)))
    else
      var bucket := environ[BucketVar];
      var mount := environ[MountVar];
      match fx.makeMountDir(mount)
      case Some(e) => Response(500, Failed(e))
      case None =>
        match fx.listObjects(bucket)
        case ListFailed(e) => Response(500, Failed(e))
        case NoContents => Response(200, NothingToSync)
        case Contents(objects) =>
          var report := PullAll(objects, local, fx);
          Response(200, Completed(|report.downloaded|, |report.errors|, report.downloaded, report.errors))
  }
}
