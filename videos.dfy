/**
 * The video service: creating a video and its storage file, submitting it for
 * processing against a credit reservation, and settling the reservation when
 * the remote job reports completion (`VideoService`). The repositories are
 * maps held by the service; the remote processing service (Sage) and the
 * storage presigner are outcomes given to each operation.
 */
module Videos {
  import opened Wrappers
  import opened Text
  import opened Billing
  import opened Storage

  /** `VideoState`. */
  datatype VideoState = Created | Processing | Stopped | Terminated | Done

  datatype Video = Video(id: nat, userId: string, title: string, status: VideoState, fileId: Option<nat>)

  datatype FileProvider = S3

  /** A pointer to a stored object (`File`); the byte size is kept as a number. */
  datatype File = File(id: nat, provider: FileProvider, uri: string, byteSize: int)

  datatype JobType = ProcessVideo

  datatype ComputeProvider = Modal

  /** The result object the remote service reports for a job; opaque here. */
  type RemoteResult = string

  /** One submission to the remote service (`Job`). */
  datatype Job = Job(
    id: nat,
    jobType: JobType,
    resourceId: nat,
    provider: ComputeProvider,
    externalId: string,
    cost: int,
    completed: bool,
    successful: bool,
    result: Option<RemoteResult>)

  /** Metadata of a video as the remote service reports it. */
  datatype VideoInfo = VideoInfo(width: int, height: int, fps: int, durationMs: int)

  /** Status of a remote job (`SageJob`). */
  datatype SageJob = SageJob(completed: bool, result: Option<RemoteResult>)

  datatype VideoError =
    | InvalidFileExtension | FileTooLarge | UploadUrlFailed
    | VideoNotFound | Unauthorized | MissingFile | VideoInfoFailed
    | InsufficientCredits | ProcessingFailed

  /** What `create` returns on success. */
  datatype CreatedVideo = CreatedVideo(id: nat, uploadUrl: SignedUrl)

  /** How a completion webhook ended. */
  datatype Settlement =
    | NoSuchJob          // `findOne` found nothing and `job.completed` throws
    | AlreadyFinalised   // the idempotency guard returned early
    | JobStatusError     // the remote status fetch failed after the release
    | Settled

  /** Largest accepted upload, 5 GiB. */
  const MaxFileSize: int := 5 * 1024 * 1024 * 1024

  /** The size check of `create`, as written: `fileSize / 1024 / 1024 / 1024 > 5`. */
  predicate TooLarge(fileSize: int)
  {
    fileSize as real / 1024.0 / 1024.0 / 1024.0 > 5.0
  }

  /** The size check rejects exactly the sizes above 5 GiB. */
  lemma {:induction false} TooLargeIff(fileSize: int)
    ensures TooLarge(fileSize) <==> fileSize > MaxFileSize
  {
    var x := fileSize as real;
    assert x / 1024.0 / 1024.0 / 1024.0 == x / 1073741824.0;
    assert MaxFileSize as real == 5.0 * 1073741824.0;
  }

  // ---------------------------------------------------------------- path.extname

  /** The path without trailing slashes. */
  function TrimTrailingSlashes(p: string): (r: string)
    ensures |r| <= |p| && r == p[..|r|]
    ensures r == [] || r[|r| - 1] != '/'
  {
    if p != [] && p[|p| - 1] == '/' then TrimTrailingSlashes(p[..|p| - 1]) else p
  }

  /** The last path component: everything after the last '/'. */
  function LastComponent(p: string): (r: string)
    ensures '/' !in r
    ensures |r| <= |p| && r == p[|p| - |r|..]
  {
    if p == [] || p[|p| - 1] == '/' then [] else LastComponent(p[..|p| - 1]) + [p[|p| - 1]]
  }

  /** Position of the last '.' in `s`. */
  function LastDot(s: string): (r: Option<nat>)
    ensures r.Some? ==> r.value < |s| && s[r.value] == '.' && '.' !in s[r.value + 1..]
    ensures r.None? ==> '.' !in s
  {
    if s == [] then None
    else if s[|s| - 1] == '.' then Some(|s| - 1)
    else
      var r := LastDot(s[..|s| - 1]);
      assert s == s[..|s| - 1] + [s[|s| - 1]];
      r
  }

  /**
   * `path.extname` (POSIX): from the last '.' of the last component to its end;
   * empty when there is no '.', when the component starts with its only dot
   * ('.bashrc'), and for the component '..'.
   */
  function ExtName(p: string): (ext: string)
    ensures ext != "" ==> ext[0] == '.' && '/' !in ext && '.' !in ext[1..]
  {
    var base := LastComponent(TrimTrailingSlashes(p));
    match LastDot(base)
    case None => ""
    case Some(d) => if d == 0 || base == ".." then "" else base[d..]
  }

  /** A name without any '.' has no extension ("clip"). */
  lemma {:induction false} ExtNameWithoutDot(p: string)
    requires '.' !in p
    ensures ExtName(p) == ""
  {
    var t := TrimTrailingSlashes(p);
    var base := LastComponent(t);
    assert forall k :: 0 <= k < |base| ==> base[k] == p[|t| - |base| + k];
    assert '.' !in base;
  }

  /** The component-wise view of a plain file name `stem.ext` without slashes. */
  lemma {:induction false} LastComponentOfPlainName(p: string)
    requires '/' !in p
    ensures LastComponent(p) == p
  {
    if p != [] {
      LastComponentOfPlainName(p[..|p| - 1]);
      assert p == p[..|p| - 1] + [p[|p| - 1]];
    }
  }

  /** The last '.' of `stem + "." + ext` is the one before `ext` when `ext` has none. */
  lemma {:induction false} LastDotBeforeExt(stem: string, ext: string)
    requires '.' !in ext
    ensures LastDot(stem + "." + ext) == Some(|stem|)
    decreases |ext|
  {
    var s := stem + "." + ext;
    if ext != [] {
      assert s[..|s| - 1] == stem + "." + ext[..|ext| - 1];
      LastDotBeforeExt(stem, ext[..|ext| - 1]);
    }
  }

  /** The extension of a path that is its own last component, read from a known last dot. */
  lemma {:induction false} ExtNameOfComponent(p: string, d: nat)
    requires LastComponent(TrimTrailingSlashes(p)) == p
    requires LastDot(p) == Some(d) && d != 0 && p != ".."
    ensures ExtName(p) == p[d..]
  {
  }

  /** A path not ending in '/' has no trailing slashes to trim. */
  lemma {:induction false} TrimNoTrailingSlash(p: string)
    requires p != [] && p[|p| - 1] != '/'
    ensures TrimTrailingSlashes(p) == p
  {
  }

  /** The characters of `stem + "." + ext`, position by position. */
  lemma {:induction false} PlainNameChars(stem: string, ext: string)
    requires '/' !in stem && '/' !in ext
    ensures var p := stem + "." + ext;
            && |p| == |stem| + 1 + |ext|
            && p[..|stem|] == stem && p[|stem|] == '.' && p[|stem|..] == "." + ext
            && '/' !in p
  {
    var p := stem + "." + ext;
    forall c | c in p ensures c != '/' {
      var k :| 0 <= k < |p| && p[k] == c;
      if k < |stem| {
        assert p[k] == stem[k];
      } else if k > |stem| {
        assert p[k] == ext[k - |stem| - 1];
      }
    }
  }

  /**
   * A plain file name with a non-empty stem that is not "." has the extension
   * that follows its last dot ("clip.mp4" gives ".mp4").
   */
  lemma {:induction false} PlainNameExtension(stem: string, ext: string)
    requires '/' !in stem && '/' !in ext && '.' !in ext
    requires stem != "" && stem != "."
    ensures ExtName(stem + "." + ext) == "." + ext
  {
    var p := stem + "." + ext;
    PlainNameChars(stem, ext);
    assert p[|p| - 1] in p;
    TrimNoTrailingSlash(p);
    LastComponentOfPlainName(p);
    LastDotBeforeExt(stem, ext);
    assert p != ".." by {
      if |p| == 2 {
        assert |stem| == 1 && p[0] == stem[0];
        assert stem == [stem[0]];
      }
    }
    ExtNameOfComponent(p, |stem|);
  }

  // ---------------------------------------------------------------- storage key

  /** `buildS3VideoPath`: `videos/{id}/video{ext}`. */
  function BuildS3VideoPath(id: string, ext: string): string
  {
    "videos/" + id + "/video" + ext
  }

  /** The storage key of video `id`. */
  function VideoKey(id: nat, ext: string): string
  {
    BuildS3VideoPath(NatToString(id), ext)
  }

  /** A slash-free part followed by a slash: the first slash sits right after that part. */
  lemma {:induction false} FirstSlash(a: string, x: string, p: string)
    requires p == a + x && '/' !in a && x != [] && x[0] == '/'
    ensures |a| < |p| && p[|a|] == '/'
    ensures forall i :: 0 <= i < |a| ==> p[i] != '/'
  {
    assert forall i :: 0 <= i < |a| ==> p[i] == a[i];
  }

  /** Two strings that each continue with '/' right after a slash-free part split at the same place. */
  lemma {:induction false} SplitAtSlash(a: string, x: string, b: string, y: string)
    requires '/' !in a && '/' !in b && a + x == b + y
    requires x != [] && x[0] == '/' && y != [] && y[0] == '/'
    ensures a == b && x == y
  {
    var p := a + x;
    FirstSlash(a, x, p);
    FirstSlash(b, y, p);
    assert |a| == |b|;
    assert a == p[..|a|] && b == p[..|b|];
    assert x == p[|a|..] && y == p[|b|..];
  }

  /** A common prefix cancels. */
  lemma {:induction false} PrefixCancel(c: string, u: string, v: string)
    requires c + u == c + v
    ensures u == v
  {
    assert u == (c + u)[|c|..];
    assert v == (c + v)[|c|..];
  }

  /** The key regrouped as the prefix, the decimal id, and the slash-led rest. */
  lemma {:induction false} VideoKeyParts(id: nat, ext: string)
    ensures VideoKey(id, ext) == "videos/" + (NatToString(id) + ("/video" + ext))
    ensures '/' !in NatToString(id)
  {
  }

  /** Two videos never share a storage key: the key determines the video id and the extension. */
  lemma {:induction false} VideoKeyInjective(a: nat, ea: string, b: nat, eb: string)
    requires VideoKey(a, ea) == VideoKey(b, eb)
    ensures a == b && ea == eb
  {
    VideoKeyParts(a, ea);
    VideoKeyParts(b, eb);
    PrefixCancel("videos/", NatToString(a) + ("/video" + ea), NatToString(b) + ("/video" + eb));
    SplitAtSlash(NatToString(a), "/video" + ea, NatToString(b), "/video" + eb);
    NatToStringInjective(a, b);
    PrefixCancel("/video", ea, eb);
  }

  /** The key read back from a video file's URI is the key the file was created with. */
  lemma {:induction false} ExtractKeyOfVideoUri(s: S3Service, id: nat, ext: string)
    ensures ExtractKey(s, BuildUri(s, VideoKey(id, ext))) == VideoKey(id, ext)
  {
    ExtractKeyOfBuildUri(s, VideoKey(id, ext));
  }

  // ---------------------------------------------------------------- cost

  /** JavaScript `Math.round` on a non-NaN number: the floor of `x + 1/2`. */
  function JsRound(x: real): int
  {
    (x + 0.5).Floor
  }

  /** `Math.round(duration_ms / 1000 / 60)`: the job cost in whole minutes. */
  function CostMinutes(durationMs: int): (m: int)
    ensures m * 60000 - 30000 <= durationMs < m * 60000 + 30000
  {
    var x := durationMs as real / 1000.0 / 60.0;
    assert x == durationMs as real / 60000.0;
    var m := JsRound(x);
    assert (m * 60000 - 30000) as real <= durationMs as real < (m * 60000 + 30000) as real;
    m
  }

  /** The cost is the nearest whole minute, halves rounding up. */
  lemma {:induction false} CostMinutesNearest(durationMs: int)
    ensures CostMinutes(durationMs) * 60000 - 30000 <= durationMs < CostMinutes(durationMs) * 60000 + 30000
    ensures CostMinutes(durationMs) == (durationMs + 30000) / 60000
  {
    var x := durationMs as real / 1000.0 / 60.0;
    var m := CostMinutes(durationMs);
    assert x == durationMs as real / 60000.0;
    assert m as real <= x + 0.5 < m as real + 1.0;
    assert (m * 60000 - 30000) as real <= durationMs as real;
    assert durationMs as real < (m * 60000 + 30000) as real;
  }

  // ---------------------------------------------------------------- job lookup

  /** The first job id in `[i, n)` whose external id is `externalId`. */
  function FindJobFrom(jobs: map<nat, Job>, externalId: string, i: nat, n: nat): (r: Option<nat>)
    ensures r.Some? ==> i <= r.value < n && r.value in jobs && jobs[r.value].externalId == externalId
    ensures r.Some? ==> forall j :: i <= j < r.value && j in jobs ==> jobs[j].externalId != externalId
    ensures r.None? ==> forall j :: i <= j < n && j in jobs ==> jobs[j].externalId != externalId
    decreases n - i
  {
    if i >= n then None
    else if i in jobs && jobs[i].externalId == externalId then Some(i)
    else FindJobFrom(jobs, externalId, i + 1, n)
  }

  /** `jobRepository.findOne({ externalId })`: the oldest job with that external id. */
  function FindJob(jobs: map<nat, Job>, externalId: string, n: nat): (r: Option<nat>)
    ensures r.Some? ==> r.value < n && r.value in jobs && jobs[r.value].externalId == externalId
    ensures r.Some? ==> forall j :: j < r.value && j in jobs ==> jobs[j].externalId != externalId
    ensures r.None? ==> forall j :: j < n && j in jobs ==> jobs[j].externalId != externalId
  {
    FindJobFrom(jobs, externalId, 0, n)
  }

  /** The job `process` creates for a submission. */
  function PendingJob(id: nat, videoId: nat, externalId: string, cost: int): Job
  {
    Job(id, ProcessVideo, videoId, Modal, externalId, cost, false, false, None)
  }

  /** The ledger key of a job (`job.id` as `foreignId`). */
  function JobKey(id: nat): string
  {
    NatToString(id)
  }

  /**
   * The balance effect of a settlement: a release of `cost` to `owner`,
   * followed on success by a debit of the same amount.
   */
  lemma {:induction false} SettlementNet(before: seq<Entry>, after: seq<Entry>, owner: string, cost: int, debited: bool)
    requires |after| == |before| + (if debited then 2 else 1)
    requires after[..|before|] == before
    requires after[|before|].userId == owner && after[|before|].delta == cost
    requires debited ==> after[|before| + 1].userId == owner && after[|before| + 1].delta == -cost
    ensures forall u :: SumDeltas(after, u) == SumDeltas(before, u) + (if u != owner || debited then 0 else cost)
  {
    forall u ensures SumDeltas(after, u) == SumDeltas(before, u) + (if u != owner || debited then 0 else cost) {
      if debited {
        SettlementNetDebited(before, after, owner, cost, u);
      } else {
        SettlementNetReleased(before, after, owner, cost, u);
      }
    }
  }

  lemma {:induction false} SettlementNetReleased(before: seq<Entry>, after: seq<Entry>, owner: string, cost: int, u: string)
    requires |after| == |before| + 1 && after[..|before|] == before
    requires after[|before|].userId == owner && after[|before|].delta == cost
    ensures SumDeltas(after, u) == SumDeltas(before, u) + (if u == owner then cost else 0)
  {
    assert after == before + [after[|before|]];
    SumDeltasAppend(before, after[|before|], u);
  }

  lemma {:induction false} SettlementNetDebited(before: seq<Entry>, after: seq<Entry>, owner: string, cost: int, u: string)
    requires |after| == |before| + 2 && after[..|before|] == before
    requires after[|before|].userId == owner && after[|before|].delta == cost
    requires after[|before| + 1].userId == owner && after[|before| + 1].delta == -cost
    ensures SumDeltas(after, u) == SumDeltas(before, u)
  {
    var mid := after[..|before| + 1];
    assert mid == before + [after[|before|]];
    assert after == mid + [after[|before| + 1]];
    SumDeltasAppend(before, after[|before|], u);
    SumDeltasAppend(mid, after[|before| + 1], u);
  }

  /**
   * The state a settlement of pending job `j` leaves behind: its reservation
   * is released; if the remote status cannot be fetched nothing else changes
   * (the job stays pending); otherwise success debits the cost and marks the
   * video Done, failure marks it Terminated, and the job is recorded as
   * completed with the remote result.
   */
  ghost predicate SettleEffect(oldJobs: map<nat, Job>, oldVideos: map<nat, Video>, oldEntries: seq<Entry>,
                               j: nat, success: bool, status: Option<SageJob>, r: Settlement,
                               newJobs: map<nat, Job>, newVideos: map<nat, Video>, newEntries: seq<Entry>)
    requires j in oldJobs && oldJobs[j].resourceId in oldVideos
  {
    var job := oldJobs[j];
    var video := oldVideos[job.resourceId];
    var release := NewEntry(|oldEntries|, video.userId, job.cost, ChangeType.Release,
                            VideoProcessingJob, JobKey(j), None);
    var debit := NewEntry(|oldEntries| + 1, video.userId, -job.cost, ChangeType.Debit,
                          VideoProcessingJob, JobKey(j), None);
    if status.None? then
      r == JobStatusError && newJobs == oldJobs && newVideos == oldVideos
      && newEntries == oldEntries + [release]
    else
      r == Settled
      && newJobs == oldJobs[j := job.(completed := true, successful := success, result := status.value.result)]
      && newVideos == oldVideos[job.resourceId := video.(status := if success then Done else Terminated)]
      && newEntries == oldEntries + [release] + (if success then [debit] else [])
  }

/** The balance effect of a settlement: the owner regains the reservation unless the job succeeded. */
  lemma {:induction false} SettleEffectNet(oldJobs: map<nat, Job>, oldVideos: map<nat, Video>, oldEntries: seq<Entry>,
                        j: nat, success: bool, status: Option<SageJob>, r: Settlement,
                        newJobs: map<nat, Job>, newVideos: map<nat, Video>, newEntries: seq<Entry>)
    requires j in oldJobs && oldJobs[j].resourceId in oldVideos
    requires SettleEffect(oldJobs, oldVideos, oldEntries, j, success, status, r, newJobs, newVideos, newEntries)
    ensures var owner := oldVideos[oldJobs[j].resourceId].userId;
      forall u :: SumDeltas(newEntries, u) == SumDeltas(oldEntries, u)
        + (if u != owner || (r == Settled && success) then 0 else oldJobs[j].cost)
  {
    var owner := oldVideos[oldJobs[j].resourceId].userId;
    var debited := r == Settled && success;
    assert newEntries[..|oldEntries|] == oldEntries;
    SettlementNet(oldEntries, newEntries, owner, oldJobs[j].cost, debited);
  }

  class VideoService {
    const s3: S3Service
    const billing: BillingService

    var videos: map<nat, Video>
    var files: map<nat, File>
    var jobs: map<nat, Job>
    var nextVideoId: nat
    var nextFileId: nat
    var nextJobId: nat

    /** Ids are below their counters, stored under their own id, and every reference resolves. */
    ghost predicate Valid()
      reads this, billing
    {
      && billing.Valid()
      && (forall v :: v in videos ==> v < nextVideoId && videos[v].id == v
                                       && (videos[v].fileId.Some? ==> videos[v].fileId.value in files))
      && (forall f :: f in files ==> f < nextFileId && files[f].id == f)
      && (forall j :: j in jobs ==> j < nextJobId && jobs[j].id == j && jobs[j].resourceId in videos)
    }

    constructor (s3: S3Service, billing: BillingService)
      requires billing.Valid()
      ensures Valid() && this.s3 == s3 && this.billing == billing
      ensures videos == map[] && files == map[] && jobs == map[]
    {
      this.s3 := s3;
      this.billing := billing;
      videos, files, jobs := map[], map[], map[];
      nextVideoId, nextFileId, nextJobId := 0, 0, 0;
    }

    /**
     * `create`. `signing` is what the presigner produced for the key. A failed
     * signature leaves the already created Video without a file.
     */
    method Create(userId: string, title: string, fileName: string, fileType: string, fileSize: int,
                  signing: Option<string>) returns (r: Result<CreatedVideo, VideoError>)
      requires Valid()
      modifies this
      ensures Valid()
      ensures ExtName(fileName) == "" ==> r == Fail(InvalidFileExtension) && unchanged(this)
      ensures ExtName(fileName) != "" && fileSize > MaxFileSize ==> r == Fail(FileTooLarge) && unchanged(this)
      ensures ExtName(fileName) != "" && fileSize <= MaxFileSize ==>
        var id := old(nextVideoId);
        var fid := old(nextFileId);
        var key := VideoKey(id, ExtName(fileName));
        var signed := SignedUploadUrl(s3, key, signing);
        jobs == old(jobs) &&
        (signed.Fail? ==>
           r == Fail(UploadUrlFailed) && files == old(files)
           && videos == old(videos)[id := Video(id, userId, title, Created, None)]) &&
        (signed.Ok? ==>
           r == Ok(CreatedVideo(id, signed.value))
           && files == old(files)[fid := File(fid, S3, BuildUri(s3, key), fileSize)]
           && videos == old(videos)[id := Video(id, userId, title, Created, Some(fid))])
    {
      var ext := ExtName(fileName);
      if ext == "" {
        return Fail(InvalidFileExtension);
      }
      TooLargeIff(fileSize);
      if TooLarge(fileSize) {
        return Fail(FileTooLarge);
      }
      r := StoreVideo(userId, title, ext, fileSize, signing);
    }

    /** The part of `create` after the checks: the Video row, the signed URL, the File row. */
    method StoreVideo(userId: string, title: string, ext: string, fileSize: int,
                      signing: Option<string>) returns (r: Result<CreatedVideo, VideoError>)
      requires Valid()
      modifies this
      ensures Valid()
      ensures
        var id := old(nextVideoId);
        var fid := old(nextFileId);
        var key := VideoKey(id, ext);
        var signed := SignedUploadUrl(s3, key, signing);
        jobs == old(jobs) &&
        (signed.Fail? ==>
           r == Fail(UploadUrlFailed) && files == old(files)
           && videos == old(videos)[id := Video(id, userId, title, Created, None)]) &&
        (signed.Ok? ==>
           r == Ok(CreatedVideo(id, signed.value))
           && files == old(files)[fid := File(fid, S3, BuildUri(s3, key), fileSize)]
           && videos == old(videos)[id := Video(id, userId, title, Created, Some(fid))])
    {
      var id := nextVideoId;
      var video := Video(id, userId, title, Created, None);
      AddVideo(video);

      var s3Path := BuildS3VideoPath(NatToString(id), ext);
      var res := SignedUploadUrl(s3, s3Path, signing);
      if res.Fail? {
        return Fail(UploadUrlFailed);
      }

      AddFile(video, BuildUri(s3, s3Path), fileSize);
      r := Ok(CreatedVideo(id, res.value));
    }

    /** `videoRepository.save` of a new video under the next id. */
    method AddVideo(video: Video)
      requires Valid() && video.id == nextVideoId && video.fileId == None
      modifies this
      ensures Valid()
      ensures videos == old(videos)[video.id := video] && nextVideoId == old(nextVideoId) + 1
      ensures files == old(files) && jobs == old(jobs) && nextFileId == old(nextFileId)
    {
      videos := videos[video.id := video];
      nextVideoId := nextVideoId + 1;
    }

    /** The File row for a stored upload under the next id, and the video pointing at it. */
    method AddFile(video: Video, uri: string, byteSize: int)
      requires Valid() && video.id in videos
      modifies this
      ensures Valid()
      ensures files == old(files)[old(nextFileId) := File(old(nextFileId), S3, uri, byteSize)]
      ensures videos == old(videos)[video.id := video.(fileId := Some(old(nextFileId)))]
      ensures jobs == old(jobs) && nextVideoId == old(nextVideoId)
    {
      var fid := nextFileId;
      files := files[fid := File(fid, S3, uri, byteSize)];
      nextFileId := nextFileId + 1;
      videos := videos[video.id := video.(fileId := Some(fid))];
    }

    /**
     * `process`. `videoInfo(videoId, key)` and `submit(videoId, key, title)` are
     * the remote service's answers. The status becomes Processing as soon as the
     * owner is confirmed, whatever happens next.
     */
    method Process(userId: string, videoId: nat,
                   videoInfo: (nat, string) -> Option<VideoInfo>,
                   submit: (nat, string, string) -> Option<string>) returns (r: Result<(), VideoError>)
      requires Valid()
      modifies this, billing
      ensures Valid()
      ensures files == old(files)
      ensures videoId !in old(videos) ==> r == Fail(VideoNotFound) && unchanged(this) && unchanged(billing)
      ensures videoId in old(videos) && old(videos)[videoId].userId != userId ==>
        r == Fail(Unauthorized) && unchanged(this) && unchanged(billing)
      ensures videoId in old(videos) && old(videos)[videoId].userId == userId ==>
        var video := old(videos)[videoId];
        videos == old(videos)[videoId := video.(status := Processing)]
        && SubmitOutcome(old(files), old(jobs), old(nextJobId), old(billing.entries), video,
                         videoInfo, submit, r, jobs, billing.entries)
    {
      if videoId !in videos {
        return Fail(VideoNotFound);
      }
      var video := videos[videoId];
      if video.userId != userId {
        return Fail(Unauthorized);
      }
      videos := videos[videoId := video.(status := Processing)];
      r := Submit(video, videoInfo, submit);
    }

    /**
     * What `process` does once the video is marked Processing: the file check,
     * the metadata call, the credit check, the submission, the Job and the
     * reservation.
     */
    ghost predicate SubmitOutcome(files: map<nat, File>, jobs: map<nat, Job>, nextJobId: nat,
                                  entries: seq<Entry>, video: Video,
                                  videoInfo: (nat, string) -> Option<VideoInfo>,
                                  submit: (nat, string, string) -> Option<string>,
                                  r: Result<(), VideoError>, jobs': map<nat, Job>, entries': seq<Entry>)
      requires video.fileId.Some? ==> video.fileId.value in files
    {
      if video.fileId.None? then
        r == Fail(MissingFile) && jobs' == jobs && entries' == entries
      else
        var key := ExtractKey(s3, files[video.fileId.value].uri);
        var info := videoInfo(video.id, key);
        if info.None? then
          r == Fail(VideoInfoFailed) && jobs' == jobs && entries' == entries
        else
          var cost := CostMinutes(info.value.durationMs);
          var job := submit(video.id, key, video.title);
          if cost > SumDeltas(entries, video.userId) then
            r == Fail(InsufficientCredits) && jobs' == jobs && entries' == entries
          else if job.None? then
            r == Fail(ProcessingFailed) && jobs' == jobs && entries' == entries
          else
            r == Ok(())
            && jobs' == jobs[nextJobId := PendingJob(nextJobId, video.id, job.value, cost)]
            && entries' == entries + [NewEntry(|entries|, video.userId, -cost, ChangeType.Reserve,
                                               VideoProcessingJob, JobKey(nextJobId), None)]
    }

    /**
     * The credit check of `process` keeps balances non-negative: a submission
     * reserves at most what the owner has, and only a successful one changes
     * the ledger, and only for the owner.
     */
    lemma {:induction false} SubmitOutcomeBalance(files: map<nat, File>, jobs: map<nat, Job>, nextJobId: nat,
                               entries: seq<Entry>, video: Video,
                               videoInfo: (nat, string) -> Option<VideoInfo>,
                               submit: (nat, string, string) -> Option<string>,
                               r: Result<(), VideoError>, jobs': map<nat, Job>, entries': seq<Entry>)
      requires video.fileId.Some? ==> video.fileId.value in files
      requires SubmitOutcome(files, jobs, nextJobId, entries, video, videoInfo, submit, r, jobs', entries')
      ensures r.Fail? ==> entries' == entries && jobs' == jobs
      ensures r.Ok? ==> 0 <= SumDeltas(entries', video.userId)
      ensures r.Ok? ==> forall u :: u != video.userId ==> SumDeltas(entries', u) == SumDeltas(entries, u)
    {
      if r.Ok? {
        var key := ExtractKey(s3, files[video.fileId.value].uri);
        var cost := CostMinutes(videoInfo(video.id, key).value.durationMs);
        var e := NewEntry(|entries|, video.userId, -cost, ChangeType.Reserve, VideoProcessingJob, JobKey(nextJobId), None);
        assert entries' == entries + [e];
        forall u ensures SumDeltas(entries', u) == SumDeltas(entries, u) + (if u == video.userId then -cost else 0) {
          SumDeltasAppend(entries, e, u);
        }
      }
    }

    method Submit(video: Video,
                  videoInfo: (nat, string) -> Option<VideoInfo>,
                  submit: (nat, string, string) -> Option<string>) returns (r: Result<(), VideoError>)
      requires Valid() && video.id in videos && videos[video.id].fileId == video.fileId
      modifies this, billing
      ensures Valid()
      ensures files == old(files) && videos == old(videos)
      ensures SubmitOutcome(old(files), old(jobs), old(nextJobId), old(billing.entries), video,
                            videoInfo, submit, r, jobs, billing.entries)
    {
      if video.fileId.None? {
        return Fail(MissingFile);
      }
      var videoFile := files[video.fileId.value];
      var s3Key := ExtractKey(s3, videoFile.uri);

      var info := videoInfo(video.id, s3Key);
      if info.None? {
        return Fail(VideoInfoFailed);
      }
      var available := billing.GetAvailableCredits(video.userId);
      var videoLengthMins := CostMinutes(info.value.durationMs);
      if videoLengthMins > available.value {
        // Thrown rather than returned in the source; either way nothing is recorded.
        return Fail(InsufficientCredits);
      }

      var remoteJob := submit(video.id, s3Key, video.title);
      if remoteJob.None? {
        return Fail(ProcessingFailed);
      }
      ghost var jobs0, nextJobId0, entries0 := jobs, nextJobId, billing.entries;
      RecordSubmission(video, remoteJob.value, videoLengthMins);
      r := Ok(());
      SubmitAccepted(files, jobs0, nextJobId0, entries0, video, videoInfo, submit,
                     remoteJob.value, videoLengthMins, jobs, billing.entries);
    }

    /** The accepted case of `SubmitOutcome`, from the values the checks saw. */
    lemma {:induction false} SubmitAccepted(files: map<nat, File>, jobs: map<nat, Job>, nextJobId: nat,
                                            entries: seq<Entry>, video: Video,
                                            videoInfo: (nat, string) -> Option<VideoInfo>,
                                            submit: (nat, string, string) -> Option<string>,
                                            externalId: string, cost: int, jobs': map<nat, Job>, entries': seq<Entry>)
      requires video.fileId.Some? && video.fileId.value in files
      requires var key := ExtractKey(s3, files[video.fileId.value].uri);
               && videoInfo(video.id, key).Some?
               && cost == CostMinutes(videoInfo(video.id, key).value.durationMs)
               && cost <= SumDeltas(entries, video.userId)
               && submit(video.id, key, video.title) == Some(externalId)
      requires jobs' == jobs[nextJobId := PendingJob(nextJobId, video.id, externalId, cost)]
      requires entries' == entries + [NewEntry(|entries|, video.userId, -cost, ChangeType.Reserve,
                                               VideoProcessingJob, JobKey(nextJobId), None)]
      ensures SubmitOutcome(files, jobs, nextJobId, entries, video, videoInfo, submit, Ok(()), jobs', entries')
    {
    }

    /** The end of a successful `process`: the pending Job row, then the reservation of its cost. */
    method RecordSubmission(video: Video, externalId: string, cost: int)
      requires Valid() && video.id in videos
      modifies this, billing
      ensures Valid()
      ensures files == old(files) && videos == old(videos)
      ensures jobs == old(jobs)[old(nextJobId) := PendingJob(old(nextJobId), video.id, externalId, cost)]
      ensures billing.entries == old(billing.entries)
        + [NewEntry(|old(billing.entries)|, video.userId, -cost, ChangeType.Reserve,
                    VideoProcessingJob, JobKey(old(nextJobId)), None)]
    {
      var jid := nextJobId;
      jobs := jobs[jid := PendingJob(jid, video.id, externalId, cost)];
      nextJobId := nextJobId + 1;
      var _ := billing.Reserve(video.userId, cost, VideoProcessingJob, JobKey(jid));
    }

    /** `getJobStatus(id)`: the remote status of a stored job, or a failure for an unknown id. */
    method GetJobStatus(id: nat, sageStatus: string -> Option<SageJob>) returns (r: Option<SageJob>)
      ensures id !in jobs ==> r == None
      ensures id in jobs ==> r == sageStatus(jobs[id].externalId)
    {
      if id !in jobs {
        return None;
      }
      r := sageStatus(jobs[id].externalId);
    }

    /** `onVideoProcessed`: debit the job's cost, then mark the video Done. */
    method OnVideoProcessed(job: Job, video: Video)
      requires Valid() && video.id in videos && videos[video.id] == video
      modifies this, billing
      ensures Valid()
      ensures jobs == old(jobs) && files == old(files)
      ensures videos == old(videos)[video.id := video.(status := Done)]
      ensures billing.entries == old(billing.entries)
        + [NewEntry(|old(billing.entries)|, video.userId, -job.cost, ChangeType.Debit,
                    VideoProcessingJob, JobKey(job.id), None)]
    {
      var _ := billing.Debit(video.userId, job.cost, VideoProcessingJob, JobKey(job.id), None);
      videos := videos[video.id := video.(status := Done)];
    }

    /** Settles pending job `j` (see `SettleEffect`). */
    method Settle(j: nat, success: bool, sageStatus: string -> Option<SageJob>) returns (r: Settlement)
      requires Valid() && j in jobs && !jobs[j].completed
      modifies this, billing
      ensures Valid()
      ensures files == old(files)
      ensures SettleEffect(old(jobs), old(videos), old(billing.entries), j, success,
                           sageStatus(old(jobs)[j].externalId), r, jobs, videos, billing.entries)
    {
      var job := jobs[j];
      var video := videos[job.resourceId];

      var _ := billing.Release(video.userId, job.cost, VideoProcessingJob, JobKey(job.id));

      var jobStatus := GetJobStatus(job.id, sageStatus);
      if jobStatus.None? {
        return JobStatusError;
      }

      FinishJob(job, video, success, jobStatus.value.result);
      r := Settled;
    }

    /** The end of a settlement: failure marks the video Terminated, success debits and marks it Done; the job is completed. */
    method FinishJob(job: Job, video: Video, success: bool, result: Option<RemoteResult>)
      requires Valid() && job.id in jobs && jobs[job.id] == job
      requires video.id in videos && videos[video.id] == video
      modifies this, billing
      ensures Valid()
      ensures files == old(files)
      ensures jobs == old(jobs)[job.id := job.(completed := true, successful := success, result := result)]
      ensures videos == old(videos)[video.id := video.(status := if success then Done else Terminated)]
      ensures billing.entries == old(billing.entries)
        + (if success then [NewEntry(|old(billing.entries)|, video.userId, -job.cost, ChangeType.Debit,
                                     VideoProcessingJob, JobKey(job.id), None)] else [])
    {
      if !success {
        SetStatus(video, Terminated);
      } else {
        OnVideoProcessed(job, video);
      }
      CompleteJob(job, success, result);
    }

    /** `videoRepository.update` of a video's status. */
    method SetStatus(video: Video, status: VideoState)
      requires Valid() && video.id in videos && videos[video.id] == video
      modifies this
      ensures Valid()
      ensures videos == old(videos)[video.id := video.(status := status)]
      ensures files == old(files) && jobs == old(jobs)
    {
      videos := videos[video.id := video.(status := status)];
    }

    /** `jobRepository.update` recording a job's completion and its remote result. */
    method CompleteJob(job: Job, success: bool, result: Option<RemoteResult>)
      requires Valid() && job.id in jobs && jobs[job.id] == job
      modifies this
      ensures Valid()
      ensures jobs == old(jobs)[job.id := job.(completed := true, successful := success, result := result)]
      ensures files == old(files) && videos == old(videos)
    {
      jobs := jobs[job.id := job.(completed := true, successful := success, result := result)];
    }

    /**
     * `onJobCompleted`, the webhook handler: finds the job by its remote id,
     * leaves a completed one alone and settles a pending one. A repeated
     * webhook after a failed status fetch releases the reservation again.
     */
    method OnJobCompleted(externalId: string, success: bool, sageStatus: string -> Option<SageJob>)
      returns (r: Settlement)
      requires Valid()
      modifies this, billing
      ensures Valid()
      ensures files == old(files)
      ensures FindJob(old(jobs), externalId, old(nextJobId)).None? ==>
        r == NoSuchJob && unchanged(this) && unchanged(billing)
      ensures FindJob(old(jobs), externalId, old(nextJobId)).Some? ==>
        var j := FindJob(old(jobs), externalId, old(nextJobId)).value;
        (old(jobs)[j].completed ==> r == AlreadyFinalised && unchanged(this) && unchanged(billing)) &&
        (!old(jobs)[j].completed ==>
           SettleEffect(old(jobs), old(videos), old(billing.entries), j, success,
                        sageStatus(externalId), r, jobs, videos, billing.entries))
    {
      var found := FindJob(jobs, externalId, nextJobId);
      if found.None? {
        return NoSuchJob;
      }
      if jobs[found.value].completed {
        return AlreadyFinalised;
      }
      r := Settle(found.value, success, sageStatus);
    }
  }
}
