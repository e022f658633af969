# Retake: a verified model of the video pipeline's core

Retake turns long videos into short highlight clips. A TypeScript API keeps a
credit ledger; it stores uploads in S3 and submits videos to a Python
processing app on Modal, which settles the cost once the job has run. The app
does several things:

- it transcribes each video;
- it asks a language model for highlight timeranges;
- it cuts the clips;
- it compiles a result that the API receives by webhook.

This project models the deterministic core of both halves in Dafny and proves
what each part promises:

- `billing.dfy` (module `Billing`) covers the ledger and `BillingService`. A
  user's credit is the sum of that user's deltas. Credit and release add the
  amount; reserve and debit subtract it. Each operation appends one entry and
  changes exactly one user's sum.
- `storage.dfy` (module `Storage`) covers `S3Service`'s string functions:
  `buildUri`, `buildUrl` and `extractKey` (a round trip), plus the result
  mappings of `getSignedUploadUrl` and `fileSize`.
- `videos.dfy` (module `Videos`) covers `VideoService` as a class over maps of
  videos, files and jobs, with the ledger as a `BillingService` object:
  - `create` checks the extension (`path.extname`) and the 5 GiB limit.
  - `process` checks ownership, the file, the metadata and the credit. It then
    records a pending job and a reservation.
  - `onJobCompleted` either leaves an already completed job alone, or releases
    the reservation and settles. On success it debits and marks the video
    Done; on failure it marks the video Terminated.
  - `getJobStatus` and `buildS3VideoPath` are pure functions.
  - Remote answers (Sage, the presigner) are parameters of each operation.
- `highlights.dfy` (module `Highlights`) covers `get_highlights` and
  `generate_clips` in `py/retake/sage/core.py`:
  - it cuts the SRT transcript into sections of at most 10000 characters, with
    the last lines of each section carried into the next;
  - it scans a completion's timeranges: stop at the first invalid one, fuse
    ranges that touch, and accept a total length within [15, 120] seconds;
  - it computes the clip id, the sum of `int(start + end)` over the ranges.
- `modal.dfy` (module `ModalApp`) covers `py/retake/api/main.py`:
  - `get_children` as a pre-order flattening of the call graph;
  - `job_status` and `save_job` over the shared job store;
  - the length gate of `process_video`;
  - `compile_result`: clip ids and URIs, re-timing speech onto clip time with
    the `clip_length` accumulator, and the word-time fallback;
  - the dataclass calls in `save_job`, `job_status` and `compile_result`.
    As written, these calls raise TypeError (see Findings). Each operation is
    modelled both as written and corrected, and the rest of the model uses
    the corrected form.
- `probe.dfy` (module `Probe`) covers `py/retake/sage/video.py`: reading
  ffprobe's output in `from_source` and the scale filter that `downscale`
  chooses.
- `wrappers.dfy`, `text.dfy` and `numbers.dfy` hold shared pieces:
  - `Option` and `Result`;
  - string splitting, joining, search and replace, and decimal rendering;
  - Python's `int()` on a float, which truncates toward zero.

Some modelling choices apply across files:

- Repository ids are counters. Decimal strings stand in for them where the
  source uses them as strings (the S3 key, the ledger's `foreignId`).
- Timestamps are exact `real`s.
- JavaScript `Math.round(x)` is `floor(x + 0.5)`.
- Where the code and its design description differ, the model follows the
  code. The transcript sectioning counts each carried-over line as 2
  characters, the length of its `(timestamp, sentence)` tuple. The 400-character
  carry-over budget therefore never stops the walk, and the model states it
  that way.

## Model

| member | source | states |
|---|---|---|
| Billing.SumDeltas | packages/core/src/repositories/BalanceRepository.ts:5 | `sumDeltas`: a user without entries has balance 0 |
| Billing.SumDeltasIsTotalOfOwnEntries | packages/core/src/services/BillingService.ts:17-20 | a user's balance is the total of the deltas of that user's entries |
| Billing.SumDeltasAppend | packages/core/src/services/BillingService.ts:22-42 | appending an entry changes only its owner's balance, by exactly its delta |
| Billing.SumDeltasConcat | packages/core/src/services/BillingService.ts:17-20 | the balance over two runs of entries is the sum of the two balances |
| Billing.ReserveReleaseRestores | packages/core/src/services/BillingService.ts:62-94 | a reserve followed by a release of the same amount leaves every user's balance as it was |
| Billing.ReserveReleaseDebitNetsDebit | packages/core/src/services/BillingService.ts:62-112 | reserve, release, then debit of one amount nets to a single debit |
| Billing.DoubleReleaseOvercredits | packages/core/src/services/BillingService.ts:79-94 | releasing one reservation twice returns the amount to the user a second time |
| Billing.BillingService.constructor | packages/core/src/services/BillingService.ts:9-15 | the ledger starts empty and valid |
| Billing.BillingService.SumFor | packages/core/src/services/BillingService.ts:17-20 | the ledger's balance for a user is the total of that user's own entries |
| Billing.BillingService.GetAvailableCredits | packages/core/src/services/BillingService.ts:17-20 | the available credit is the sum of the user's deltas, and the ledger is unchanged |
| Billing.BillingService.CreateEntry | packages/core/src/services/BillingService.ts:22-42 | appends exactly one entry whose id is its position; only the user's sum moves, by the delta |
| Billing.BillingService.Credit | packages/core/src/services/BillingService.ts:44-60 | appends a Credit entry of `+amount`, and the user's sum grows by the amount |
| Billing.BillingService.Reserve | packages/core/src/services/BillingService.ts:62-77 | appends a Reserve entry of `-amount` with no descriptor, and the user's sum drops by the amount |
| Billing.BillingService.Release | packages/core/src/services/BillingService.ts:79-94 | appends a Release entry of `+amount`, and the user's sum grows by the amount |
| Billing.BillingService.Debit | packages/core/src/services/BillingService.ts:96-112 | appends a Debit entry of `-amount`, and the user's sum drops by the amount |
| Storage.StripLeadingSlash | packages/core/src/services/S3Service.ts:63 | at most one leading `/` is removed, and nothing else changes |
| Storage.BuildUri | packages/core/src/services/S3Service.ts:68-72 | the URI is `s3://{bucket}/` followed by the key without its leading slash |
| Storage.BuildUrl | packages/core/src/services/S3Service.ts:62-66 | the URL is `https://{bucket}.s3.{region}.amazonaws.com/` followed by the key without its leading slash |
| Storage.ExtractKey | packages/core/src/services/S3Service.ts:74-82 | a URI without `s3://` comes back unchanged; one that starts with `s3://{bucket}/` loses exactly that prefix |
| Storage.ExtractKeyOfBuildUri | packages/core/src/services/S3Service.ts:68-82 | extracting the key from a built URI gives back the key without its leading slash |
| Storage.ExtractKeyKeepsOtherUris | packages/core/src/services/S3Service.ts:74-82 | a URI not starting with `s3://`, such as an `https://` URL, comes back unchanged |
| Storage.ExtractKeyForeignBucket | packages/core/src/services/S3Service.ts:74-76 | an `s3://` URI that never contains this bucket's prefix comes back unchanged |
| Storage.BuildUriStripsOneSlash | packages/core/src/services/S3Service.ts:62-72 | only one leading slash is dropped: `//k` keeps the second |
| Storage.SignedUploadUrl | packages/core/src/services/S3Service.ts:31-60 | success exactly when the presigner gave a non-empty string; the result pairs it with the key's public URL |
| Storage.FileSize | packages/core/src/services/S3Service.ts:18-29 | a missing object has size 0; other errors fail with their cause; otherwise the content length |
| Videos.TooLargeIff | packages/core/src/services/VideoService.ts:56-58 | the size check rejects exactly the sizes above 5·1024³ bytes; exactly 5 GiB is accepted |
| Videos.ExtName | packages/core/src/services/VideoService.ts:53 | an extension is empty or a single `.`-prefixed piece without `/` or another `.` |
| Videos.ExtNameWithoutDot | packages/core/src/services/VideoService.ts:53-54 | a file name without a dot (`"clip"`) has no extension, so `create` fails |
| Videos.PlainNameExtension | packages/core/src/services/VideoService.ts:53 | `stem.ext`, with a non-empty stem that is not `.`, has the extension `.ext` |
| Videos.VideoKeyInjective | packages/core/src/services/VideoService.ts:239-241 | two videos never share a storage key: the key determines both the id and the extension |
| Videos.ExtractKeyOfVideoUri | packages/core/src/services/VideoService.ts:67-102 | the key `process` reads back from the stored file URI is the key `create` built |
| Videos.CostMinutes | packages/core/src/services/VideoService.ts:120 | `Math.round` of the duration in minutes lies within half a minute of the duration |
| Videos.CostMinutesNearest | packages/core/src/services/VideoService.ts:120 | the job cost is the duration rounded to the nearest minute, halves up: `(ms + 30000) div 60000` |
| Videos.FindJobFrom | packages/core/src/services/VideoService.ts:167 | finds the first job holding the external id, or reports that no job holds it |
| Videos.FindJob | packages/core/src/services/VideoService.ts:167 | `findOne({ externalId })`: the oldest job holding the external id, or none holds it |
| Videos.SettlementNet | packages/core/src/services/VideoService.ts:172-218 | a release of the cost, followed on success by a debit of it, nets to zero on success and to `+cost` otherwise, for the owner only |
| Videos.SettleEffectNet | packages/core/src/services/VideoService.ts:166-226 | after settling, the owner regains the reservation unless the job settled successfully; no other balance moves |
| Videos.VideoService.constructor | packages/core/src/services/VideoService.ts:28-44 | the service starts with empty stores over the given ledger |
| Videos.VideoService.Create | packages/core/src/services/VideoService.ts:46-83 | fails with no change on an empty extension or a size over 5 GiB; otherwise creates the video, and on a signed URL also the file at `s3://…/videos/{id}/video{ext}`, linked to the video |
| Videos.VideoService.StoreVideo | packages/core/src/services/VideoService.ts:60-83 | a failed signature leaves a video without a file; a successful one adds the file and links it |
| Videos.VideoService.AddVideo | packages/core/src/services/VideoService.ts:60-65 | `videoRepository.create`: the new video under the next video id; files and jobs unchanged |
| Videos.VideoService.AddFile | packages/core/src/services/VideoService.ts:73-80 | `fileRepository.create`, then the video update: a new S3 file row under the next file id, and the video linked to it |
| Videos.VideoService.Process | packages/core/src/services/VideoService.ts:85-98 | an unknown video or a wrong owner fails with no change; otherwise the video becomes Processing, whatever follows |
| Videos.VideoService.SubmitOutcomeBalance | packages/core/src/services/VideoService.ts:110-158 | a failed submission leaves jobs and ledger alone; a successful one leaves the owner's balance non-negative, and no other balance moves |
| Videos.VideoService.Submit | packages/core/src/services/VideoService.ts:96-164 | missing file, failed metadata, insufficient credit or failed submission each fail with nothing recorded; success records a pending job of cost `round(minutes)` and a reservation keyed by the job id |
| Videos.VideoService.RecordSubmission | packages/core/src/services/VideoService.ts:136-158 | a pending job row under the next job id, then one Reserve entry of `-cost` keyed by that id; videos and files stay |
| Videos.VideoService.GetJobStatus | packages/core/src/services/VideoService.ts:228-236 | an unknown job id fails; a known one gives the remote status of its external id |
| Videos.VideoService.OnVideoProcessed | packages/core/src/services/VideoService.ts:206-226 | debits the job's cost from the owner and marks the video Done; nothing else changes |
| Videos.VideoService.Settle | packages/core/src/services/VideoService.ts:170-203 | releases the reservation; if the status fetch fails nothing else changes; otherwise debits and marks Done, or marks Terminated, and marks the job completed with its result |
| Videos.VideoService.FinishJob | packages/core/src/services/VideoService.ts:189-226 | failure marks the video Terminated with no ledger entry; success appends one Debit of the cost and marks it Done; the job is then completed with the result |
| Videos.VideoService.SetStatus | packages/core/src/services/VideoService.ts:189-194 | `videoRepository.update` of the status: only that video's status changes |
| Videos.VideoService.CompleteJob | packages/core/src/services/VideoService.ts:198-203 | `jobRepository.update`: the job is completed with its success flag and result; nothing else changes |
| Videos.VideoService.OnJobCompleted | packages/core/src/services/VideoService.ts:166-204 | a completed job is left alone, so settlement happens once; a pending one is settled as `Settle` states |
| Highlights.Sentences | py/retake/sage/core.py:57-58 | the sentences are lines 2, 6, 10, …, and there are `(n - 3) div 4 + 1` of them for `n > 2` lines |
| Highlights.Pairs | py/retake/sage/core.py:65-66 | each sentence of `lines[2::4]`, in order, is paired with the timestamp line just before it |
| Highlights.CarryOver | py/retake/sage/core.py:81-96 | the carried lines are the section's last three, in order, and count 2 each |
| Highlights.AddLine | py/retake/sage/core.py:65-104 | one line of the loop keeps the closed sections as windows and the open section as the carried lines plus the lines since |
| Highlights.Sectionize | py/retake/sage/core.py:55-104 | the sections are windows over the lines in order. Each is the previous section's carried lines plus new lines, closed when the next line would pass the limit or the lines end. |
| Highlights.SectionLines | py/retake/sage/core.py:62-104 | the loop over the (timestamp, sentence) lines gives sections that are windows in the same sense |
| Highlights.SectionsCoverInOrder | py/retake/sage/core.py:62-104 | the new lines of the first `k` sections, in order, are the transcript's lines up to the end of section `k - 1` |
| Highlights.SectionsCover | py/retake/sage/core.py:62-104 | the new lines of all sections, in order, are exactly the transcript's lines |
| Highlights.CarriedFromPrevious | py/retake/sage/core.py:84-104 | each later section starts with the last three lines (at most) of the previous one |
| Highlights.LastSectionEndsTranscript | py/retake/sage/core.py:69-75 | every section holds a new line, and the last one ends with the transcript's last line |
| Highlights.NoSentencesNoSections | py/retake/sage/core.py:58-75 | a transcript of at most two lines gives no sections |
| Highlights.AcceptedCount | py/retake/sage/core.py:156-172 | the scan keeps the matches before the first one that ends at or before its start, or starts before the previous end |
| Highlights.Fuse | py/retake/sage/core.py:178-182 | fusion never adds ranges, keeps non-emptiness and ends where the last match ends |
| Highlights.FuseOrdered | py/retake/sage/core.py:160-184 | fused valid matches are non-empty ranges in strictly increasing, non-touching order |
| Highlights.FuseLength | py/retake/sage/core.py:176-182 | fusing touching ranges keeps the total length |
| Highlights.ScanTimeranges | py/retake/sage/core.py:152-184 | the timeranges are the fused accepted prefix; the total is its length, which equals the fused length |
| Highlights.EvaluateCompletion | py/retake/sage/core.py:141-192 | an attempt uses the `to` matches only when there are no `-->` ones. No matches, too short (< 15 s), too long (> 120 s) and accepted are told apart exactly; an accepted highlight is ordered and non-empty. |
| Highlights.ClipId | py/retake/sage/core.py:276-283 | the loop computes the sum of `int(start + end)` over the timeranges |
| Highlights.ClipIdOf | py/retake/sage/core.py:276-283 | the summed clip id of non-negative timeranges is never negative |
| Highlights.ClipIdConcat | py/retake/sage/core.py:276-283 | the clip id of joined range lists is the sum of their ids |
| Highlights.ClipIdBounds | py/retake/sage/core.py:283 | the clip id is non-negative and at most the sum of all endpoints |
| ModalApp.GetChildren | py/retake/api/main.py:327-332 | the flattening is empty exactly for a node without children |
| ModalApp.GetChildrenSize | py/retake/api/main.py:327-332 | the flattening lists every node below the root once: one less than the tree's size |
| ModalApp.GetChildrenAreDescendants | py/retake/api/main.py:327-332 | a node is in the flattening if and only if it is a proper descendant |
| ModalApp.PreOrderLayout | py/retake/api/main.py:329-331 | each child is followed directly by its own flattening: pre-order |
| ModalApp.ChildrenFromSplit | py/retake/api/main.py:329-331 | the whole flattening splits at any child boundary into the blocks before it and the flattening from there |
| ModalApp.SuccessCountAll | py/retake/api/main.py:361-362 | `done >= len(tasks)` holds exactly when every task succeeded |
| ModalApp.GraphCompleted | py/retake/api/main.py:357-364 | an empty graph (IndexError) leaves completion unset |
| ModalApp.CompletedIffAllSucceeded | py/retake/api/main.py:357-364 | a graph is complete exactly when every descendant of its first node succeeded |
| ModalApp.KeywordCall | py/retake/api/types.py:11-17 | a dataclass without defaults raises TypeError exactly when a keyword names no field or a field gets no value |
| ModalApp.JobWithoutCallIdRaises | py/retake/api/main.py:315-320 | the `Job(...)` calls pass no `call_id`, so they raise; adding it would build the job |
| ModalApp.VideoResultWithReasonRaises | py/retake/api/main.py:224-231 | `reason=None` names no field of `VideoResult` and leaves `failure_reason` unset, so it raises; passing `failure_reason` instead would build it |
| ModalApp.JobStatusOf | py/retake/api/main.py:335-381 | corrected `job_status`: the store is unchanged or gets the answer under the call id; only a finished call writes it |
| ModalApp.CompletedIsFinal | py/retake/api/main.py:336-338 | a completed answer is cached, and every later query returns it unchanged |
| ModalApp.OtherJobsUntouched | py/retake/api/main.py:366 | only the queried call's entry of the store can change |
| ModalApp.CompletedIff | py/retake/api/main.py:335-381 | the answer is completed exactly when the cached job was, or the finished call's graph is non-empty and fully successful |
| ModalApp.UnknownJobIsNotFound | py/retake/api/main.py:374-381 | with nothing cached and no finished call, the answer is the `not_found` job |
| ModalApp.JobStore.constructor | py/retake/api/main.py:76 | the job store starts empty |
| ModalApp.JobStore.SaveJobAsWritten | py/retake/api/main.py:312-324 | as written, every call raises TypeError and nothing is stored |
| ModalApp.JobStore.SaveJob | py/retake/api/main.py:312-324 | corrected (`call_id` None): stores a pending job with no result and the creation time under its call id |
| ModalApp.SavedJobIsAnswered | py/retake/api/main.py:312-381 | a job saved by the corrected `save_job` is the answer while its call still runs |
| ModalApp.JobStore.JobStatus | py/retake/api/main.py:335-381 | answers and updates the store as `JobStatusOf` describes |
| ModalApp.AsWrittenStatusAlwaysRaises | py/retake/api/main.py:335-381 | as written the store stays empty, since `save_job` never stores, so every query raises |
| ModalApp.JobStatusAsWritten | py/retake/api/main.py:335-381 | as written, the store is never written, and the only failure is the TypeError |
| ModalApp.AsWrittenNeverRecomputes | py/retake/api/main.py:342-381 | as written, the answer is always the cached job or an error, whatever Modal reports |
| ModalApp.AsWrittenMissesCompletion | py/retake/api/main.py:350-355 | a finished call with one successful input: a TypeError as written, a completed job as intended |
| ModalApp.TooLongAsWritten | py/retake/api/main.py:176 | as written, the gate rejects exactly durations over `1000 · max_len_mins` ms, and never when the limit is None or 0 |
| ModalApp.TooLong | py/retake/api/main.py:176 | the corrected gate rejects exactly durations over `60000 · max_len_mins` ms, and never when the limit is None or 0 |
| ModalApp.AsWrittenComparesSeconds | py/retake/api/main.py:176 | as written, a video of `m + 1` seconds is refused under a limit of `m` minutes |
| ModalApp.LengthGate | py/retake/api/main.py:176-182 | the corrected gate (see Findings): a video over the limit in minutes gives a TOO_LONG result without clips; any other goes on |
| ModalApp.FilledStartNearest | py/retake/api/main.py:279-286 | a word without a start takes the start of the nearest earlier word that has one |
| ModalApp.FilledStartDefault | py/retake/api/main.py:279-282 | with no earlier start, the segment's original start is used |
| ModalApp.FilledEndNearest | py/retake/api/main.py:279-286 | a word without an end takes the end of the nearest earlier word that has one |
| ModalApp.RetimeWords | py/retake/api/main.py:279-289 | the word loop gives each word its filled times shifted by the segment's offset |
| ModalApp.RetimedWordShift | py/retake/api/main.py:288-289 | a word with both times moves by exactly the segment's shift |
| ModalApp.Retime | py/retake/api/main.py:274-289 | a re-timed segment keeps its duration, text and word count; one inside its range lands within that range's part of the clip |
| ModalApp.RetimeSegment | py/retake/api/main.py:274-289 | a segment inside a range moves by the range's offset into the clip, its words with it |
| ModalApp.StopFrom | py/retake/api/main.py:292-293 | the scan for a range stops at the first segment outside it that starts after it |
| ModalApp.InsideBelow | py/retake/api/main.py:271-273 | the segments picked for a range are inside it, in increasing order |
| ModalApp.RangeSpeechPlacement | py/retake/api/main.py:270-295 | re-timed speech for a range lies within that range's part of the clip and keeps its duration |
| ModalApp.ClipSpeechWithinClip | py/retake/api/main.py:268-295 | all of a clip's speech lies between 0 and the clip's total length |
| ModalApp.RangeSpeechCopy | py/retake/api/main.py:271-293 | the loop with its early stop gives the re-timed segments inside the range |
| ModalApp.ClipSpeechCopy | py/retake/api/main.py:268-295 | the range loop with the `clip_length` accumulator gives the clip's speech |
| ModalApp.CompileClip | py/retake/api/main.py:243-295 | a clip has the summed clip id, its two URIs, the highlight's title, duration and ranges, and the speech of its ranges |
| ModalApp.ClipOf | py/retake/api/main.py:243-295 | both URIs follow from the clip's own non-negative id, and for well-formed ranges all its speech lies within the clip |
| ModalApp.CompileResultAsWritten | py/retake/api/main.py:224-231 | as written, every call raises TypeError before any clip is built, and the segments are unchanged |
| ModalApp.CompileResult | py/retake/api/main.py:224-309 | corrected (`failure_reason=None`, speech copied): one clip per highlight, in order. Each has the clip id, `/videos/clip_{id}.mp4` and `_preview.mp4`, and its speech read from the segments as loaded. |
| ModalApp.AttachAsWritten | py/retake/api/main.py:268-295 | the loop as written, with the constructor fixed: the passes keep the list's length and pick only positions in it |
| ModalApp.AttachRangeInPlace | py/retake/api/main.py:271-293 | the loop as written, with the constructor fixed: the segments inside the range are overwritten in the shared list, and their positions are picked |
| ModalApp.CompileAsWritten | py/retake/api/main.py:243-305 | the clip loop as written, with the constructor fixed: the shared list keeps its length, with one clip per highlight |
| ModalApp.AttachInPlace | py/retake/api/main.py:268-295 | the loop as written, with the constructor fixed: each range scans the list left by the earlier passes |
| ModalApp.CompileResultInPlace | py/retake/api/main.py:243-305 | the clip loop as written, once `VideoResult` is built with `failure_reason`: clips hold positions in one segment list that every highlight rewrites |
| ModalApp.SharedSegmentsLeakIntoLaterClips | py/retake/api/main.py:270-293 | with the constructor fixed, a segment re-timed for one clip is picked up by a later clip it does not belong to |
| Probe.FrameRate | py/retake/sage/video.py:103-107 | conversion failures are ValueErrors |
| Probe.FrameRateFraction | py/retake/sage/video.py:103-105 | `"n/d"` with `d > 0` gives `n / d` |
| Probe.FrameRateBadDenominator | py/retake/sage/video.py:103-107 | `"n/d"` with `d <= 0` gives `n` |
| Probe.FrameRateWhole | py/retake/sage/video.py:103-107 | a field without `/` is read as one number |
| Probe.FromSource | py/retake/sage/video.py:78-115 | it fails with stderr exactly on a nonzero exit, and with unexpected output exactly when the output lacks four newlines. Otherwise width and height are lines 0 and 1, the fps is the truncated rate and the duration is `int(seconds · 1000)`. |
| Probe.FromSourceReadsFields | py/retake/sage/video.py:98-115 | four newline-terminated fields read back as the record of their values |
| Probe.DownscaleFilter | py/retake/sage/video.py:28-31 | it copies exactly when the larger side already has the target size |
| Probe.LargerSideGetsSize | py/retake/sage/video.py:33-40 | otherwise the larger side is set to the target and the other keeps the aspect ratio (`-2`); a square is set by height |
| Text.NatToStringInjective | packages/core/src/services/VideoService.ts:67 | distinct ids render as distinct decimal strings |
| Text.DigitsValueOfNatToString | packages/core/src/services/VideoService.ts:67 | reading the decimal rendering of an id back gives the id |
| Text.JoinSplit | py/retake/sage/video.py:98 | splitting loses nothing: joining the pieces gives the string back |
| Text.SplitJoin | py/retake/sage/video.py:98 | pieces without the separator survive joining and splitting again |
| Text.SplitCount | py/retake/sage/video.py:98-101 | a string splits into one more piece than it has separators |
| Numbers.TruncTowardZero | py/retake/sage/video.py:113-114 | Python `int()` on a float truncates toward zero |

## Left out

- HTTP layer: the Express and FastAPI routes, controllers and webhook posting. The webhook only dispatches to `onJobCompleted`.
- ORM schemas and repositories are maps inside the services, and `sumDeltas` is a sum. Dates (`dateCreated`, `expiresAt`) are not modelled.
- Remote services: SageService, the AWS presigner and `headObject`, boto3 uploads, OpenAI, whisperx, ffmpeg and DeepFace. Their answers are parameters.
- Videos.VideoService.OnJobCompleted: a `findOne` that finds no job (the source then throws on `job.completed`) is modelled as the outcome `NoSuchJob`. When several jobs share an external id, the oldest is taken.
- Videos.VideoService.Submit: the thrown "Insufficient credits" is modelled as a returned failure. Ledger calls always succeed in the model, as every `BillingService` method returns ok in the source. The `WrappedError` message chains are dropped.
- Repository writes that throw (a rejected insert or update) are not modelled. Such a write at `reserve` would come after `jobRepository.create` (`packages/core/src/services/VideoService.ts:136-158`) and leave a pending job with no reservation.
- Concurrency: a credit check racing a reservation, and concurrent webhooks, are not modelled. Only the sequential double release that a failed status fetch allows is stated (`Billing.DoubleReleaseOvercredits`).
- Highlights.EvaluateCompletion: `re.findall` is not modelled. The matches are inputs, already converted to numbers.
- Highlights.Sectionize: `str.splitlines` is not modelled; the transcript is given as its lines. Title generation and the three-try retry loop of `get_highlights` are left out, because they are OpenAI calls.
- Python `round(…, 2)` and `round(…, 3)` on floats are dropped. Clip durations and re-timed speech are exact.
- ModalApp.CompileResult: the directory listing, `lstrip(BASE_DIR)` of the original file, and the frame data read from disk are not modelled. The original file is a parameter.
- ModalApp.JobStatusOf: a lookup in the Modal `Dict` of a key that is absent reads as no job.
- Probe.FromSource: Python's `int(s)` and `float(s)` on strings are parameters; NaN and infinity are not modelled.
- Probe.FromSource: `float(s) * 1000` and `float(n) / float(d)` are exact real arithmetic, not floating point. Rounding in floating point can move a product to the other side of an integer, which changes `int(...)`. That effect is not captured.
- Face tracking, audio extraction, `trim` and `merge_all` in `py/retake/sage/video.py` are media processing, so they are not modelled.
- `py/sage/*` is an older copy of the Python pipeline and is not part of this model.

## Findings

| source | as written | input that shows it | evidently intended | confidence | as-written member | corrected member |
|---|---|---|---|---|---|---|
| py/retake/api/main.py:350-355 | `job_status` builds `Job` without `call_id`, which the dataclass in `py/retake/api/types.py` requires. The bare `except` swallows the TypeError, and the `not_found` job raises it to the caller. | an empty store and call `c` finished with result `r` and one successful input. The `Dict` read at line 336 is outside the `try`: if reading an absent key raises, it fails there. Otherwise, as modelled, the TypeError from building the job is swallowed, and the one from the `not_found` job at line 376 is raised. | a recomputed job (call id None) whose completion follows the call graph | not executed; high | ModalApp.AsWrittenMissesCompletion | ModalApp.CompletedIff |
| py/retake/api/main.py:315-320 | `save_job` builds `Job` without the required `call_id` (`py/retake/api/types.py:11-17`), so it raises TypeError after the call was spawned, and nothing is stored. The store then stays empty, so `job_status` can only raise. | any call id, for example `save_job("c")` | a pending job stored under its call id and answered while the call runs | not executed; high | ModalApp.JobStore.SaveJobAsWritten | ModalApp.JobStore.SaveJob |
| py/retake/api/main.py:176 | `(v.duration_ms / 1000) > max_len_mins` compares seconds with minutes | limit `m = 1` minute and a 2-second video: refused | the duration in minutes compared with the limit | not executed; high | ModalApp.AsWrittenComparesSeconds | ModalApp.TooLong |
| py/retake/api/main.py:224-231 | `compile_result` builds `VideoResult(..., reason=None)`. `reason` is no field of `VideoResult` and `failure_reason` gets no value (`py/retake/api/types.py:51-56`), so every call raises TypeError before any clip is built, in `process_video` as well. | any video id, for example `compile_result("v")` | a result with `failure_reason=None` and one clip per highlight | not executed; high | ModalApp.CompileResultAsWritten | ModalApp.CompileResult |
| py/retake/api/main.py:270-293 | Once the constructor above is fixed, `compile_result` re-times the speech segment dicts in place, and every clip shares them. Later highlights scan and pick segments already moved to another clip's time. | one segment at 10-12 s, then highlights over 10-20 s and 0-5 s: the second clip gets the segment | each clip's speech taken from the segments as loaded | not executed; medium | ModalApp.SharedSegmentsLeakIntoLaterClips | ModalApp.CompileResult |
