// The bookkeeping of the Modal app: flattening the call graph, the job-status
// cache, the length gate of `process_video`, and how `compile_result` turns
// highlights and speech data into clips.
module ModalApp {
  import opened Wrappers
  import opened Text
  import Highlights

  // ================================================================ call graph

  datatype InputStatus = Pending | Success | Failure | InitFailure | Terminated | Timeout

  /** A node of a call graph: an input's status and the inputs it spawned. */
  datatype InputInfo = InputInfo(status: InputStatus, children: seq<InputInfo>)

  /** `get_children`: every descendant, each child followed by its own descendants. */
  function GetChildren(node: InputInfo): (r: seq<InputInfo>)
    ensures r == [] <==> node.children == []
    decreases node, |node.children| + 1
  {
    ChildrenFrom(node, 0)
  }

  /** The loop of `get_children` from child `k` on. */
  function ChildrenFrom(node: InputInfo, k: nat): seq<InputInfo>
    requires k <= |node.children|
    decreases node, |node.children| - k
  {
    if k == |node.children| then []
    else [node.children[k]] + GetChildren(node.children[k]) + ChildrenFrom(node, k + 1)
  }

  /** Number of nodes of the tree. */
  function Size(node: InputInfo): nat
    decreases node, |node.children| + 1
  {
    1 + SizeFrom(node, 0)
  }

  function SizeFrom(node: InputInfo, k: nat): nat
    requires k <= |node.children|
    decreases node, |node.children| - k
  {
    if k == |node.children| then 0 else Size(node.children[k]) + SizeFrom(node, k + 1)
  }

  /** `x` hangs somewhere below `node`. */
  ghost predicate IsDescendant(x: InputInfo, node: InputInfo)
    decreases node
  {
    exists k :: 0 <= k < |node.children| && (x == node.children[k] || IsDescendant(x, node.children[k]))
  }

  /** Every node below the root is listed once: the list has one entry per descendant. */
  lemma {:induction false} GetChildrenSize(node: InputInfo)
    ensures |GetChildren(node)| == Size(node) - 1
    decreases node, |node.children| + 1
  {
    ChildrenFromSize(node, 0);
  }

  lemma {:induction false} ChildrenFromSize(node: InputInfo, k: nat)
    requires k <= |node.children|
    ensures |ChildrenFrom(node, k)| == SizeFrom(node, k)
    decreases node, |node.children| - k
  {
    if k < |node.children| {
      GetChildrenSize(node.children[k]);
      ChildrenFromSize(node, k + 1);
    }
  }

  /** The flattened list holds exactly the descendants. */
  lemma {:induction false} GetChildrenAreDescendants(x: InputInfo, node: InputInfo)
    ensures x in GetChildren(node) <==> IsDescendant(x, node)
    decreases node, |node.children| + 1
  {
    ChildrenFromAreDescendants(x, node, 0);
  }

  lemma {:induction false} ChildrenFromAreDescendants(x: InputInfo, node: InputInfo, k: nat)
    requires k <= |node.children|
    ensures x in ChildrenFrom(node, k) <==>
      exists j :: k <= j < |node.children| && (x == node.children[j] || IsDescendant(x, node.children[j]))
    decreases node, |node.children| - k
  {
    if k < |node.children| {
      var c := node.children[k];
      GetChildrenAreDescendants(x, c);
      ChildrenFromAreDescendants(x, node, k + 1);
      if x in ChildrenFrom(node, k) {
        if x == c || x in GetChildren(c) {
          assert x == node.children[k] || IsDescendant(x, node.children[k]);
        } else {
          assert x in ChildrenFrom(node, k + 1);
        }
      }
      if exists j :: k <= j < |node.children| && (x == node.children[j] || IsDescendant(x, node.children[j])) {
        var j :| k <= j < |node.children| && (x == node.children[j] || IsDescendant(x, node.children[j]));
        if j == k {
          assert x in [c] + GetChildren(c);
        } else {
          assert x in ChildrenFrom(node, k + 1);
        }
      }
    }
  }

  /** Where child `k`'s block starts in the list: after the blocks of the children before it. */
  function Offset(node: InputInfo, k: nat): nat
    requires k <= |node.children|
  {
    if k == 0 then 0 else Offset(node, k - 1) + Size(node.children[k - 1])
  }

  /**
   * Pre-order layout: at `Offset(node, k)` the list holds child `k`, directly
   * followed by the descendants of child `k`.
   */
  lemma {:induction false} PreOrderLayout(node: InputInfo, k: nat)
    requires k < |node.children|
    ensures Offset(node, k) + Size(node.children[k]) <= |GetChildren(node)|
    ensures GetChildren(node)[Offset(node, k)] == node.children[k]
    ensures GetChildren(node)[Offset(node, k) + 1..Offset(node, k) + Size(node.children[k])]
            == GetChildren(node.children[k])
  {
    var c := node.children[k];
    ChildrenFromSplit(node, k);
    GetChildrenSize(c);
    ChildrenFromSize(node, k + 1);
    var rest := [c] + GetChildren(c) + ChildrenFrom(node, k + 1);
    assert GetChildren(node) == ChildrenFrom(node, 0)[..Offset(node, k)] + rest;
    assert rest[1..Size(c)] == GetChildren(c);
  }

  /** The whole list is the blocks of the children before `k` followed by the list from `k`. */
  lemma {:induction false} ChildrenFromSplit(node: InputInfo, k: nat)
    requires k <= |node.children|
    ensures |ChildrenFrom(node, 0)| >= Offset(node, k)
    ensures ChildrenFrom(node, 0) == ChildrenFrom(node, 0)[..Offset(node, k)] + ChildrenFrom(node, k)
  {
    if k == 0 {
    } else {
      ChildrenFromSplit(node, k - 1);
      var c := node.children[k - 1];
      GetChildrenSize(c);
      var pre := ChildrenFrom(node, 0)[..Offset(node, k - 1)];
      assert ChildrenFrom(node, k - 1) == [c] + GetChildren(c) + ChildrenFrom(node, k);
      assert ChildrenFrom(node, 0) == pre + ([c] + GetChildren(c)) + ChildrenFrom(node, k);
      assert |pre + ([c] + GetChildren(c))| == Offset(node, k);
      assert ChildrenFrom(node, 0)[..Offset(node, k)] == pre + ([c] + GetChildren(c));
    }
  }

  /** `sum(1 for t in tasks if t.status == InputStatus.SUCCESS)`. */
  function SuccessCount(tasks: seq<InputInfo>): nat
  {
    if tasks == [] then 0
    else SuccessCount(tasks[..|tasks| - 1]) + (if tasks[|tasks| - 1].status == Success then 1 else 0)
  }

  /** At most every task succeeded, and all of them did exactly when the count reaches the length. */
  lemma {:induction false} SuccessCountAll(tasks: seq<InputInfo>)
    ensures SuccessCount(tasks) <= |tasks|
    ensures SuccessCount(tasks) >= |tasks| <==> forall t :: t in tasks ==> t.status == Success
  {
    if tasks != [] {
      var init := tasks[..|tasks| - 1];
      SuccessCountAll(init);
      assert tasks == init + [tasks[|tasks| - 1]];
      if forall t :: t in init ==> t.status == Success {
      } else {
        var t :| t in init && t.status != Success;
        assert t in tasks;
      }
    }
  }

  /**
   * The completion rule of `job_status`: the descendants of the first graph
   * node all succeeded; an empty graph (the IndexError) decides nothing.
   */
  function GraphCompleted(graph: seq<InputInfo>): (r: Option<bool>)
    ensures r.None? <==> graph == []
  {
    if graph == [] then None
    else
      var tasks := GetChildren(graph[0]);
      Some(SuccessCount(tasks) >= |tasks|)
  }

  /** A call is complete exactly when every input below the first graph node succeeded. */
  lemma {:induction false} CompletedIffAllSucceeded(graph: seq<InputInfo>)
    requires graph != []
    ensures GraphCompleted(graph) == Some(true) <==>
            forall x :: IsDescendant(x, graph[0]) ==> x.status == Success
  {
    var tasks := GetChildren(graph[0]);
    SuccessCountAll(tasks);
    forall x
      ensures x in tasks <==> IsDescendant(x, graph[0])
    {
      GetChildrenAreDescendants(x, graph[0]);
    }
  }

  // ================================================================ dataclass construction

  /** What a call of the Python code raised. */
  datatype PyError = TypeError

  /**
   * Calling a dataclass whose fields have no defaults with keyword arguments:
   * a keyword that names no field, or a field left without a value, raises a
   * TypeError; otherwise the object is built.
   */
  function KeywordCall(fields: set<string>, given: set<string>): (e: Option<PyError>)
    ensures e.None? <==> (forall k :: k in given ==> k in fields) && (forall f :: f in fields ==> f in given)
    ensures e.Some? ==> e.value == TypeError
  {
    if given == fields then None else Some(TypeError)
  }

  /** The fields of the `Job` dataclass in `py/retake/api/types.py`, none with a default. */
  const JobFields: set<string> := {"id", "call_id", "result", "completed", "created_at"}
  /** The keywords every `Job(...)` call in `py/retake/api/main.py` passes. */
  const JobKeywords: set<string> := {"id", "result", "completed", "created_at"}
  /** The fields of the `VideoResult` dataclass, none with a default. */
  const VideoResultFields: set<string> := {"id", "original_file", "clips", "failure_reason"}
  /** The keywords `compile_result` passes to `VideoResult(...)`. */
  const CompileResultKeywords: set<string> := {"id", "original_file", "clips", "reason"}

  /** Every `Job(...)` call of the app leaves out `call_id`, so it raises. */
  lemma {:induction false} JobWithoutCallIdRaises()
    ensures KeywordCall(JobFields, JobKeywords) == Some(TypeError)
    ensures KeywordCall(JobFields, JobKeywords + {"call_id"}).None?
  {
    assert "call_id" in JobFields && "call_id" !in JobKeywords;
    assert JobKeywords + {"call_id"} == JobFields;
  }

  /** `compile_result`'s `VideoResult(...)` passes `reason` for `failure_reason`, so it raises. */
  lemma {:induction false} VideoResultWithReasonRaises()
    ensures KeywordCall(VideoResultFields, CompileResultKeywords) == Some(TypeError)
    ensures KeywordCall(VideoResultFields, CompileResultKeywords - {"reason"} + {"failure_reason"}).None?
  {
    assert "reason" in CompileResultKeywords && "reason" !in VideoResultFields;
    assert CompileResultKeywords - {"reason"} + {"failure_reason"} == VideoResultFields;
  }

  // ================================================================ job status

  /** What a finished call returned; opaque to this model. */
  type CallResult = string
  /** A creation time. */
  type Timestamp = int

  datatype Job = Job(id: string, callId: Option<string>, result: Option<CallResult>,
                     completed: bool, createdAt: Option<Timestamp>)

  /** What asking Modal about a call yields. */
  datatype CallOutcome =
    | CallLookupFailed   // `FunctionCall.from_id` or `call.get` raised something other than a timeout
    | CallTimedOut       // `call.get(timeout=0.1)` raised TimeoutError
    | CallFinished(result: CallResult, graph: Option<seq<InputInfo>>)  // graph None: `get_call_graph` raised

  const NotFoundId := "not_found"

  function NotFoundJob(): Job
  {
    Job(NotFoundId, None, None, false, None)
  }

  /** The job returned and the job store afterwards. */
  datatype StatusAnswer = StatusAnswer(job: Job, store: map<string, Job>)

  /** The stored job, if any (an unknown id reads as no job). */
  function Cached(store: map<string, Job>, callId: string): Option<Job>
  {
    if callId in store then Some(store[callId]) else None
  }

  /**
   * `job_status`, with the recomputed Job built as `Job` requires (a
   * `call_id` of None): a completed cached job is returned untouched; a
   * finished call gives a recomputed job whose completion follows the call graph,
   * stored unless fetching the graph raised; otherwise the cached job or the
   * `not_found` job.
   */
  function JobStatusOf(store: map<string, Job>, callId: string, outcome: CallOutcome): (a: StatusAnswer)
    ensures a.store == store || a.store == store[callId := a.job]
    ensures !outcome.CallFinished? ==> a.store == store
  {
    var cached := Cached(store, callId);
    if cached.Some? && cached.value.completed then StatusAnswer(cached.value, store)
    else
      match outcome
      case CallFinished(res, graph) =>
        var createdAt := if cached.Some? then cached.value.createdAt else None;
        var recomputed := Job(callId, None, Some(res), false, createdAt);
        if graph.None? then StatusAnswer(recomputed, store)
        else
          var completed := GraphCompleted(graph.value);
          var job := if completed.Some? then recomputed.(completed := completed.value) else recomputed;
          StatusAnswer(job, store[callId := job])
      case _ => StatusAnswer(if cached.Some? then cached.value else NotFoundJob(), store)
  }

  /**
   * A completed answer is stored under its call id, and from then on every
   * query returns it unchanged whatever Modal reports, leaving the store alone.
   */
  lemma {:induction false} CompletedIsFinal(store: map<string, Job>, callId: string, outcome: CallOutcome, later: CallOutcome)
    requires JobStatusOf(store, callId, outcome).job.completed
    ensures var a := JobStatusOf(store, callId, outcome);
            && callId in a.store && a.store[callId] == a.job
            && JobStatusOf(a.store, callId, later) == a
  {
  }

  /** Only the queried id's entry can change. */
  lemma {:induction false} OtherJobsUntouched(store: map<string, Job>, callId: string, outcome: CallOutcome, other: string)
    requires other != callId
    ensures Cached(JobStatusOf(store, callId, outcome).store, other) == Cached(store, other)
  {
  }

  /**
   * The answer is completed exactly when the cached job already was, or the
   * call finished with a non-empty graph whose inputs below the first node
   * all succeeded.
   */
  lemma {:induction false} CompletedIff(store: map<string, Job>, callId: string, outcome: CallOutcome)
    ensures JobStatusOf(store, callId, outcome).job.completed <==>
      || (Cached(store, callId).Some? && Cached(store, callId).value.completed)
      || (&& outcome.CallFinished? && outcome.graph.Some? && outcome.graph.value != []
          && forall x :: IsDescendant(x, outcome.graph.value[0]) ==> x.status == Success)
  {
    if outcome.CallFinished? && outcome.graph.Some? && outcome.graph.value != [] {
      CompletedIffAllSucceeded(outcome.graph.value);
    }
  }

  /** With nothing cached and no finished call, the answer is the `not_found` job. */
  lemma {:induction false} UnknownJobIsNotFound(store: map<string, Job>, callId: string, outcome: CallOutcome)
    requires callId !in store && !outcome.CallFinished?
    ensures JobStatusOf(store, callId, outcome) == StatusAnswer(Job("not_found", None, None, false, None), store)
  {
  }

  /** The shared `jobs` dictionary of the app. */
  class JobStore {
    var jobs: map<string, Job>

    constructor()
      ensures jobs == map[]
    {
      jobs := map[];
    }

    /**
     * `save_job` as written: building the `Job` without `call_id` raises a
     * TypeError before the store is written, so nothing is recorded.
     */
    method SaveJobAsWritten(callId: string, now: Timestamp) returns (r: Result<Job, PyError>)
      ensures r == Fail(TypeError)
    {
      JobWithoutCallIdRaises();
      var raised := KeywordCall(JobFields, JobKeywords);
      r := Fail(raised.value);
    }

    /** `save_job`, with the `call_id` of None that `Job` requires: records a pending job for a spawned call. */
    method SaveJob(callId: string, now: Timestamp) returns (job: Job)
      modifies this
      ensures job == Job(callId, None, None, false, Some(now))
      ensures jobs == old(jobs)[callId := job]
    {
      job := Job(callId, None, None, false, Some(now));
      jobs := jobs[callId := job];
    }

    /** `job_status(call_id)`, answering as `JobStatusOf` describes. */
    method JobStatus(callId: string, outcome: CallOutcome) returns (job: Job)
      modifies this
      ensures job == JobStatusOf(old(jobs), callId, outcome).job
      ensures jobs == JobStatusOf(old(jobs), callId, outcome).store
    {
      var cached := if callId in jobs then Some(jobs[callId]) else None;
      if cached.Some? && cached.value.completed {
        return cached.value;
      }
      if outcome.CallFinished? {
        var createdAt := if cached.Some? then cached.value.createdAt else None;
        job := Job(callId, None, Some(outcome.result), false, createdAt);
        if outcome.graph.None? {
          return;
        }
        var graph := outcome.graph.value;
        if graph != [] {
          var tasks := GetChildren(graph[0]);
          var done := SuccessCount(tasks);
          job := job.(completed := done >= |tasks|);
        }
        jobs := jobs[callId := job];
        return;
      }
      if cached.Some? {
        return cached.value;
      }
      job := NotFoundJob();
    }
  }

  /**
   * `job_status` as written: `Job` requires `call_id` (`JobWithoutCallIdRaises`), so building the
   * recomputed job raises a TypeError that the bare `except` swallows, and
   * building the `not_found` job raises it to the caller.
   */
  function JobStatusAsWritten(store: map<string, Job>, callId: string, outcome: CallOutcome): (r: Result<StatusAnswer, PyError>)
    ensures r.Ok? ==> r.value.store == store
    ensures r.Fail? ==> r.error == TypeError
  {
    var cached := Cached(store, callId);
    if cached.Some? then Ok(StatusAnswer(cached.value, store)) else Fail(TypeError)
  }

  /** As written, nothing Modal reports is ever seen: the answer is the cached job or an error. */
  lemma {:induction false} AsWrittenNeverRecomputes(store: map<string, Job>, callId: string, outcome: CallOutcome)
    ensures var r := JobStatusAsWritten(store, callId, outcome);
            (r.Ok? <==> callId in store) && (r.Ok? ==> r.value == StatusAnswer(store[callId], store))
  {
  }

  /**
   * As written `save_job` never stores a job, so the store stays empty and
   * every `job_status` query raises, whatever Modal reports.
   */
  lemma {:induction false} AsWrittenStatusAlwaysRaises(callId: string, outcome: CallOutcome)
    ensures JobStatusAsWritten(map[], callId, outcome) == Fail(TypeError)
  {
  }

  /** A job saved by the corrected `save_job` is answered while its call is still running. */
  lemma {:induction false} SavedJobIsAnswered(store: map<string, Job>, callId: string, now: Timestamp)
    ensures var job := Job(callId, None, None, false, Some(now));
            JobStatusOf(store[callId := job], callId, CallTimedOut) == StatusAnswer(job, store[callId := job])
  {
  }

  /**
   * A finished call whose only input succeeded: an error as written, a
   * completed job as intended. The empty store reads as no job, as `Cached`
   * models the `Dict` lookup; a lookup that raised on an absent key would fail
   * before the call is asked.
   */
  lemma {:induction false} AsWrittenMissesCompletion()
    ensures JobStatusAsWritten(map[], "c", CallFinished("r", Some([InputInfo(Success, [])]))) == Fail(TypeError)
    ensures JobStatusOf(map[], "c", CallFinished("r", Some([InputInfo(Success, [])]))).job
            == Job("c", None, Some("r"), true, None)
  {
    assert GetChildren(InputInfo(Success, [])) == [];
  }

  // ================================================================ process_video

  datatype SourceType = Local | S3
  datatype Source = Source(sourceType: SourceType, uri: string)
  datatype FailureReason = TooLongFailure

  /** A compiled clip (the frame data read from disk is not modelled). */
  datatype Clip = Clip(id: int, title: string, duration: real, timeranges: seq<Highlights.Span>,
                       file: Source, previewFile: Source, speechData: seq<SpeechSegment>)

  datatype VideoResult = VideoResult(id: string, originalFile: Source, clips: seq<Clip>,
                                     failureReason: Option<FailureReason>)

  /**
   * `max_len_mins and (v.duration_ms / 1000) > max_len_mins` as written: a
   * limit of None or 0 disables it, and the duration is taken in seconds.
   */
  function TooLongAsWritten(durationMs: int, maxLenMins: Option<int>): (r: bool)
    ensures r <==> maxLenMins.Some? && maxLenMins.value != 0 && durationMs > 1000 * maxLenMins.value
  {
    maxLenMins.Some? && maxLenMins.value != 0 &&
    var m := maxLenMins.value;
    assert durationMs as real / 1000.0 > m as real <==> durationMs as real > (1000 * m) as real;
    durationMs as real / 1000.0 > m as real
  }

  /**
   * The check the limit's name calls for, the duration in minutes against
   * the limit: it rejects exactly the videos longer than the limit's minutes.
   */
  function TooLong(durationMs: int, maxLenMins: Option<int>): (r: bool)
    ensures r <==> maxLenMins.Some? && maxLenMins.value != 0 && durationMs > 60000 * maxLenMins.value
  {
    maxLenMins.Some? && maxLenMins.value != 0 &&
    var m := maxLenMins.value;
    assert durationMs as real / 60000.0 > m as real <==> durationMs as real > (60000 * m) as real;
    durationMs as real / 60000.0 > m as real
  }

  /** As written, a video one second over `m` seconds is refused though it is far below `m` minutes. */
  lemma {:induction false} AsWrittenComparesSeconds(m: nat)
    requires 0 < m
    ensures TooLongAsWritten(1000 * m + 1000, Some(m))
    ensures !TooLong(1000 * m + 1000, Some(m))
  {
    assert (1000 * m + 1000) as real / 1000.0 == m as real + 1.0;
    assert (1000 * m + 1000) as real / 60000.0 <= m as real;
  }

  /** The early exit of `process_video`: a TOO_LONG result with no clips, or go on. */
  function LengthGate(id: string, src: Source, durationMs: int, maxLenMins: Option<int>): (r: Option<VideoResult>)
    ensures r.Some? <==> TooLong(durationMs, maxLenMins)
    ensures r.Some? ==> r.value == VideoResult(id, src, [], Some(TooLongFailure))
  {
    if TooLong(durationMs, maxLenMins) then Some(VideoResult(id, src, [], Some(TooLongFailure))) else None
  }

  // ================================================================ compile_result

  /** A word of the aligned transcript; its "start" and "end" keys may be missing. */
  datatype Word = Word(start: Option<real>, end: Option<real>)

  /** A `SingleAlignedSegment`. */
  datatype SpeechSegment = SpeechSegment(start: real, end: real, text: string, words: seq<Word>)

  /** A highlight as saved by the pipeline (`Segment`). */
  datatype Highlight = Highlight(title: string, duration: real, timeranges: seq<Highlights.Span>)

  function ClipFileUri(clipId: int): string
  {
    "/videos/clip_" + IntToString(clipId) + ".mp4"
  }

  function ClipPreviewUri(clipId: int): string
  {
    "/videos/clip_" + IntToString(clipId) + "_preview.mp4"
  }

  /** Word `i`'s start: its own, else the previous word's, the first falling back to the segment start. */
  function FilledStart(words: seq<Word>, ssStart: real, i: nat): real
    requires i < |words|
  {
    if words[i].start.Some? then words[i].start.value
    else if i == 0 then ssStart
    else FilledStart(words, ssStart, i - 1)
  }

  /** Word `i`'s end: its own, else the previous word's, the first falling back to the segment start. */
  function FilledEnd(words: seq<Word>, ssStart: real, i: nat): real
    requires i < |words|
  {
    if words[i].end.Some? then words[i].end.value
    else if i == 0 then ssStart
    else FilledEnd(words, ssStart, i - 1)
  }

  /** Word `i` moved with its segment from `ssStart` to `newStart`. */
  function RetimedWord(words: seq<Word>, ssStart: real, newStart: real, i: nat): Word
    requires i < |words|
  {
    Word(Some(FilledStart(words, ssStart, i) - ssStart + newStart),
         Some(FilledEnd(words, ssStart, i) - ssStart + newStart))
  }

  /** A missing start is the nearest earlier word's start. */
  lemma {:induction false} FilledStartNearest(words: seq<Word>, ssStart: real, i: nat, j: nat)
    requires j <= i < |words| && words[j].start.Some?
    requires forall k :: j < k <= i ==> words[k].start.None?
    ensures FilledStart(words, ssStart, i) == words[j].start.value
    decreases i
  {
    if j < i {
      FilledStartNearest(words, ssStart, i - 1, j);
    }
  }

  /** With no earlier word carrying a start, the segment start is used. */
  lemma {:induction false} FilledStartDefault(words: seq<Word>, ssStart: real, i: nat)
    requires i < |words| && forall k :: 0 <= k <= i ==> words[k].start.None?
    ensures FilledStart(words, ssStart, i) == ssStart
  {
    if 0 < i {
      FilledStartDefault(words, ssStart, i - 1);
    }
  }

  /** A missing end is the nearest earlier word's end. */
  lemma {:induction false} FilledEndNearest(words: seq<Word>, ssStart: real, i: nat, j: nat)
    requires j <= i < |words| && words[j].end.Some?
    requires forall k :: j < k <= i ==> words[k].end.None?
    ensures FilledEnd(words, ssStart, i) == words[j].end.value
    decreases i
  {
    if j < i {
      FilledEndNearest(words, ssStart, i - 1, j);
    }
  }

  /** The word loop: fills missing times from the previous word and shifts every word by the segment's move. */
  method RetimeWords(words: seq<Word>, ssStart: real, newStart: real) returns (out: seq<Word>)
    ensures |out| == |words|
    ensures forall i :: 0 <= i < |words| ==> out[i] == RetimedWord(words, ssStart, newStart, i)
  {
    var lastStart, lastEnd := ssStart, ssStart;
    out := [];
    var i := 0;
    while i < |words|
      invariant i <= |words| && |out| == i
      invariant forall k :: 0 <= k < i ==> out[k] == RetimedWord(words, ssStart, newStart, k)
      invariant 0 < i ==> lastStart == FilledStart(words, ssStart, i - 1) && lastEnd == FilledEnd(words, ssStart, i - 1)
      invariant i == 0 ==> lastStart == ssStart && lastEnd == ssStart
    {
      var word := words[i];
      var start := if word.start.Some? then word.start.value else lastStart;
      var end := if word.end.Some? then word.end.value else lastEnd;
      lastStart := start;
      lastEnd := end;
      out := out + [Word(Some((start - ssStart) + newStart), Some((end - ssStart) + newStart))];
      i := i + 1;
    }
  }

  /** `ss` lies wholly inside the timerange `ts`. */
  predicate Inside(ss: SpeechSegment, ts: Highlights.Span)
  {
    ss.start >= ts.start && ss.end <= ts.end
  }

  /** A segment inside `ts`, moved onto clip time: `ts` begins `clipLength` into the clip. */
  function Retime(ss: SpeechSegment, ts: Highlights.Span, clipLength: real): (r: SpeechSegment)
    ensures r.end - r.start == ss.end - ss.start
    ensures Inside(ss, ts) ==> clipLength <= r.start && r.end <= clipLength + (ts.end - ts.start)
    ensures r.text == ss.text && |r.words| == |ss.words|
  {
    var newStart := clipLength + (ss.start - ts.start);
    SpeechSegment(newStart, clipLength + (ss.end - ts.start), ss.text,
                  seq(|ss.words|, i requires 0 <= i < |ss.words| => RetimedWord(ss.words, ss.start, newStart, i)))
  }

  /** The scan over the segments for `ts` stops at the first segment outside it that starts after it. */
  function StopFrom(segs: seq<SpeechSegment>, ts: Highlights.Span, k: nat): (r: nat)
    requires k <= |segs|
    ensures k <= r <= |segs|
    ensures forall j :: k <= j < r ==> Inside(segs[j], ts) || segs[j].start <= ts.end
    ensures r < |segs| ==> !Inside(segs[r], ts) && segs[r].start > ts.end
    decreases |segs| - k
  {
    if k == |segs| || (!Inside(segs[k], ts) && segs[k].start > ts.end) then k else StopFrom(segs, ts, k + 1)
  }

  /** Where the scan for `ts` stops. */
  function Stop(segs: seq<SpeechSegment>, ts: Highlights.Span): (r: nat)
    ensures r <= |segs|
  {
    StopFrom(segs, ts, 0)
  }

  /** Indices below `n` of the segments inside `ts`, in order. */
  function InsideBelow(segs: seq<SpeechSegment>, ts: Highlights.Span, n: nat): (r: seq<nat>)
    requires n <= |segs|
    ensures forall i :: 0 <= i < |r| ==> r[i] < n && Inside(segs[r[i]], ts)
    ensures forall i, j :: 0 <= i < j < |r| ==> r[i] < r[j]
  {
    if n == 0 then [] else InsideBelow(segs, ts, n - 1) + (if Inside(segs[n - 1], ts) then [n - 1] else [])
  }

  /** The segments at the positions `picked`, moved onto clip time. */
  function RetimeAll(segs: seq<SpeechSegment>, ts: Highlights.Span, clipLength: real, picked: seq<nat>): (r: seq<SpeechSegment>)
    requires forall i :: 0 <= i < |picked| ==> picked[i] < |segs|
  {
    seq(|picked|, i requires 0 <= i < |picked| => Retime(segs[picked[i]], ts, clipLength))
  }

  lemma {:induction false} RetimeAllSnoc(segs: seq<SpeechSegment>, ts: Highlights.Span, clipLength: real, picked: seq<nat>, k: nat)
    requires forall i :: 0 <= i < |picked| ==> picked[i] < |segs|
    requires k < |segs|
    ensures RetimeAll(segs, ts, clipLength, picked + [k]) == RetimeAll(segs, ts, clipLength, picked) + [Retime(segs[k], ts, clipLength)]
  {
    var r := RetimeAll(segs, ts, clipLength, picked + [k]);
    assert r[|picked|] == Retime(segs[k], ts, clipLength);
  }

  /** The speech segments attached for `ts`, moved onto clip time. */
  function RangeSpeech(segs: seq<SpeechSegment>, ts: Highlights.Span, clipLength: real): (r: seq<SpeechSegment>)
  {
    RetimeAll(segs, ts, clipLength, InsideBelow(segs, ts, Stop(segs, ts)))
  }

  /** The speech data of a clip cut from `timeranges`, each range placed after the earlier ones. */
  function ClipSpeech(segs: seq<SpeechSegment>, timeranges: seq<Highlights.Span>): seq<SpeechSegment>
  {
    if timeranges == [] then []
    else
      var init := timeranges[..|timeranges| - 1];
      ClipSpeech(segs, init) + RangeSpeech(segs, timeranges[|timeranges| - 1], Highlights.Length(init))
  }

  /** The clip `compile_result` builds for one highlight. */
  function ClipOf(segs: seq<SpeechSegment>, h: Highlight): (c: Clip)
    ensures c.file.uri == ClipFileUri(c.id) && c.previewFile.uri == ClipPreviewUri(c.id) && 0 <= c.id
    ensures (forall i :: 0 <= i < |h.timeranges| ==> h.timeranges[i].start <= h.timeranges[i].end) ==>
              forall x :: x in c.speechData ==> 0.0 <= x.start && x.end <= Highlights.Length(h.timeranges)
  {
    var clipId := Highlights.ClipIdOf(h.timeranges);
    assert (forall i :: 0 <= i < |h.timeranges| ==> h.timeranges[i].start <= h.timeranges[i].end) ==>
             forall x :: x in ClipSpeech(segs, h.timeranges) ==> 0.0 <= x.start && x.end <= Highlights.Length(h.timeranges) by {
      if forall i :: 0 <= i < |h.timeranges| ==> h.timeranges[i].start <= h.timeranges[i].end {
        ClipSpeechWithinClip(segs, h.timeranges);
      }
    }
    Clip(clipId, h.title, h.duration, h.timeranges, Source(S3, ClipFileUri(clipId)),
         Source(S3, ClipPreviewUri(clipId)), ClipSpeech(segs, h.timeranges))
  }

  /** Re-timed speech lies within the part of the clip its range occupies, and keeps its duration. */
  lemma {:induction false} RangeSpeechPlacement(segs: seq<SpeechSegment>, ts: Highlights.Span, clipLength: real)
    ensures var r := RangeSpeech(segs, ts, clipLength);
            var picked := InsideBelow(segs, ts, Stop(segs, ts));
            && |r| == |picked|
            && forall i :: 0 <= i < |r| ==>
                 && clipLength <= r[i].start && r[i].end <= clipLength + (ts.end - ts.start)
                 && r[i].end - r[i].start == segs[picked[i]].end - segs[picked[i]].start
  {
  }

  lemma {:induction false} LengthNonNegative(timeranges: seq<Highlights.Span>)
    requires forall i :: 0 <= i < |timeranges| ==> timeranges[i].start <= timeranges[i].end
    ensures 0.0 <= Highlights.Length(timeranges)
  {
    if timeranges != [] {
      LengthNonNegative(timeranges[..|timeranges| - 1]);
    }
  }

  /** A clip's speech data all lies within the clip: between 0 and the summed range lengths. */
  lemma {:induction false} ClipSpeechWithinClip(segs: seq<SpeechSegment>, timeranges: seq<Highlights.Span>)
    requires forall i :: 0 <= i < |timeranges| ==> timeranges[i].start <= timeranges[i].end
    ensures forall x :: x in ClipSpeech(segs, timeranges) ==>
              0.0 <= x.start && x.end <= Highlights.Length(timeranges)
  {
    if timeranges != [] {
      var init := timeranges[..|timeranges| - 1];
      var ts := timeranges[|timeranges| - 1];
      ClipSpeechWithinClip(segs, init);
      LengthNonNegative(init);
      RangeSpeechPlacement(segs, ts, Highlights.Length(init));
      LengthNonNegative(timeranges);
      forall x | x in RangeSpeech(segs, ts, Highlights.Length(init))
        ensures 0.0 <= x.start && x.end <= Highlights.Length(timeranges)
      {
        var r := RangeSpeech(segs, ts, Highlights.Length(init));
        var i :| 0 <= i < |r| && r[i] == x;
      }
    }
  }

  /** A word that has both times is moved by exactly the segment's shift. */
  lemma {:induction false} RetimedWordShift(words: seq<Word>, ssStart: real, newStart: real, i: nat)
    requires i < |words| && words[i].start.Some? && words[i].end.Some?
    ensures RetimedWord(words, ssStart, newStart, i)
            == Word(Some(words[i].start.value + (newStart - ssStart)), Some(words[i].end.value + (newStart - ssStart)))
  {
  }

  /** The body of the scan for a segment inside `ts`: its times and its words moved onto clip time. */
  method RetimeSegment(ss: SpeechSegment, ts: Highlights.Span, clipLength: real) returns (moved: SpeechSegment)
    ensures moved == Retime(ss, ts, clipLength)
  {
    var newStart := clipLength + (ss.start - ts.start);
    var words := RetimeWords(ss.words, ss.start, newStart);
    moved := SpeechSegment(newStart, clipLength + (ss.end - ts.start), ss.text, words);
  }

  /**
   * The speech for `ts`, read from `segs` without changing it: the segments
   * inside `ts` up to the first one starting after it, moved onto clip time.
   */
  method RangeSpeechCopy(segs: seq<SpeechSegment>, ts: Highlights.Span, clipLength: real)
    returns (out: seq<SpeechSegment>)
    ensures out == RangeSpeech(segs, ts, clipLength)
  {
    ghost var picked: seq<nat> := [];
    out := [];
    var k := 0;
    while k < |segs|
      invariant k <= |segs|
      invariant forall j :: 0 <= j < k ==> Inside(segs[j], ts) || segs[j].start <= ts.end
      invariant picked == InsideBelow(segs, ts, k)
      invariant out == RetimeAll(segs, ts, clipLength, picked)
    {
      var ss := segs[k];
      if ss.start >= ts.start && ss.end <= ts.end {
        var moved := RetimeSegment(ss, ts, clipLength);
        RetimeAllSnoc(segs, ts, clipLength, picked, k);
        out := out + [moved];
        picked := picked + [k];
      } else if ss.start > ts.end {
        break;
      }
      k := k + 1;
    }
    assert k == Stop(segs, ts);
  }

  /** One range more: its speech follows the earlier ranges', placed after their summed length. */
  lemma {:induction false} ClipSpeechStep(segs: seq<SpeechSegment>, timeranges: seq<Highlights.Span>, i: nat)
    requires i < |timeranges|
    ensures ClipSpeech(segs, timeranges[..i + 1])
            == ClipSpeech(segs, timeranges[..i]) + RangeSpeech(segs, timeranges[i], Highlights.Length(timeranges[..i]))
    ensures Highlights.Length(timeranges[..i + 1])
            == Highlights.Length(timeranges[..i]) + (timeranges[i].end - timeranges[i].start)
  {
    var t := timeranges[..i + 1];
    assert t[..i] == timeranges[..i] && t[i] == timeranges[i];
  }

  /** The speech data of one clip, range by range, with the `clip_length` accumulator. */
  method ClipSpeechCopy(segs: seq<SpeechSegment>, timeranges: seq<Highlights.Span>)
    returns (speech: seq<SpeechSegment>)
    ensures speech == ClipSpeech(segs, timeranges)
  {
    speech := [];
    var clipLength: real := 0.0;
    var i := 0;
    while i < |timeranges|
      invariant i <= |timeranges|
      invariant speech == ClipSpeech(segs, timeranges[..i])
      invariant clipLength == Highlights.Length(timeranges[..i])
    {
      ClipSpeechStep(segs, timeranges, i);
      var part := RangeSpeechCopy(segs, timeranges[i], clipLength);
      speech := speech + part;
      clipLength := clipLength + (timeranges[i].end - timeranges[i].start);
      i := i + 1;
    }
    assert timeranges[..i] == timeranges;
  }

  /** The clip of one highlight, its speech copied from the segments as loaded. */
  method CompileClip(segs: seq<SpeechSegment>, s: Highlight) returns (clip: Clip)
    ensures clip == ClipOf(segs, s)
  {
    var clipId := Highlights.ClipId(s.timeranges);
    var speech := ClipSpeechCopy(segs, s.timeranges);
    clip := Clip(clipId, s.title, s.duration, s.timeranges, Source(S3, ClipFileUri(clipId)),
                 Source(S3, ClipPreviewUri(clipId)), speech);
  }

  /**
   * `compile_result` with each clip's speech data copied from the segments
   * as loaded: one clip per highlight, in order; the segments are not changed.
   */
  method CompileResult(id: string, originalFile: Source, segs: array<SpeechSegment>, highlights: seq<Highlight>)
    returns (result: VideoResult)
    ensures result.id == id && result.originalFile == originalFile && result.failureReason == None
    ensures |result.clips| == |highlights|
    ensures forall h :: 0 <= h < |highlights| ==> result.clips[h] == ClipOf(segs[..], highlights[h])
  {
    var loaded := segs[..];
    var clips: seq<Clip> := [];
    var h := 0;
    while h < |highlights|
      invariant h <= |highlights| && |clips| == h
      invariant forall j :: 0 <= j < h ==> clips[j] == ClipOf(loaded, highlights[j])
    {
      var clip := CompileClip(loaded, highlights[h]);
      clips := clips + [clip];
      h := h + 1;
    }
    result := VideoResult(id, originalFile, clips, None);
  }

  /**
   * `compile_result` as written: the `VideoResult(...)` it builds first passes
   * `reason` where the field is `failure_reason`, so it raises a TypeError
   * before any clip is built, and the segments are left alone.
   */
  method CompileResultAsWritten(id: string, originalFile: Source, segs: array<SpeechSegment>, highlights: seq<Highlight>)
    returns (r: Result<VideoResult, PyError>)
    ensures r == Fail(TypeError)
  {
    VideoResultWithReasonRaises();
    var raised := KeywordCall(VideoResultFields, CompileResultKeywords);
    r := Fail(raised.value);
  }

  // ---------------------------------------------------------------- as written, once the constructor is fixed

  /**
   * One pass of the scan for `ts` as written: every segment found inside `ts`
   * is overwritten in the shared list by its re-timed copy.
   */
  function PassSegs(segs: seq<SpeechSegment>, ts: Highlights.Span, clipLength: real): (r: seq<SpeechSegment>)
    ensures |r| == |segs|
  {
    PassPrefix(segs, ts, clipLength, Stop(segs, ts))
  }

  /** The list once the segments before position `n` have been scanned for `ts`. */
  function PassPrefix(segs: seq<SpeechSegment>, ts: Highlights.Span, clipLength: real, n: nat): (r: seq<SpeechSegment>)
    ensures |r| == |segs|
  {
    seq(|segs|, k requires 0 <= k < |segs| =>
      if k < n && Inside(segs[k], ts) then Retime(segs[k], ts, clipLength) else segs[k])
  }

  /** Scanning position `k` re-times the segment there when it is inside `ts`, and touches nothing else. */
  lemma {:induction false} PassPrefixStep(segs: seq<SpeechSegment>, ts: Highlights.Span, clipLength: real, k: nat)
    requires k < |segs|
    ensures PassPrefix(segs, ts, clipLength, k)[k] == segs[k]
    ensures PassPrefix(segs, ts, clipLength, k + 1)
            == if Inside(segs[k], ts) then PassPrefix(segs, ts, clipLength, k)[k := Retime(segs[k], ts, clipLength)]
               else PassPrefix(segs, ts, clipLength, k)
  {
  }

  /** The shared segment list after some passes, and the segments (by position) attached so far. */
  datatype Attached = Attached(segs: seq<SpeechSegment>, picked: seq<nat>)

  /** The passes of one clip as written: each range scans the list the earlier passes left. */
  function AttachAsWritten(segs: seq<SpeechSegment>, timeranges: seq<Highlights.Span>): (r: Attached)
    ensures |r.segs| == |segs|
    ensures forall i :: 0 <= i < |r.picked| ==> r.picked[i] < |segs|
  {
    if timeranges == [] then Attached(segs, [])
    else
      var init := timeranges[..|timeranges| - 1];
      var prev := AttachAsWritten(segs, init);
      var ts := timeranges[|timeranges| - 1];
      Attached(PassSegs(prev.segs, ts, Highlights.Length(init)),
               prev.picked + InsideBelow(prev.segs, ts, Stop(prev.segs, ts)))
  }

  /** A clip as written: its speech data are references into the shared segment list. */
  datatype ClipRefs = ClipRefs(id: int, title: string, duration: real, timeranges: seq<Highlights.Span>,
                               file: Source, previewFile: Source, speechRefs: seq<nat>)

  datatype Compiled = Compiled(segs: seq<SpeechSegment>, clips: seq<ClipRefs>)

  /** `compile_result` as written, highlight after highlight over the one shared list. */
  function CompileAsWritten(segs: seq<SpeechSegment>, highlights: seq<Highlight>): (r: Compiled)
    ensures |r.segs| == |segs| && |r.clips| == |highlights|
  {
    if highlights == [] then Compiled(segs, [])
    else
      var prev := CompileAsWritten(segs, highlights[..|highlights| - 1]);
      var h := highlights[|highlights| - 1];
      var clipId := Highlights.ClipIdOf(h.timeranges);
      var att := AttachAsWritten(prev.segs, h.timeranges);
      Compiled(att.segs, prev.clips + [ClipRefs(clipId, h.title, h.duration, h.timeranges,
                                                Source(S3, ClipFileUri(clipId)), Source(S3, ClipPreviewUri(clipId)),
                                                att.picked)])
  }

  /** The scan for `ts` as written, re-timing the matching segments in place. */
  method AttachRangeInPlace(segs: array<SpeechSegment>, ts: Highlights.Span, clipLength: real)
    returns (picked: seq<nat>)
    modifies segs
    ensures segs[..] == PassSegs(old(segs[..]), ts, clipLength)
    ensures picked == InsideBelow(old(segs[..]), ts, Stop(old(segs[..]), ts))
  {
    ghost var orig := segs[..];
    picked := [];
    var k := 0;
    while k < segs.Length
      invariant k <= segs.Length == |orig|
      invariant forall j :: 0 <= j < k ==> Inside(orig[j], ts) || orig[j].start <= ts.end
      invariant segs[..] == PassPrefix(orig, ts, clipLength, k)
      invariant picked == InsideBelow(orig, ts, k)
    {
      PassPrefixStep(orig, ts, clipLength, k);
      assert segs[k] == orig[k];
      var ss := segs[k];
      if ss.start >= ts.start && ss.end <= ts.end {
        var moved := RetimeSegment(ss, ts, clipLength);
        segs[k] := moved;
        picked := picked + [k];
      } else if ss.start > ts.end {
        break;
      }
      k := k + 1;
    }
    assert k == Stop(orig, ts);
  }

  /** One pass more: it scans the list the earlier passes left, placed after their summed length. */
  lemma {:induction false} AttachStep(segs: seq<SpeechSegment>, timeranges: seq<Highlights.Span>, i: nat)
    requires i < |timeranges|
    ensures var prev := AttachAsWritten(segs, timeranges[..i]);
            var ts, clipLength := timeranges[i], Highlights.Length(timeranges[..i]);
            AttachAsWritten(segs, timeranges[..i + 1])
              == Attached(PassSegs(prev.segs, ts, clipLength), prev.picked + InsideBelow(prev.segs, ts, Stop(prev.segs, ts)))
    ensures Highlights.Length(timeranges[..i + 1])
            == Highlights.Length(timeranges[..i]) + (timeranges[i].end - timeranges[i].start)
  {
    var t := timeranges[..i + 1];
    assert t[..i] == timeranges[..i] && t[i] == timeranges[i];
  }

  /** One highlight more: its clip is attached over the list the earlier ones left. */
  lemma {:induction false} CompileStep(segs: seq<SpeechSegment>, highlights: seq<Highlight>, h: nat)
    requires h < |highlights|
    ensures var prev := CompileAsWritten(segs, highlights[..h]);
            var s := highlights[h];
            var clipId := Highlights.ClipIdOf(s.timeranges);
            var att := AttachAsWritten(prev.segs, s.timeranges);
            CompileAsWritten(segs, highlights[..h + 1])
              == Compiled(att.segs, prev.clips + [ClipRefs(clipId, s.title, s.duration, s.timeranges,
                                                           Source(S3, ClipFileUri(clipId)), Source(S3, ClipPreviewUri(clipId)),
                                                           att.picked)])
  {
    var t := highlights[..h + 1];
    assert t[..h] == highlights[..h] && t[h] == highlights[h];
  }

  /** The passes of one clip as written. */
  method AttachInPlace(segs: array<SpeechSegment>, timeranges: seq<Highlights.Span>) returns (picked: seq<nat>)
    modifies segs
    ensures segs[..] == AttachAsWritten(old(segs[..]), timeranges).segs
    ensures picked == AttachAsWritten(old(segs[..]), timeranges).picked
  {
    ghost var orig := segs[..];
    picked := [];
    var clipLength: real := 0.0;
    var i := 0;
    while i < |timeranges|
      invariant i <= |timeranges|
      invariant segs[..] == AttachAsWritten(orig, timeranges[..i]).segs
      invariant picked == AttachAsWritten(orig, timeranges[..i]).picked
      invariant clipLength == Highlights.Length(timeranges[..i])
    {
      AttachStep(orig, timeranges, i);
      var part := AttachRangeInPlace(segs, timeranges[i], clipLength);
      picked := picked + part;
      clipLength := clipLength + (timeranges[i].end - timeranges[i].start);
      i := i + 1;
    }
    assert timeranges[..i] == timeranges;
  }

  /**
   * The clip loop of `compile_result` as written, from a `VideoResult` built
   * with `failure_reason`: the clips hold references into the segment list it rewrites.
   */
  method CompileResultInPlace(segs: array<SpeechSegment>, highlights: seq<Highlight>) returns (clips: seq<ClipRefs>)
    modifies segs
    ensures segs[..] == CompileAsWritten(old(segs[..]), highlights).segs
    ensures clips == CompileAsWritten(old(segs[..]), highlights).clips
  {
    ghost var orig := segs[..];
    clips := [];
    var h := 0;
    while h < |highlights|
      invariant h <= |highlights|
      invariant segs[..] == CompileAsWritten(orig, highlights[..h]).segs
      invariant clips == CompileAsWritten(orig, highlights[..h]).clips
    {
      CompileStep(orig, highlights, h);
      var s := highlights[h];
      var clipId := Highlights.ClipId(s.timeranges);
      var refs := AttachInPlace(segs, s.timeranges);
      clips := clips + [ClipRefs(clipId, s.title, s.duration, s.timeranges, Source(S3, ClipFileUri(clipId)),
                                 Source(S3, ClipPreviewUri(clipId)), refs)];
      h := h + 1;
    }
    assert highlights[..h] == highlights;
  }

  /** One range over the one-segment list: the segment is re-timed if inside, and picked. */
  lemma {:induction false} SinglePass(seg: SpeechSegment, ts: Highlights.Span)
    requires Inside(seg, ts)
    ensures AttachAsWritten([seg], [ts]) == Attached([Retime(seg, ts, 0.0)], [0])
  {
    assert [ts][..0] == [];
    assert Stop([seg], ts) == 1;
    assert InsideBelow([seg], ts, 1) == [0];
    assert PassSegs([seg], ts, 0.0) == [Retime(seg, ts, 0.0)];
  }

  /** The first highlight of the counterexample rewrites the segment to 0-2 s. */
  lemma {:induction false} FirstHighlightRewrites(segs: seq<SpeechSegment>, hs: seq<Highlight>)
    requires segs == [SpeechSegment(10.0, 12.0, "", [])]
    requires |hs| == 1 && hs[0].timeranges == [Highlights.Span(10.0, 20.0)]
    ensures CompileAsWritten(segs, hs).segs == [SpeechSegment(0.0, 2.0, "", [])]
  {
    assert hs[..0] == [];
    assert CompileAsWritten(segs, hs[..0]) == Compiled(segs, []);
    var r := Retime(segs[0], Highlights.Span(10.0, 20.0), 0.0);
    assert r.words == [];
    assert r == SpeechSegment(0.0, 2.0, "", []);
    SinglePass(segs[0], Highlights.Span(10.0, 20.0));
  }

  /**
   * A segment spoken at 10-12 s, a first highlight over 10-20 s and a second
   * over 0-5 s: as written the second clip picks up the segment (rewritten to
   * 0-2 s by the first pass); read from the segments as loaded it has none.
   */
  lemma {:induction false} SharedSegmentsLeakIntoLaterClips()
    ensures var segs := [SpeechSegment(10.0, 12.0, "", [])];
            var hs := [Highlight("a", 10.0, [Highlights.Span(10.0, 20.0)]),
                       Highlight("b", 5.0, [Highlights.Span(0.0, 5.0)])];
            && CompileAsWritten(segs, hs).clips[1].speechRefs == [0]
            && ClipOf(segs, hs[1]).speechData == []
  {
    var segs := [SpeechSegment(10.0, 12.0, "", [])];
    var b := Highlights.Span(0.0, 5.0);
    var hs := [Highlight("a", 10.0, [Highlights.Span(10.0, 20.0)]), Highlight("b", 5.0, [b])];
    var moved := SpeechSegment(0.0, 2.0, "", []);
    assert hs[..|hs| - 1] == [hs[0]];
    FirstHighlightRewrites(segs, [hs[0]]);
    SinglePass(moved, b);
    // Read from the segments as loaded, 10-12 s is after 0-5 s and the scan stops at once.
    assert [b][..0] == [];
    assert Stop(segs, b) == 0;
    assert RangeSpeech(segs, b, 0.0) == [];
  }
}
