// The video metadata read from ffprobe's output, and the scale filter chosen
// to downscale a video (py/retake/sage/video.py).
module Probe {
  import opened Wrappers
  import Text
  import Numbers

  /** The `Video` record: source path, size in pixels, whole frames per second, length in ms. */
  datatype VideoMeta = VideoMeta(src: string, width: int, height: int, fps: int, durationMs: int)

  /** What running ffprobe gave back. */
  datatype ProbeRun = ProbeRun(returnCode: int, stdout: string, stderr: string)

  /** The exceptions `from_source` raises: the probe's stderr, wrong line count, or a failed conversion. */
  datatype ProbeError = ProbeFailed(stderr: string) | UnexpectedOutput | ValueError

  /** Width, height, frame rate and duration on a line each, plus the empty piece after the last newline. */
  const ProbeLines := 5

  /** Python's `int(s)` and `float(s)` on a string are parameters: `None` is a `ValueError`. */
  type ParseInt = string -> Option<int>
  type ParseFloat = string -> Option<real>

  /**
   * The frame rate field: `"n/d"` with `d > 0` is the fraction `n / d`,
   * anything else is read as a single number (its first `/`-piece).
   */
  function FrameRate(field: string, parseFloat: ParseFloat): (r: Result<real, ProbeError>)
    ensures r.Fail? ==> r.error == ValueError
  {
    var parts := Text.Split(field, '/');
    if |parts| > 1 && parseFloat(parts[1]).None? then Fail(ValueError)
    else if parseFloat(parts[0]).None? then Fail(ValueError)
    else if |parts| > 1 && parseFloat(parts[1]).value > 0.0 then
      Ok(parseFloat(parts[0]).value / parseFloat(parts[1]).value)
    else Ok(parseFloat(parts[0]).value)
  }

  /** `from_source`: the probe must succeed and print exactly four lines, each converted. */
  function FromSource(src: string, run: ProbeRun, parseInt: ParseInt, parseFloat: ParseFloat)
    : (r: Result<VideoMeta, ProbeError>)
    ensures r == Fail(ProbeFailed(run.stderr)) <==> run.returnCode != 0
    ensures run.returnCode == 0 ==>
              (r == Fail(UnexpectedOutput) <==> Text.CountChar(run.stdout, '\n') != ProbeLines - 1)
    ensures r.Ok? ==>
              var info := Text.Split(run.stdout, '\n');
              && |info| == ProbeLines
              && r.value.src == src
              && parseInt(info[0]) == Some(r.value.width)
              && parseInt(info[1]) == Some(r.value.height)
              && FrameRate(info[2], parseFloat).Ok?
              && r.value.fps == Numbers.Trunc(FrameRate(info[2], parseFloat).value)
              && parseFloat(info[3]).Some?
              && r.value.durationMs == Numbers.Trunc(parseFloat(info[3]).value * 1000.0)
  {
    Text.SplitCount(run.stdout, '\n');
    if run.returnCode != 0 then Fail(ProbeFailed(run.stderr))
    else
      var info := Text.Split(run.stdout, '\n');
      if |info| != ProbeLines then Fail(UnexpectedOutput)
      else
        match FrameRate(info[2], parseFloat)
        case Fail(e) => Fail(e)
        case Ok(fps) =>
          if parseInt(info[0]).None? || parseInt(info[1]).None? || parseFloat(info[3]).None? then Fail(ValueError)
          else Ok(VideoMeta(src, parseInt(info[0]).value, parseInt(info[1]).value, Numbers.Trunc(fps),
                            Numbers.Trunc(parseFloat(info[3]).value * 1000.0)))
  }

  /** A fraction with a positive denominator is divided out. */
  lemma {:induction false} FrameRateFraction(n: string, d: string, parseFloat: ParseFloat)
    requires '/' !in n && '/' !in d
    requires parseFloat(n).Some? && parseFloat(d).Some? && parseFloat(d).value > 0.0
    ensures FrameRate(n + "/" + d, parseFloat) == Ok(parseFloat(n).value / parseFloat(d).value)
  {
    assert n + "/" + d == n + ['/'] + d;
    Text.SplitAfterPiece(n, d, '/');
    Text.SplitNoSeparator(d, '/');
  }

  /** A zero or negative denominator is ignored: the numerator is the rate. */
  lemma {:induction false} FrameRateBadDenominator(n: string, d: string, parseFloat: ParseFloat)
    requires '/' !in n && '/' !in d
    requires parseFloat(n).Some? && parseFloat(d).Some? && parseFloat(d).value <= 0.0
    ensures FrameRate(n + "/" + d, parseFloat) == Ok(parseFloat(n).value)
  {
    assert n + "/" + d == n + ['/'] + d;
    Text.SplitAfterPiece(n, d, '/');
    Text.SplitNoSeparator(d, '/');
  }

  /** A field without `/` is read as one number. */
  lemma {:induction false} FrameRateWhole(field: string, parseFloat: ParseFloat)
    requires '/' !in field
    ensures FrameRate(field, parseFloat) == if parseFloat(field).Some? then Ok(parseFloat(field).value) else Fail(ValueError)
  {
    Text.SplitNoSeparator(field, '/');
  }

  /**
   * Reading back what ffprobe prints: four newline-terminated fields whose
   * conversions succeed give the record of their values.
   */
  lemma {:induction false} FromSourceReadsFields(src: string, stderr: string, width: string, height: string, n: string, d: string,
                              seconds: string, parseInt: ParseInt, parseFloat: ParseFloat)
    requires '\n' !in width && '\n' !in height && '\n' !in n && '\n' !in d && '\n' !in seconds
    requires '/' !in n && '/' !in d
    requires parseInt(width).Some? && parseInt(height).Some? && parseFloat(seconds).Some?
    requires parseFloat(n).Some? && parseFloat(d).Some? && parseFloat(d).value > 0.0
    ensures var out := Text.Join([width, height, n + "/" + d, seconds, ""], '\n');
            FromSource(src, ProbeRun(0, out, stderr), parseInt, parseFloat)
              == Ok(VideoMeta(src, parseInt(width).value, parseInt(height).value,
                              Numbers.Trunc(parseFloat(n).value / parseFloat(d).value),
                              Numbers.Trunc(parseFloat(seconds).value * 1000.0)))
  {
    var fields := [width, height, n + "/" + d, seconds, ""];
    assert '\n' !in n + "/" + d;
    Text.SplitJoin(fields, '\n');
    FrameRateFraction(n, d, parseFloat);
  }

  /** ffmpeg's `-2` for one side of `scale`: keep the aspect ratio, rounded to an even size. */
  const KeepAspect := -2

  /** What `downscale` hands to ffmpeg: a plain copy, or a `scale=w:h` filter. */
  datatype ScaleFilter = CopyOriginal | Scale(w: int, h: int)

  function Max(a: int, b: int): int
  {
    if a >= b then a else b
  }

  /** `downscale`'s choice: copy when the larger side already has `sizePx`, else fix the larger side. */
  function DownscaleFilter(video: VideoMeta, sizePx: int): (r: ScaleFilter)
    ensures r.CopyOriginal? <==> Max(video.width, video.height) == sizePx
  {
    if Max(video.width, video.height) == sizePx then CopyOriginal
    else if video.width > video.height then Scale(sizePx, KeepAspect)
    else Scale(KeepAspect, sizePx)
  }

  /**
   * When scaling, exactly one side is fixed to `sizePx`, it is a larger side
   * of the video, and the other keeps the aspect ratio; a square video is
   * fixed by its height.
   */
  lemma {:induction false} LargerSideGetsSize(video: VideoMeta, sizePx: int)
    requires Max(video.width, video.height) != sizePx
    ensures var r := DownscaleFilter(video, sizePx);
            || (r == Scale(sizePx, KeepAspect) && video.width > video.height)
            || (r == Scale(KeepAspect, sizePx) && video.height >= video.width)
  {
  }
}
