// The deterministic list algorithms of the highlight pipeline: cutting an SRT
// transcript into prompt-sized sections, validating and fusing the timeranges
// a completion names, and the clip id of a segment.
module Highlights {
  import opened Wrappers
  import opened Numbers

  // ================================================================ sectioning

  /** A section may not grow past this many characters. */
  const MaxSectionCharCount := 2500 * 4
  /** Budget for the lines carried over into the next section. */
  const MaxPrependCharCount := 100 * 4
  /** At most this many lines are carried over. */
  const CarriedLines := 3

  /** A transcript entry: the SRT timestamp line and the sentence below it. */
  datatype Line = Line(timestamp: string, sentence: string)

  /** How many entries `lines[2::4]` has. */
  function SentenceCount(lines: seq<string>): (n: nat)
    ensures forall i :: 0 <= i < n ==> 4 * i + 2 < |lines|
    ensures |lines| <= 4 * n + 2
  {
    if |lines| <= 2 then 0 else (|lines| - 3) / 4 + 1
  }

  /** `lines[2::4]`: the text line of every four-line SRT block. */
  function Sentences(lines: seq<string>): (r: seq<string>)
    ensures |r| == SentenceCount(lines)
    ensures forall i :: 0 <= i < |r| ==> r[i] == lines[4 * i + 2]
  {
    seq(SentenceCount(lines), i requires 0 <= i < SentenceCount(lines) => lines[4 * i + 2])
  }

  /** Sentence `i` paired with the timestamp line just above it, `lines[4i+1]`. */
  function Pairs(lines: seq<string>): (p: seq<Line>)
    ensures |p| == SentenceCount(lines)
    ensures forall i :: 0 <= i < |p| ==> p[i] == Line(lines[4 * i + 1], lines[4 * i + 2])
    ensures forall i :: 0 <= i < |p| ==> p[i].sentence == Sentences(lines)[i]
  {
    seq(SentenceCount(lines), i requires 0 <= i < SentenceCount(lines) => Line(lines[4 * i + 1], lines[4 * i + 2]))
  }

  /** Total length of the sentences of `p`. */
  function SumLen(p: seq<Line>): nat
  {
    if p == [] then 0 else SumLen(p[..|p| - 1]) + |p[|p| - 1].sentence|
  }

  /**
   * `len(ll)` for a carried line: `ll` is the (timestamp, sentence) tuple, so
   * its length is 2 whatever the sentence is.
   */
  function TupleLen(l: Line): nat
  {
    2
  }

  function Reverse<T>(s: seq<T>): (r: seq<T>)
    ensures |r| == |s| && forall i :: 0 <= i < |s| ==> r[i] == s[|s| - 1 - i]
  {
    if s == [] then [] else [s[|s| - 1]] + Reverse(s[..|s| - 1])
  }

  /** `section[-3:]`. */
  function LastLines(section: seq<Line>): (r: seq<Line>)
  {
    section[|section| - Min(CarriedLines, |section|)..]
  }

  /**
   * The lines carried from a closed section into the next: walks the last
   * three lines newest first, keeps them while the prepend budget allows, and
   * restores their order. With every line counting 2 the budget never stops
   * the walk, so all of the last three lines are carried.
   */
  method CarryOver(section: seq<Line>) returns (prepend: seq<Line>, count: nat)
    ensures prepend == LastLines(section)
    ensures count == 2 * |prepend| <= 2 * CarriedLines
  {
    var reversed := Reverse(LastLines(section));
    var picked: seq<Line> := [];
    count := 0;
    var k := 0;
    while k < |reversed|
      invariant 0 <= k <= |reversed|
      invariant picked == reversed[..k] && count == 2 * k
    {
      var llCount := TupleLen(reversed[k]);
      if count + llCount > MaxPrependCharCount {
        break;
      }
      picked := picked + [reversed[k]];
      count := count + llCount;
      k := k + 1;
    }
    assert picked == reversed;
    prepend := Reverse(picked);
  }

  /** How many lines section `j` of `s` starts with from its predecessor. */
  function Carried(s: seq<seq<Line>>, j: nat): nat
    requires j <= |s|
  {
    if j == 0 then 0 else Min(CarriedLines, |s[j - 1]|)
  }

  /**
   * `section_char_count` of a section that starts with `c` carried lines and
   * then holds the new lines `p[first..m]`: a carried line counts 2, a new line
   * the length of its sentence.
   */
  function SectionCount(p: seq<Line>, c: nat, first: nat, m: nat): nat
    requires first <= m <= |p|
  {
    2 * c + SumLen(p[first..m])
  }

  /**
   * A section that starts with `c` carried lines and holds the new lines
   * `p[first..end]`: it did not close before its last new line, and unless
   * `end` is the end of `p` it closed because the next sentence did not fit.
   */
  ghost predicate Fits(p: seq<Line>, section: seq<Line>, c: nat, first: nat, end: nat)
  {
    && c <= first < end <= |p|
    && section == p[first - c..end]
    && (forall m {:trigger SectionCount(p, c, first, m)} :: first < m < end ==>
          SectionCount(p, c, first, m) + |p[m].sentence| <= MaxSectionCharCount)
    && (end < |p| ==> SectionCount(p, c, first, end) + |p[end].sentence| > MaxSectionCharCount)
  }

  /** Section `j` fits, preceded by the last lines of section `j - 1`. */
  ghost predicate Window(p: seq<Line>, s: seq<seq<Line>>, ends: seq<nat>, j: nat)
    requires |ends| == |s| && j < |s|
  {
    Fits(p, s[j], Carried(s, j), if j == 0 then 0 else ends[j - 1], ends[j])
  }

  /** `s` is the sectioning of the lines `p`, section `j` ending at `ends[j]`. */
  ghost predicate Sectioned(p: seq<Line>, s: seq<seq<Line>>, ends: seq<nat>)
  {
    && |ends| == |s|
    && (|s| == 0 <==> |p| == 0)
    && (|s| > 0 ==> ends[|s| - 1] == |p|)
    && AllWindows(p, s, ends)
  }

  ghost predicate AllWindows(p: seq<Line>, s: seq<seq<Line>>, ends: seq<nat>)
    requires |ends| == |s|
  {
    forall j {:trigger Window(p, s, ends, j)} :: 0 <= j < |s| ==> Window(p, s, ends, j)
  }

  /** Appending a section leaves the earlier windows as they were. */
  lemma {:induction false} WindowExtend(p: seq<Line>, s: seq<seq<Line>>, ends: seq<nat>, x: seq<Line>, e: nat, j: nat)
    requires |ends| == |s| && j < |s| && Window(p, s, ends, j)
    ensures Window(p, s + [x], ends + [e], j)
  {
    assert (s + [x])[j] == s[j] && (ends + [e])[j] == ends[j];
    if 0 < j {
      assert (s + [x])[j - 1] == s[j - 1] && (ends + [e])[j - 1] == ends[j - 1];
    }
    assert Carried(s + [x], j) == Carried(s, j);
  }

  lemma {:induction false} SliceDrop<T>(p: seq<T>, a: nat, e: nat, k: nat)
    requires a <= e <= |p| && k <= e - a
    ensures p[a..e][k..] == p[a + k..e]
  {
    assert |p[a..e][k..]| == e - a - k;
  }

  lemma {:induction false} SliceTake<T>(p: seq<T>, a: nat, e: nat, k: nat)
    requires a <= e <= |p| && k <= e - a
    ensures p[a..e][..k] == p[a..a + k]
  {
    assert |p[a..e][..k]| == k;
  }

  lemma {:induction false} SliceAppend<T>(p: seq<T>, a: nat, b: nat)
    requires a <= b <= |p|
    ensures p[..a] + p[a..b] == p[..b]
  {
    assert |p[..a] + p[a..b]| == b;
  }

  lemma {:induction false} SliceSnoc<T>(p: seq<T>, a: nat, b: nat)
    requires a <= b < |p|
    ensures p[a..b] + [p[b]] == p[a..b + 1]
  {
    assert |p[a..b] + [p[b]]| == b + 1 - a;
  }

  lemma {:induction false} SumLenSnoc(p: seq<Line>, a: nat, b: nat)
    requires a <= b < |p|
    ensures SumLen(p[a..b + 1]) == SumLen(p[a..b]) + |p[b].sentence|
  {
    assert p[a..b + 1][..b - a] == p[a..b];
  }

  /**
   * The state of the sectioning loop before line `i` is added: the closed
   * sections are windows, and the open one holds the carried lines and the
   * new lines `p[first..i]` without having needed to close.
   */
  ghost predicate Open(p: seq<Line>, s: seq<seq<Line>>, ends: seq<nat>, first: nat,
                       section: seq<Line>, count: nat, i: nat)
  {
    && |ends| == |s|
    && first == (if |s| == 0 then 0 else ends[|s| - 1])
    && AllWindows(p, s, ends)
    && Growing(p, section, count, Carried(s, |s|), first, i)
  }

  /**
   * An open section that starts with `c` carried lines and holds the new
   * lines `p[first..i]`, counted in `count`, without having needed to close.
   */
  ghost predicate Growing(p: seq<Line>, section: seq<Line>, count: nat, c: nat, first: nat, i: nat)
  {
    && c <= first <= i < |p|
    && section == p[first - c..i]
    && count == SectionCount(p, c, first, i)
    && (forall m {:trigger SectionCount(p, c, first, m)} :: first < m <= i ==>
          SectionCount(p, c, first, m) + |p[m].sentence| <= MaxSectionCharCount)
  }

  /** Before the first line, no section is closed and the open one is empty. */
  lemma {:induction false} OpenStart(p: seq<Line>)
    requires |p| > 0
    ensures Open(p, [], [], 0, [], 0, 0)
  {
    assert p[0..0] == [];
    assert SectionCount(p, 0, 0, 0) == 0;
  }

  /** Line `i` joins the open section when the next sentence still fits. */
  lemma {:induction false} GrowingExtend(p: seq<Line>, section: seq<Line>, count: nat, c: nat, first: nat, i: nat)
    requires Growing(p, section, count, c, first, i) && i + 1 < |p|
    requires count + |p[i].sentence| + |p[i + 1].sentence| <= MaxSectionCharCount
    ensures Growing(p, section + [p[i]], count + |p[i].sentence|, c, first, i + 1)
  {
    SumLenSnoc(p, first, i);
    SliceSnoc(p, first - c, i);
  }

  /** The section opened after closing `closed` at line `i` holds its last lines and no new line. */
  lemma {:induction false} GrowingStart(p: seq<Line>, closed: seq<Line>, c: nat, first: nat, i: nat)
    requires c <= first <= i && i + 1 < |p| && closed == p[first - c..i + 1]
    ensures Growing(p, LastLines(closed), 2 * |LastLines(closed)|, Min(CarriedLines, |closed|), i + 1, i + 1)
  {
    var c' := Min(CarriedLines, |closed|);
    assert LastLines(closed) == p[i + 1 - c'..i + 1] by {
      SliceDrop(p, first - c, i + 1, |closed| - c');
    }
    assert SectionCount(p, c', i + 1, i + 1) == 2 * c' by {
      assert p[i + 1..i + 1] == [];
    }
  }

  /** Adding line `i` when the next sentence still fits keeps the section open. */
  lemma {:induction false} OpenExtend(p: seq<Line>, s: seq<seq<Line>>, ends: seq<nat>, first: nat,
                   section: seq<Line>, count: nat, i: nat)
    requires Open(p, s, ends, first, section, count, i) && i + 1 < |p|
    requires count + |p[i].sentence| + |p[i + 1].sentence| <= MaxSectionCharCount
    ensures Open(p, s, ends, first, section + [p[i]], count + |p[i].sentence|, i + 1)
  {
    GrowingExtend(p, section, count, Carried(s, |s|), first, i);
  }

  /** Closing the open section after line `i` makes it a window ending at `i + 1`. */
  lemma {:induction false} CloseWindow(p: seq<Line>, s: seq<seq<Line>>, ends: seq<nat>, first: nat,
                    section: seq<Line>, count: nat, i: nat)
    requires Open(p, s, ends, first, section, count, i)
    requires i + 1 < |p| ==> count + |p[i].sentence| + |p[i + 1].sentence| > MaxSectionCharCount
    ensures |ends + [i + 1]| == |s + [section + [p[i]]]|
    ensures Window(p, s + [section + [p[i]]], ends + [i + 1], |s|)
    ensures AllWindows(p, s + [section + [p[i]]], ends + [i + 1])
  {
    var closed := section + [p[i]];
    var s', ends' := s + [closed], ends + [i + 1];
    NewWindow(p, s, ends, first, section, count, i);
    forall j | 0 <= j < |s'|
      ensures Window(p, s', ends', j)
    {
      if j < |s| {
        WindowExtend(p, s, ends, closed, i + 1, j);
      }
    }
  }

  lemma {:induction false} NewWindow(p: seq<Line>, s: seq<seq<Line>>, ends: seq<nat>, first: nat,
                    section: seq<Line>, count: nat, i: nat)
    requires Open(p, s, ends, first, section, count, i)
    requires i + 1 < |p| ==> count + |p[i].sentence| + |p[i + 1].sentence| > MaxSectionCharCount
    ensures Window(p, s + [section + [p[i]]], ends + [i + 1], |s|)
  {
    var c := Carried(s, |s|);
    FitsClose(p, section, count, c, first, i);
    var s', ends' := s + [section + [p[i]]], ends + [i + 1];
    assert s'[|s|] == section + [p[i]] && ends'[|s|] == i + 1;
    assert 0 < |s| ==> s'[|s| - 1] == s[|s| - 1] && ends'[|s| - 1] == ends[|s| - 1];
    assert Carried(s', |s|) == c;
  }

  /** The open section with line `i` added fits once the next sentence does not. */
  lemma {:induction false} FitsClose(p: seq<Line>, section: seq<Line>, count: nat, c: nat, first: nat, i: nat)
    requires Growing(p, section, count, c, first, i)
    requires i + 1 < |p| ==> count + |p[i].sentence| + |p[i + 1].sentence| > MaxSectionCharCount
    ensures Fits(p, section + [p[i]], c, first, i + 1)
  {
    SumLenSnoc(p, first, i);
    SliceSnoc(p, first - c, i);
  }

  /**
   * Adding line `i` when the next sentence does not fit closes the section;
   * the next one opens with its last lines.
   */
  lemma {:induction false} OpenClose(p: seq<Line>, s: seq<seq<Line>>, ends: seq<nat>, first: nat,
                  section: seq<Line>, count: nat, i: nat)
    requires Open(p, s, ends, first, section, count, i) && i + 1 < |p|
    requires count + |p[i].sentence| + |p[i + 1].sentence| > MaxSectionCharCount
    ensures var closed := section + [p[i]];
            Open(p, s + [closed], ends + [i + 1], i + 1, LastLines(closed), 2 * |LastLines(closed)|, i + 1)
  {
    var closed := section + [p[i]];
    CloseWindow(p, s, ends, first, section, count, i);
    var c := Carried(s, |s|);
    SliceSnoc(p, first - c, i);
    GrowingStart(p, closed, c, first, i);
    var s', ends' := s + [closed], ends + [i + 1];
    assert s'[|s'| - 1] == closed && ends'[|s'| - 1] == i + 1;
    assert Carried(s', |s'|) == Min(CarriedLines, |closed|);
  }

  /** Adding the last line closes the last section and completes the sectioning. */
  lemma {:induction false} OpenFinish(p: seq<Line>, s: seq<seq<Line>>, ends: seq<nat>, first: nat,
                   section: seq<Line>, count: nat, i: nat)
    requires Open(p, s, ends, first, section, count, i) && i + 1 == |p|
    ensures Sectioned(p, s + [section + [p[i]]], ends + [i + 1])
  {
    CloseWindow(p, s, ends, first, section, count, i);
  }

  /**
   * One turn of the sectioning loop for a line `i` that is not the last: the
   * line joins the open section, which closes when the next sentence would
   * take it past the limit, and the next section opens with the lines
   * `CarryOver` keeps.
   */
  method AddLine(ghost p: seq<Line>, sections: seq<seq<Line>>, ghost ends: seq<nat>, ghost first: nat,
                 section: seq<Line>, count: nat, i: nat, line: Line, nextLen: nat)
    returns (sections': seq<seq<Line>>, ghost ends': seq<nat>, ghost first': nat,
             section': seq<Line>, count': nat)
    requires Open(p, sections, ends, first, section, count, i) && i + 1 < |p|
    requires line == p[i] && nextLen == |p[i + 1].sentence|
    ensures Open(p, sections', ends', first', section', count', i + 1)
  {
    if count + |line.sentence| + nextLen > MaxSectionCharCount {
      OpenClose(p, sections, ends, first, section, count, i);
      var closed := section + [line];
      var prepend, prependCount := CarryOver(closed);
      sections', ends', first' := sections + [closed], ends + [i + 1], i + 1;
      section', count' := prepend, prependCount;
    } else {
      OpenExtend(p, sections, ends, first, section, count, i);
      sections', ends', first' := sections, ends, first;
      section', count' := section + [line], count + |line.sentence|;
    }
  }

  /**
   * The sectioning loop of `get_highlights` over the (timestamp, sentence)
   * lines: each line joins the open section, and the section closes after the
   * last line or when the next sentence would take it past the limit.
   */
  method SectionLines(p: seq<Line>) returns (sections: seq<seq<Line>>)
    ensures exists ends :: Sectioned(p, sections, ends)
  {
    sections := [];
    ghost var ends: seq<nat> := [];
    if |p| == 0 {
      assert Sectioned(p, sections, ends);
      return;
    }
    var section: seq<Line> := [];
    var count: nat := 0;
    ghost var first: nat := 0;
    var i := 0;
    OpenStart(p);
    while i < |p| - 1
      invariant i < |p|
      invariant Open(p, sections, ends, first, section, count, i)
    {
      sections, ends, first, section, count := AddLine(p, sections, ends, first, section, count, i, p[i], |p[i + 1].sentence|);
      i := i + 1;
    }
    OpenFinish(p, sections, ends, first, section, count, i);
    sections := sections + [section + [p[i]]];
    ends := ends + [i + 1];
    assert Sectioned(p, sections, ends);
  }

  /** `get_highlights`' sectioning of the lines of an SRT transcript. */
  method Sectionize(lines: seq<string>) returns (sections: seq<seq<Line>>)
    ensures exists ends :: Sectioned(Pairs(lines), sections, ends)
  {
    sections := SectionLines(Pairs(lines));
  }

  /** Section `j` without the lines it carries over from section `j - 1`. */
  function NewLines(s: seq<seq<Line>>, j: nat): seq<Line>
    requires j < |s|
  {
    s[j][Min(Carried(s, j), |s[j]|)..]
  }

  /** The new lines of the first `k` sections, in order. */
  function AllNewLines(s: seq<seq<Line>>, k: nat): seq<Line>
    requires k <= |s|
  {
    if k == 0 then [] else AllNewLines(s, k - 1) + NewLines(s, k - 1)
  }

  /** The new lines of the first `k` sections, in order, are the transcript's lines before the end of section `k - 1`. */
  lemma {:induction false} SectionsCoverInOrder(p: seq<Line>, s: seq<seq<Line>>, ends: seq<nat>, k: nat)
    requires Sectioned(p, s, ends) && k <= |s|
    ensures (k == 0 || ends[k - 1] <= |p|) && AllNewLines(s, k) == p[..if k == 0 then 0 else ends[k - 1]]
  {
    if k > 0 {
      SectionsCoverInOrder(p, s, ends, k - 1);
      assert Window(p, s, ends, k - 1);
      CoverStep(p, AllNewLines(s, k - 1), s[k - 1], Carried(s, k - 1), if k == 1 then 0 else ends[k - 2], ends[k - 1]);
    }
  }

  /** The new lines of all the sections, in order, are exactly the transcript's lines. */
  lemma {:induction false} SectionsCover(p: seq<Line>, s: seq<seq<Line>>, ends: seq<nat>)
    requires Sectioned(p, s, ends)
    ensures AllNewLines(s, |s|) == p
  {
    SectionsCoverInOrder(p, s, ends, |s|);
    assert p[..|p|] == p;
  }

  /** The lines of `p` before a fitting section, followed by its new lines, reach its end. */
  lemma {:induction false} CoverStep(p: seq<Line>, before: seq<Line>, section: seq<Line>, c: nat, first: nat, end: nat)
    requires Fits(p, section, c, first, end) && before == p[..first]
    ensures before + section[Min(c, |section|)..] == p[..end]
  {
    SliceDrop(p, first - c, end, c);
    SliceAppend(p, first, end);
  }

  /** A section cut from `p` starting `c` lines before `first` begins with the last `c` lines of `p[a..first]`. */
  lemma {:induction false} CarryPrefix(p: seq<Line>, prev: seq<Line>, cur: seq<Line>, a: nat, first: nat, e: nat, c: nat)
    requires a <= first <= e <= |p| && c <= first - a
    requires prev == p[a..first] && cur == p[first - c..e] && c == Min(CarriedLines, |prev|)
    ensures c <= |cur| && cur[..c] == LastLines(prev)
  {
    SliceDrop(p, a, first, |prev| - c);
    SliceTake(p, first - c, e, c);
  }

  /**
   * A section after the first begins with the last (at most three) lines of
   * its predecessor, in their original order.
   */
  lemma {:induction false} CarriedFromPrevious(p: seq<Line>, s: seq<seq<Line>>, ends: seq<nat>, j: nat)
    requires Sectioned(p, s, ends) && 0 < j < |s|
    ensures Carried(s, j) <= CarriedLines
    ensures Carried(s, j) <= |s[j]| && s[j][..Carried(s, j)] == LastLines(s[j - 1])
  {
    assert Window(p, s, ends, j - 1);
    assert Window(p, s, ends, j);
    var prevFirst := if j == 1 then 0 else ends[j - 2];
    CarryPrefix(p, s[j - 1], s[j], prevFirst - Carried(s, j - 1), ends[j - 1], ends[j], Carried(s, j));
  }

  /** Every section has a new line, and the last section ends with the last line. */
  lemma {:induction false} LastSectionEndsTranscript(p: seq<Line>, s: seq<seq<Line>>, ends: seq<nat>)
    requires Sectioned(p, s, ends) && |s| > 0
    ensures forall j :: 0 <= j < |s| ==> Carried(s, j) < |s[j]|
    ensures 0 < |s[|s| - 1]| && s[|s| - 1][|s[|s| - 1]| - 1] == p[|p| - 1]
  {
    forall j | 0 <= j < |s|
      ensures Carried(s, j) < |s[j]|
    {
      assert Window(p, s, ends, j);
    }
    assert Window(p, s, ends, |s| - 1);
  }

  /** An empty transcript (fewer than three lines) gives no sections. */
  lemma {:induction false} NoSentencesNoSections(lines: seq<string>, s: seq<seq<Line>>, ends: seq<nat>)
    requires |lines| <= 2 && Sectioned(Pairs(lines), s, ends)
    ensures s == []
  {
  }

  // ================================================================ timeranges

  /** A timestamp the completion names: the pattern `\d+\.\d+` admits no sign. */
  type Seconds = r: real | 0.0 <= r

  /** A `(start, end)` timerange. */
  datatype Span = Span(start: Seconds, end: Seconds)

  /** Shortest and longest accepted highlight, in seconds. */
  const MinHighlightLength: real := 15.0
  const MaxHighlightLength: real := 120.0

  /**
   * Match `i`, all earlier ones accepted, is rejected: it ends at or before
   * its start, or starts before the previous match ended.
   */
  predicate Rejected(ms: seq<Span>, i: nat)
    requires i < |ms|
  {
    ms[i].end <= ms[i].start || (0 < i && ms[i - 1].end > ms[i].start)
  }

  function AcceptedFrom(ms: seq<Span>, i: nat): (k: nat)
    requires i <= |ms|
    ensures i <= k <= |ms|
    ensures forall j :: i <= j < k ==> !Rejected(ms, j)
    ensures k < |ms| ==> Rejected(ms, k)
    decreases |ms| - i
  {
    if i == |ms| || Rejected(ms, i) then i else AcceptedFrom(ms, i + 1)
  }

  /** How many matches the scan accepts: the index of the first rejected one. */
  function AcceptedCount(ms: seq<Span>): (k: nat)
    ensures k <= |ms|
    ensures forall j :: 0 <= j < k ==> !Rejected(ms, j)
    ensures k < |ms| ==> Rejected(ms, k)
  {
    AcceptedFrom(ms, 0)
  }

  /** Summed length `end - start` of the spans. */
  function Length(ms: seq<Span>): real
  {
    if ms == [] then 0.0 else Length(ms[..|ms| - 1]) + (ms[|ms| - 1].end - ms[|ms| - 1].start)
  }

  /**
   * The stored ranges for a run of matches: a match starting exactly where
   * the previous one ended extends the last range instead of adding one.
   */
  function Fuse(ms: seq<Span>): (r: seq<Span>)
    ensures |r| <= |ms| && (|ms| > 0 <==> |r| > 0)
    ensures |ms| > 0 ==> r[|r| - 1].end == ms[|ms| - 1].end
  {
    if ms == [] then []
    else
      var prev := Fuse(ms[..|ms| - 1]);
      var m := ms[|ms| - 1];
      if 1 < |ms| && ms[|ms| - 2].end == m.start then
        prev[|prev| - 1 := Span(prev[|prev| - 1].start, m.end)]
      else
        prev + [m]
  }

  /** Non-empty ranges, each strictly before the next. */
  predicate Ordered(r: seq<Span>)
  {
    && (forall i :: 0 <= i < |r| ==> r[i].start < r[i].end)
    && (forall i :: 0 < i < |r| ==> r[i - 1].end < r[i].start)
  }

  /** A range after the last one, and not empty, keeps the ranges ordered. */
  lemma {:induction false} OrderedSnoc(r: seq<Span>, x: Span)
    requires Ordered(r) && x.start < x.end
    requires 0 < |r| ==> r[|r| - 1].end < x.start
    ensures Ordered(r + [x])
  {
    var r' := r + [x];
    forall i | 0 <= i < |r'|
      ensures r'[i].start < r'[i].end
    {
      if i < |r| { assert r'[i] == r[i]; }
    }
    forall i | 0 < i < |r'|
      ensures r'[i - 1].end < r'[i].start
    {
      if i < |r| { assert r'[i - 1] == r[i - 1] && r'[i] == r[i]; }
    }
  }

  /** Extending the last range to a later end keeps the ranges ordered. */
  lemma {:induction false} OrderedExtendLast(r: seq<Span>, x: Span)
    requires Ordered(r) && 0 < |r| && x.start == r[|r| - 1].start && r[|r| - 1].end <= x.end
    ensures Ordered(r[|r| - 1 := x])
  {
    var r' := r[|r| - 1 := x];
    forall i | 0 <= i < |r'|
      ensures r'[i].start < r'[i].end
    {
      assert r[i].start < r[i].end;
    }
    forall i | 0 < i < |r'|
      ensures r'[i - 1].end < r'[i].start
    {
      assert r[i - 1].end < r[i].start;
    }
  }

  /** The step of `FuseOrdered`: an accepted last match keeps the fused ranges ordered. */
  lemma {:induction false} FuseOrderedStep(ms: seq<Span>)
    requires 0 < |ms| && Ordered(Fuse(ms[..|ms| - 1]))
    requires ms[|ms| - 1].start < ms[|ms| - 1].end
    requires 1 < |ms| ==> ms[|ms| - 2].end <= ms[|ms| - 1].start
    ensures Ordered(Fuse(ms))
  {
    var init, m := ms[..|ms| - 1], ms[|ms| - 1];
    var prev := Fuse(init);
    if 1 < |ms| && ms[|ms| - 2].end == m.start {
      assert init[|init| - 1] == ms[|ms| - 2];
      OrderedExtendLast(prev, Span(prev[|prev| - 1].start, m.end));
    } else {
      if 1 < |ms| {
        assert init[|init| - 1] == ms[|ms| - 2];
      }
      OrderedSnoc(prev, m);
    }
  }

  /** Accepted matches fuse into strictly increasing, disjoint ranges with the same first start. */
  lemma {:induction false} FuseOrdered(ms: seq<Span>)
    requires forall j :: 0 <= j < |ms| ==> !Rejected(ms, j)
    ensures Ordered(Fuse(ms))
    ensures |ms| > 0 ==> Fuse(ms)[0].start == ms[0].start
  {
    if ms != [] {
      var init := ms[..|ms| - 1];
      forall j | 0 <= j < |init|
        ensures !Rejected(init, j)
      {
        assert !Rejected(ms, j);
      }
      FuseOrdered(init);
      assert !Rejected(ms, |ms| - 1);
      FuseOrderedStep(ms);
      if 0 < |init| {
        assert init[0] == ms[0];
      }
    }
  }

  lemma {:induction false} LengthSnoc(a: seq<Span>, x: Span)
    ensures Length(a + [x]) == Length(a) + (x.end - x.start)
  {
    assert (a + [x])[..|a|] == a;
  }

  /** Replacing the last span changes the length by the difference of the two. */
  lemma {:induction false} LengthUpdateLast(a: seq<Span>, x: Span)
    requires 0 < |a|
    ensures Length(a[|a| - 1 := x]) == Length(a) - (a[|a| - 1].end - a[|a| - 1].start) + (x.end - x.start)
  {
    assert a[|a| - 1 := x][..|a| - 1] == a[..|a| - 1];
  }

  /** The step of `FuseLength`: fusing the last match adds its length. */
  lemma {:induction false} FuseLengthStep(ms: seq<Span>)
    requires 0 < |ms| && Length(Fuse(ms[..|ms| - 1])) == Length(ms[..|ms| - 1])
    ensures Length(Fuse(ms)) == Length(ms)
  {
    var init, m := ms[..|ms| - 1], ms[|ms| - 1];
    var prev := Fuse(init);
    if 1 < |ms| && ms[|ms| - 2].end == m.start {
      assert init[|init| - 1] == ms[|ms| - 2];
      LengthUpdateLast(prev, Span(prev[|prev| - 1].start, m.end));
    } else {
      LengthSnoc(prev, m);
    }
  }

  /** Fusing keeps the total length. */
  lemma {:induction false} FuseLength(ms: seq<Span>)
    ensures Length(Fuse(ms)) == Length(ms)
  {
    if ms != [] {
      FuseLength(ms[..|ms| - 1]);
      FuseLengthStep(ms);
    }
  }

  /** One match more: it extends the last range when it starts where the previous one ended, and adds its length. */
  lemma {:induction false} FusePrefixStep(ms: seq<Span>, i: nat)
    requires i < |ms|
    ensures var prev := Fuse(ms[..i]);
            Fuse(ms[..i + 1]) == if 0 < i && ms[i - 1].end == ms[i].start
                                 then prev[|prev| - 1 := Span(prev[|prev| - 1].start, ms[i].end)]
                                 else prev + [ms[i]]
    ensures Length(ms[..i + 1]) == Length(ms[..i]) + (ms[i].end - ms[i].start)
  {
    var t := ms[..i + 1];
    assert t[..i] == ms[..i] && t[i] == ms[i];
    if 0 < i {
      assert t[i - 1] == ms[i - 1];
    }
  }

  /** The scan stops at `i`: it accepted `i` matches, whose fused ranges are ordered and keep their length. */
  lemma {:induction false} ScanDone(ms: seq<Span>, i: nat)
    requires i <= |ms|
    requires forall j :: 0 <= j < i ==> !Rejected(ms, j)
    requires i == |ms| || Rejected(ms, i)
    ensures AcceptedCount(ms) == i
    ensures Ordered(Fuse(ms[..i])) && Length(Fuse(ms[..i])) == Length(ms[..i])
  {
    forall j | 0 <= j < i
      ensures !Rejected(ms[..i], j)
    {
      assert !Rejected(ms, j);
    }
    FuseOrdered(ms[..i]);
    FuseLength(ms[..i]);
  }

  /**
   * The timerange scan: accepts matches up to the first rejected one,
   * accumulating their total length and fusing adjacent ones.
   */
  method ScanTimeranges(matches: seq<Span>) returns (timeranges: seq<Span>, totalLength: real)
    ensures timeranges == Fuse(matches[..AcceptedCount(matches)])
    ensures totalLength == Length(matches[..AcceptedCount(matches)]) == Length(timeranges)
    ensures Ordered(timeranges)
  {
    timeranges := [];
    totalLength := 0.0;
    var lastEnd: Option<real> := None;
    var i := 0;
    while i < |matches|
      invariant i <= |matches|
      invariant forall j :: 0 <= j < i ==> !Rejected(matches, j)
      invariant timeranges == Fuse(matches[..i]) && totalLength == Length(matches[..i])
      invariant lastEnd == (if i == 0 then None else Some(matches[i - 1].end))
    {
      var start, end := matches[i].start, matches[i].end;
      var invalidTimerange := false;
      if end <= start {
        invalidTimerange := true;
      }
      // `if last_end and last_end > start`: a float end of 0.0 is falsy.
      if lastEnd.Some? && lastEnd.value != 0.0 && lastEnd.value > start {
        invalidTimerange := true;
      }
      if invalidTimerange {
        break;
      }
      FusePrefixStep(matches, i);
      totalLength := totalLength + (end - start);
      if lastEnd == Some(start as real) {
        timeranges := timeranges[|timeranges| - 1 := Span(timeranges[|timeranges| - 1].start, end)];
      } else {
        timeranges := timeranges + [Span(start, end)];
      }
      lastEnd := Some(end as real);
      i := i + 1;
    }
    ScanDone(matches, i);
  }

  /** The verdict on one completion. */
  datatype Attempt =
    | NoMatches
    | TooShort(total: real)
    | TooLong(total: real)
    | Accepted(timeranges: seq<Span>, total: real)

  /**
   * One attempt of `get_highlights`: the `-->` matches, or the `to` matches
   * when there are none, scanned and judged by their total length.
   */
  method EvaluateCompletion(arrowMatches: seq<Span>, toMatches: seq<Span>) returns (a: Attempt)
    ensures var ms := if |arrowMatches| > 0 then arrowMatches else toMatches;
            var accepted := ms[..AcceptedCount(ms)];
            var total := Length(accepted);
            && (|ms| == 0 ==> a == NoMatches)
            && (|ms| > 0 && total < MinHighlightLength ==> a == TooShort(total))
            && (|ms| > 0 && total > MaxHighlightLength ==> a == TooLong(total))
            && (|ms| > 0 && MinHighlightLength <= total <= MaxHighlightLength ==> a == Accepted(Fuse(accepted), total))
    ensures a.Accepted? ==>
              && MinHighlightLength <= a.total <= MaxHighlightLength
              && |a.timeranges| > 0 && Ordered(a.timeranges) && Length(a.timeranges) == a.total
  {
    var matches := arrowMatches;
    if |matches| <= 0 {
      matches := toMatches;
    }
    if |matches| <= 0 {
      return NoMatches;
    }
    var timeranges, totalLength := ScanTimeranges(matches);
    if totalLength < MinHighlightLength {
      return TooShort(totalLength);
    }
    if totalLength > MaxHighlightLength {
      return TooLong(totalLength);
    }
    a := Accepted(timeranges, totalLength);
  }

  // ================================================================ clip id

  /** Sum of `int(start + end)` over the timeranges. */
  function ClipIdOf(timeranges: seq<Span>): (id: int)
    ensures 0 <= id
  {
    if timeranges == [] then 0
    else
      var t := timeranges[|timeranges| - 1];
      ClipIdOf(timeranges[..|timeranges| - 1]) + Trunc(t.start + t.end)
  }

  /** The clip-id loop of `generate_clips`. */
  method ClipId(timeranges: seq<Span>) returns (clipId: int)
    ensures clipId == ClipIdOf(timeranges)
  {
    clipId := 0;
    var i := 0;
    while i < |timeranges|
      invariant i <= |timeranges| && clipId == ClipIdOf(timeranges[..i])
    {
      assert timeranges[..i + 1][..i] == timeranges[..i];
      clipId := clipId + Trunc(timeranges[i].start + timeranges[i].end);
      i := i + 1;
    }
    assert timeranges[..i] == timeranges;
  }

  /** The clip id of a concatenation is the sum of the clip ids. */
  lemma {:induction false} ClipIdConcat(a: seq<Span>, b: seq<Span>)
    ensures ClipIdOf(a + b) == ClipIdOf(a) + ClipIdOf(b)
  {
    if b == [] {
      assert a + b == a;
    } else {
      ClipIdConcat(a, b[..|b| - 1]);
      assert (a + b)[..|a + b| - 1] == a + b[..|b| - 1];
    }
  }

  /** A clip id is never negative and at most the summed endpoints. */
  lemma {:induction false} ClipIdBounds(timeranges: seq<Span>)
    ensures 0 <= ClipIdOf(timeranges)
    ensures ClipIdOf(timeranges) as real <= Endpoints(timeranges)
  {
    if timeranges != [] {
      ClipIdBounds(timeranges[..|timeranges| - 1]);
    }
  }

  function Endpoints(timeranges: seq<Span>): real
  {
    if timeranges == [] then 0.0
    else
      var t := timeranges[|timeranges| - 1];
      Endpoints(timeranges[..|timeranges| - 1]) + t.start + t.end
  }
}
