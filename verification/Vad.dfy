/** Voice-activity spans over speech and silence frames. */
module Vad {
  /** Samples from `start` up to, not including, `end`. */
  datatype Span = Span(start: nat, end: nat)

  function FrameSize(sampleRate: nat): (r: nat)
    ensures r > 0
  {
    var sr := if sampleRate == 0 then 1 else sampleRate;
    if sr * 30 / 1000 == 0 then 1 else sr * 30 / 1000
  }

  function Pad(sampleRate: nat): nat {
    (if sampleRate == 0 then 1 else sampleRate) * 150 / 1000
  }

  function MergeGap(sampleRate: nat): nat {
    (if sampleRate == 0 then 1 else sampleRate) * 300 / 1000
  }

  function FrameCount(samples: nat, frame: nat): nat
    requires frame > 0
  {
    (samples + frame - 1) / frame
  }

  function Least(a: int, b: int): int {
    if a <= b then a else b
  }

  function Minus(a: nat, b: nat): nat {
    if a >= b then a - b else 0
  }

  // ---- what the spans should be, sample by sample -----------------------------------------

  /** Samples at most `pad` away from one of the first `n` frames that holds speech. */
  ghost function Near(speech: seq<bool>, n: nat, frame: nat, pad: nat, samples: nat): set<int>
    requires n <= |speech|
  {
    set x | 0 <= x < samples && IsNear(speech, n, frame, pad, x)
  }

  predicate IsNear(speech: seq<bool>, n: nat, frame: nat, pad: nat, x: int)
    requires n <= |speech|
  {
    exists i :: 0 <= i < n && speech[i] && Padded(i, frame, pad, x)
  }

  predicate Padded(i: nat, frame: nat, pad: nat, x: int) {
    i * frame - pad <= x < (i + 1) * frame + pad
  }

  /** Near speech, or in a gap of at most `gap` samples between two samples near speech. */
  ghost predicate Voiced(near: set<int>, gap: nat, x: int) {
    exists a, b :: a in near && b in near && a <= x <= b && b - a - 1 <= gap
  }

  ghost predicate In(spans: seq<Span>, x: int) {
    exists k :: 0 <= k < |spans| && spans[k].start <= x < spans[k].end
  }

  /** Non-empty, in bounds, in order, and consecutive spans more than the gap apart. */
  predicate Tidy(spans: seq<Span>, gap: nat, samples: nat) {
    (forall k :: 0 <= k < |spans| ==> spans[k].start < spans[k].end <= samples)
    && forall j, k :: 0 <= j < k < |spans| ==> spans[j].end + gap < spans[k].start
  }

  // ---- one run of speech frames -------------------------------------------------------------

  ghost function Between(start: int, end: int): set<int> {
    set x | start <= x < end && Inside(start, end, x)
  }

  predicate Inside(start: int, end: int, x: int) {
    start <= x < end
  }

  lemma FramesGrow(i: nat, j: nat, frame: nat)
    requires i <= j
    ensures i * frame <= j * frame
  {
  }

  lemma FrameStarts(i: nat, frame: nat, samples: nat)
    requires frame > 0 && i < FrameCount(samples, frame)
    ensures i * frame < samples
  {
    RoundedUp(samples + frame - 1, frame);
    FramesGrow(i + 1, FrameCount(samples, frame), frame);
    assert (i + 1) * frame == i * frame + frame;
  }

  lemma RoundedUp(a: nat, d: nat)
    requires d > 0
    ensures (a / d) * d <= a
  {
  }

  /** The frames of a run together reach exactly from its padded start to its padded end. */
  lemma RunReach(s: nat, e: nat, frame: nat, pad: nat, x: int)
    requires s < e && frame > 0
    ensures (exists i :: s <= i < e && Padded(i, frame, pad, x)) <==> s * frame - pad <= x < e * frame + pad
  {
    if s * frame - pad <= x < e * frame + pad {
      ReachedBy(s, e, frame, pad, x);
    }
    if i :| s <= i < e && Padded(i, frame, pad, x) {
      FramesGrow(s, i, frame);
      FramesGrow(i + 1, e, frame);
    }
  }

  lemma ReachedBy(s: nat, e: nat, frame: nat, pad: nat, x: int)
    requires s < e && frame > 0
    requires s * frame - pad <= x < e * frame + pad
    ensures exists i :: s <= i < e && Padded(i, frame, pad, x)
  {
    if x < s * frame {
      FramesGrow(s, s + 1, frame);
      assert Padded(s, frame, pad, x);
    } else if x >= e * frame {
      FramesGrow(e - 1, e, frame);
      assert Padded(e - 1, frame, pad, x);
    } else {
      var i := FrameOf(s, e, frame, x);
      assert Padded(i, frame, pad, x);
    }
  }

  lemma FrameOf(s: nat, e: nat, frame: nat, x: int) returns (i: nat)
    requires frame > 0 && s * frame <= x < e * frame
    ensures s <= i < e && i * frame <= x < (i + 1) * frame
    decreases e - s
  {
    if x < (s + 1) * frame {
      if s >= e {
        FramesGrow(e, s, frame);
      }
      i := s;
    } else {
      if s + 1 >= e {
        FramesGrow(e, s + 1, frame);
      }
      i := FrameOf(s + 1, e, frame, x);
    }
  }

  lemma NearAfterRun(speech: seq<bool>, s: nat, e: nat, frame: nat, pad: nat, samples: nat)
    requires s < e <= |speech| && frame > 0
    requires forall i :: s <= i < e ==> speech[i]
    ensures var (start, end) := (Minus(s * frame, pad), Least(Least(e * frame, samples) + pad, samples));
      Near(speech, e, frame, pad, samples) == Near(speech, s, frame, pad, samples) + Between(start, end)
  {
    hide Padded;
    var (start, end) := (Minus(s * frame, pad), Least(Least(e * frame, samples) + pad, samples));
    var (was, now) := (Near(speech, s, frame, pad, samples), Near(speech, e, frame, pad, samples));
    forall x | 0 <= x < samples
      ensures x in now <==> x in was || start <= x < end
    {
      RunReach(s, e, frame, pad, x);
      assert (exists i :: s <= i < e && Padded(i, frame, pad, x)) <==> start <= x < end;
    }
    assert now == was + Between(start, end);
  }

  lemma NearAfterSilence(speech: seq<bool>, n: nat, frame: nat, pad: nat, samples: nat)
    requires n < |speech| && !speech[n]
    ensures Near(speech, n + 1, frame, pad, samples) == Near(speech, n, frame, pad, samples)
  {
    hide Padded;
  }

  /** What the scan knows after some frames. */
  ghost predicate Scanned(spans: seq<Span>, near: set<int>, gap: nat, samples: nat) {
    && Tidy(spans, gap, samples)
    && (forall x :: In(spans, x) <==> Voiced(near, gap, x))
    && (spans != [] ==> spans[|spans| - 1].end - 1 in near)
  }

  function AddRun(spans: seq<Span>, start: nat, end: nat, gap: nat): seq<Span> {
    var n := |spans|;
    if n > 0 && start <= spans[n - 1].end + gap then spans[n - 1 := Span(spans[n - 1].start, end)]
    else spans + [Span(start, end)]
  }

  lemma NearIsIn(spans: seq<Span>, near: set<int>, gap: nat, samples: nat, a: int)
    requires Scanned(spans, near, gap, samples) && a in near
    ensures In(spans, a)
  {
    assert Voiced(near, gap, a);
  }

  lemma AddRunIsTidy(spans: seq<Span>, start: nat, end: nat, gap: nat, samples: nat)
    requires Tidy(spans, gap, samples) && start < end <= samples
    requires spans != [] ==> spans[|spans| - 1].start <= start && spans[|spans| - 1].end <= end
    ensures Tidy(AddRun(spans, start, end, gap), gap, samples)
  {
  }

  /** Everything in the spans after adding a run is voiced. */
  lemma AddRunIsVoiced(spans: seq<Span>, near: set<int>, start: nat, end: nat, gap: nat, samples: nat, x: int)
    requires Scanned(spans, near, gap, samples) && start < end <= samples
    requires In(AddRun(spans, start, end, gap), x)
    ensures Voiced(near + Between(start, end), gap, x)
  {
    var now := AddRun(spans, start, end, gap);
    var all := near + Between(start, end);
    if start <= x < end {
      assert x in all;
    } else if In(spans, x) {
      assert Voiced(near, gap, x);
      var a, b :| a in near && b in near && a <= x <= b && b - a - 1 <= gap;
      assert a in all && b in all;
    } else {
      var a := spans[|spans| - 1].end - 1;
      assert a in all && start in all && a <= x <= start;
    }
  }

  lemma InStays(spans: seq<Span>, start: nat, end: nat, gap: nat, x: int)
    requires In(spans, x)
    requires spans != [] ==> spans[|spans| - 1].end <= end
    ensures In(AddRun(spans, start, end, gap), x)
  {
    var k :| 0 <= k < |spans| && spans[k].start <= x < spans[k].end;
    var now := AddRun(spans, start, end, gap);
    assert now[k].start <= x < now[k].end;
  }

  /** From a held sample to the new run, with a short enough gap: the run was merged. */
  lemma CrossingIsAdded(spans: seq<Span>, start: nat, end: nat, gap: nat, samples: nat, a: int, b: int, x: int)
    requires Tidy(spans, gap, samples) && In(spans, a)
    requires spans != [] ==> spans[|spans| - 1].start <= start && spans[|spans| - 1].end <= end
    requires start <= b < end && a <= x <= b && b - a - 1 <= gap
    ensures In(AddRun(spans, start, end, gap), x)
  {
    var (now, n) := (AddRun(spans, start, end, gap), |spans|);
    var k :| 0 <= k < n && spans[k].start <= a < spans[k].end;
    assert k == n - 1;
    assert now[n - 1].start <= x < now[n - 1].end;
  }

  lemma VoicedIsAdded(spans: seq<Span>, near: set<int>, start: nat, end: nat, gap: nat, samples: nat, x: int)
    requires Scanned(spans, near, gap, samples) && start < end <= samples
    requires spans != [] ==> spans[|spans| - 1].start <= start && spans[|spans| - 1].end <= end
    requires Voiced(near + Between(start, end), gap, x)
    ensures In(AddRun(spans, start, end, gap), x)
  {
    hide Tidy, In;
    var all := near + Between(start, end);
    var a, b :| a in all && b in all && a <= x <= b && b - a - 1 <= gap;
    if a in near && b in near {
      assert Voiced(near, gap, x);
      InStays(spans, start, end, gap, x);
    } else if a in near {
      NearIsIn(spans, near, gap, samples, a);
      CrossingIsAdded(spans, start, end, gap, samples, a, b, x);
    } else {
      if b in near {
        NearIsIn(spans, near, gap, samples, b);
      }
      AfterStartIsAdded(spans, start, end, gap, samples, b, x);
    }
  }

  lemma AfterStartIsAdded(spans: seq<Span>, start: nat, end: nat, gap: nat, samples: nat, b: int, x: int)
    requires Tidy(spans, gap, samples) && (In(spans, b) || b < end) && start <= x <= b
    requires spans != [] ==> spans[|spans| - 1].start <= start && spans[|spans| - 1].end <= end
    ensures In(AddRun(spans, start, end, gap), x)
  {
    var now := AddRun(spans, start, end, gap);
    assert now[|now| - 1].start <= x < now[|now| - 1].end;
  }

  lemma AddRunScanned(spans: seq<Span>, near: set<int>, start: nat, end: nat, gap: nat, samples: nat)
    requires Scanned(spans, near, gap, samples) && start < end <= samples
    requires spans != [] ==> spans[|spans| - 1].start <= start && spans[|spans| - 1].end <= end
    ensures Scanned(AddRun(spans, start, end, gap), near + Between(start, end), gap, samples)
  {
    AddRunIsTidy(spans, start, end, gap, samples);
    var now := AddRun(spans, start, end, gap);
    forall x
      ensures In(now, x) <==> Voiced(near + Between(start, end), gap, x)
    {
      if In(now, x) {
        AddRunIsVoiced(spans, near, start, end, gap, samples, x);
      }
      if Voiced(near + Between(start, end), gap, x) {
        VoicedIsAdded(spans, near, start, end, gap, samples, x);
      }
    }
    assert end - 1 in Between(start, end);
  }

  // ---- the scan ------------------------------------------------------------------------------

  datatype Scale = Scale(frame: nat, pad: nat, gap: nat, samples: nat)

  /** The spans after the first `i` frames, of which the last is no speech run cut short. */
  ghost predicate ScannedTo(spans: seq<Span>, speech: seq<bool>, i: nat, c: Scale)
    requires i <= |speech|
  {
    && Scanned(spans, Near(speech, i, c.frame, c.pad, c.samples), c.gap, c.samples)
    && (spans == [] <==> true !in speech[..i])
    && (spans != [] ==> spans[|spans| - 1].start <= Minus(i * c.frame, c.pad))
    && (spans != [] ==> spans[|spans| - 1].end <= Least(Least(i * c.frame, c.samples) + c.pad, c.samples))
  }

  lemma StartScan(speech: seq<bool>, c: Scale)
    ensures ScannedTo([], speech, 0, c)
  {
  }

  lemma SilenceStep(spans: seq<Span>, speech: seq<bool>, i: nat, c: Scale)
    requires i < |speech| && !speech[i] && ScannedTo(spans, speech, i, c)
    ensures ScannedTo(spans, speech, i + 1, c)
  {
    hide Near, Scanned;
    FramesGrow(i, i + 1, c.frame);
    NearAfterSilence(speech, i, c.frame, c.pad, c.samples);
    assert speech[..i + 1] == speech[..i] + [speech[i]];
  }

  lemma RunBounds(s: nat, e: nat, c: Scale)
    requires c.frame > 0 && s < e <= FrameCount(c.samples, c.frame)
    ensures Minus(s * c.frame, c.pad) < Least(Least(e * c.frame, c.samples) + c.pad, c.samples) <= c.samples
    ensures Minus(s * c.frame, c.pad) <= Minus(e * c.frame, c.pad)
    ensures Least(Least(s * c.frame, c.samples) + c.pad, c.samples)
         <= Least(Least(e * c.frame, c.samples) + c.pad, c.samples)
  {
    FrameStarts(s, c.frame, c.samples);
    FramesGrow(s + 1, e, c.frame);
    assert s * c.frame < (s + 1) * c.frame;
  }

  lemma RunStep(spans: seq<Span>, speech: seq<bool>, s: nat, e: nat, start: nat, end: nat, c: Scale)
    requires c.frame > 0 && |speech| == FrameCount(c.samples, c.frame)
    requires s < e <= |speech| && (forall i :: s <= i < e ==> speech[i]) && ScannedTo(spans, speech, s, c)
    requires start == Minus(s * c.frame, c.pad) && end == Least(Least(e * c.frame, c.samples) + c.pad, c.samples)
    ensures ScannedTo(AddRun(spans, start, end, c.gap), speech, e, c)
  {
    RunBounds(s, e, c);
    NearAfterRun(speech, s, e, c.frame, c.pad, c.samples);
    SomeSpeech(speech, s, e);
    AddRunEnds(spans, start, end, c.gap);
    hide Near, Scanned, Minus, Least, FrameCount, AddRun;
    AddRunScanned(spans, Near(speech, s, c.frame, c.pad, c.samples), start, end, c.gap, c.samples);
  }

  lemma SomeSpeech(speech: seq<bool>, s: nat, e: nat)
    requires s < e <= |speech| && speech[s]
    ensures true in speech[..e]
  {
    assert speech[..e][s] == true;
  }

  lemma AddRunEnds(spans: seq<Span>, start: nat, end: nat, gap: nat)
    requires spans != [] ==> spans[|spans| - 1].start <= start
    ensures var now := AddRun(spans, start, end, gap);
      now != [] && now[|now| - 1].start <= start && now[|now| - 1].end == end
  {
  }

  /**
    The spans for a clip whose frames hold speech or silence: exactly the samples near speech or
    in a short gap, as tidy spans; the whole clip when no frame holds speech.
   */
  method EnergyVad(speech: seq<bool>, samples: nat, sampleRate: nat) returns (spans: seq<Span>)
    requires |speech| == FrameCount(samples, FrameSize(sampleRate))
    ensures Tidy(spans, MergeGap(sampleRate), samples)
    ensures samples == 0 ==> spans == []
    ensures true in speech ==>
      var near := Near(speech, |speech|, FrameSize(sampleRate), Pad(sampleRate), samples);
      forall x :: In(spans, x) <==> Voiced(near, MergeGap(sampleRate), x)
    ensures samples > 0 && true !in speech ==> spans == [Span(0, samples)]
  {
    hide FrameSize, Pad, MergeGap, Near, Voiced, In, ScannedTo;
    var frame, pad, merge := FrameSize(sampleRate), Pad(sampleRate), MergeGap(sampleRate);
    ghost var c := Scale(frame, pad, merge, samples);
    if samples == 0 {
      NoFrames(frame);
      return [];
    }
    spans := [];
    StartScan(speech, c);
    var i := 0;
    while i < |speech|
      invariant 0 <= i <= |speech|
      invariant ScannedTo(spans, speech, i, c)
    {
      if !speech[i] {
        SilenceStep(spans, speech, i, c);
        i := i + 1;
        continue;
      }
      var startFrame := i;
      while i < |speech| && speech[i]
        invariant startFrame <= i <= |speech|
        invariant i == startFrame ==> speech[i]
        invariant forall k :: startFrame <= k < i ==> speech[k]
      {
        i := i + 1;
      }
      var start, end := startFrame * frame, Least(i * frame, samples);
      start := Minus(start, pad);
      end := Least(end + pad, samples);
      RunStep(spans, speech, startFrame, i, start, end, c);
      if spans != [] && start <= spans[|spans| - 1].end + merge {
        spans := spans[|spans| - 1 := Span(spans[|spans| - 1].start, end)];
        continue;
      }
      spans := spans + [Span(start, end)];
    }
    EndScan(spans, speech, c);
    if spans == [] {
      spans := [Span(0, samples)];
    }
  }

  lemma NoFrames(frame: nat)
    requires frame > 0
    ensures FrameCount(0, frame) == 0
  {
  }

  lemma EndScan(spans: seq<Span>, speech: seq<bool>, c: Scale)
    requires ScannedTo(spans, speech, |speech|, c)
    ensures Scanned(spans, Near(speech, |speech|, c.frame, c.pad, c.samples), c.gap, c.samples)
    ensures spans == [] <==> true !in speech
  {
    assert speech[..|speech|] == speech;
  }

  // ---- what that pins down ---------------------------------------------------------------------

  /** Tidy spans are determined by the samples they hold, so there is one right answer. */
  lemma {:induction false} SpansAreDetermined(s: seq<Span>, t: seq<Span>, gap: nat, samples: nat)
    requires Tidy(s, gap, samples) && Tidy(t, gap, samples)
    requires forall x :: In(s, x) <==> In(t, x)
    ensures s == t
  {
    if s == [] || t == [] {
      EmptyHoldsNothing(s, t);
      EmptyHoldsNothing(t, s);
    } else {
      FirstStart(s, gap, samples);
      FirstStart(t, gap, samples);
      assert s[0].start == t[0].start;
      FirstEnd(s, gap, samples);
      FirstEnd(t, gap, samples);
      assert s[0].end == t[0].end by {
        assert s[0].start <= s[0].end - 1 && s[0].start <= t[0].end - 1;
      }
      forall x
        ensures In(s[1..], x) <==> In(t[1..], x)
      {
        TailHolds(s, gap, samples, x);
        TailHolds(t, gap, samples, x);
      }
      SpansAreDetermined(s[1..], t[1..], gap, samples);
    }
  }

  lemma EmptyHoldsNothing(s: seq<Span>, t: seq<Span>)
    requires s == [] && t != [] ==> t[0].start < t[0].end
    requires forall x :: In(s, x) <==> In(t, x)
    ensures s == [] ==> t == []
  {
    if s == [] && t != [] {
      assert In(t, t[0].start);
    }
  }

  lemma FirstStart(s: seq<Span>, gap: nat, samples: nat)
    requires Tidy(s, gap, samples) && s != []
    ensures In(s, s[0].start) && forall x :: In(s, x) ==> s[0].start <= x
  {
  }

  lemma FirstEnd(s: seq<Span>, gap: nat, samples: nat)
    requires Tidy(s, gap, samples) && s != []
    ensures !In(s, s[0].end) && forall x :: s[0].start <= x < s[0].end ==> In(s, x)
  {
  }

  lemma TailHolds(s: seq<Span>, gap: nat, samples: nat, x: int)
    requires Tidy(s, gap, samples) && s != []
    ensures In(s[1..], x) <==> In(s, x) && x >= s[0].end
  {
    if In(s, x) && x >= s[0].end {
      var k :| 0 <= k < |s| && s[k].start <= x < s[k].end;
      assert s[1..][k - 1] == s[k];
    }
    if In(s[1..], x) {
      var k :| 0 <= k < |s| - 1 && s[1..][k].start <= x < s[1..][k].end;
      assert s[k + 1].start <= x < s[k + 1].end;
    }
  }

  predicate Holds(span: Span, start: nat, end: nat) {
    span.start <= start && end <= span.end
  }

  /** A stretch whose samples are all held is held by one span. */
  lemma StretchInOneSpan(spans: seq<Span>, gap: nat, samples: nat, start: nat, end: nat)
    requires Tidy(spans, gap, samples) && start < end
    requires forall x :: start <= x < end ==> In(spans, x)
    ensures exists k :: 0 <= k < |spans| && Holds(spans[k], start, end)
  {
    assert In(spans, start);
    var k :| 0 <= k < |spans| && spans[k].start <= start < spans[k].end;
    assert !In(spans, spans[k].end);
    assert Holds(spans[k], start, end);
  }

  /** Every frame that holds speech lies, padded on both sides, inside a single span. */
  lemma SpeechInsideOneSpan(speech: seq<bool>, i: nat, c: Scale, spans: seq<Span>)
    requires c.frame > 0 && |speech| == FrameCount(c.samples, c.frame) && i < |speech| && speech[i]
    requires Tidy(spans, c.gap, c.samples)
    requires forall x :: In(spans, x) <==> Voiced(Near(speech, |speech|, c.frame, c.pad, c.samples), c.gap, x)
    ensures exists k :: (0 <= k < |spans|
        && Holds(spans[k], Minus(i * c.frame, c.pad), Least((i + 1) * c.frame + c.pad, c.samples)))
  {
    var near := Near(speech, |speech|, c.frame, c.pad, c.samples);
    var (start, end) := (Minus(i * c.frame, c.pad), Least((i + 1) * c.frame + c.pad, c.samples));
    FrameStarts(i, c.frame, c.samples);
    forall x | start <= x < end
      ensures In(spans, x)
    {
      assert Padded(i, c.frame, c.pad, x);
      assert x in near;
      assert Voiced(near, c.gap, x);
    }
    StretchInOneSpan(spans, c.gap, c.samples, start, end);
  }
}
