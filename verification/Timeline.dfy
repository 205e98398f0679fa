/** How buffered samples become fMP4 track fragments: base times, 32-bit durations, and what a
    player reads back. Shared by the recorder and the live fragmenter. */
module Timeline {
  import opened Bytes

  type Payload = seq<byte>

  datatype Sample = Sample(dts: int, ptsOffset: int, isSync: bool, payload: Payload)
  datatype FragSample = FragSample(duration: int, ptsOffset: int, nonSync: bool, payload: Payload)
  datatype TrackPart = TrackPart(baseTime: int, samples: seq<FragSample>)

  const AAC_FRAME: int := 1024

  /** Distance from sample i to its successor, `boundary` standing in after the last one. */
  function StepAt(samples: seq<Sample>, boundary: int, i: nat): int
    requires i < |samples|
  {
    (if i + 1 < |samples| then samples[i + 1].dts else boundary) - samples[i].dts
  }

  /** Durations are truncated to 32 bits; the last audio frame has the constant AAC length. */
  function DurationAt(samples: seq<Sample>, isVideo: bool, boundary: int, i: nat): int
    requires i < |samples|
  {
    if i + 1 < |samples| || isVideo then ToUint32(StepAt(samples, boundary, i)) else AAC_FRAME
  }

  function Encoded(samples: seq<Sample>, isVideo: bool, boundary: int): (r: seq<FragSample>)
    ensures |r| == |samples|
  {
    seq(|samples|, i requires 0 <= i < |samples| =>
      FragSample(DurationAt(samples, isVideo, boundary, i), samples[i].ptsOffset, !samples[i].isSync,
                 samples[i].payload))
  }

  /** One track's part of a fragment in a file whose timeline starts at `origin`. */
  function Part(samples: seq<Sample>, origin: int, isVideo: bool, boundary: int): TrackPart
    requires samples != []
  {
    TrackPart((samples[0].dts - origin) % TWO64, Encoded(samples, isVideo, boundary))
  }

  /** The sample loop of a fragment. */
  method BuildPart(samples: seq<Sample>, origin: int, isVideo: bool, boundary: int) returns (part: TrackPart)
    requires samples != []
    ensures part == Part(samples, origin, isVideo, boundary)
  {
    var out: seq<FragSample> := [];
    for i := 0 to |samples|
      invariant out == Encoded(samples, isVideo, boundary)[..i]
    {
      var s := samples[i];
      var dur;
      if i + 1 < |samples| {
        dur := ToUint32(samples[i + 1].dts - s.dts);
      } else if isVideo {
        dur := ToUint32(boundary - s.dts);
      } else {
        dur := AAC_FRAME;
      }
      out := out + [FragSample(dur, s.ptsOffset, !s.isSync, s.payload)];
    }
    part := TrackPart((samples[0].dts - origin) % TWO64, out);
  }

  function TotalDuration(fs: seq<FragSample>): int {
    if fs == [] then 0 else fs[0].duration + TotalDuration(fs[1..])
  }

  /** Decode times never run backwards, up to the boundary. */
  predicate Rising(samples: seq<Sample>, boundary: int) {
    forall i :: 0 <= i < |samples| ==> StepAt(samples, boundary, i) >= 0
  }

  /** Every step up to the boundary fits a 32-bit duration. */
  predicate StepsFit(samples: seq<Sample>, boundary: int) {
    forall i :: 0 <= i < |samples| ==> StepAt(samples, boundary, i) < TWO32
  }

  lemma TailFacts(samples: seq<Sample>, boundary: int)
    requires samples != []
    ensures Encoded(samples, true, boundary)[1..] == Encoded(samples[1..], true, boundary)
    ensures Rising(samples, boundary) <==> StepAt(samples, boundary, 0) >= 0 && Rising(samples[1..], boundary)
    ensures StepsFit(samples, boundary) <==> StepAt(samples, boundary, 0) < TWO32 && StepsFit(samples[1..], boundary)
  {
    var rest := samples[1..];
    forall i | 0 <= i < |rest|
      ensures StepAt(samples, boundary, i + 1) == StepAt(rest, boundary, i)
    {
    }
    if Rising(rest, boundary) && StepAt(samples, boundary, 0) >= 0 {
      forall i | 0 <= i < |samples|
        ensures StepAt(samples, boundary, i) >= 0
      {
        assert i > 0 ==> StepAt(samples, boundary, i) == StepAt(rest, boundary, i - 1);
      }
    }
    if StepsFit(rest, boundary) && StepAt(samples, boundary, 0) < TWO32 {
      forall i | 0 <= i < |samples|
        ensures StepAt(samples, boundary, i) < TWO32
      {
        assert i > 0 ==> StepAt(samples, boundary, i) == StepAt(rest, boundary, i - 1);
      }
    }
  }

  lemma ModLess(x: int)
    requires x >= 0
    ensures ToUint32(x) <= x && (ToUint32(x) == x <==> x < TWO32)
  {
  }

  /** A video part's durations add up to the boundary exactly when no step needs more than
      32 bits; otherwise they fall short. */
  lemma {:induction false} DurationsReachBoundary(samples: seq<Sample>, boundary: int)
    requires samples != [] && Rising(samples, boundary)
    ensures TotalDuration(Encoded(samples, true, boundary)) <= boundary - samples[0].dts
    ensures TotalDuration(Encoded(samples, true, boundary)) == boundary - samples[0].dts
      <==> StepsFit(samples, boundary)
  {
    TailFacts(samples, boundary);
    ModLess(StepAt(samples, boundary, 0));
    var rest := samples[1..];
    if rest == [] {
      assert Encoded(rest, true, boundary) == [];
    } else {
      DurationsReachBoundary(rest, boundary);
    }
  }

  /** What a player reconstructs from a part: each sample starts where the durations before it end. */
  function ReadBack(start: int, fs: seq<FragSample>): seq<Sample>
    decreases |fs|
  {
    if fs == [] then []
    else [Sample(start, fs[0].ptsOffset, !fs[0].nonSync, fs[0].payload)] + ReadBack(start + fs[0].duration, fs[1..])
  }

  /** Reading a video part back from its origin gives the samples with their decode times. */
  lemma {:induction false} ReadBackExact(samples: seq<Sample>, boundary: int)
    requires samples != [] && Rising(samples, boundary) && StepsFit(samples, boundary)
    ensures ReadBack(samples[0].dts, Encoded(samples, true, boundary)) == samples
  {
    TailFacts(samples, boundary);
    ModLess(StepAt(samples, boundary, 0));
    var rest := samples[1..];
    if rest != [] {
      ReadBackExact(rest, boundary);
    } else {
      assert Encoded(rest, true, boundary) == [];
    }
    assert samples == [samples[0]] + rest;
  }
}
