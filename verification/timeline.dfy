/**
 Durations of the slideshow track, in seconds as exact reals: the automatic
 per-image share of the audio, the clip list with crossfades on every clip
 but the first, the length of moviepy's `concatenate_videoclips(...,
 method="compose")` (clips back to back, no padding), and the trim to the
 audio.
 */
module Timeline {
  import opened Results

  /** One image clip: its image, how long it is shown, and its fade-in if any. */
  datatype Clip = Clip(image: string, duration: real, crossfadeIn: Option<real>)

  /** `audio_duration / len(images)`: the images share the audio evenly. */
  function EvenShare(total: real, count: nat): (share: real)
    requires count > 0
    ensures count as real * share == total
  {
    total / count as real
  }

  /** The shortest automatic duration `image_audio_to_video.py` gives an image. */
  const MinimumShare: real := 3.0

  /** `max(3, audio_duration / len(images))`. */
  function FlooredShare(total: real, count: nat): (share: real)
    requires count > 0
    ensures share >= MinimumShare && count as real * share >= total
    ensures share == MinimumShare || count as real * share == total
  {
    var even := EvenShare(total, count);
    if MinimumShare >= even then MinimumShare else even
  }

  /**
   The clip loop of `create_video`: clip `i` shows image `i` for `duration`;
   every clip after the first fades in over `transition` when that is
   positive, and the first never does.
   */
  function BuildClips(images: seq<string>, duration: real, transition: real): (clips: seq<Clip>)
    ensures |clips| == |images|
    ensures forall i :: 0 <= i < |clips| ==>
      clips[i].image == images[i] && clips[i].duration == duration
    ensures forall i :: 0 <= i < |clips| ==>
      (clips[i].crossfadeIn.Some? <==> i > 0 && transition > 0.0)
    ensures forall i :: 0 <= i < |clips| && clips[i].crossfadeIn.Some? ==>
      clips[i].crossfadeIn.value == transition
  {
    seq(|images|, i requires 0 <= i < |images| =>
      Clip(images[i], duration, if i > 0 && transition > 0.0 then Some(transition) else None))
  }

  /**
   Length of the concatenated track. With `method="compose"` and no padding
   the clips play back to back, so a fade-in does not shorten the track.
   */
  function ConcatDuration(clips: seq<Clip>): real
  {
    if clips == [] then 0.0 else clips[0].duration + ConcatDuration(clips[1..])
  }

  /** `n` clips of `d` seconds each make a track of `n * d` seconds. */
  lemma {:induction false} ConcatOfEqualClips(clips: seq<Clip>, d: real)
    requires forall i :: 0 <= i < |clips| ==> clips[i].duration == d
    ensures ConcatDuration(clips) == |clips| as real * d
    decreases |clips|
  {
    if clips != [] {
      ConcatOfEqualClips(clips[1..], d);
    }
  }

  /** The clip list of `BuildClips` lasts `|images| * duration`, crossfades or not. */
  lemma BuildClipsDuration(images: seq<string>, duration: real, transition: real)
    ensures ConcatDuration(BuildClips(images, duration, transition)) == |images| as real * duration
  {
    ConcatOfEqualClips(BuildClips(images, duration, transition), duration);
  }

  /**
   `video.subclip(0, audio)` when `video.duration > audio`: the visible
   track never outlasts the audio, and is cut only when it is longer.
   */
  function TrimToAudio(concat: real, audio: real): (visible: real)
    ensures visible <= audio && visible <= concat
    ensures visible == concat <==> concat <= audio
    ensures visible != concat ==> visible == audio
  {
    if concat > audio then audio else concat
  }
}
