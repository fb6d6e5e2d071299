/**
 `image_audio_to_video.py`: the slideshow script that reads every image and
 the first audio file of the `data` folder. The folder's listing (`None` if
 the folder is missing) stands for the file system, and the audio loader and
 the renderer are parameters.
 */
module ImageAudioToVideo {
  import opened Results
  import opened Text
  import opened Presets
  import opened Timeline
  import Ordering
  import ExitStatus

  /** `Path('data')` as a path prefix. */
  const DataDir := "data/"

  /**
   `glob.glob` of `data` with the pattern `'*' + ext` keeps a name when it ends with `ext`, compared
   case-sensitively, and does not start with a dot: `*` never matches a
   leading dot.
   */
  predicate GlobMatch(name: string, ext: string) {
    !(|name| > 0 && name[0] == '.') && EndsWith(name, ext)
  }

  /** The image patterns, in the order the script globs them. */
  const ImageExtensions: seq<string> := [".jpg", ".jpeg", ".png", ".bmp"]

  /** The audio patterns, in the order the script tries them. */
  const AudioExtensions: seq<string> := [".mp3", ".wav", ".m4a"]

  /** The sorted glob of one image pattern. */
  function ImageGroup(listing: seq<string>, ext: string): seq<string> {
    Ordering.Sort(Ordering.Prefixed(DataDir, Ordering.Filter(listing, name => GlobMatch(name, ext))))
  }

  /** `image_files.extend(...)` for each pattern in turn. */
  function ImageGroups(listing: seq<string>, exts: seq<string>): seq<string>
    decreases |exts|
  {
    if exts == [] then [] else ImageGroup(listing, exts[0]) + ImageGroups(listing, exts[1..])
  }

  /** The first listing entry matching `ext`: `glob(...)[0]` in directory order. */
  function FirstMatch(listing: seq<string>, ext: string): (r: Option<nat>)
    ensures r.Some? ==> r.value < |listing| && GlobMatch(listing[r.value], ext)
    ensures r.Some? ==> forall k :: 0 <= k < r.value ==> !GlobMatch(listing[k], ext)
    ensures r.None? ==> forall k :: 0 <= k < |listing| ==> !GlobMatch(listing[k], ext)
    decreases |listing|
  {
    if listing == [] then None
    else if GlobMatch(listing[0], ext) then Some(0)
    else match FirstMatch(listing[1..], ext)
      case None => None
      case Some(k) => Some(k + 1)
  }

  /** The audio loop: the first match of the first pattern that has any match. */
  function AudioPick(listing: seq<string>, exts: seq<string>): Option<string>
    decreases |exts|
  {
    if exts == [] then None
    else match FirstMatch(listing, exts[0])
      case Some(k) => Some(DataDir + listing[k])
      case None => AudioPick(listing, exts[1..])
  }

  /** Why `find_files_in_data` raises `FileNotFoundError`. */
  datatype FindError = DataFolderMissing | NoImageFiles | NoAudioFile

  /** The files the script found: the ordered images and the one audio file. */
  datatype Found = Found(images: seq<string>, audio: string)

  /**
   `find_files_in_data`: a missing folder first, then no images, then no
   audio, so a folder lacking both reports the images.
   */
  function FindFilesInData(listing: Option<seq<string>>): (r: Result<Found, FindError>)
    ensures r == Failure(DataFolderMissing) <==> listing.None?
    ensures r == Failure(NoImageFiles) <==> listing.Some? && ImageGroups(listing.value, ImageExtensions) == []
    ensures r == Failure(NoAudioFile) <==>
      listing.Some? && ImageGroups(listing.value, ImageExtensions) != [] && AudioPick(listing.value, AudioExtensions).None?
    ensures r.Success? <==>
      listing.Some? && ImageGroups(listing.value, ImageExtensions) != [] && AudioPick(listing.value, AudioExtensions).Some?
    ensures r.Success? ==> r.value.images == ImageGroups(listing.value, ImageExtensions) && r.value.images != []
    ensures r.Success? ==> Some(r.value.audio) == AudioPick(listing.value, AudioExtensions)
  {
    if listing.None? then Failure(DataFolderMissing)
    else
      var images := ImageGroups(listing.value, ImageExtensions);
      var audio := AudioPick(listing.value, AudioExtensions);
      if images == [] then Failure(NoImageFiles)
      else if audio.None? then Failure(NoAudioFile)
      else Success(Found(images, audio.value))
  }

  /* ---------- What the image list holds and in which order ---------- */

  /** Index of the first pattern a name matches; `|exts|` when it matches none. */
  function Rank(name: string, exts: seq<string>): (k: nat)
    ensures k <= |exts|
    ensures forall i :: 0 <= i < k ==> !GlobMatch(name, exts[i])
    ensures k < |exts| <==> exists i :: 0 <= i < |exts| && GlobMatch(name, exts[i])
    decreases |exts|
  {
    if exts == [] then 0
    else if GlobMatch(name, exts[0]) then 0
    else 1 + Rank(name, exts[1..])
  }

  /** No name matches two of the patterns. */
  ghost predicate Disjoint(exts: seq<string>) {
    forall name, i, j :: 0 <= i < j < |exts| && GlobMatch(name, exts[i]) ==> !GlobMatch(name, exts[j])
  }

  /** The image order the script produces: by pattern, then by name. */
  predicate Precedes(a: string, b: string, exts: seq<string>) {
    Rank(a, exts) < Rank(b, exts) || (Rank(a, exts) == Rank(b, exts) && Ordering.Below(a, b))
  }

  /** Every earlier name precedes every later one. */
  predicate InImageOrder(names: seq<string>, exts: seq<string>) {
    forall i, j :: 0 <= i < j < |names| ==> Precedes(names[i], names[j], exts)
  }

  /** The bare names of the image list, group by group. */
  function NameGroups(listing: seq<string>, exts: seq<string>): seq<string>
    decreases |exts|
  {
    if exts == [] then []
    else Ordering.Sort(Ordering.Filter(listing, name => GlobMatch(name, exts[0]))) + NameGroups(listing, exts[1..])
  }

  lemma PrefixedAppend(p: string, a: seq<string>, b: seq<string>)
    ensures Ordering.Prefixed(p, a + b) == Ordering.Prefixed(p, a) + Ordering.Prefixed(p, b)
  {
  }

  /** The image list is `data/` before each name of `NameGroups`. */
  lemma {:induction false} ImageGroupsAreNames(listing: seq<string>, exts: seq<string>)
    ensures ImageGroups(listing, exts) == Ordering.Prefixed(DataDir, NameGroups(listing, exts))
    decreases |exts|
  {
    if exts != [] {
      var kept := Ordering.Filter(listing, name => GlobMatch(name, exts[0]));
      Ordering.SortPrefixed(DataDir, kept);
      ImageGroupsAreNames(listing, exts[1..]);
      PrefixedAppend(DataDir, Ordering.Sort(kept), NameGroups(listing, exts[1..]));
    }
  }

  /** The names of the image list: exactly the entries some pattern matches. */
  lemma {:induction false} NameGroupsMembers(listing: seq<string>, exts: seq<string>)
    ensures forall name :: name in NameGroups(listing, exts) <==> name in listing && Rank(name, exts) < |exts|
    decreases |exts|
  {
    if exts != [] {
      var kept := Ordering.Filter(listing, name => GlobMatch(name, exts[0]));
      var sorted := Ordering.Sort(kept);
      NameGroupsMembers(listing, exts[1..]);
      forall name ensures name in sorted <==> name in kept {
        assert name in sorted <==> name in multiset(sorted);
        assert name in kept <==> name in multiset(kept);
      }
    }
  }

  /**
   With disjoint patterns the names come grouped by the pattern they match,
   in pattern order, and sorted within each group.
   */
  lemma {:induction false} NameGroupsOrdered(listing: seq<string>, exts: seq<string>)
    requires Disjoint(exts)
    ensures InImageOrder(NameGroups(listing, exts), exts)
    decreases |exts|
  {
    if exts != [] {
      var head := Ordering.Sort(Ordering.Filter(listing, name => GlobMatch(name, exts[0])));
      var tail := NameGroups(listing, exts[1..]);
      DisjointTail(exts);
      NameGroupsOrdered(listing, exts[1..]);
      HeadGroupRank(listing, exts);
      TailGroupRank(listing, exts);
      ConcatInImageOrder(head, tail, exts);
    }
  }

  /**
   A sorted group of rank-0 names followed by names in order for the
   remaining patterns is in order for all of them.
   */
  lemma ConcatInImageOrder(head: seq<string>, tail: seq<string>, exts: seq<string>)
    requires exts != []
    requires Ordering.Sorted(head) && forall x :: x in head ==> Rank(x, exts) == 0
    requires forall x :: x in tail ==> Rank(x, exts) == 1 + Rank(x, exts[1..])
    requires InImageOrder(tail, exts[1..])
    ensures InImageOrder(head + tail, exts)
  {
    var names := head + tail;
    forall i, j | 0 <= i < j < |names| ensures Precedes(names[i], names[j], exts) {
      if j < |head| {
        assert names[i] == head[i] && names[j] == head[j];
      } else if i >= |head| {
        assert names[i] == tail[i - |head|] && names[j] == tail[j - |head|];
        assert 0 <= i - |head| < j - |head| < |tail|;
        assert Precedes(tail[i - |head|], tail[j - |head|], exts[1..]);
      } else {
        assert names[i] == head[i] && names[j] == tail[j - |head|];
      }
    }
  }

  lemma DisjointTail(exts: seq<string>)
    requires Disjoint(exts) && exts != []
    ensures Disjoint(exts[1..])
  {
    forall name, i, j | 0 <= i < j < |exts[1..]| && GlobMatch(name, exts[1..][i])
      ensures !GlobMatch(name, exts[1..][j])
    {
      assert exts[1..][i] == exts[i + 1] && exts[1..][j] == exts[j + 1];
    }
  }

  /** The first group is sorted and holds only names of rank 0. */
  lemma HeadGroupRank(listing: seq<string>, exts: seq<string>)
    requires exts != []
    ensures var head := Ordering.Sort(Ordering.Filter(listing, name => GlobMatch(name, exts[0])));
      Ordering.Sorted(head) && forall x :: x in head ==> Rank(x, exts) == 0
  {
    var kept := Ordering.Filter(listing, name => GlobMatch(name, exts[0]));
    var head := Ordering.Sort(kept);
    Ordering.SortSorted(kept);
    forall x | x in head ensures Rank(x, exts) == 0 {
      assert x in multiset(head);
      assert x in kept;
    }
  }

  /** Past the first group, every name ranks one more than in the remaining patterns. */
  lemma TailGroupRank(listing: seq<string>, exts: seq<string>)
    requires Disjoint(exts) && exts != []
    ensures forall x :: x in NameGroups(listing, exts[1..]) ==> Rank(x, exts) == 1 + Rank(x, exts[1..])
  {
    NameGroupsMembers(listing, exts[1..]);
    forall x | x in NameGroups(listing, exts[1..]) ensures Rank(x, exts) == 1 + Rank(x, exts[1..]) {
      var k := Rank(x, exts[1..]);
      RankMatches(x, exts[1..]);
      assert exts[1..][k] == exts[k + 1];
    }
  }

  /** A rank below `|exts|` names a pattern the name matches. */
  lemma {:induction false} RankMatches(name: string, exts: seq<string>)
    requires Rank(name, exts) < |exts|
    ensures GlobMatch(name, exts[Rank(name, exts)])
    decreases |exts|
  {
    if !GlobMatch(name, exts[0]) {
      RankMatches(name, exts[1..]);
    }
  }

  /** Two suffixes that differ `k` characters from the end cannot both end one string. */
  lemma DifferentEnds(s: string, a: string, b: string, k: nat)
    requires 1 <= k <= |a| && k <= |b| && a[|a| - k] != b[|b| - k]
    ensures !(EndsWith(s, a) && EndsWith(s, b))
  {
  }

  /** No name ends with two of `.jpg`, `.jpeg`, `.png`, `.bmp`. */
  lemma ImageExtensionsDisjoint()
    ensures Disjoint(ImageExtensions)
  {
    var exts := ImageExtensions;
    forall name, i, j | 0 <= i < j < |exts| && GlobMatch(name, exts[i])
      ensures !GlobMatch(name, exts[j])
    {
      if j == 3 {
        DifferentEnds(name, exts[i], exts[j], 1);
      } else if i == 0 && j == 2 {
        DifferentEnds(name, exts[i], exts[j], 3);
      } else {
        DifferentEnds(name, exts[i], exts[j], 2);
      }
    }
  }

  /**
   The script's image list: `data/` joined to every listing entry that ends
   with an image pattern and is not hidden, grouped `.jpg`, `.jpeg`, `.png`,
   `.bmp` and sorted by name within each group.
   */
  lemma ImageOrder(listing: seq<string>)
    ensures var names := NameGroups(listing, ImageExtensions);
      && ImageGroups(listing, ImageExtensions) == Ordering.Prefixed(DataDir, names)
      && (forall name :: name in names <==> name in listing && Rank(name, ImageExtensions) < 4)
      && InImageOrder(names, ImageExtensions)
  {
    ImageGroupsAreNames(listing, ImageExtensions);
    NameGroupsMembers(listing, ImageExtensions);
    ImageExtensionsDisjoint();
    NameGroupsOrdered(listing, ImageExtensions);
  }

  /** No entry matches any of the first `e` patterns. */
  predicate NoMatchBefore(listing: seq<string>, exts: seq<string>, e: nat)
    requires e <= |exts|
  {
    forall e', k :: 0 <= e' < e && 0 <= k < |listing| ==> !GlobMatch(listing[k], exts[e'])
  }

  /** Dropping the first pattern, which no entry matches. */
  lemma NoMatchBeforeTail(listing: seq<string>, exts: seq<string>, e: nat)
    requires 0 < e <= |exts| && FirstMatch(listing, exts[0]).None?
    ensures NoMatchBefore(listing, exts, e) <==> NoMatchBefore(listing, exts[1..], e - 1)
  {
    if NoMatchBefore(listing, exts[1..], e - 1) {
      forall e', k | 0 <= e' < e && 0 <= k < |listing| ensures !GlobMatch(listing[k], exts[e']) {
        if e' > 0 {
          assert exts[e'] == exts[1..][e' - 1];
        }
      }
    }
    if NoMatchBefore(listing, exts, e) {
      forall e', k | 0 <= e' < e - 1 && 0 <= k < |listing| ensures !GlobMatch(listing[k], exts[1..][e']) {
        assert exts[1..][e'] == exts[e' + 1];
      }
    }
  }

  /** There is no audio file exactly when no entry matches any pattern. */
  lemma {:induction false} AudioPickNone(listing: seq<string>, exts: seq<string>)
    ensures AudioPick(listing, exts).None? <==> NoMatchBefore(listing, exts, |exts|)
    decreases |exts|
  {
    if exts != [] {
      AudioPickNone(listing, exts[1..]);
      if FirstMatch(listing, exts[0]).None? {
        NoMatchBeforeTail(listing, exts, |exts|);
      } else {
        var k := FirstMatch(listing, exts[0]).value;
        assert GlobMatch(listing[k], exts[0]);
      }
    }
  }

  /**
   The audio file is the first entry, in directory order, matching the
   first pattern that any entry matches.
   */
  lemma {:induction false} AudioPickFirst(listing: seq<string>, exts: seq<string>) returns (e: nat)
    requires AudioPick(listing, exts).Some?
    ensures e < |exts| && NoMatchBefore(listing, exts, e) && FirstMatch(listing, exts[e]).Some?
    ensures AudioPick(listing, exts) == Some(DataDir + listing[FirstMatch(listing, exts[e]).value])
    decreases |exts|
  {
    if FirstMatch(listing, exts[0]).Some? {
      e := 0;
    } else {
      var rest := AudioPickFirst(listing, exts[1..]);
      assert exts[1..][rest] == exts[rest + 1];
      NoMatchBeforeTail(listing, exts, rest + 1);
      e := rest + 1;
    }
  }

  /* ---------- create_video ---------- */

  /** The frame rate the script encodes at. */
  const FramesPerSecond := 24

  /** Why `create_video` raises. */
  datatype CreateError =
    | AudioLoadFailed(reason: string)
    | EmptyImageList
    | RenderFailed(reason: string)

  /** What `create_video` hands to the encoder. */
  datatype Slideshow = Slideshow(canvas: Size, clips: seq<Clip>, trackDuration: real, fps: int, output: string)

  /** `duration_per_image`, with 0 meaning `max(3, audio / len(images))`. */
  function ImageDuration(durationPerImage: real, audioDuration: real, count: nat): (d: real)
    requires count > 0
    ensures durationPerImage == 0.0 ==> d >= MinimumShare && count as real * d >= audioDuration
    ensures durationPerImage == 0.0 && count as real * MinimumShare <= audioDuration ==>
      count as real * d == audioDuration
    ensures durationPerImage != 0.0 ==> d == durationPerImage
    ensures durationPerImage == 0.0 ==>
      d == (if audioDuration / count as real > MinimumShare then audioDuration / count as real else MinimumShare)
  {
    if durationPerImage == 0.0 then FlooredShare(audioDuration, count) else durationPerImage
  }

  /**
   `create_video(image_paths, audio_path, output_path, preset, custom_size,
   duration_per_image, transition_duration)`. The audio is loaded first; an
   empty image list then fails (the automatic duration divides by zero, and
   moviepy cannot concatenate no clips); `renderError` is what Pillow or
   moviepy raise while rendering. The track is never cut to the audio.
   */
  function CreateVideo(
    images: seq<string>, audio: Result<real, string>, output: string, preset: string,
    customSize: Option<seq<int>>, durationPerImage: real, transition: real, renderError: Option<string>
  ): (r: Result<Slideshow, CreateError>)
    ensures audio.Failure? ==> r == Failure(AudioLoadFailed(audio.error))
    ensures r.Success? <==> audio.Success? && |images| > 0 && renderError.None?
    ensures r.Success? ==>
      && r.value.canvas == ResolveSize(preset, customSize)
      && r.value.fps == FramesPerSecond
      && r.value.output == output
      && |r.value.clips| == |images|
      && (forall i :: 0 <= i < |images| ==> r.value.clips[i].image == images[i])
      && (forall i :: 0 <= i < |images| ==>
            r.value.clips[i].duration == ImageDuration(durationPerImage, audio.value, |images|))
      && (forall i :: 0 <= i < |images| ==> (r.value.clips[i].crossfadeIn.Some? <==> i > 0 && transition > 0.0))
      && (forall i :: 0 <= i < |images| && r.value.clips[i].crossfadeIn.Some? ==>
            r.value.clips[i].crossfadeIn.value == transition)
      && r.value.trackDuration == |images| as real * ImageDuration(durationPerImage, audio.value, |images|)
  {
    var canvas := ResolveSize(preset, customSize);
    if audio.Failure? then Failure(AudioLoadFailed(audio.error))
    else if |images| == 0 then Failure(EmptyImageList)
    else
      var duration := ImageDuration(durationPerImage, audio.value, |images|);
      var clips := BuildClips(images, duration, transition);
      BuildClipsDuration(images, duration, transition);
      if renderError.Some? then Failure(RenderFailed(renderError.value))
      else Success(Slideshow(canvas, clips, ConcatDuration(clips), FramesPerSecond, output))
  }

  /**
   With the automatic duration the track lasts the audio, or three seconds
   per image when that is longer; it is never cut, so it outlasts the audio
   exactly when there are more images than thirds of the audio's seconds.
   */
  lemma AutomaticTrack(
    images: seq<string>, audioDuration: real, output: string, preset: string,
    customSize: Option<seq<int>>, transition: real)
    requires |images| > 0
    ensures var r := CreateVideo(images, Success(audioDuration), output, preset, customSize, 0.0, transition, None);
      && r.Success?
      && r.value.trackDuration
         == (if audioDuration >= |images| as real * MinimumShare then audioDuration else |images| as real * MinimumShare)
      && (r.value.trackDuration > audioDuration <==> audioDuration < |images| as real * MinimumShare)
  {
    var n := |images| as real;
    var d := ImageDuration(0.0, audioDuration, |images|);
    var share := audioDuration / n;
    assert n * share == audioDuration;
    if share > MinimumShare {
      assert n * share > n * MinimumShare by {
        assert n * (share - MinimumShare) > 0.0;
      }
    } else {
      assert n * share <= n * MinimumShare by {
        assert n * (MinimumShare - share) >= 0.0;
      }
    }
  }

  /**
   The track is not cut to the audio: one image with automatic duration and
   one second of audio makes three seconds of pictures.
   */
  lemma TrackMayOutlastAudio()
    ensures var r := CreateVideo(["data/a.jpg"], Success(1.0), "out.mp4", "youtube", None, 0.0, 0.5, None);
      r.Success? && r.value.trackDuration == 3.0
  {
    AutomaticTrack(["data/a.jpg"], 1.0, "out.mp4", "youtube", None, 0.5);
  }

  /* ---------- main ---------- */

  /** The parsed command line. */
  datatype Arguments = Arguments(
    output: string, preset: string, width: Option<int>, height: Option<int>,
    listPresets: bool, duration: real, transition: real)

  /** `--output`'s default, `str(Path('output') / 'video.mp4')`. */
  const DefaultOutput := "output/video.mp4"

  /**
   `main()` after argument parsing: `None` for `--list-presets`, 1 for an
   invalid preset or size, a missing folder or file, or any error while
   creating the video, and 0 when the video is written. `loadAudio` gives
   the audio file's duration or load error.
   */
  function Main(
    args: Arguments, listing: Option<seq<string>>, loadAudio: string -> Result<real, string>,
    renderError: Option<string>
  ): (status: Option<int>)
    ensures args.listPresets <==> status.None?
    ensures !args.listPresets && ValidateArgs(args.preset, args.width, args.height).Failure? ==> status == Some(1)
    ensures (!args.listPresets && ValidateArgs(args.preset, args.width, args.height).Success?
             && FindFilesInData(listing).Failure?) ==> status == Some(1)
    ensures status == Some(0) <==>
      && !args.listPresets
      && ValidateArgs(args.preset, args.width, args.height).Success?
      && FindFilesInData(listing).Success?
      && loadAudio(FindFilesInData(listing).value.audio).Success?
      && renderError.None?
    ensures status.Some? ==> status.value == 0 || status.value == 1
  {
    if args.listPresets then None
    else match ValidateArgs(args.preset, args.width, args.height)
      case Failure(_) => Some(1)
      case Success(request) =>
        match FindFilesInData(listing)
        case Failure(_) => Some(1)
        case Success(found) =>
          var made := CreateVideo(found.images, loadAudio(found.audio), args.output, request.preset,
                                  request.customSize, args.duration, args.transition, renderError);
          if made.Success? then Some(0) else Some(1)
  }

  /**
   Run as a script, `main()`'s status is discarded: an unknown preset makes
   `main` return 1, yet the process exits with 0.
   */
  lemma UnknownPresetExitsZero(
    args: Arguments, listing: Option<seq<string>>, loadAudio: string -> Result<real, string>)
    requires args == Arguments(DefaultOutput, "vimeo", None, None, false, 5.0, 0.5)
    ensures Main(args, listing, loadAudio, None) == Some(1)
    ensures ExitStatus.StatusIgnoringReturn(Main(args, listing, loadAudio, None)) == 0
  {
    UnknownName(args.preset);
  }

  lemma UnknownName(preset: string)
    requires preset == "vimeo"
    ensures ValidateArgs(preset, None, None) == Failure(UnknownPreset(preset))
  {
    VideoPresetsTable();
    assert Lower(preset) == preset;
  }

  /** With `sys.exit(main())`, the process fails exactly when `main` reports a failure. */
  lemma ExitStatusReportsFailure(
    args: Arguments, listing: Option<seq<string>>, loadAudio: string -> Result<real, string>,
    renderError: Option<string>)
    ensures var status := ExitStatus.StatusOfReturn(Main(args, listing, loadAudio, renderError));
      (status == 0 <==> args.listPresets || Main(args, listing, loadAudio, renderError) == Some(0))
      && (status == 1 <==> Main(args, listing, loadAudio, renderError) == Some(1))
  {
  }
}
