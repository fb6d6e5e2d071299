/**
 `run_video_creator.py`: a fixed slideshow of every image in `data`, five
 seconds each with one-second crossfades, set to the first audio file found.
 The folder's listing (`None` when it is missing) stands for the file
 system; the libraries' import, the audio loader and the encoder are
 parameters.
 */
module RunVideoCreator {
  import opened Results
  import opened Text
  import opened Paths
  import opened Timeline
  import Ordering
  import ExitStatus

  /** `Path('data')` as a path prefix. */
  const DataDir := "data/"

  /** `output_dir / 'my_video.mp4'`. */
  const OutputFile := "output/my_video.mp4"

  const ImageSuffixes: seq<string> := [".jpg", ".jpeg", ".png", ".bmp"]

  const AudioSuffixes: seq<string> := [".mp3", ".wav", ".m4a"]

  /** Each image is shown this many seconds. */
  const SecondsPerImage: real := 5.0

  /** Every image after the first fades in over this many seconds. */
  const CrossfadeSeconds: real := 1.0

  /** `f.suffix.lower() in exts`: the entry's suffix, lower-cased, is one of the tuple's. */
  predicate SuffixIn(name: string, suffixes: seq<string>) {
    Lower(Suffix(name)) in suffixes
  }

  /**
   `sorted(f for f in data_dir.iterdir() if ...)`. Every path lies under
   `data`, so sorting the paths orders them by entry name.
   */
  function Selected(listing: seq<string>, suffixes: seq<string>): (paths: seq<string>)
    ensures Ordering.Sorted(paths)
    ensures multiset(paths)
      == multiset(Ordering.Prefixed(DataDir, Ordering.Filter(listing, name => SuffixIn(name, suffixes))))
  {
    var paths := Ordering.Prefixed(DataDir, Ordering.Filter(listing, name => SuffixIn(name, suffixes)));
    Ordering.SortSorted(paths);
    Ordering.Sort(paths)
  }

  predicate IsAudioEntry(name: string) {
    SuffixIn(name, AudioSuffixes)
  }

  /** The index of the first kept entry in directory order: `audio_files[0]`. */
  function FirstKept(listing: seq<string>, keep: string -> bool): (r: Option<nat>)
    ensures r.Some? ==> r.value < |listing| && keep(listing[r.value])
    ensures r.Some? ==> forall k :: 0 <= k < r.value ==> !keep(listing[k])
    ensures r.None? <==> forall k :: 0 <= k < |listing| ==> !keep(listing[k])
    decreases |listing|
  {
    if listing == [] then None
    else if keep(listing[0]) then Some(0)
    else match FirstKept(listing[1..], keep)
      case None => None
      case Some(k) => Some(k + 1)
  }

  /** Why `main` returns 1. */
  datatype RunError =
    | DataFolderMissing
    | NoImageFiles
    | NoAudioFiles
    | LibrariesMissing
    | CreateFailed(reason: string)

  /** The slideshow `main` renders. */
  datatype Slideshow = Slideshow(images: seq<string>, audio: string, clips: seq<Clip>, output: string)

  /**
   The checks and choices of `main` up to rendering: the folder, then the
   images, then the audio. `sorted` orders the image paths, all under `data`,
   by entry name.
   */
  function PlanRun(listing: Option<seq<string>>): (r: Result<Slideshow, RunError>)
    ensures r == Failure(DataFolderMissing) <==> listing.None?
    ensures r == Failure(NoImageFiles) <==>
      listing.Some? && forall k :: 0 <= k < |listing.value| ==> !SuffixIn(listing.value[k], ImageSuffixes)
    ensures r == Failure(NoAudioFiles) <==>
      && listing.Some? && (exists k :: 0 <= k < |listing.value| && SuffixIn(listing.value[k], ImageSuffixes))
      && forall k :: 0 <= k < |listing.value| ==> !IsAudioEntry(listing.value[k])
    ensures r.Success? <==>
      && listing.Some? && (exists k :: 0 <= k < |listing.value| && SuffixIn(listing.value[k], ImageSuffixes))
      && exists k :: 0 <= k < |listing.value| && IsAudioEntry(listing.value[k])
    ensures r.Success? ==>
      && listing.Some?
      && FirstKept(listing.value, IsAudioEntry).Some?
      && r.value.audio == DataDir + listing.value[FirstKept(listing.value, IsAudioEntry).value]
      && r.value.images == Selected(listing.value, ImageSuffixes) && r.value.images != []
      && r.value.clips == SlideClips(r.value.images)
      && r.value.output == OutputFile
  {
    if listing.None? then Failure(DataFolderMissing)
    else
      var images := Selected(listing.value, ImageSuffixes);
      SelectedEmpty(listing.value, ImageSuffixes);
      if images == [] then Failure(NoImageFiles)
      else
        match FirstKept(listing.value, IsAudioEntry)
        case None => Failure(NoAudioFiles)
        case Some(k) =>
          Success(Slideshow(images, DataDir + listing.value[k],
                            SlideClips(images), OutputFile))
  }

  /** No path is selected exactly when no entry has one of the suffixes. */
  lemma SelectedEmpty(listing: seq<string>, suffixes: seq<string>)
    ensures Selected(listing, suffixes) == [] <==> forall k :: 0 <= k < |listing| ==> !SuffixIn(listing[k], suffixes)
  {
    SelectedPaths(listing, suffixes);
    if Selected(listing, suffixes) != [] {
      assert Selected(listing, suffixes)[0] in Selected(listing, suffixes);
    }
    forall k | 0 <= k < |listing| && SuffixIn(listing[k], suffixes) ensures Selected(listing, suffixes) != [] {
      assert listing[k] in listing;
      assert DataDir + listing[k] in Selected(listing, suffixes);
    }
  }

  /** The selected paths are exactly `data/` joined to the entries with one of the suffixes. */
  lemma SelectedPaths(listing: seq<string>, suffixes: seq<string>)
    ensures forall name :: name in listing && SuffixIn(name, suffixes) ==> DataDir + name in Selected(listing, suffixes)
    ensures forall p :: p in Selected(listing, suffixes) ==>
      exists name :: name in listing && SuffixIn(name, suffixes) && p == DataDir + name
  {
    KeptPaths(listing, name => SuffixIn(name, suffixes));
  }

  /** Sorting `data/` joined to the kept entries keeps exactly those paths. */
  lemma KeptPaths(listing: seq<string>, keep: string -> bool)
    ensures var paths := Ordering.Sort(Ordering.Prefixed(DataDir, Ordering.Filter(listing, keep)));
      && (forall name :: name in listing && keep(name) ==> DataDir + name in paths)
      && (forall p :: p in paths ==> exists name :: name in listing && keep(name) && p == DataDir + name)
  {
    var kept := Ordering.Filter(listing, keep);
    var byName := Ordering.Sort(kept);
    var paths := Ordering.Sort(Ordering.Prefixed(DataDir, kept));
    Ordering.SortPrefixed(DataDir, kept);
    forall name | name in listing && keep(name) ensures DataDir + name in paths {
      assert name in multiset(byName);
      var i :| 0 <= i < |byName| && byName[i] == name;
      assert paths[i] == DataDir + name;
    }
    forall p | p in paths ensures exists name :: name in listing && keep(name) && p == DataDir + name {
      var i :| 0 <= i < |paths| && paths[i] == p;
      assert byName[i] in multiset(kept);
      assert byName[i] in kept;
    }
  }

  /**
   The clip loop: every image for five seconds, the first without a fade and
   every later one fading in over one second; the track lasts five seconds
   per image whatever the audio's length.
   */
  function SlideClips(images: seq<string>): (clips: seq<Clip>)
    ensures |clips| == |images|
    ensures forall i :: 0 <= i < |clips| ==> clips[i].image == images[i] && clips[i].duration == SecondsPerImage
    ensures |clips| > 0 ==> clips[0].crossfadeIn.None?
    ensures forall i :: 0 < i < |clips| ==> clips[i].crossfadeIn == Some(CrossfadeSeconds)
    ensures ConcatDuration(clips) == SecondsPerImage * |images| as real
  {
    BuildClipsDuration(images, SecondsPerImage, CrossfadeSeconds);
    BuildClips(images, SecondsPerImage, CrossfadeSeconds)
  }

  /**
   `main()`: 1 for each failure `PlanRun` reports, for libraries that cannot
   be imported, and for any error while loading or rendering; 0 once the
   video is written.
   */
  function Main(
    listing: Option<seq<string>>, librariesLoad: bool, loadAudio: string -> Result<real, string>,
    renderError: Option<string>
  ): (status: int)
    ensures status == 0 <==>
      PlanRun(listing).Success? && librariesLoad && loadAudio(PlanRun(listing).value.audio).Success?
      && renderError.None?
    ensures status == 0 || status == 1
  {
    match PlanRun(listing)
    case Failure(_) => 1
    case Success(show) =>
      if !librariesLoad then 1
      else if loadAudio(show.audio).Failure? || renderError.Some? then 1
      else 0
  }

  /** `sys.exit(main())`: the process's status is `main`'s, so every failure is visible to the caller. */
  lemma ProcessStatusIsMainStatus(
    listing: Option<seq<string>>, librariesLoad: bool, loadAudio: string -> Result<real, string>,
    renderError: Option<string>)
    ensures ExitStatus.StatusOfReturn(Some(Main(listing, librariesLoad, loadAudio, renderError))) != 0
      <==> (PlanRun(listing).Failure? || !librariesLoad
            || loadAudio(PlanRun(listing).value.audio).Failure? || renderError.Some?)
  {
  }
}
