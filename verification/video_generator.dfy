/**
 The `VideoGenerator` class of `src/video_generator.py`: the title derived
 from the audio file name, the placement of the outlined title text, the
 checks and duration rules of `create_video`, and `batch_create`.

 Audio decoding, the encoder and the file system are parameters: the audio
 file's duration (or its load error), the image folder's listing, and the
 encoder's error if it reports one.
 */
module VideoGenerator {
  import opened Results
  import opened Text
  import opened Paths
  import opened Presets
  import opened Timeline
  import Ordering
  import Letterbox

  /* ---------- Title text ---------- */

  /** `[w.capitalize() for w in words]`. */
  function Capitalized(words: seq<string>): (r: seq<string>)
    ensures |r| == |words|
    ensures forall i :: 0 <= i < |words| ==> r[i] == Capitalize(words[i])
  {
    if words == [] then [] else [Capitalize(words[0])] + Capitalized(words[1..])
  }

  lemma {:induction false} CapitalizedTokens(words: seq<string>)
    requires AllTokens(words, Blank)
    ensures AllTokens(Capitalized(words), Blank)
  {
    var r := Capitalized(words);
    forall w | w in r ensures IsToken(w, Blank) {
      var i :| 0 <= i < |r| && r[i] == w;
      assert words[i] in words;
      CapitalizeKeepsToken(words[i]);
    }
  }

  /** `get_title_from_audio`: the stem's words, each capitalised, joined by single spaces. */
  function TitleFromAudio(audioPath: string): (title: string)
    ensures Tokens(title, Blank) == Capitalized(Tokens(Stem(audioPath), Blank))
    ensures SingleSpaced(title, Blank)
    ensures title == [] || (!IsSpace(title[0]) && !IsSpace(title[|title| - 1]))
    ensures forall i :: 0 <= i < |title| && IsSpace(title[i]) ==> title[i] == ' '
  {
    var words := Capitalized(Tokens(Stem(audioPath), Blank));
    TokensAreTokens(Stem(audioPath), Blank);
    CapitalizedTokens(Tokens(Stem(audioPath), Blank));
    TokensOfJoin(words, ' ', Blank);
    JoinSingleSpaced(words, ' ', Blank);
    JoinSeparatorsAreGlue(words, ' ', Blank);
    Join(words, ' ')
  }

  /** The docstring's example: `'for love.mp3'` gives `'For Love'`. */
  lemma TitleFromAudioExample(audioPath: string)
    requires audioPath == "for love.mp3"
    ensures TitleFromAudio(audioPath) == "For Love"
  {
    var stem := Stem(audioPath);
    ExampleStem(audioPath);
    var words := Tokens(stem, Blank);
    ExampleWords();
    var caps := Capitalized(words);
    ExampleCapitalized();
    assert caps == ["For", "Love"];
    JoinPair("For", "Love", ' ');
    ExampleLiteral();
  }

  lemma ExampleLiteral()
    ensures "For" + [' '] + "Love" == "For Love"
  {
  }

  lemma JoinPair(a: string, b: string, glue: char)
    ensures Join([a, b], glue) == a + [glue] + b
  {
    assert [a, b][1..] == [b];
  }

  lemma ExampleStem(path: string)
    requires path == "for love.mp3"
    ensures Stem(path) == "for love"
  {
    assert IsToken(path, Slash);
    TokensOfSingleToken(path, Slash);
    assert Ordering.Filter([path], IsNamedPart) == [path];
    assert Name(path) == path;
    assert LastDot(path[..9]) == 8;
    assert path[..10][..9] == path[..9];
    assert LastDot(path[..10]) == 8;
    assert path[..11][..10] == path[..10];
    assert LastDot(path[..11]) == 8;
    assert path[..11] == path[..|path| - 1];
  }

  lemma ExampleWords()
    ensures Tokens("for love", Blank) == ["for", "love"]
  {
    var words := ["for", "love"];
    assert AllTokens(words, Blank);
    assert Join(words, ' ') == "for love";
    TokensOfJoin(words, ' ', Blank);
  }

  lemma ExampleCapitalized()
    ensures Capitalized(["for", "love"]) == ["For", "Love"]
  {
    assert Capitalize("for") == "For" by {
      assert ToUpper('f') == 'F';
      assert Lower("or") == "or";
    }
    assert Capitalize("love") == "Love" by {
      assert ToUpper('l') == 'L';
      assert Lower("ove") == "ove";
    }
  }

  /* ---------- Title placement ---------- */

  /** Which colour a `draw.text` call uses: `stroke_color` or `color`. */
  datatype Ink = StrokeInk | FillInk

  /** One `draw.text((x, y), title, fill=...)` call. */
  datatype TextDraw = TextDraw(x: int, y: int, ink: Ink)

  /** The title's top edge, in pixels from the top of the canvas. */
  const TitleTop := 50

  /** `(width - text_width) // 2`: the left edge of horizontally centred text. */
  function TitleLeft(canvasWidth: int, textWidth: int): (x: int)
    ensures 2 * x <= canvasWidth - textWidth < 2 * x + 2
  {
    Letterbox.HalfGap(canvasWidth, textWidth)
  }

  /** The order of the nested `adj_x`, `adj_y` loops. */
  predicate DrawnBefore(a: TextDraw, b: TextDraw) {
    a.x < b.x || (a.x == b.x && a.y < b.y)
  }

  /** A stroke draw at an offset in `[-s, s]²` from `(x, y)` other than `(0, 0)`. */
  predicate InStrokeRing(d: TextDraw, x: int, y: int, s: int) {
    d.ink == StrokeInk && x - s <= d.x <= x + s && y - s <= d.y <= y + s && (d.x != x || d.y != y)
  }

  /**
   The drawing calls of `create_title_image` for a title `textWidth` pixels
   wide on a canvas `canvasWidth` wide: when `strokeWidth > 0`, one stroke
   draw at every offset of the square other than the centre, in loop order,
   and none otherwise; then the fill draw at the centred position, last.
   */
  method DrawTitle(canvasWidth: int, textWidth: int, strokeWidth: int) returns (draws: seq<TextDraw>)
    ensures |draws| == if strokeWidth > 0 then (2 * strokeWidth + 1) * (2 * strokeWidth + 1) else 1
    ensures draws[|draws| - 1] == TextDraw(TitleLeft(canvasWidth, textWidth), TitleTop, FillInk)
    ensures forall i :: 0 <= i < |draws| - 1 ==>
      InStrokeRing(draws[i], TitleLeft(canvasWidth, textWidth), TitleTop, strokeWidth)
    ensures forall i, j :: 0 <= i < j < |draws| - 1 ==> DrawnBefore(draws[i], draws[j])
    ensures forall d :: InStrokeRing(d, TitleLeft(canvasWidth, textWidth), TitleTop, strokeWidth) ==> d in draws
  {
    var x := TitleLeft(canvasWidth, textWidth);
    var y := TitleTop;
    var s := strokeWidth;
    draws := [];
    if s > 0 {
      var side := 2 * s + 1;
      var dx := -s;
      while dx <= s
        invariant -s <= dx <= s + 1
        invariant |draws| == (dx + s) * side - (if dx > 0 then 1 else 0)
        invariant forall i :: 0 <= i < |draws| ==> InStrokeRing(draws[i], x, y, s) && draws[i].x < x + dx
        invariant forall i, j :: 0 <= i < j < |draws| ==> DrawnBefore(draws[i], draws[j])
        invariant forall d :: InStrokeRing(d, x, y, s) && d.x < x + dx ==> d in draws
      {
        var dy := -s;
        while dy <= s
          invariant -s <= dy <= s + 1
          invariant |draws| == (dx + s) * side + (dy + s) - (if dx > 0 || (dx == 0 && dy > 0) then 1 else 0)
          invariant forall i :: 0 <= i < |draws| ==>
            (InStrokeRing(draws[i], x, y, s)
             && (draws[i].x < x + dx || (draws[i].x == x + dx && draws[i].y < y + dy)))
          invariant forall i, j :: 0 <= i < j < |draws| ==> DrawnBefore(draws[i], draws[j])
          invariant forall d :: InStrokeRing(d, x, y, s) && (d.x < x + dx || (d.x == x + dx && d.y < y + dy)) ==>
            d in draws
        {
          if dx != 0 || dy != 0 {
            draws := draws + [TextDraw(x + dx, y + dy, StrokeInk)];
          }
          dy := dy + 1;
        }
        assert (dx + s) * side + side == (dx + 1 + s) * side;
        dx := dx + 1;
      }
    }
    draws := draws + [TextDraw(x, y, FillInk)];
  }

  /* ---------- create_video ---------- */

  /** The `images_path` argument: a folder (given by its listing, `None` if unreadable) or a list. */
  datatype ImageSource = Folder(path: string, listing: Option<seq<string>>) | Paths(paths: seq<string>)

  /** The image extensions a folder scan keeps, compared on the lower-cased name. */
  const ImageExtensions: seq<string> := [".png", ".jpg", ".jpeg", ".gif", ".bmp"]

  predicate IsImageEntry(name: string) {
    EndsWithAny(Lower(name), ImageExtensions)
  }

  /** `sorted(os.path.join(folder, f) for f in listing if f.lower().endswith(...))`. */
  function FolderImages(folder: string, listing: seq<string>): (images: seq<string>)
    ensures Ordering.Sorted(images)
    ensures multiset(images)
      == multiset(Ordering.Prefixed(DirPrefix(folder), Ordering.Filter(listing, IsImageEntry)))
  {
    var paths := Ordering.Prefixed(DirPrefix(folder), Ordering.Filter(listing, IsImageEntry));
    Ordering.SortSorted(paths);
    Ordering.Sort(paths)
  }

  /** Sorting the joined paths orders the images by entry name. */
  lemma FolderImagesByName(folder: string, listing: seq<string>)
    ensures FolderImages(folder, listing)
      == Ordering.Prefixed(DirPrefix(folder), Ordering.Sort(Ordering.Filter(listing, IsImageEntry)))
  {
    Ordering.SortPrefixed(DirPrefix(folder), Ordering.Filter(listing, IsImageEntry));
  }

  /** The folder's image list holds exactly the joined paths of its image entries. */
  lemma FolderImagesMembers(folder: string, listing: seq<string>, name: string)
    ensures JoinPath(folder, name) in FolderImages(folder, listing) <== name in listing && IsImageEntry(name)
    ensures forall p :: p in FolderImages(folder, listing) ==>
      exists entry :: entry in listing && IsImageEntry(entry) && p == JoinPath(folder, entry)
  {
    var kept := Ordering.Filter(listing, IsImageEntry);
    var byName := Ordering.Sort(kept);
    var images := FolderImages(folder, listing);
    FolderImagesByName(folder, listing);
    if name in listing && IsImageEntry(name) {
      assert name in multiset(byName);
      var i :| 0 <= i < |byName| && byName[i] == name;
      assert images[i] == JoinPath(folder, name);
    }
    forall p | p in images
      ensures exists entry :: entry in listing && IsImageEntry(entry) && p == JoinPath(folder, entry)
    {
      var i :| 0 <= i < |images| && images[i] == p;
      assert byName[i] in multiset(kept);
      assert byName[i] in kept;
    }
  }

  /** Why `create_video` raises. */
  datatype VideoError =
    | PresetNotFound(preset: string)
    | AudioLoadFailed(reason: string)
    | ImagesFolderUnreadable(folder: string)
    | NoImagesFound
    | RenderFailed(reason: string)
    | OutputFolderUnavailable(output: string)
    | EncodeFailed(reason: string)

  /** The image track: one clip per image, and how much of it plays. */
  datatype Schedule = Schedule(clips: seq<Clip>, visibleDuration: real)

  /**
   The image track of `create_video`: every image once, in order, for the
   requested duration or an even share of the audio, without fades, and cut
   at the audio's end when it runs longer.
   */
  function ScheduleImages(images: seq<string>, audioDuration: real, imageDuration: Option<real>): (s: Schedule)
    requires |images| > 0
    ensures |s.clips| == |images|
    ensures forall i :: 0 <= i < |s.clips| ==> s.clips[i].image == images[i] && s.clips[i].crossfadeIn.None?
    ensures imageDuration.Some? ==> ConcatDuration(s.clips) == |images| as real * imageDuration.value
    ensures imageDuration.None? ==> ConcatDuration(s.clips) == audioDuration
    ensures s.visibleDuration <= audioDuration
    ensures s.visibleDuration == ConcatDuration(s.clips) <==> ConcatDuration(s.clips) <= audioDuration
    ensures ConcatDuration(s.clips) > audioDuration ==> s.visibleDuration == audioDuration
    ensures imageDuration.Some? ==> forall i :: 0 <= i < |s.clips| ==> s.clips[i].duration == imageDuration.value
    ensures imageDuration.None? ==> forall i :: 0 <= i < |s.clips| ==>
      |images| as real * s.clips[i].duration == audioDuration
  {
    var duration := if imageDuration.Some? then imageDuration.value else EvenShare(audioDuration, |images|);
    var clips := BuildClips(images, duration, 0.0);
    BuildClipsDuration(images, duration, 0.0);
    Schedule(clips, TrimToAudio(ConcatDuration(clips), audioDuration))
  }

  /** Everything `create_video` decides before handing the render to the encoder. */
  datatype Render = Render(
    title: string,
    canvas: Size,
    fps: int,
    images: seq<string>,
    schedule: Schedule,
    titleDuration: real,
    output: string)

  /** `f"output/{stem}_{preset}.mp4"`. */
  function DefaultOutputPath(audioPath: string, preset: string): string {
    "output/" + Stem(audioPath) + "_" + preset + ".mp4"
  }

  /** Python truthiness of `custom_title`: given and not empty. */
  predicate HasCustomTitle(customTitle: Option<string>) {
    customTitle.Some? && customTitle.value != ""
  }

  /**
   The checks and computations of `create_video` up to the encoder, in the
   source's order: preset, audio, image list, durations, title, output path.
   `transition_duration` is accepted but never used, so no clip fades.
   */
  function PlanVideo(
    config: Config, audioPath: string, audio: Result<real, string>, source: ImageSource,
    outputPath: Option<string>, preset: string, customTitle: Option<string>, imageDuration: Option<real>
  ): (r: Result<Render, VideoError>)
    ensures preset !in config.presets ==> r == Failure(PresetNotFound(preset))
    ensures preset in config.presets && audio.Failure? ==> r == Failure(AudioLoadFailed(audio.error))
    ensures preset in config.presets && audio.Success? && source.Folder? && source.listing.None? ==>
      r == Failure(ImagesFolderUnreadable(source.path))
    ensures r.Success? <==>
      preset in config.presets && audio.Success? && !(source.Folder? && source.listing.None?)
      && |ImageList(source)| > 0
    ensures r.Success? ==>
      && r.value.canvas == Size(config.presets[preset].width, config.presets[preset].height)
      && r.value.fps == config.presets[preset].fps
      && r.value.title == (if HasCustomTitle(customTitle) then customTitle.value else TitleFromAudio(audioPath))
      && r.value.output == (if outputPath.Some? then outputPath.value else DefaultOutputPath(audioPath, preset))
      && r.value.images == ImageList(source) && |r.value.images| > 0
      && r.value.schedule == ScheduleImages(r.value.images, audio.value, imageDuration)
      && r.value.titleDuration == audio.value
  {
    if preset !in config.presets then Failure(PresetNotFound(preset))
    else
      var record := config.presets[preset];
      if audio.Failure? then Failure(AudioLoadFailed(audio.error))
      else
        var audioDuration := audio.value;
        var title := if HasCustomTitle(customTitle) then customTitle.value else TitleFromAudio(audioPath);
        if source.Folder? && source.listing.None? then Failure(ImagesFolderUnreadable(source.path))
        else
          var images := ImageList(source);
          if |images| == 0 then Failure(NoImagesFound)
          else
            var output := if outputPath.Some? then outputPath.value else DefaultOutputPath(audioPath, preset);
            Success(Render(title, Size(record.width, record.height), record.fps, images,
                           ScheduleImages(images, audioDuration, imageDuration), audioDuration, output))
  }

  /** The image list of a source whose folder (if any) could be listed. */
  function ImageList(source: ImageSource): seq<string>
    requires !(source.Folder? && source.listing.None?)
  {
    match source
    case Folder(path, listing) => FolderImages(path, listing.value)
    case Paths(paths) => paths
  }

  /** `create_video` raises "No images found" exactly when the image list it reads is empty. */
  lemma PlanVideoNoImages(
    config: Config, audioPath: string, audio: Result<real, string>, source: ImageSource,
    outputPath: Option<string>, preset: string, customTitle: Option<string>, imageDuration: Option<real>)
    ensures PlanVideo(config, audioPath, audio, source, outputPath, preset, customTitle, imageDuration)
        == Failure(NoImagesFound)
      <==> (preset in config.presets && audio.Success? && !(source.Folder? && source.listing.None?)
           && |ImageList(source)| == 0)
  {
  }

  /**
   `create_video`: the plan, then the clips and composite (whose errors,
   such as an image moviepy cannot open, arrive as `renderError`), then the
   output folder, then the encoder (`writeError`). The output folder is
   created only when the path names one, so an explicit output path without
   a directory part is written where it stands.
   */
  function CreateVideo(
    config: Config, audioPath: string, audio: Result<real, string>, source: ImageSource,
    outputPath: Option<string>, preset: string, customTitle: Option<string>, imageDuration: Option<real>,
    renderError: Option<string>, writeError: Option<string>
  ): (r: Result<string, VideoError>)
    ensures r.Success? <==>
      PlanVideo(config, audioPath, audio, source, outputPath, preset, customTitle, imageDuration).Success?
      && renderError.None? && writeError.None?
    ensures r.Success? ==>
      r.value == if outputPath.Some? then outputPath.value else DefaultOutputPath(audioPath, preset)
    ensures preset !in config.presets ==> r == Failure(PresetNotFound(preset))
    ensures (PlanVideo(config, audioPath, audio, source, outputPath, preset, customTitle, imageDuration).Success?
             && renderError.Some?) ==> r == Failure(RenderFailed(renderError.value))
    ensures var plan := PlanVideo(config, audioPath, audio, source, outputPath, preset, customTitle, imageDuration);
      plan.Failure? ==> r == Failure(plan.error)
  {
    var render :- PlanVideo(config, audioPath, audio, source, outputPath, preset, customTitle, imageDuration);
    if renderError.Some? then Failure(RenderFailed(renderError.value))
    else if writeError.Some? then Failure(EncodeFailed(writeError.value))
    else Success(render.output)
  }

  /**
   `create_video` as written: `os.makedirs(os.path.dirname(output_path))`
   raises when the output path has no directory part, since the directory
   name is then empty. That call comes after the clips are built, so a
   render error is still reported first.
   */
  function CreateVideoAsWritten(
    config: Config, audioPath: string, audio: Result<real, string>, source: ImageSource,
    outputPath: Option<string>, preset: string, customTitle: Option<string>, imageDuration: Option<real>,
    renderError: Option<string>, writeError: Option<string>
  ): (r: Result<string, VideoError>)
    ensures r.Success? ==> '/' in r.value
    ensures var plan := PlanVideo(config, audioPath, audio, source, outputPath, preset, customTitle, imageDuration);
      r == if plan.Success? && renderError.None? && '/' !in plan.value.output
           then Failure(OutputFolderUnavailable(plan.value.output))
           else CreateVideo(config, audioPath, audio, source, outputPath, preset, customTitle, imageDuration,
                            renderError, writeError)
  {
    var render :- PlanVideo(config, audioPath, audio, source, outputPath, preset, customTitle, imageDuration);
    if renderError.Some? then Failure(RenderFailed(renderError.value))
    else if DirName(render.output) == "" then Failure(OutputFolderUnavailable(render.output))
    else if writeError.Some? then Failure(EncodeFailed(writeError.value))
    else Success(render.output)
  }

  /**
   An explicit `output_path="video.mp4"` makes the code as written fail
   after all the checks pass, while the intended behaviour writes the video.
   */
  lemma BareOutputPathFails(output: string)
    requires output == "video.mp4"
    ensures var config := Config(map["youtube" := PresetRecord(1920, 1080, 30, "16:9", "")], map[]);
      var source := Paths(["a.png"]);
      && CreateVideoAsWritten(config, "song.mp3", Success(10.0), source, Some(output), "youtube", None, None, None, None)
         == Failure(OutputFolderUnavailable(output))
      && CreateVideo(config, "song.mp3", Success(10.0), source, Some(output), "youtube", None, None, None, None)
         == Success(output)
  {
    assert '/' !in output;
    var config := Config(map["youtube" := PresetRecord(1920, 1080, 30, "16:9", "")], map[]);
    var plan := PlanVideo(config, "song.mp3", Success(10.0), Paths(["a.png"]), Some(output), "youtube", None, None);
    assert plan.Success? && plan.value.output == output;
  }

  /**
   With the same bare output path, an image moviepy cannot open is reported
   as that render error by both versions: the folder is only created after
   the clips are built.
   */
  lemma RenderErrorBeforeFolder(output: string, reason: string)
    requires output == "video.mp4"
    ensures var config := Config(map["youtube" := PresetRecord(1920, 1080, 30, "16:9", "")], map[]);
      var source := Paths(["a.png"]);
      && CreateVideoAsWritten(config, "song.mp3", Success(10.0), source, Some(output), "youtube", None, None,
                              Some(reason), None)
         == Failure(RenderFailed(reason))
      && CreateVideo(config, "song.mp3", Success(10.0), source, Some(output), "youtube", None, None,
                     Some(reason), None)
         == Failure(RenderFailed(reason))
  {
    var config := Config(map["youtube" := PresetRecord(1920, 1080, 30, "16:9", "")], map[]);
    var plan := PlanVideo(config, "song.mp3", Success(10.0), Paths(["a.png"]), Some(output), "youtube", None, None);
    assert plan.Success?;
  }

  /** The default output path always names the `output` folder. */
  lemma DefaultOutputPathHasFolder(audioPath: string, preset: string)
    ensures DirName(DefaultOutputPath(audioPath, preset)) != ""
  {
    assert DefaultOutputPath(audioPath, preset)[6] == '/';
  }

  /* ---------- batch_create ---------- */

  /** The audio extensions `batch_create` keeps, compared on the lower-cased name. */
  const AudioExtensions: seq<string> := [".mp3", ".wav", ".m4a", ".aac", ".ogg"]

  predicate IsAudioEntry(name: string) {
    EndsWithAny(Lower(name), AudioExtensions)
  }

  /** One entry of the list `batch_create` returns: `success` with output, or `failed` with error. */
  datatype BatchResult<E> = BatchResult(audio: string, outcome: Result<string, E>)

  /**
   `batch_create(audio_folder, ...)` over the folder's listing (`None` when
   `os.listdir` raises, which escapes the batch), where `job(path)` is what
   `create_video` returns or raises for one audio path. Every audio file
   yields exactly one record, in listing order, and no job's failure stops
   the batch.
   */
  method BatchCreate<E>(audioFolder: string, listing: Option<seq<string>>, job: string -> Result<string, E>)
    returns (results: Option<seq<BatchResult<E>>>)
    ensures results.None? <==> listing.None?
    ensures results.Some? ==>
      var files := Ordering.Filter(listing.value, IsAudioEntry);
      && |results.value| == |files|
      && forall i :: 0 <= i < |results.value| ==>
        results.value[i] == BatchResult(files[i], job(JoinPath(audioFolder, files[i])))
  {
    if listing.None? {
      return None;
    }
    var files := Ordering.Filter(listing.value, IsAudioEntry);
    var records := [];
    var k := 0;
    while k < |files|
      invariant 0 <= k <= |files|
      invariant |records| == k
      invariant forall i :: 0 <= i < k ==> records[i] == BatchResult(files[i], job(JoinPath(audioFolder, files[i])))
    {
      var audioPath := JoinPath(audioFolder, files[k]);
      records := records + [BatchResult(files[k], job(audioPath))];
      k := k + 1;
    }
    results := Some(records);
  }

  /**
   With a preset the configuration lacks, every job of a batch fails with
   `PresetNotFound`, whatever the audio and the encoder do.
   */
  lemma BatchJobUnknownPreset(
    config: Config, imagesFolder: string, listing: Option<seq<string>>, preset: string,
    loadAudio: string -> Result<real, string>, render: string -> Option<string>, write: string -> Option<string>,
    audioPath: string)
    requires preset !in config.presets
    ensures CreateVideo(config, audioPath, loadAudio(audioPath), Folder(imagesFolder, listing), None, preset,
                        None, None, render(audioPath), write(audioPath)) == Failure(PresetNotFound(preset))
  {
  }

  /**
   A successful batch job for directory entry `name` writes
   `output/<stem of name>_<preset>.mp4`, whatever the audio folder.
   */
  lemma BatchJobOutputPath(
    config: Config, audioFolder: string, name: string, audio: Result<real, string>,
    source: ImageSource, preset: string, renderError: Option<string>, writeError: Option<string>)
    requires IsToken(name, Slash) && name != "."
    requires CreateVideo(config, JoinPath(audioFolder, name), audio, source, None, preset, None, None, renderError, writeError).Success?
    ensures CreateVideo(config, JoinPath(audioFolder, name), audio, source, None, preset, None, None, renderError, writeError).value
      == "output/" + Stem(name) + "_" + preset + ".mp4"
  {
    NameOfJoinPath(audioFolder, name);
  }
}
