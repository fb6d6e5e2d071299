/**
 The fixed `VIDEO_PRESETS` table of the command-line scripts, the `custom`
 size path and silent `youtube` fallback of their `create_video`, the
 argument validation of their `main`, and the JSON configuration record the
 generator class and the preset manager share.
 */
module Presets {
  import opened Results
  import opened Text

  /** A canvas size in pixels. */
  datatype Size = Size(width: int, height: int)

  /** One row of `VIDEO_PRESETS`: `(width, height, description)`. */
  datatype TableEntry = TableEntry(size: Size, description: string)

  /** The name a command line must give to supply its own width and height. */
  const Custom := "custom"

  const Youtube := "youtube"

  /** The scripts' preset table; both scripts declare the same six rows. */
  const VideoPresets: map<string, TableEntry> := map[
    "youtube" := TableEntry(Size(1920, 1080), "YouTube HD (16:9)"),
    "youtube_short" := TableEntry(Size(1080, 1920), "YouTube Shorts (9:16)"),
    "tiktok" := TableEntry(Size(1080, 1920), "TikTok (9:16)"),
    "instagram_post" := TableEntry(Size(1080, 1080), "Instagram Post (1:1)"),
    "instagram_story" := TableEntry(Size(1080, 1920), "Instagram Story (9:16)"),
    "facebook" := TableEntry(Size(1280, 720), "Facebook (16:9)")
  ]

  /** The table's six rows and their sizes; every size is positive and `custom` is no row. */
  lemma VideoPresetsTable()
    ensures VideoPresets.Keys
      == {"youtube", "youtube_short", "tiktok", "instagram_post", "instagram_story", "facebook"}
    ensures |VideoPresets| == 6
    ensures VideoPresets["youtube"].size == Size(1920, 1080)
    ensures VideoPresets["tiktok"].size == VideoPresets["youtube_short"].size
      == VideoPresets["instagram_story"].size == Size(1080, 1920)
    ensures VideoPresets["instagram_post"].size == Size(1080, 1080)
    ensures VideoPresets["facebook"].size == Size(1280, 720)
    ensures forall name :: name in VideoPresets ==>
      VideoPresets[name].size.width > 0 && VideoPresets[name].size.height > 0
    ensures Custom !in VideoPresets
  {
    var keys := {"youtube", "youtube_short", "tiktok", "instagram_post", "instagram_story", "facebook"};
    assert VideoPresets.Keys == keys;
    assert |keys| == 6;
  }

  /** A `custom_size` that `create_video` accepts: a pair `(width, height)`. */
  predicate IsPair(customSize: Option<seq<int>>) {
    customSize.Some? && |customSize.value| == 2
  }

  /**
   The canvas size `create_video` renders at: the given pair for `custom`,
   the table row for a known name, and `youtube`'s row for anything else
   (including `custom` without a pair).
   */
  function ResolveSize(preset: string, customSize: Option<seq<int>>): (size: Size)
    ensures preset == Custom && IsPair(customSize) ==>
      size == Size(customSize.value[0], customSize.value[1])
    ensures preset in VideoPresets ==> size == VideoPresets[preset].size
    ensures !(preset == Custom && IsPair(customSize)) && preset !in VideoPresets ==>
      size == Size(1920, 1080)
  {
    if preset == Custom && IsPair(customSize) then
      Size(customSize.value[0], customSize.value[1])
    else if preset in VideoPresets then
      VideoPresets[preset].size
    else
      VideoPresets[Youtube].size
  }

  /** Why `main` returns 1 before doing any work. */
  datatype ArgumentError = UnknownPreset(preset: string) | CustomSizeRequired

  /** The validated request `main` hands to `create_video`. */
  datatype Request = Request(preset: string, customSize: Option<seq<int>>)

  /** Python truthiness of an optional `int` argument: given and non-zero. */
  predicate Truthy(arg: Option<int>) {
    arg.Some? && arg.value != 0
  }

  /**
   The checks of `main` on the parsed `--preset`, `--width`, `--height`:
   the lower-cased preset must be a table row or `custom`, and `custom`
   needs both sizes given and non-zero (negative sizes pass).
   */
  function ValidateArgs(preset: string, width: Option<int>, height: Option<int>): (r: Result<Request, ArgumentError>)
    ensures r.Success? <==>
      (Lower(preset) in VideoPresets || (Lower(preset) == Custom && Truthy(width) && Truthy(height)))
    ensures r == Failure(CustomSizeRequired) <==>
      Lower(preset) == Custom && !(Truthy(width) && Truthy(height))
    ensures r.Success? ==> r.value.preset == Lower(preset)
    ensures r.Success? ==> (r.value.customSize.Some? <==> Lower(preset) == Custom)
    ensures r.Success? && Lower(preset) == Custom ==>
      r.value.customSize == Some([width.value, height.value])
  {
    var name := Lower(preset);
    if name !in VideoPresets && name != Custom then
      Failure(UnknownPreset(preset))
    else if name == Custom then
      if !Truthy(width) || !Truthy(height) then Failure(CustomSizeRequired)
      else Success(Request(name, Some([width.value, height.value])))
    else
      Success(Request(name, None))
  }

  /**
   A request that passed validation resolves without the silent fallback:
   to its own table row, or to exactly the width and height given.
   */
  lemma ValidatedRequestNeverFallsBack(preset: string, width: Option<int>, height: Option<int>)
    requires ValidateArgs(preset, width, height).Success?
    ensures var request := ValidateArgs(preset, width, height).value;
      ResolveSize(request.preset, request.customSize)
        == if Lower(preset) == Custom then Size(width.value, height.value)
           else VideoPresets[Lower(preset)].size
  {
    VideoPresetsTable();
  }

  /**
   Negative sizes are not rejected by validation; only missing or zero ones
   are: any negative width with a non-zero height passes, and a zero height
   fails whatever the width.
   */
  lemma NegativeCustomSizeAccepted(preset: string, width: int, height: int)
    requires preset == Custom && width < 0 && height != 0
    ensures ValidateArgs(preset, Some(width), Some(height)) == Success(Request(Custom, Some([width, height])))
    ensures ValidateArgs(preset, Some(width), Some(0)) == Failure(CustomSizeRequired)
  {
    assert Lower(preset) == Custom;
    assert Custom !in VideoPresets by {
      VideoPresetsTable();
    }
  }

  /** One preset of the JSON configuration file. */
  datatype PresetRecord = PresetRecord(width: int, height: int, fps: int, aspectRatio: string, description: string)

  /** A `title_style` value: JSON integers (`fontsize`, `stroke_width`) or strings (colours). */
  datatype StyleValue = IntValue(i: int) | TextValue(s: string)

  /** The parts of the JSON configuration the modelled code reads or edits. */
  datatype Config = Config(presets: map<string, PresetRecord>, titleStyle: map<string, StyleValue>)
}
