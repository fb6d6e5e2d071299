# Slideshow video generator: a Dafny model

The repository turns still images and one audio track into a slideshow video
sized for social-media presets. It has a generator class,
`src/video_generator.py`, three command-line scripts and a preset-configuration
editor. The heavy lifting is done by moviepy and Pillow, and none of it is
modelled. What is modelled is the logic the repository owns itself:

- the title taken from the audio file name, and where its outlined text is drawn;
- the fixed preset table, the `custom` size, the silent `youtube` fallback, and
  the command-line validation;
- the letterbox offsets of an image pasted on a canvas;
- the timeline rules: the automatic per-image duration, crossfades on every clip
  but the first, the length of the concatenated track, and the trim to the audio;
- file selection: extension filters, ordering, "first audio file wins", and the
  error order;
- one result record per file in a batch run;
- the add, remove and update edits of the preset manager, and their input guards;
- how each script's `main` result becomes the process exit status.

Directory listings, loader results, encoder errors and typed answers are inputs
to pure functions. Durations are exact `real`s.

Modules, one per concern:

- `Results`: `Option` and `Result`.
- `Text`: Python's `split`, `join`, `capitalize`, `lower`, `strip` and `endswith`.
- `Numerals`: `int()` and `str()` on integers.
- `Ordering`: `sorted` on strings and list filtering.
- `Paths`: `pathlib` name, stem and suffix, and `os.path.dirname` and `join`.
- `Presets`: the preset table and argument validation.
- `Letterbox`: paste offsets.
- `Timeline`: clip durations.
- `ExitStatus`: how a returned value becomes the exit status.
- `VideoGenerator`, `ImageAudioToVideo`, `SimpleVideoCreator`, `RunVideoCreator`
  and `PresetManager`: one module per source file.

Where the code and the design notes disagree, the model follows the code:

- A crossfade does not shorten the track. Clips are concatenated with
  `method="compose"` and no padding, so they play back to back. The track lasts
  the sum of the clip durations, not `n*d - (n-1)*c`.
- No transition is rejected for being longer than a clip. In
  `src/video_generator.py`, `transition_duration` is accepted but never used.
- Only `src/video_generator.py` trims the track to the audio. The scripts never
  cut it, so their video can outlast the audio.
- A negative custom width or height passes validation. Only a missing or zero
  value is rejected.

## Model

| member | source | states |
|---|---|---|
| Text.Capitalize | src/video_generator.py:35 | The first character is upper-cased and every later one lower-cased, and the length is kept. |
| Text.TokensAreTokens | src/video_generator.py:35 | Every word `split()` yields is non-empty and free of whitespace. |
| Text.TokensOfJoin | src/video_generator.py:35 | Splitting words joined by a blank gives back exactly those words: `split` inverts `' '.join` on whitespace-free words. |
| Text.JoinSingleSpaced | src/video_generator.py:35 | Joining non-empty blank-free words with one blank leaves no leading, trailing or doubled blank. |
| Text.JoinSeparatorsAreGlue | src/video_generator.py:35 | The only separators in the joined string are the glue characters between words. |
| Text.TokensAfterSep | src/video_generator.py:35 | Splitting distributes over a concatenation whose first part ends in whitespace. |
| Text.Strip | preset_manager.py:98 | The result is the input with the blanks at both ends cut off: a middle slice with only blanks before and after it, and no blank at either of its own ends. |
| Text.StripIdempotent | preset_manager.py:133 | Stripping twice is stripping once. |
| Numerals.IntToString | preset_manager.py:56 | The decimal form is non-empty, has no blank ends, and starts with `-` exactly for negatives. |
| Numerals.ParseInt | preset_manager.py:104-106 | `int()` succeeds exactly when the text holds no U+001C..U+001F character and, once blanks are stripped, is an optionally signed digit run. `int()` does not skip those four characters, though `str.strip()` does. |
| Numerals.InfoSeparatorRefused | preset_manager.py:104-111 | A U+001C..U+001F character anywhere in a typed number makes `int()` fail. |
| Numerals.ParseIntOfIntToString | preset_manager.py:104-106 | `int(str(n)) == n`. |
| Numerals.DigitsValueOfNatToString | preset_manager.py:104 | Reading back the digits of a natural number gives the number. |
| Numerals.ParseIntPadded | preset_manager.py:104-106 | The value `int()` gives for typed input: blanks `int()` skips around it, an optional `+` or `-` and leading zeros before the decimal form of n read back as n, or as -n after `-`. |
| Numerals.ParseSignedDigits | preset_manager.py:104-106 | An optionally signed digit run reads as its value, negated after `-`. |
| Numerals.ParseIntPaddedLiteral | preset_manager.py:104-106 | Blanks `int()` skips (no U+001C..U+001F), placed around a literal with no blank ends, do not change what `int()` returns. |
| Numerals.LeadingZerosValue | preset_manager.py:104-106 | Leading zeros do not change the value of a digit run. |
| Text.StripPadded | preset_manager.py:98 | Stripping blanks from both sides of a string with no blank ends gives back that string. |
| Ordering.BelowTransitive | src/video_generator.py:161 | Python's string order is transitive. |
| Ordering.BelowTotal | src/video_generator.py:161 | Any two strings are ordered one way or the other. |
| Ordering.BelowAntisymmetric | src/video_generator.py:161 | Strings ordered both ways are equal. |
| Ordering.BelowCommonPrefix | src/video_generator.py:161-163 | A shared prefix does not change how two strings compare. |
| Ordering.Sort | src/video_generator.py:161 | `sorted` returns a permutation of its input. |
| Ordering.SortSorted | src/video_generator.py:161 | `sorted` returns an ordered list. |
| Ordering.SortedUnique | src/video_generator.py:161 | Two ordered permutations of one list are equal, so `sorted` has one possible result. |
| Ordering.SortPrefixed | src/video_generator.py:161-165 | Sorting paths that share a folder prefix orders them by entry name. |
| Ordering.Filter | src/video_generator.py:258-261 | The kept elements are exactly the input's elements that pass, with no new ones. |
| Ordering.FilterAppend | src/video_generator.py:258-261 | Filtering distributes over concatenation. |
| Paths.StemAndSuffix | src/video_generator.py:33 | A name is its stem followed by its suffix, and the suffix is shorter than a non-empty name. |
| Paths.DirName | src/video_generator.py:226 | `os.path.dirname` is empty exactly when the path has no slash. Otherwise it is the prefix up to the last slash, without trailing slashes unless only slashes remain. |
| Paths.DirNameOfJoinPath | src/video_generator.py:226 | The folder part of `os.path.join(folder, entry)` is the folder without its trailing slashes, the folder itself when it has none, and empty for an empty folder. |
| Paths.NameOfJoinPath | src/video_generator.py:267 | A directory entry joined to its folder has that entry as its name, and the entry's stem as its stem. |
| Presets.VideoPresetsTable | image_audio_to_video.py:15-22 | The table has six rows with the listed sizes, all positive, and `custom` is not a row. The table in simple_video_creator.py:14-21 is the same. |
| Presets.ResolveSize | image_audio_to_video.py:69-73 | `custom` with a pair gives that pair. A table name gives its row. Anything else gives youtube's 1920x1080. The same rule is at simple_video_creator.py:39-43. |
| Presets.ValidateArgs | image_audio_to_video.py:177-187 | `main` accepts exactly a lower-cased table name, or `custom` with a non-zero width and height. It hands on the lower-cased name and the size pair. simple_video_creator.py:112-122 repeats the rule. |
| Presets.ValidatedRequestNeverFallsBack | image_audio_to_video.py:183-187 | A validated request resolves to its own row or its own size, never to the fallback. |
| Presets.NegativeCustomSizeAccepted | simple_video_creator.py:118-122 | `custom` with any negative width and a non-zero height passes validation with that size, while a zero height fails. |
| Letterbox.HalfGap | image_audio_to_video.py:62 | `(outer - inner) // 2` is the floor of half the gap, also for a negative gap. |
| Letterbox.Fit | image_audio_to_video.py:53-64 | The canvas is exactly the target size, and the paste offsets are floor-halves of the spare room. |
| Letterbox.FitCentres | simple_video_creator.py:23-34 | A contained image lies inside the canvas, and opposite paddings differ by 0 or 1. |
| Letterbox.FitExactSize | image_audio_to_video.py:59-63 | An image of the target size is pasted at the origin with no padding. |
| Timeline.EvenShare | src/video_generator.py:174-175 | Count times share equals the audio duration. |
| Timeline.FlooredShare | image_audio_to_video.py:85-87 | The automatic duration is at least 3 s, covers the audio, and is exactly the even share unless 3 s is larger. |
| Timeline.BuildClips | image_audio_to_video.py:89-106 | There is one clip per image, in order, each lasting the given duration. A clip fades in exactly when it is not the first and the transition is positive. |
| Timeline.ConcatOfEqualClips | image_audio_to_video.py:110 | n clips of d seconds concatenate to n*d seconds. |
| Timeline.BuildClipsDuration | image_audio_to_video.py:108-110 | The clip list lasts count times duration, with or without crossfades. |
| Timeline.TrimToAudio | src/video_generator.py:208-210 | The visible track never outlasts the audio. It is cut only when longer, and then to exactly the audio. |
| VideoGenerator.Capitalized | src/video_generator.py:35 | Each word is replaced by its capitalised form, in order. |
| VideoGenerator.CapitalizedTokens | src/video_generator.py:35 | Capitalising keeps words blank-free. |
| VideoGenerator.TitleFromAudio | src/video_generator.py:28-36 | The title's words are the stem's words, each capitalised. They are joined by single plain spaces, with no leading, trailing or doubled blank and no other blank character. |
| VideoGenerator.TitleFromAudioExample | src/video_generator.py:31 | `for love.mp3` gives `For Love`. |
| VideoGenerator.TitleLeft | src/video_generator.py:91 | The text's left edge is the floor of half the spare width. |
| VideoGenerator.DrawTitle | src/video_generator.py:94-106 | With stroke s > 0 there are exactly (2s+1)^2-1 stroke draws, one at each offset in the square except the centre, in loop order. With s <= 0 there are none. The fill draw is last, at (x, 50). |
| VideoGenerator.FolderImages | src/video_generator.py:159-165 | The folder's image list is sorted, and is a permutation of the folder path joined to each entry with an image extension. |
| VideoGenerator.FolderImagesByName | src/video_generator.py:161-165 | Sorting the joined paths orders the images by entry name. |
| VideoGenerator.FolderImagesMembers | src/video_generator.py:161-165 | Every image entry of the folder is in the list, and nothing else is. |
| VideoGenerator.ScheduleImages | src/video_generator.py:173-210 | One fade-less clip per image. Each clip lasts the requested duration, or an even share of the audio. The track is cut to exactly the audio when longer, and otherwise plays whole. |
| VideoGenerator.PlanVideo | src/video_generator.py:141-223 | An unknown preset fails first, then an audio error, then an unreadable folder. The plan succeeds exactly when none of these occurs and the image list is non-empty. On success, the canvas and fps come from the preset row and the title is the truthy custom title or the derived one. It also fixes the image list, schedule, title duration and output path. |
| VideoGenerator.PlanVideoNoImages | src/video_generator.py:170-171 | "No images found" is raised exactly when the preset and audio are fine and the image list is empty. |
| VideoGenerator.CreateVideo | src/video_generator.py:183-243 | The video is written exactly when planning succeeds and neither building the clips nor encoding fails. A failed plan's error is passed through unchanged, and a build error after a successful plan is reported as that error. It returns the explicit path or `output/<stem>_<preset>.mp4`. |
| VideoGenerator.CreateVideoAsWritten | src/video_generator.py:183-243 | As written, `create_video` behaves like the corrected one except in one case. After a successful plan and clip build, an output path with no slash fails with the folder error, before the encoder runs. A clip-build error (an unreadable image, the title overlay, concatenation, compositing) still comes first. |
| VideoGenerator.RenderErrorBeforeFolder | src/video_generator.py:196-226 | With a bare output path and an image that cannot be opened, both versions report the image error, not the folder error. |
| VideoGenerator.BareOutputPathFails | src/video_generator.py:226 | `output_path="video.mp4"` fails after every check passes as written, but is written by the corrected version. |
| VideoGenerator.DefaultOutputPathHasFolder | src/video_generator.py:221-223 | The default output path always has a folder part. |
| VideoGenerator.BatchCreate | src/video_generator.py:258-287 | An unreadable audio folder makes the whole batch fail. Otherwise there is exactly one record per audio entry, in listing order. Each holds that entry and its job's outcome on the joined path, so no job's failure stops the batch. |
| VideoGenerator.BatchJobUnknownPreset | src/video_generator.py:142-143 | With an unknown preset, every job of a batch fails with the preset error. |
| VideoGenerator.BatchJobOutputPath | src/video_generator.py:221-223 | A successful batch job writes `output/<entry stem>_<preset>.mp4`. |
| ImageAudioToVideo.FirstMatch | image_audio_to_video.py:40-44 | It returns the first entry matching a pattern in directory order, or none when no entry matches. |
| ImageAudioToVideo.FindFilesInData | image_audio_to_video.py:24-51 | A missing folder is reported first, then no images, then no audio. It succeeds exactly when the folder exists with an image and an audio match, and returns the grouped image list and the first audio match. |
| ImageAudioToVideo.Rank | image_audio_to_video.py:34-35 | A name's group is the first pattern it matches. It matches none of the earlier ones, and the group index is below the pattern count exactly when some pattern matches. |
| ImageAudioToVideo.ImageGroupsAreNames | image_audio_to_video.py:34-35 | The image list is `data/` joined to the names, group by group. |
| ImageAudioToVideo.NameGroupsMembers | image_audio_to_video.py:32-35 | The list holds exactly the entries that some image pattern matches. |
| ImageAudioToVideo.NameGroupsOrdered | image_audio_to_video.py:34-35 | With disjoint patterns, the names are ordered by pattern and then by name. |
| ImageAudioToVideo.ConcatInImageOrder | image_audio_to_video.py:35 | Extending by a later group keeps that order. |
| ImageAudioToVideo.DisjointTail | image_audio_to_video.py:32 | Dropping the first pattern keeps the patterns disjoint. |
| ImageAudioToVideo.HeadGroupRank | image_audio_to_video.py:35 | The first group is sorted and holds only names of the first pattern. |
| ImageAudioToVideo.TailGroupRank | image_audio_to_video.py:34-35 | A name in a later group ranks after the first pattern. |
| ImageAudioToVideo.RankMatches | image_audio_to_video.py:34-35 | A name's rank names a pattern it matches. |
| ImageAudioToVideo.ImageExtensionsDisjoint | image_audio_to_video.py:32 | No name ends with two of `.jpg`, `.jpeg`, `.png`, `.bmp`. |
| ImageAudioToVideo.ImageOrder | image_audio_to_video.py:31-35 | The images are the non-hidden entries with a case-sensitive image extension (POSIX `glob`), grouped jpg, jpeg, png, bmp and sorted within each group. |
| ImageAudioToVideo.NoMatchBeforeTail | image_audio_to_video.py:40-44 | Skipping a pattern with no match shifts the "no earlier match" condition by one. |
| ImageAudioToVideo.AudioPickNone | image_audio_to_video.py:37-49 | There is no audio file exactly when no entry matches any audio pattern. |
| ImageAudioToVideo.AudioPickFirst | image_audio_to_video.py:37-44 | The audio file is the first entry matching the first pattern that any entry matches. |
| ImageAudioToVideo.ImageDuration | image_audio_to_video.py:85-87 | A zero duration becomes `max(3, audio / n)`, so at least 3 s and covering the audio. Any other duration is kept. |
| ImageAudioToVideo.AutomaticTrack | image_audio_to_video.py:85-111 | With the automatic duration, the uncut track lasts `max(audio, 3n)`, so it outlasts the audio exactly when the audio is shorter than 3 s per image. |
| ImageAudioToVideo.CreateVideo | image_audio_to_video.py:66-138 | An audio error comes first. Success needs images and no render error. On success, the canvas is the resolved size at 24 fps and there is one clip per image. Only later clips cross-fade, each over `transition_duration` seconds, and the track lasts count times the duration, uncut. |
| ImageAudioToVideo.TrackMayOutlastAudio | image_audio_to_video.py:85-111 | One image with one second of audio gives a three-second track. |
| ImageAudioToVideo.Main | image_audio_to_video.py:148-212 | `--list-presets` returns None. Invalid arguments and missing files return 1 before any rendering. 0 is returned exactly when everything succeeds, and nothing but 0 or 1 is ever returned. |
| ImageAudioToVideo.UnknownPresetExitsZero | image_audio_to_video.py:214-215 | An unknown preset makes `main` return 1, but the process exits 0. |
| ImageAudioToVideo.ExitStatusReportsFailure | image_audio_to_video.py:176-212 | With `sys.exit(main())`, the status is 1 exactly when `main` reports failure. |
| SimpleVideoCreator.CreateVideo | simple_video_creator.py:36-79 | Image errors are reported before audio errors. The single fade-less clip lasts exactly the audio, on the resolved canvas. |
| SimpleVideoCreator.Main | simple_video_creator.py:89-142 | Invalid arguments return 1 and create nothing. `os.makedirs` is called exactly when the output folder is named and missing. If it fails, the exception escapes `main` and nothing is returned; otherwise the folder is created. 0 is returned exactly when everything succeeds. |
| SimpleVideoCreator.ScriptStatus | simple_video_creator.py:144-145 | As written, the process exits 0 unless an exception escapes `main`. |
| SimpleVideoCreator.ExitedStatus | simple_video_creator.py:125-145 | Under `sys.exit(main())`, an escaping exception exits 1, and otherwise the returned status is the exit status. |
| SimpleVideoCreator.FolderErrorExitsOne | simple_video_creator.py:125-127 | A folder `os.makedirs` cannot create ends the script with status 1 even as written, since the call is outside the `try`. |
| SimpleVideoCreator.DefaultOutputNeedsNoFolder | simple_video_creator.py:95-127 | The default `output.mp4` creates no folder, so it cannot fail there. |
| SimpleVideoCreator.LoadFailureExitsZero | simple_video_creator.py:144-145 | A failure makes `main` return 1, but the process exits 0. |
| SimpleVideoCreator.ExitStatusReportsFailure | simple_video_creator.py:112-145 | With `sys.exit(main())`, the status is 1 exactly when `main` reports failure or raises. |
| RunVideoCreator.FirstKept | run_video_creator.py:24-35 | `audio_files[0]` is the first entry in directory order that passes the filter. |
| RunVideoCreator.Selected | run_video_creator.py:23 | The image paths are sorted and are a permutation of `data/` joined to each entry with a listed suffix. |
| RunVideoCreator.SelectedPaths | run_video_creator.py:20-23 | The image paths are exactly `data/` joined to the entries whose lower-cased suffix is an image suffix. |
| RunVideoCreator.KeptPaths | run_video_creator.py:23 | Sorting the joined kept entries keeps exactly those paths. |
| RunVideoCreator.SelectedEmpty | run_video_creator.py:26-28 | No image path exists exactly when no entry has an image suffix. |
| RunVideoCreator.PlanRun | run_video_creator.py:14-35 | A missing folder is reported first, then no images, then no audio. Planning succeeds exactly when the folder has an image and an audio entry. On success the audio is the first audio entry and the images are the selected paths. |
| RunVideoCreator.SlideClips | run_video_creator.py:54-68 | Every image gets 5 s. The first has no fade and each later one fades over 1 s, so the track lasts 5 s per image. |
| RunVideoCreator.Main | run_video_creator.py:5-94 | It returns 0 exactly when planning, library import, audio loading and rendering all succeed, and 1 otherwise. |
| RunVideoCreator.ProcessStatusIsMainStatus | run_video_creator.py:96-97 | The process fails exactly when some step fails. |
| PresetManager.AddPreset | preset_manager.py:46-67 | An existing name without a `y` answer changes nothing and saves nothing. Otherwise the name maps to the given fields, with aspect ratio defaulting to `w:h`. Every other preset and the title style stay, and the file is saved. |
| PresetManager.IntToStringHasNoColon | preset_manager.py:56 | A decimal integer contains no colon. |
| PresetManager.DefaultAspectRatioNamesSize | preset_manager.py:55-56 | The default aspect ratio has one colon, and the parts around it read back as the width and the height. |
| PresetManager.RemovePreset | preset_manager.py:69-81 | An absent name or an unconfirmed answer changes nothing. A confirmed removal deletes only that key and saves. |
| PresetManager.AddThenRemove | preset_manager.py:46-81 | Adding a new name and then removing it, both confirmed, restores the presets. |
| PresetManager.LastValueSingle | preset_manager.py:143 | A single keyword argument sets only its own key. |
| PresetManager.ApplySettingsMeaning | preset_manager.py:85-90 | The key set is kept. Each key ends with the value of the last argument naming it, or keeps its old value. |
| PresetManager.UpdateTitleStyle | preset_manager.py:83-92 | Only existing settings change, the presets stay, and the file is always saved. |
| PresetManager.InteractiveAddPreset | preset_manager.py:94-111 | An empty stripped name, or a width, height or fps that `int()` rejects, changes nothing. Otherwise it is exactly `add_preset` with the stripped name, the parsed numbers and the stripped description, so the other presets and the title style stay. It saves exactly when all lines are valid and the name is new or the overwrite is confirmed. |
| PresetManager.TypedFps | preset_manager.py:106 | An empty fps line means 30, and any other line is read with `int()`. |
| PresetManager.ParseThirty | preset_manager.py:106 | `int("30")` is 30. |
| PresetManager.InteractiveAddRoundTrip | preset_manager.py:98-109 | Typing a new name, the decimal width and height, and an empty fps stores exactly that size at 30 fps with aspect ratio `w:h`. |
| PresetManager.InteractiveTitleStyle | preset_manager.py:113-143 | `q`, an unknown setting, or a non-integer `fontsize`/`stroke_width` changes nothing. Otherwise it is exactly `update_title_style` on that one setting, which saves, and the presets never change. |
| PresetManager.TypedStyleValue | preset_manager.py:133-141 | The stripped value is read with `int()` for `fontsize` and `stroke_width`, and refused when that fails. It is kept as text for the other settings. |
| PresetManager.FontsizeRoundTrip | preset_manager.py:133-143 | Typing `fontsize` and the decimal form of n sets exactly the font size to n. |

## Left out

- Audio decoding, image decoding, resampling (`ImageOps.contain`, `resize`, `on_color`), compositing and encoding are moviepy and Pillow work. The audio duration and load errors are inputs. So are render and encode errors: `VideoGenerator.CreateVideo` takes the errors raised while building the clips (before the output folder is made) apart from those of `write_videofile` (after it), and the contained image size is an input to `Letterbox.Fit`.
- Font loading, text measurement and rasterisation are left out. The title's pixel width is an input to `DrawTitle`, and the draw calls are returned as data.
- File-system effects are inputs or left out: `mkdir`, temporary JPEG files and their clean-up, and JSON load and save. Directory listings are sequences; a missing or unreadable folder is `None`. Only `save_config` being called is modelled, as the `saved` flag.
- `print` and progress output are left out.
- argparse parsing and its own exit on bad flags are left out. `main` is modelled from the parsed values.
- `list_presets` and `show_title_style` only print, so they are not modelled.
- The command dispatch in `main` of preset_manager.py is not modelled. It covers `list`, `add`, `remove`, `title` and `show-title`, the usage text, and `sys.exit(1)` for an unknown command.
- The `video_settings` options (codec, bitrates), the `threads` setting and the encoder presets are passed through to the encoder and not modelled.
- Durations are exact reals. IEEE rounding and the `:.2f` formatting are not modelled.
- Text.Capitalize: case mapping covers ASCII letters only; Python's `capitalize` and `lower` also map other Unicode letters.
- Numerals.ParseInt: accepts ASCII digits only; Python's `int()` also accepts `_` separators and non-ASCII decimal digits.
- Numerals.ParseInt: accepts literals of any length; Python 3.11 and later refuse integer strings of more than 4300 digits with `ValueError`.
- Numerals.IntToString: converts integers of any size; under the same limit `str()` refuses integers of more than 4300 digits.
- Letterbox.Fit: stands alone. The create-video models take Pillow's and moviepy's errors as parameters, so a canvas those libraries would refuse (a negative custom size) is not modelled as failing.
- Paths, glob matching and path ordering follow POSIX: `/` is the only separator, and glob patterns match case-sensitively. On Windows, `glob` ignores case (`PHOTO.JPG` matches `*.jpg`), `os.path.dirname` also splits at `\`, and the default output path is written with `\`. None of this is modelled.
- Paths.StemAndSuffix: follows pathlib's rule that a dot at the start or end of a name is no suffix separator, as before Python 3.14.
- VideoGenerator.BatchCreate: the job is a pure function of the audio path, so one job's side effects on another are not modelled.
- Directory listings hold every entry, whatever its kind, as `glob`, `os.listdir` and `iterdir` return them. A sub-directory named like `x.jpg` is selected as an image, just as in Python. That it then fails to load is one of the render errors, which are inputs.
- The `output` folder that run_video_creator.py creates unconditionally is not modelled.
- The order and content of `sorted` over `Path` objects is modelled as string order on the paths. Every path shares the `data/` prefix, so this agrees with pathlib's part-wise order.

## Findings

| source | as written | input that shows it | evidently intended | confidence | as-written member | corrected member |
|---|---|---|---|---|---|---|
| src/video_generator.py:226 | `os.makedirs(os.path.dirname(output_path), exist_ok=True)` is called even when the directory name is empty, and `os.makedirs('')` raises | `create_video(..., output_path="video.mp4")` with a known preset, readable audio and one image | write the video in the current folder, creating a folder only when the path names one (as simple_video_creator.py:125-127 does) | not executed; high | VideoGenerator.CreateVideoAsWritten | VideoGenerator.CreateVideo |
| image_audio_to_video.py:214-215 | `main()` is called without `sys.exit`, so its `return 1` is discarded and the process exits 0 | `--preset vimeo` | exit with `main`'s status, as run_video_creator.py:96-97 does | not executed; medium | ImageAudioToVideo.UnknownPresetExitsZero | ImageAudioToVideo.ExitStatusReportsFailure |
| simple_video_creator.py:144-145 | `main()` is called without `sys.exit`, so its `return 1` is discarded and the process exits 0 | a valid preset with an image that cannot be opened | exit with `main`'s status, as run_video_creator.py:96-97 does | not executed; medium | SimpleVideoCreator.LoadFailureExitsZero | SimpleVideoCreator.ExitStatusReportsFailure |
