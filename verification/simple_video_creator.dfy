/**
 `simple_video_creator.py`: one image shown for the whole audio track. The
 image and audio loaders, the encoder and the file system are parameters.
 */
module SimpleVideoCreator {
  import opened Results
  import opened Text
  import opened Presets
  import opened Timeline
  import opened Paths
  import ExitStatus

  /** Why `create_video` raises. */
  datatype CreateError = ImageLoadFailed(reason: string) | AudioLoadFailed(reason: string) | EncodeFailed(reason: string)

  /** What `create_video` hands to the encoder: one clip on a canvas. */
  datatype Still = Still(canvas: Size, clip: Clip, output: string)

  /**
   `create_video(image_path, audio_path, output_path, preset, custom_size)`:
   the image is loaded and letterboxed first, then the audio; the single clip
   lasts exactly as long as the audio and never fades.
   */
  function CreateVideo(
    image: string, imageError: Option<string>, audio: Result<real, string>, output: string,
    preset: string, customSize: Option<seq<int>>, encodeError: Option<string>
  ): (r: Result<Still, CreateError>)
    ensures imageError.Some? ==> r == Failure(ImageLoadFailed(imageError.value))
    ensures imageError.None? && audio.Failure? ==> r == Failure(AudioLoadFailed(audio.error))
    ensures r.Success? <==> imageError.None? && audio.Success? && encodeError.None?
    ensures r.Success? ==>
      && r.value.canvas == ResolveSize(preset, customSize)
      && r.value.clip.image == image
      && r.value.clip.crossfadeIn.None?
      && ConcatDuration([r.value.clip]) == audio.value
      && r.value.output == output
  {
    if imageError.Some? then Failure(ImageLoadFailed(imageError.value))
    else if audio.Failure? then Failure(AudioLoadFailed(audio.error))
    else if encodeError.Some? then Failure(EncodeFailed(encodeError.value))
    else Success(Still(ResolveSize(preset, customSize), Clip(image, audio.value, None), output))
  }

  /** The parsed command line. */
  datatype Arguments = Arguments(
    image: string, audio: string, output: string, preset: string,
    width: Option<int>, height: Option<int>, listPresets: bool)

  /**
   What `main` does: its return value, the folder it creates for the
   output, if any, and the exception that escapes it, if any (then nothing
   is returned).
   */
  datatype Run = Run(status: Option<int>, createdFolder: Option<string>, raised: Option<string>)

  /** `main` calls `os.makedirs` for the output's folder. */
  predicate MakesFolder(args: Arguments, folderExists: string -> bool) {
    && !args.listPresets && ValidateArgs(args.preset, args.width, args.height).Success?
    && DirName(args.output) != "" && !folderExists(DirName(args.output))
  }

  /**
   `main()` after argument parsing. The output's folder is created only
   when the output path names one that does not exist, and only once the
   arguments are valid. `folderExists` stands for `os.path.exists` and
   `folderError` for what `os.makedirs` raises; that call is outside the
   `try`, so its exception escapes `main` and no video is made.
   */
  function Main(
    args: Arguments, folderExists: string -> bool, folderError: Option<string>, imageError: Option<string>,
    loadAudio: string -> Result<real, string>, encodeError: Option<string>
  ): (run: Run)
    ensures args.listPresets <==> run.status.None? && run.raised.None?
    ensures !args.listPresets && ValidateArgs(args.preset, args.width, args.height).Failure? ==>
      run == Run(Some(1), None, None)
    ensures run.raised.Some? <==> MakesFolder(args, folderExists) && folderError.Some?
    ensures run.raised.Some? ==> run == Run(None, None, folderError)
    ensures run.createdFolder.Some? <==> MakesFolder(args, folderExists) && folderError.None?
    ensures run.createdFolder.Some? ==> run.createdFolder.value == DirName(args.output)
    ensures run.status == Some(0) <==>
      && !args.listPresets && ValidateArgs(args.preset, args.width, args.height).Success?
      && !(MakesFolder(args, folderExists) && folderError.Some?)
      && imageError.None? && loadAudio(args.audio).Success? && encodeError.None?
    ensures run.status.Some? ==> run.status.value == 0 || run.status.value == 1
  {
    if args.listPresets then Run(None, None, None)
    else match ValidateArgs(args.preset, args.width, args.height)
      case Failure(_) => Run(Some(1), None, None)
      case Success(request) =>
        var dir := DirName(args.output);
        if dir != "" && !folderExists(dir) && folderError.Some? then Run(None, None, folderError)
        else
          var created := if dir != "" && !folderExists(dir) then Some(dir) else None;
          var made := CreateVideo(args.image, imageError, loadAudio(args.audio), args.output,
                                  request.preset, request.customSize, encodeError);
          Run(if made.Success? then Some(0) else Some(1), created, None)
  }

  /** The process status of the script as written: `main()` with its return value discarded. */
  function ScriptStatus(run: Run): (code: int)
    ensures code == 0 <==> run.raised.None?
  {
    if run.raised.Some? then ExitStatus.UncaughtExceptionStatus else ExitStatus.StatusIgnoringReturn(run.status)
  }

  /** The process status under `sys.exit(main())`. */
  function ExitedStatus(run: Run): (code: int)
    ensures run.raised.Some? ==> code == 1
    ensures run.raised.None? ==> code == ExitStatus.StatusOfReturn(run.status)
  {
    if run.raised.Some? then ExitStatus.UncaughtExceptionStatus else ExitStatus.StatusOfReturn(run.status)
  }

  /**
   The default `--output`, `output.mp4`, has no folder part, and none is
   created for it.
   */
  lemma DefaultOutputNeedsNoFolder(args: Arguments, folderExists: string -> bool, folderError: Option<string>,
    imageError: Option<string>, loadAudio: string -> Result<real, string>, encodeError: Option<string>)
    requires args.output == "output.mp4"
    ensures var run := Main(args, folderExists, folderError, imageError, loadAudio, encodeError);
      run.createdFolder.None? && run.raised.None?
  {
    assert '/' !in args.output;
  }

  /**
   A folder `os.makedirs` cannot create ends the script with status 1 even
   as written, since the exception escapes `main`, and no video is made.
   */
  lemma FolderErrorExitsOne(
    args: Arguments, folderExists: string -> bool, reason: string, imageError: Option<string>,
    loadAudio: string -> Result<real, string>, encodeError: Option<string>)
    requires MakesFolder(args, folderExists)
    ensures var run := Main(args, folderExists, Some(reason), imageError, loadAudio, encodeError);
      run.status.None? && ScriptStatus(run) == 1 && ExitedStatus(run) == 1
  {
  }

  /**
   Run as a script, `main()`'s status is discarded: an image that cannot be
   opened makes `main` return 1, yet the process exits with 0.
   */
  lemma LoadFailureExitsZero(
    args: Arguments, folderExists: string -> bool, reason: string, loadAudio: string -> Result<real, string>)
    requires !args.listPresets && ValidateArgs(args.preset, args.width, args.height).Success?
    ensures Main(args, folderExists, None, Some(reason), loadAudio, None).status == Some(1)
    ensures ScriptStatus(Main(args, folderExists, None, Some(reason), loadAudio, None)) == 0
  {
  }

  /** With `sys.exit(main())`, the process fails exactly when `main` reports or raises a failure. */
  lemma ExitStatusReportsFailure(
    args: Arguments, folderExists: string -> bool, folderError: Option<string>, imageError: Option<string>,
    loadAudio: string -> Result<real, string>, encodeError: Option<string>)
    ensures var run := Main(args, folderExists, folderError, imageError, loadAudio, encodeError);
      (ExitedStatus(run) == 0 <==> args.listPresets || run.status == Some(0))
      && (ExitedStatus(run) == 1 <==> run.raised.Some? || run.status == Some(1))
  {
  }
}
