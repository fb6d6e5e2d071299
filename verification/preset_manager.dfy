/**
 `preset_manager.py`: edits to the presets and title style of the JSON
 configuration. Each edit returns the new configuration and whether it was
 written back to the file; the answers typed at the prompts are parameters.
 */
module PresetManager {
  import opened Results
  import opened Text
  import opened Numerals
  import opened Presets

  /** A configuration after an edit, and whether `save_config` ran. */
  datatype Edit = Edit(config: Config, saved: bool)

  /** The answer that confirms, compared after `.lower()`. */
  const Yes := "y"

  predicate Confirms(answer: string) {
    Lower(answer) == Yes
  }

  /** `f"{width}:{height}"`. */
  function DefaultAspectRatio(width: int, height: int): string {
    IntToString(width) + ":" + IntToString(height)
  }

  /** `fps`'s default. */
  const DefaultFps := 30

  /**
   `add_preset(name, width, height, fps, aspect_ratio, description)`. An
   existing name is overwritten only when `answer` (typed at the overwrite
   prompt) confirms; otherwise nothing changes and nothing is saved. The
   new record holds the arguments, with `aspect_ratio` defaulting to
   `"<width>:<height>"`, and every other preset and the title style stay.
   */
  function AddPreset(
    config: Config, name: string, width: int, height: int, fps: int,
    aspectRatio: Option<string>, description: string, answer: string
  ): (e: Edit)
    ensures name in config.presets && !Confirms(answer) ==> e == Edit(config, false)
    ensures name !in config.presets || Confirms(answer) ==>
      && e.saved
      && e.config.presets.Keys == config.presets.Keys + {name}
      && e.config.presets[name].width == width
      && e.config.presets[name].height == height
      && e.config.presets[name].fps == fps
      && e.config.presets[name].aspectRatio
           == (if aspectRatio.Some? then aspectRatio.value else DefaultAspectRatio(width, height))
      && e.config.presets[name].description == description
      && (forall other :: other in config.presets && other != name ==>
            e.config.presets[other] == config.presets[other])
      && e.config.titleStyle == config.titleStyle
  {
    if name in config.presets && !Confirms(answer) then Edit(config, false)
    else
      var ratio := if aspectRatio.Some? then aspectRatio.value else DefaultAspectRatio(width, height);
      Edit(config.(presets := config.presets[name := PresetRecord(width, height, fps, ratio, description)]), true)
  }

  /** A decimal integer never contains a colon. */
  lemma IntToStringHasNoColon(n: int)
    ensures ':' !in IntToString(n)
  {
    var s := IntToString(n);
    if n < 0 {
      assert s == "-" + NatToString(-n);
      assert forall i :: 1 <= i < |s| ==> s[i] == NatToString(-n)[i - 1];
    }
  }

  /**
   The default aspect ratio names the size: it holds one colon, and the
   parts before and after it read back as the width and the height.
   */
  lemma DefaultAspectRatioNamesSize(width: int, height: int)
    ensures var ratio := DefaultAspectRatio(width, height);
      exists i :: 0 <= i < |ratio| && ratio[i] == ':'
        && (forall j :: 0 <= j < |ratio| && ratio[j] == ':' ==> j == i)
        && ParseInt(ratio[..i]) == Some(width)
        && ParseInt(ratio[i + 1..]) == Some(height)
  {
    var w := IntToString(width);
    var h := IntToString(height);
    var ratio := DefaultAspectRatio(width, height);
    var i := |w|;
    IntToStringHasNoColon(width);
    IntToStringHasNoColon(height);
    assert ratio[..i] == w;
    assert ratio[i + 1..] == h;
    ParseIntOfIntToString(width);
    ParseIntOfIntToString(height);
  }

  /**
   `remove_preset(name)`: an absent name changes nothing; otherwise `answer`
   decides, and a confirmed removal deletes that one preset and saves.
   */
  function RemovePreset(config: Config, name: string, answer: string): (e: Edit)
    ensures name !in config.presets || !Confirms(answer) ==> e == Edit(config, false)
    ensures name in config.presets && Confirms(answer) ==>
      && e.saved
      && e.config.presets.Keys == config.presets.Keys - {name}
      && (forall other :: other in e.config.presets ==> e.config.presets[other] == config.presets[other])
      && e.config.titleStyle == config.titleStyle
  {
    if name !in config.presets then Edit(config, false)
    else if Confirms(answer) then Edit(config.(presets := config.presets - {name}), true)
    else Edit(config, false)
  }

  /** Adding a new name and then removing it, both confirmed, restores the presets. */
  lemma AddThenRemove(
    config: Config, name: string, width: int, height: int, fps: int, description: string, answer: string)
    requires name !in config.presets && Confirms(answer)
    ensures RemovePreset(AddPreset(config, name, width, height, fps, None, description, answer).config, name, answer).config
      == config
  {
    var added := AddPreset(config, name, width, height, fps, None, description, answer).config;
    var removed := RemovePreset(added, name, answer).config;
    assert removed.presets == config.presets;
  }

  /** One keyword argument of `update_title_style(**kwargs)`. */
  datatype Setting = Setting(key: string, value: StyleValue)

  /** The value the last argument naming `key` gives it, if any argument does. */
  function LastValue(updates: seq<Setting>, key: string): Option<StyleValue>
    decreases |updates|
  {
    if updates == [] then None
    else match LastValue(updates[1..], key)
      case Some(v) => Some(v)
      case None => if updates[0].key == key then Some(updates[0].value) else None
  }

  /** A single argument gives its own key its value and no other key any. */
  lemma LastValueSingle(u: Setting)
    ensures forall key :: LastValue([u], key) == if u.key == key then Some(u.value) else None
  {
    assert [u][1..] == [];
  }

  /** The loop of `update_title_style`: known keys take the new value, unknown ones are skipped. */
  function ApplySettings(style: map<string, StyleValue>, updates: seq<Setting>): map<string, StyleValue>
    decreases |updates|
  {
    if updates == [] then style
    else
      var u := updates[0];
      ApplySettings(if u.key in style then style[u.key := u.value] else style, updates[1..])
  }

  /**
   The settings loop keeps the key set, and each key ends with the value of
   the last argument naming it, or its old value if none does.
   */
  lemma {:induction false} ApplySettingsMeaning(style: map<string, StyleValue>, updates: seq<Setting>)
    ensures ApplySettings(style, updates).Keys == style.Keys
    ensures forall key :: key in style ==>
      ApplySettings(style, updates)[key]
        == (if LastValue(updates, key).Some? then LastValue(updates, key).value else style[key])
    decreases |updates|
  {
    if updates != [] {
      var u := updates[0];
      var next := if u.key in style then style[u.key := u.value] else style;
      ApplySettingsMeaning(next, updates[1..]);
    }
  }

  /**
   `update_title_style(**kwargs)`: only settings the style already has
   change, the key set and the presets stay, and the file is always saved.
   */
  function UpdateTitleStyle(config: Config, updates: seq<Setting>): (e: Edit)
    ensures e.saved
    ensures e.config.presets == config.presets
    ensures e.config.titleStyle.Keys == config.titleStyle.Keys
    ensures forall key :: key in config.titleStyle ==>
      e.config.titleStyle[key]
        == (if LastValue(updates, key).Some? then LastValue(updates, key).value else config.titleStyle[key])
  {
    ApplySettingsMeaning(config.titleStyle, updates);
    Edit(config.(titleStyle := ApplySettings(config.titleStyle, updates)), true)
  }

  /** The frame rate typed at the prompt: `int(line or "30")`. */
  function TypedFps(fpsLine: string): (fps: Option<int>)
    ensures fpsLine == [] ==> fps == Some(DefaultFps)
    ensures fpsLine != [] ==> fps == ParseInt(fpsLine)
  {
    if fpsLine == [] then ParseThirty("30"); ParseInt("30") else ParseInt(fpsLine)
  }

  /**
   `interactive_add_preset` given the typed lines: an empty stripped name,
   or a width, height or frame rate that `int()` rejects, changes nothing;
   an empty frame-rate line means 30; the description is stripped. Valid
   lines make exactly the `add_preset` call with the stripped name, so the
   other presets and the title style stay.
   */
  function InteractiveAddPreset(
    config: Config, nameLine: string, widthLine: string, heightLine: string, fpsLine: string,
    descriptionLine: string, answer: string
  ): (e: Edit)
    ensures Strip(nameLine) == [] ==> e == Edit(config, false)
    ensures ParseInt(widthLine).None? || ParseInt(heightLine).None? ==> e == Edit(config, false)
    ensures fpsLine != [] && ParseInt(fpsLine).None? ==> e == Edit(config, false)
    ensures e.saved ==>
      && Strip(nameLine) in e.config.presets
      && e.config.presets[Strip(nameLine)].width == ParseInt(widthLine).value
      && e.config.presets[Strip(nameLine)].height == ParseInt(heightLine).value
      && e.config.presets[Strip(nameLine)].fps == TypedFps(fpsLine).value
      && e.config.presets[Strip(nameLine)].description == Strip(descriptionLine)
    ensures Strip(nameLine) != [] && ParseInt(widthLine).Some? && ParseInt(heightLine).Some? && TypedFps(fpsLine).Some? ==>
      e == AddPreset(config, Strip(nameLine), ParseInt(widthLine).value, ParseInt(heightLine).value,
                     TypedFps(fpsLine).value, None, Strip(descriptionLine), answer)
    ensures e.saved <==>
      && Strip(nameLine) != [] && ParseInt(widthLine).Some? && ParseInt(heightLine).Some? && TypedFps(fpsLine).Some?
      && (Strip(nameLine) !in config.presets || Confirms(answer))
  {
    var name := Strip(nameLine);
    if name == [] then Edit(config, false)
    else match (ParseInt(widthLine), ParseInt(heightLine), TypedFps(fpsLine))
      case (Some(width), Some(height), Some(fps)) =>
        AddPreset(config, name, width, height, fps, None, Strip(descriptionLine), answer)
      case _ => Edit(config, false)
  }

  /** `int("30")`. */
  lemma ParseThirty(s: string)
    requires s == "30"
    ensures ParseInt(s) == Some(DefaultFps)
  {
    assert IntToString(30) == NatToString(30) == [DigitChar(3)] + [DigitChar(0)];
    assert s == IntToString(30);
    ParseIntOfIntToString(30);
  }

  /**
   Typing a new name and the decimal forms of a size, with an empty frame
   rate, stores exactly that size at 30 frames per second and the default
   aspect ratio.
   */
  lemma InteractiveAddRoundTrip(
    config: Config, name: string, width: int, height: int, description: string, answer: string)
    requires name != [] && !IsSpace(name[0]) && !IsSpace(name[|name| - 1]) && name !in config.presets
    ensures var e := InteractiveAddPreset(config, name, IntToString(width), IntToString(height), "", description, answer);
      && e.saved
      && e.config.presets[name] == PresetRecord(width, height, DefaultFps, DefaultAspectRatio(width, height), Strip(description))
  {
    StripNoBlankEnds(name);
    ParseIntOfIntToString(width);
    ParseIntOfIntToString(height);
    ParseThirty("30");
  }

  /** The settings the editor converts with `int()`. */
  predicate IsIntegerSetting(setting: string) {
    setting == "fontsize" || setting == "stroke_width"
  }

  /**
   The value typed for a setting, stripped: converted with `int()` for
   `fontsize` and `stroke_width`, where a non-integer is refused, and kept as
   text for the others.
   */
  function TypedStyleValue(setting: string, valueLine: string): (v: Option<StyleValue>)
    ensures IsIntegerSetting(setting) ==> (v.Some? <==> ParseInt(Strip(valueLine)).Some?)
    ensures IsIntegerSetting(setting) && v.Some? ==> v.value == IntValue(ParseInt(Strip(valueLine)).value)
    ensures !IsIntegerSetting(setting) ==> v == Some(TextValue(Strip(valueLine)))
  {
    var value := Strip(valueLine);
    if IsIntegerSetting(setting) then
      match ParseInt(value)
      case None => None
      case Some(n) => Some(IntValue(n))
    else Some(TextValue(value))
  }

  /**
   `interactive_title_style` given the typed lines: `q`, a setting the
   style lacks, or a non-integer value for `fontsize` or `stroke_width`
   changes nothing and saves nothing; otherwise exactly that one setting is
   passed to `update_title_style`, which saves.
   */
  function InteractiveTitleStyle(config: Config, settingLine: string, valueLine: string): (e: Edit)
    ensures var setting := Strip(settingLine);
      setting == "q" || setting !in config.titleStyle ==> e == Edit(config, false)
    ensures var setting := Strip(settingLine);
      setting != "q" && setting in config.titleStyle && IsIntegerSetting(setting) && ParseInt(Strip(valueLine)).None? ==>
        e == Edit(config, false)
    ensures e.config.presets == config.presets
    ensures var setting := Strip(settingLine);
      setting != "q" && setting in config.titleStyle && TypedStyleValue(setting, valueLine).Some? ==>
        && e.saved
        && e == UpdateTitleStyle(config, [Setting(setting, TypedStyleValue(setting, valueLine).value)])
    ensures e.saved ==>
      && TypedStyleValue(Strip(settingLine), valueLine).Some?
      && e.config.titleStyle.Keys == config.titleStyle.Keys
      && e.config.titleStyle[Strip(settingLine)] == TypedStyleValue(Strip(settingLine), valueLine).value
      && (forall key :: key in config.titleStyle && key != Strip(settingLine) ==>
            e.config.titleStyle[key] == config.titleStyle[key])
  {
    var setting := Strip(settingLine);
    if setting == "q" || setting !in config.titleStyle then Edit(config, false)
    else
      match TypedStyleValue(setting, valueLine)
      case None => Edit(config, false)
      case Some(v) =>
        LastValueSingle(Setting(setting, v));
        UpdateTitleStyle(config, [Setting(setting, v)])
  }

  /** Typing `fontsize` and the decimal form of a size sets exactly that font size. */
  lemma FontsizeRoundTrip(config: Config, setting: string, size: int)
    requires setting == "fontsize" && setting in config.titleStyle
    ensures var e := InteractiveTitleStyle(config, setting, IntToString(size));
      e.saved && e.config.titleStyle == config.titleStyle[setting := IntValue(size)]
  {
    StripNoBlankEnds(setting);
    StripNoBlankEnds(IntToString(size));
    ParseIntOfIntToString(size);
    var e := InteractiveTitleStyle(config, setting, IntToString(size));
    assert e.config.titleStyle.Keys == config.titleStyle[setting := IntValue(size)].Keys;
  }
}
