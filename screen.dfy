/**
 * electron/screenUtils.ts: screen recording over `activeRecordings`, the scrcpy argument
 * list, file names, the screenshot command sequence and the paginated media listings.
 * The settings store is a `Settings` value and the clock an ISO timestamp argument.
 */
module ScreenUtils {
  import opened Wrappers
  import opened Text
  import opened Registry

  // ---------------------------------------------------------------- settings

  /**
   * A setting the store may hold either as a number or as text: the defaults are numbers, the
   * settings form stores `maxRes` as the text of its field and `maxFPS` as `Number(text)`,
   * which is `NaN` for text that is not a number.
   */
  datatype StoreValue = Num(n: int) | NaN | Str(text: string)

  /** JavaScript truthiness: `0`, `NaN` and `""` are falsy, so the text `"0"` is truthy. */
  predicate Truthy(v: StoreValue) {
    match v
    case Num(n) => n != 0
    case NaN => false
    case Str(t) => t != ""
  }

  /** `String(v)`: a number in decimal, a text unchanged. A truthy setting is never pushed as `""`. */
  function Shown(v: StoreValue): (r: string)
    ensures Truthy(v) ==> r != ""
    ensures v.Str? ==> r == v.text
    ensures v.Num? && v.n >= 0 ==> AllDigits(r) && ParseNat(r) == v.n
  {
    match v
    case Num(n) => Decimal(n)
    case NaN => "NaN"
    case Str(t) => t
  }

  /** The values read from the settings store. */
  datatype Settings = Settings(
    adbPath: string,
    bitrate: string,
    maxRes: StoreValue,
    maxFps: StoreValue,
    showTouches: bool,
    audioForwarding: bool,
    customArguments: string,
    recordingPath: string,
    screenShotPath: string)

  /** `ADB_PATH`: the configured path, or `adb` when it is empty. */
  function AdbPath(s: Settings): (r: string)
    ensures r != ""
    ensures s.adbPath != "" ==> r == s.adbPath
  {
    if s.adbPath == "" then "adb" else s.adbPath
  }

  // ---------------------------------------------------------------- file names

  /** `iso.replace(/[:.]/g, "-")`. */
  function Dashes(iso: string): (r: string)
    ensures |r| == |iso|
    ensures forall i :: 0 <= i < |iso| ==> r[i] == (if iso[i] == ':' || iso[i] == '.' then '-' else iso[i])
  {
    if iso == [] then []
    else [if iso[0] == ':' || iso[0] == '.' then '-' else iso[0]] + Dashes(iso[1..])
  }

  /** The timestamp part of a file name never holds `:` or `.`. */
  lemma DashesClean(iso: string)
    ensures ':' !in Dashes(iso) && '.' !in Dashes(iso)
  {
    var r := Dashes(iso);
    forall i | 0 <= i < |r| ensures r[i] != ':' && r[i] != '.' {
    }
  }

  /** Replacing twice changes nothing more. */
  lemma DashesIdempotent(iso: string)
    ensures Dashes(Dashes(iso)) == Dashes(iso)
  {
  }

  const RecordPrefix := "screen-record-"
  const ShotPrefix := "screenshot-"

  /** `screen-record-<serial>-<timestamp>.mkv`. */
  function RecordFilename(serial: string, iso: string): (r: string)
    ensures |r| == |RecordPrefix| + |serial| + 1 + |iso| + 4
    ensures r[..|RecordPrefix|] == RecordPrefix && r[|r| - 4..] == ".mkv"
  {
    RecordPrefix + serial + "-" + Dashes(iso) + ".mkv"
  }

  /** `screenshot-<serial>-<timestamp>.png`. */
  function ShotFilename(serial: string, iso: string): (r: string)
    ensures |r| == |ShotPrefix| + |serial| + 1 + |iso| + 4
    ensures r[..|ShotPrefix|] == ShotPrefix && r[|r| - 4..] == ".png"
  {
    ShotPrefix + serial + "-" + Dashes(iso) + ".png"
  }

  /**
   * A recording's name is the prefix, the serial, `-`, the dashed timestamp and `.mkv`, and
   * each part can be read back at its offset, for every serial.
   */
  lemma RecordFilenameParts(serial: string, iso: string)
    ensures var f := RecordFilename(serial, iso);
      && f[..|RecordPrefix|] == RecordPrefix
      && f[|RecordPrefix|..|RecordPrefix| + |serial|] == serial
      && f[|f| - 4..] == ".mkv"
      && f[|RecordPrefix| + |serial| + 1..|f| - 4] == Dashes(iso)
  {
    var f := RecordFilename(serial, iso);
    var head := RecordPrefix + serial + "-" + Dashes(iso);
    assert f == head + ".mkv";
    assert f[..|f| - 4] == head;
    assert head[|RecordPrefix| + |serial| + 1..] == Dashes(iso);
  }

  /** A screenshot's name is the prefix, the serial, `-`, the dashed timestamp and `.png`. */
  lemma ShotFilenameParts(serial: string, iso: string)
    ensures var f := ShotFilename(serial, iso);
      && f[..|ShotPrefix|] == ShotPrefix
      && f[|ShotPrefix|..|ShotPrefix| + |serial|] == serial
      && f[|ShotPrefix| + |serial|] == '-'
      && f[|f| - 4..] == ".png"
      && f[|ShotPrefix| + |serial| + 1..|f| - 4] == Dashes(iso)
  {
    var f := ShotFilename(serial, iso);
    var head := ShotPrefix + serial + "-" + Dashes(iso);
    assert f == head + ".png";
    assert f[..|f| - 4] == head;
    assert head[|ShotPrefix| + |serial| + 1..] == Dashes(iso);
  }

  /** For a serial without `.` (a USB serial), the only `.` in a recording's name is the extension's. */
  lemma RecordFilenameOneDot(serial: string, iso: string)
    requires '.' !in serial
    ensures var f := RecordFilename(serial, iso); '.' !in f[..|f| - 4]
  {
    DashesClean(iso);
    var f := RecordFilename(serial, iso);
    var head := RecordPrefix + serial + "-" + Dashes(iso);
    assert f == head + ".mkv";
    assert f[..|f| - 4] == head;
    assert '.' !in RecordPrefix by {
      forall i | 0 <= i < |RecordPrefix| ensures RecordPrefix[i] != '.' {
      }
    }
    AbsentFromConcat('.', RecordPrefix, serial, "-", Dashes(iso));
  }

  /** An element in none of four sequences is not in their concatenation. */
  lemma AbsentFromConcat<T>(x: T, a: seq<T>, b: seq<T>, c: seq<T>, d: seq<T>)
    requires x !in a && x !in b && x !in c && x !in d
    ensures x !in a + b + c + d
  {
  }

  /** Two recordings of one device started at different instants get different names. */
  lemma RecordFilenamesDiffer(serial: string, iso1: string, iso2: string)
    requires Dashes(iso1) != Dashes(iso2)
    ensures RecordFilename(serial, iso1) != RecordFilename(serial, iso2)
  {
    RecordFilenameParts(serial, iso1);
    RecordFilenameParts(serial, iso2);
  }

  // ---------------------------------------------------------------- the scrcpy argument list

  function When(c: bool, xs: seq<string>): seq<string> {
    if c then xs else []
  }

  /** Exactly one audio form. */
  function AudioFlags(s: Settings): seq<string> {
    if s.audioForwarding then ["--audio", "--audio-codec", "aac"] else ["--no-audio"]
  }

  /** `customArguments.split(" ")`, when the setting is not empty. */
  function CustomArgs(s: Settings): seq<string> {
    if s.customArguments != "" then SplitOn(s.customArguments, ' ') else []
  }

  /**
   * The argument list `startScreenRecord` hands to scrcpy: the device and the output file, the
   * four optional flags, each only when its setting is truthy and in this order, the audio form,
   * and the custom arguments.
   */
  function RecordArgs(serial: string, outputPath: string, s: Settings): (r: seq<string>)
    ensures |r| >= 5 && r[..4] == ["-s", serial, "--record", outputPath]
  {
    ["-s", serial, "--record", outputPath] +
    When(s.bitrate != "", ["-b", s.bitrate]) +
    When(Truthy(s.maxRes), ["-m", Shown(s.maxRes)]) +
    When(Truthy(s.maxFps), ["--max-fps", Shown(s.maxFps)]) +
    When(s.showTouches, ["-t"]) +
    AudioFlags(s) +
    CustomArgs(s)
  }

  /** A push guarded by `c` appends `xs` when `c` holds and nothing otherwise. */
  lemma PushWhen(before: seq<string>, after: seq<string>, c: bool, xs: seq<string>)
    requires after == if c then before + xs else before
    ensures after == before + When(c, xs)
  {
  }

  /** The list built push by push, as the source builds it. */
  method BuildRecordArgs(serial: string, outputPath: string, s: Settings) returns (args: seq<string>)
    ensures args == RecordArgs(serial, outputPath, s)
  {
    args := ["-s", serial, "--record", outputPath];
    args := PushVideoFlags(args, s);
    ghost var prev := args;
    if s.audioForwarding {
      args := args + ["--audio"];
      if s.audioForwarding {
        args := args + ["--audio-codec", "aac"];
      }
    } else {
      args := args + ["--no-audio"];
    }
    assert args == prev + AudioFlags(s);
    prev := args;
    if s.customArguments != "" {
      args := args + SplitOn(s.customArguments, ' ');
    }
    PushWhen(prev, args, s.customArguments != "", SplitOn(s.customArguments, ' '));
  }

  /** The four optional pushes, each only when its setting is truthy, in the source's order. */
  method PushVideoFlags(start: seq<string>, s: Settings) returns (args: seq<string>)
    ensures args == start + When(s.bitrate != "", ["-b", s.bitrate])
      + When(Truthy(s.maxRes), ["-m", Shown(s.maxRes)])
      + When(Truthy(s.maxFps), ["--max-fps", Shown(s.maxFps)])
      + When(s.showTouches, ["-t"])
  {
    args := start;
    if s.bitrate != "" {
      args := args + ["-b", s.bitrate];
    }
    PushWhen(start, args, s.bitrate != "", ["-b", s.bitrate]);
    ghost var prev := args;
    if Truthy(s.maxRes) {
      args := args + ["-m", Shown(s.maxRes)];
    }
    PushWhen(prev, args, Truthy(s.maxRes), ["-m", Shown(s.maxRes)]);
    prev := args;
    if Truthy(s.maxFps) {
      args := args + ["--max-fps", Shown(s.maxFps)];
    }
    PushWhen(prev, args, Truthy(s.maxFps), ["--max-fps", Shown(s.maxFps)]);
    prev := args;
    if s.showTouches {
      args := args + ["-t"];
    }
    PushWhen(prev, args, s.showTouches, ["-t"]);
  }

  /** What an argument list says, read back in the order scrcpy's options were written. */
  datatype ArgsView = ArgsView(
    serial: string, outputPath: string,
    bitrate: Option<string>, maxRes: Option<string>, maxFps: Option<string>,
    touches: bool, audio: bool, custom: seq<string>)

  /** `flag value` at the head of `xs`, if that is what is there. */
  function TakeValued(xs: seq<string>, flag: string): (r: (Option<string>, seq<string>))
    ensures |r.1| <= |xs|
  {
    if |xs| >= 2 && xs[0] == flag then (Some(xs[1]), xs[2..]) else (None, xs)
  }

  /** Reads the options after the device and the output file, in the order they are written. */
  function ReadOptions(serial: string, outputPath: string, rest: seq<string>): Option<ArgsView> {
    var (b, r1) := TakeValued(rest, "-b");
    var (m, r2) := TakeValued(r1, "-m");
    var (f, r3) := TakeValued(r2, "--max-fps");
    ReadSwitches(serial, outputPath, b, m, f, r3)
  }

  /** The touch flag, the audio form and the custom arguments. */
  function ReadSwitches(serial: string, outputPath: string, b: Option<string>, m: Option<string>,
                        f: Option<string>, r3: seq<string>): Option<ArgsView> {
    var t := r3 != [] && r3[0] == "-t";
    var r4 := if t then r3[1..] else r3;
    if |r4| >= 3 && r4[..3] == ["--audio", "--audio-codec", "aac"] then
      Some(ArgsView(serial, outputPath, b, m, f, t, true, r4[3..]))
    else if r4 != [] && r4[0] == "--no-audio" then
      Some(ArgsView(serial, outputPath, b, m, f, t, false, r4[1..]))
    else None
  }

  lemma ReadSwitchesOf(serial: string, outputPath: string, b: Option<string>, m: Option<string>,
                       f: Option<string>, s: Settings)
    ensures ReadSwitches(serial, outputPath, b, m, f, When(s.showTouches, ["-t"]) + (AudioFlags(s) + CustomArgs(s))) ==
      Some(ArgsView(serial, outputPath, b, m, f, s.showTouches, s.audioForwarding, CustomArgs(s)))
  {
    ReadAudio(s);
    ReadTouch(s.showTouches, AudioFlags(s) + CustomArgs(s));
  }

  /** The touch flag is present exactly when it was written, and what follows it is untouched. */
  lemma ReadTouch(c: bool, tail: seq<string>)
    requires tail != [] && tail[0] != "-t"
    ensures var r3 := When(c, ["-t"]) + tail;
      && (r3 != [] && r3[0] == "-t") == c
      && (if c then r3[1..] else r3) == tail
  {
    var r3 := When(c, ["-t"]) + tail;
    if c {
      assert r3[1..] == tail;
    }
  }

  /** The audio form is read back as written, and the custom arguments follow it. */
  lemma ReadAudio(s: Settings)
    ensures var tail := AudioFlags(s) + CustomArgs(s);
      && tail != [] && tail[0] != "-t"
      && (|tail| >= 3 && tail[..3] == ["--audio", "--audio-codec", "aac"]) == s.audioForwarding
      && (s.audioForwarding ==> tail[3..] == CustomArgs(s))
      && (!s.audioForwarding ==> tail[0] == "--no-audio" && tail[1..] == CustomArgs(s))
  {
    var tail := AudioFlags(s) + CustomArgs(s);
    if s.audioForwarding {
      assert tail[..3] == ["--audio", "--audio-codec", "aac"] && tail[3..] == CustomArgs(s);
    } else {
      assert tail[0] == "--no-audio" && tail[1..] == CustomArgs(s);
    }
  }

  /** Reads an argument list of the recording shape back into its parts. */
  function ReadRecordArgs(args: seq<string>): Option<ArgsView> {
    if |args| < 4 || args[0] != "-s" || args[2] != "--record" then None
    else ReadOptions(args[1], args[3], args[4..])
  }

  /** The view a recording's settings are meant to produce. */
  function Intended(serial: string, outputPath: string, s: Settings): ArgsView {
    ArgsView(
      serial, outputPath,
      if s.bitrate != "" then Some(s.bitrate) else None,
      if Truthy(s.maxRes) then Some(Shown(s.maxRes)) else None,
      if Truthy(s.maxFps) then Some(Shown(s.maxFps)) else None,
      s.showTouches, s.audioForwarding, CustomArgs(s))
  }

  /** An optional `flag value` pair is read back exactly when it was written. */
  lemma TakeWhen(c: bool, flag: string, v: string, rest: seq<string>)
    requires rest != [] && rest[0] != flag
    ensures TakeValued(When(c, [flag, v]) + rest, flag) == (if c then Some(v) else None, rest)
  {
    if c {
      assert ([flag, v] + rest)[2..] == rest;
    } else {
      assert [] + rest == rest;
    }
  }

  lemma Reassoc<T>(a: seq<T>, b: seq<T>, c: seq<T>, d: seq<T>, e: seq<T>, f: seq<T>, g: seq<T>)
    ensures a + b + c + d + e + f + g == a + (b + (c + (d + (e + (f + g)))))
  {
    calc {
      a + b + c + d + e + f + g;
      == { assert a + b + c + d + e + f + g == (a + b + c + d + e) + (f + g); }
      (a + b + c + d + e) + (f + g);
      == { assert (a + b + c + d + e) + (f + g) == (a + b + c + d) + (e + (f + g)); }
      (a + b + c + d) + (e + (f + g));
      == { assert (a + b + c + d) + (e + (f + g)) == (a + b + c) + (d + (e + (f + g))); }
      (a + b + c) + (d + (e + (f + g)));
      == { assert (a + b + c) + (d + (e + (f + g))) == (a + b) + (c + (d + (e + (f + g)))); }
      (a + b) + (c + (d + (e + (f + g))));
    }
  }

  /** The options part of a recording's argument list reads back as its settings. */
  lemma ReadOptionsOf(serial: string, outputPath: string, s: Settings)
    ensures var t3 := When(s.showTouches, ["-t"]) + (AudioFlags(s) + CustomArgs(s));
      var t2 := When(Truthy(s.maxFps), ["--max-fps", Shown(s.maxFps)]) + t3;
      var t1 := When(Truthy(s.maxRes), ["-m", Shown(s.maxRes)]) + t2;
      ReadOptions(serial, outputPath, When(s.bitrate != "", ["-b", s.bitrate]) + t1) ==
        Some(Intended(serial, outputPath, s))
  {
    var tail := AudioFlags(s) + CustomArgs(s);
    assert tail != [] && (tail[0] == "--audio" || tail[0] == "--no-audio");
    var t3 := When(s.showTouches, ["-t"]) + tail;
    assert t3 != [] && t3[0] in {"-t", "--audio", "--no-audio"};
    var t2 := When(Truthy(s.maxFps), ["--max-fps", Shown(s.maxFps)]) + t3;
    var t1 := When(Truthy(s.maxRes), ["-m", Shown(s.maxRes)]) + t2;
    TakeWhen(Truthy(s.maxFps), "--max-fps", Shown(s.maxFps), t3);
    assert t2 != [] && t2[0] != "-m" && t2[0] != "-b";
    TakeWhen(Truthy(s.maxRes), "-m", Shown(s.maxRes), t2);
    assert t1 != [] && t1[0] != "-b";
    TakeWhen(s.bitrate != "", "-b", s.bitrate, t1);
    var v := Intended(serial, outputPath, s);
    ReadSwitchesOf(serial, outputPath, v.bitrate, v.maxRes, v.maxFps, s);
  }

  /**
   * The argument list determines the settings it was built from: each optional flag is read
   * back exactly when its setting was truthy, with its value, and so are the audio form and the
   * custom arguments. In particular exactly one of the two audio forms is present.
   */
  lemma RecordArgsRoundTrip(serial: string, outputPath: string, s: Settings)
    ensures ReadRecordArgs(RecordArgs(serial, outputPath, s)) == Some(Intended(serial, outputPath, s))
  {
    var base := ["-s", serial, "--record", outputPath];
    var b := When(s.bitrate != "", ["-b", s.bitrate]);
    var m := When(Truthy(s.maxRes), ["-m", Shown(s.maxRes)]);
    var f := When(Truthy(s.maxFps), ["--max-fps", Shown(s.maxFps)]);
    var t := When(s.showTouches, ["-t"]);
    Reassoc(base, b, m, f, t, AudioFlags(s), CustomArgs(s));
    var rest := b + (m + (f + (t + (AudioFlags(s) + CustomArgs(s)))));
    var args := RecordArgs(serial, outputPath, s);
    assert args == base + rest;
    assert args[4..] == rest;
    ReadOptionsOf(serial, outputPath, s);
  }

  /** A text `maxRes` of `"0"` is truthy and is passed on as `-m 0`; the number 0 is not passed. */
  lemma MaxResZero(serial: string, outputPath: string, s: Settings)
    ensures var read := ReadRecordArgs(RecordArgs(serial, outputPath, s));
      && read.Some?
      && (s.maxRes == Str("0") ==> read.value.maxRes == Some("0"))
      && (s.maxRes == Num(0) ==> read.value.maxRes == None)
  {
    RecordArgsRoundTrip(serial, outputPath, s);
  }

  // ---------------------------------------------------------------- start and stop recording

  datatype RecordResult =
    | Recording(filename: string, message: string)
    | RecordFailed(error: string)

  const StartedMessage := "Recording started using scrcpy. File will be automatically saved and optimized when recording stops."

  function AlreadyRecording(serial: string): string {
    "Recording already in progress for device " + serial
  }

  function NoRecording(serial: string): string {
    "No active recording found for device " + serial
  }

  /**
   * `startScreenRecord(serial)` over `activeRecordings`. `iso` is the clock's ISO timestamp;
   * `mkdirError` is what creating the missing save directory throws, and `spawnError` what
   * spawning scrcpy throws, if they throw.
   */
  method StartScreenRecord(recordings: ProcessRegistry, serial: string, iso: string, s: Settings,
                           mkdirError: Option<string>, spawnError: Option<string>)
    returns (r: RecordResult)
    requires recordings.Valid()
    modifies recordings
    ensures recordings.Valid()
    ensures old(recordings.Tracked()) ==> recordings.Tracked()
    ensures serial in old(recordings.entries) ==>
      r == RecordFailed(AlreadyRecording(serial)) && unchanged(recordings)
    ensures serial !in old(recordings.entries) && mkdirError.Some? ==>
      r == RecordFailed(mkdirError.value) && unchanged(recordings)
    ensures serial !in old(recordings.entries) && mkdirError.None? && spawnError.Some? ==>
      r == RecordFailed(spawnError.value) && unchanged(recordings)
    ensures serial !in old(recordings.entries) && mkdirError.None? && spawnError.None? ==>
      var filename := RecordFilename(serial, iso);
      && r == Recording(filename, StartedMessage)
      && recordings.launches == old(recordings.launches) +
           [Launch(serial, "scrcpy", RecordArgs(serial, s.recordingPath + "/" + filename, s))]
      && recordings.entries == old(recordings.entries)[serial := |old(recordings.launches)|]
      && recordings.kills == old(recordings.kills) && recordings.exited == old(recordings.exited)
  {
    if serial in recordings.entries {
      return RecordFailed(AlreadyRecording(serial));
    }
    var filename := RecordFilename(serial, iso);
    var savePath := s.recordingPath;
    if mkdirError.Some? {
      return RecordFailed(mkdirError.value);
    }
    var outputPath := savePath + "/" + filename;
    var args := BuildRecordArgs(serial, outputPath, s);
    var started := recordings.Start(serial, "scrcpy", args, spawnError);
    if started.SpawnFailed? {
      return RecordFailed(started.message);
    }
    r := Recording(filename, StartedMessage);
  }

  datatype StopResult = StopResult(success: bool, error: Option<string>)

  /** `stopScreenRecord(serial)`: kill and forget the recording, or report that there is none. */
  method StopScreenRecord(recordings: ProcessRegistry, serial: string) returns (r: StopResult)
    requires recordings.Valid()
    modifies recordings
    ensures recordings.Valid()
    ensures old(recordings.Tracked()) ==> recordings.Tracked()
    ensures serial !in old(recordings.entries) ==>
      r == StopResult(false, Some(NoRecording(serial))) && unchanged(recordings)
    ensures serial in old(recordings.entries) ==>
      && r == StopResult(true, None)
      && recordings.kills == old(recordings.kills) + [old(recordings.entries)[serial]]
      && recordings.entries == old(recordings.entries) - {serial}
    ensures recordings.launches == old(recordings.launches) && recordings.exited == old(recordings.exited)
    ensures !recordings.IsActive(serial)
  {
    var found := recordings.Stop(serial);
    if !found {
      return StopResult(false, Some(NoRecording(serial)));
    }
    r := StopResult(true, None);
  }

  /** Start, start again, stop, stop again, then the recorder's own late exit. */
  method RecordingLifecycle(serial: string, iso: string, s: Settings)
    returns (first: RecordResult, second: RecordResult, stopped: StopResult, again: StopResult,
             activeAfterExit: bool)
    ensures first == Recording(RecordFilename(serial, iso), StartedMessage)
    ensures second == RecordFailed(AlreadyRecording(serial))
    ensures stopped.success && again == StopResult(false, Some(NoRecording(serial)))
    ensures !activeAfterExit
  {
    var recordings := new ProcessRegistry();
    first := StartScreenRecord(recordings, serial, iso, s, None, None);
    second := StartScreenRecord(recordings, serial, iso, s, None, None);
    stopped := StopScreenRecord(recordings, serial);
    again := StopScreenRecord(recordings, serial);
    recordings.Exit(0);
    activeAfterExit := recordings.IsActive(serial);
  }

  // ---------------------------------------------------------------- screenshot

  /** One external step of `takeScreenShot`. */
  datatype Step =
    | Adb(program: string, args: seq<string>)
    | EnsureDir(path: string)

  /** The four steps in the order the source awaits them. */
  function ShotPlan(serial: string, filename: string, s: Settings): (r: seq<Step>)
    ensures |r| == 4
  {
    var remote := "/sdcard/" + filename;
    [ Adb(AdbPath(s), ["-s", serial, "shell", "screencap", remote]),
      EnsureDir(s.screenShotPath),
      Adb(AdbPath(s), ["-s", serial, "pull", remote, s.screenShotPath + "/" + filename]),
      Adb(AdbPath(s), ["-s", serial, "shell", "rm", remote]) ]
  }

  datatype ShotResult =
    | Shot(filename: string, path: string)
    | ShotFailed(error: string)

  /** The number of leading steps that succeed. */
  function Succeeded(errors: seq<Option<string>>): (n: nat)
    ensures n <= |errors|
    ensures forall i :: 0 <= i < n ==> errors[i].None?
    ensures n < |errors| ==> errors[n].Some?
  {
    if errors == [] || errors[0].Some? then 0 else 1 + Succeeded(errors[1..])
  }

  /**
   * `takeScreenShot(serial)`: the steps are awaited one after another; the first one that throws
   * ends the call with its message. `ran` is the list of steps started.
   */
  method TakeScreenShot(serial: string, iso: string, s: Settings,
                        screencapError: Option<string>, mkdirError: Option<string>,
                        pullError: Option<string>, rmError: Option<string>)
    returns (r: ShotResult, ran: seq<Step>)
    ensures var errors := [screencapError, mkdirError, pullError, rmError];
      var plan := ShotPlan(serial, ShotFilename(serial, iso), s);
      var n := Succeeded(errors);
      && (r.Shot? <==> n == 4)
      && (r.Shot? ==> ran == plan)
      && (r.ShotFailed? ==> ran == plan[..n + 1] && errors[n] == Some(r.error))
    ensures r.Shot? ==>
      r.filename == ShotFilename(serial, iso) && r.path == s.screenShotPath + "/" + r.filename
  {
    var filename := ShotFilename(serial, iso);
    var plan := ShotPlan(serial, filename, s);
    ghost var errors := [screencapError, mkdirError, pullError, rmError];
    assert errors[1..] == [mkdirError, pullError, rmError];
    assert errors[1..][1..] == [pullError, rmError];
    assert errors[1..][1..][1..] == [rmError];
    assert [rmError][1..] == [];
    assert Succeeded([rmError]) == if rmError.Some? then 0 else 1;
    assert Succeeded([pullError, rmError]) == if pullError.Some? then 0 else 1 + Succeeded([rmError]);
    assert Succeeded([mkdirError, pullError, rmError]) ==
      if mkdirError.Some? then 0 else 1 + Succeeded([pullError, rmError]);
    assert Succeeded(errors) ==
      if screencapError.Some? then 0 else if mkdirError.Some? then 1
      else if pullError.Some? then 2 else if rmError.Some? then 3 else 4;
    ran := [plan[0]];
    if screencapError.Some? {
      return ShotFailed(screencapError.value), ran;
    }
    var savePath := s.screenShotPath;
    ran := ran + [plan[1]];
    if mkdirError.Some? {
      return ShotFailed(mkdirError.value), ran;
    }
    ran := ran + [plan[2]];
    if pullError.Some? {
      return ShotFailed(pullError.value), ran;
    }
    ran := ran + [plan[3]];
    if rmError.Some? {
      return ShotFailed(rmError.value), ran;
    }
    r := Shot(filename, savePath + "/" + filename);
  }

  /** The pulled file is the one the capture wrote, and is removed from the device afterwards. */
  lemma ShotPlanSameFile(serial: string, filename: string, s: Settings)
    ensures var plan := ShotPlan(serial, filename, s);
      && plan[0].Adb? && plan[2].Adb? && plan[3].Adb?
      && plan[0].args[4] == plan[2].args[3] == plan[3].args[4] == "/sdcard/" + filename
      && plan[2].args[4] == s.screenShotPath + "/" + filename
  {
  }

  // ---------------------------------------------------------------- media listings

  /** A file of a media directory with its modification time in milliseconds. */
  datatype MediaFile = MediaFile(name: string, path: string, time: int)

  ghost predicate NewestFirst(s: seq<MediaFile>) {
    forall i, j :: 0 <= i < j < |s| ==> s[i].time >= s[j].time
  }

  /** Put `f` before the first file that is not newer than it. */
  function Insert(f: MediaFile, s: seq<MediaFile>): (r: seq<MediaFile>)
    ensures |r| == |s| + 1
    ensures r[0] == if s == [] || f.time >= s[0].time then f else s[0]
    ensures multiset(r) == multiset(s) + multiset{f}
  {
    if s == [] || f.time >= s[0].time then [f] + s
    else
      assert s == [s[0]] + s[1..];
      [s[0]] + Insert(f, s[1..])
  }

  lemma {:induction false} InsertNewestFirst(f: MediaFile, s: seq<MediaFile>)
    requires NewestFirst(s)
    ensures NewestFirst(Insert(f, s))
  {
    if s != [] && f.time < s[0].time {
      var rest := Insert(f, s[1..]);
      InsertNewestFirst(f, s[1..]);
      var r := [s[0]] + rest;
      assert rest[0].time <= s[0].time;
      forall i, j | 0 <= i < j < |r| ensures r[i].time >= r[j].time {
        if i == 0 {
          assert r[j] == rest[j - 1];
          assert rest[0].time >= rest[j - 1].time || j - 1 == 0;
        } else {
          assert r[i] == rest[i - 1] && r[j] == rest[j - 1];
        }
      }
    }
  }

  /** `.sort((a, b) => b.time - a.time)`: a stable sort, newest first. */
  function SortNewestFirst(s: seq<MediaFile>): (r: seq<MediaFile>)
    ensures multiset(r) == multiset(s)
  {
    if s == [] then []
    else
      assert s == [s[0]] + s[1..];
      Insert(s[0], SortNewestFirst(s[1..]))
  }

  lemma {:induction false} SortedNewestFirst(s: seq<MediaFile>)
    ensures NewestFirst(SortNewestFirst(s))
  {
    if s != [] {
      SortedNewestFirst(s[1..]);
      InsertNewestFirst(s[0], SortNewestFirst(s[1..]));
    }
  }

  /** The files of `s` with modification time `t`, in order. */
  function WithTime(s: seq<MediaFile>, t: int): seq<MediaFile> {
    if s == [] then [] else (if s[0].time == t then [s[0]] else []) + WithTime(s[1..], t)
  }

  lemma {:induction false} InsertWithTime(f: MediaFile, s: seq<MediaFile>, t: int)
    ensures WithTime(Insert(f, s), t) == (if f.time == t then [f] else []) + WithTime(s, t)
  {
    var g := if f.time == t then [f] else [];
    if s == [] || f.time >= s[0].time {
      assert Insert(f, s) == [f] + s;
      assert ([f] + s)[0] == f && ([f] + s)[1..] == s;
      assert WithTime([f] + s, t) == g + WithTime(s, t);
    } else {
      var rest := Insert(f, s[1..]);
      assert Insert(f, s) == [s[0]] + rest;
      assert ([s[0]] + rest)[0] == s[0] && ([s[0]] + rest)[1..] == rest;
      InsertWithTime(f, s[1..], t);
      var h := if s[0].time == t then [s[0]] else [];
      var w := WithTime(s[1..], t);
      assert WithTime(Insert(f, s), t) == h + (g + w);
      assert WithTime(s, t) == h + w;
      if f.time == t {
        assert h == [] && h + (g + w) == g + w && h + w == w;
      } else {
        assert g == [] && h + (g + w) == h + w && g + (h + w) == h + w;
      }
    }
  }

  /** The sort is stable: files with the same time keep the order of the directory listing. */
  lemma {:induction false} SortStable(s: seq<MediaFile>, t: int)
    ensures WithTime(SortNewestFirst(s), t) == WithTime(s, t)
  {
    if s != [] {
      SortStable(s[1..], t);
      SortedNewestFirst(s[1..]);
      InsertWithTime(s[0], SortNewestFirst(s[1..]), t);
    }
  }

  /** `Array.prototype.slice(start, end)`: negative bounds count from the end, all bounds clamp. */
  function RelIndex(k: int, len: nat): (r: nat)
    ensures r <= len
    ensures 0 <= k <= len ==> r == k
  {
    if k < 0 then (if len + k < 0 then 0 else len + k) else if k > len then len else k
  }

  function Slice<T>(s: seq<T>, start: int, end: int): (r: seq<T>)
    ensures var a := RelIndex(start, |s|); var b := RelIndex(end, |s|);
      r == if a < b then s[a..b] else []
  {
    var a := RelIndex(start, |s|);
    var b := RelIndex(end, |s|);
    if a < b then s[a..b] else []
  }

  datatype Page = Page(files: seq<MediaFile>, total: nat, hasMore: bool)

  /** `sorted.slice((page - 1) * limit, page * limit)`. */
  function PageOf<T>(sorted: seq<T>, page: int, limit: int): (r: seq<T>)
    ensures page == 0 ==> r == []
  {
    Slice(sorted, (page - 1) * limit, page * limit)
  }

  /** `listRecordings(page, limit)` and `listScreenShots(page, limit)` on one directory listing. */
  function ListPage(listing: seq<MediaFile>, page: int, limit: int): (r: Page)
    ensures r.total == |listing|
    ensures r.hasMore <==> page * limit < |listing|
  {
    Page(PageOf(SortNewestFirst(listing), page, limit), |listing|, page * limit < |listing|)
  }

  /** The first index past a page and the first index of the page. */
  lemma PageOffsets(page: int, limit: int)
    ensures page * limit == (page - 1) * limit + limit
    ensures page >= 1 && limit >= 0 ==> (page - 1) * limit >= 0
    ensures page <= 0 && limit >= 0 ==> page * limit <= 0
  {
  }

  /** A slice is a run of its sequence. */
  lemma SliceRun<T>(s: seq<T>, start: int, end: int)
    ensures var a := RelIndex(start, |s|); var b := RelIndex(end, |s|);
      a < b ==> s == s[..a] + Slice(s, start, end) + s[b..]
  {
    var a := RelIndex(start, |s|);
    var b := RelIndex(end, |s|);
    if a < b {
      assert s == s[..a] + s[a..b] + s[b..];
    }
  }

  /** A run of a newest-first sequence is newest first. */
  lemma RunNewestFirst(s: seq<MediaFile>, a: nat, b: nat)
    requires a <= b <= |s| && NewestFirst(s)
    ensures NewestFirst(s[a..b])
  {
    var r := s[a..b];
    forall i, j | 0 <= i < j < |r| ensures r[i].time >= r[j].time {
      assert r[i] == s[a + i] && r[j] == s[a + j];
    }
  }

  /** A page is a run of the sorted listing: newest first, and drawn from the listing. */
  lemma PageFromListing(listing: seq<MediaFile>, page: int, limit: int)
    ensures var files := ListPage(listing, page, limit).files;
      NewestFirst(files) && multiset(files) <= multiset(listing)
  {
    var sorted := SortNewestFirst(listing);
    SortedNewestFirst(listing);
    var start := (page - 1) * limit;
    var end := page * limit;
    var files := Slice(sorted, start, end);
    assert ListPage(listing, page, limit).files == files;
    var a := RelIndex(start, |sorted|);
    var b := RelIndex(end, |sorted|);
    if a < b {
      SliceRun(sorted, start, end);
      RunNewestFirst(sorted, a, b);
      assert multiset(sorted) == multiset(sorted[..a]) + multiset(files) + multiset(sorted[b..]);
    }
  }

  /** A slice whose two bounds are `limit` apart holds at most `limit` elements. */
  lemma SliceBound<T>(s: seq<T>, start: int, limit: nat)
    requires start >= 0 || start + limit <= 0
    ensures |Slice(s, start, start + limit)| <= limit
  {
  }

  lemma PageOfBound<T>(sorted: seq<T>, page: int, limit: nat)
    ensures |PageOf(sorted, page, limit)| <= limit
  {
    PageOffsets(page, limit);
    SliceBound(sorted, (page - 1) * limit, limit);
  }

  /** A page holds at most `limit` files, whatever the page number. */
  lemma PageBound(listing: seq<MediaFile>, page: int, limit: nat)
    ensures |ListPage(listing, page, limit).files| <= limit
  {
    PageOfBound(SortNewestFirst(listing), page, limit);
  }

  /** The elements from index `start` up to, not including, index `end`, as far as there are any. */
  function Window<T>(s: seq<T>, start: int, end: int): seq<T> {
    if start < 0 || start >= |s| || end <= start then [] else s[start..if end < |s| then end else |s|]
  }

  lemma SliceWindow<T>(s: seq<T>, start: nat, limit: nat)
    ensures Slice(s, start, start + limit) == Window(s, start, start + limit)
  {
  }

  lemma PageOfWindow<T>(sorted: seq<T>, page: int, limit: nat)
    requires page >= 1
    ensures PageOf(sorted, page, limit) == Window(sorted, (page - 1) * limit, page * limit)
  {
    PageOffsets(page, limit);
    SliceWindow(sorted, (page - 1) * limit, limit);
  }

  /** For page numbers from 1, page `p` is the `p`-th run of `limit` files of the sorted listing. */
  lemma PageWindow(listing: seq<MediaFile>, page: int, limit: nat)
    requires page >= 1
    ensures ListPage(listing, page, limit).files ==
      Window(SortNewestFirst(listing), (page - 1) * limit, page * limit)
  {
    PageOfWindow(SortNewestFirst(listing), page, limit);
  }

  /** Two adjacent runs of a sequence make one run. */
  lemma WindowsTile<T>(s: seq<T>, start: int, mid: int, end: int)
    requires 0 <= start <= mid <= end
    ensures Window(s, start, mid) + Window(s, mid, end) == Window(s, start, end)
  {
    if start < |s| && mid < |s| {
      var e := if end < |s| then end else |s|;
      assert s[start..e] == s[start..mid] + s[mid..e];
    }
  }

  lemma PageOfTile<T>(sorted: seq<T>, page: int, limit: nat)
    requires page >= 1
    ensures PageOf(sorted, page, limit) + PageOf(sorted, page + 1, limit) ==
      Window(sorted, (page - 1) * limit, (page + 1) * limit)
  {
    PageOfWindow(sorted, page, limit);
    PageOfWindow(sorted, page + 1, limit);
    PageOffsets(page, limit);
    PageOffsets(page + 1, limit);
    WindowsTile(sorted, (page - 1) * limit, page * limit, (page + 1) * limit);
  }

  /** Consecutive pages continue one another: pages `p` and `p + 1` together are the next `2 * limit` files. */
  lemma PagesTile(listing: seq<MediaFile>, page: int, limit: nat)
    requires page >= 1
    ensures ListPage(listing, page, limit).files + ListPage(listing, page + 1, limit).files ==
      Window(SortNewestFirst(listing), (page - 1) * limit, (page + 1) * limit)
  {
    PageOfTile(SortNewestFirst(listing), page, limit);
  }

  /** Without a next page the current one reaches the end of the listing. */
  lemma LastPage(listing: seq<MediaFile>, page: int, limit: nat)
    requires page >= 1
    requires !ListPage(listing, page, limit).hasMore
    ensures ListPage(listing, page, limit).files ==
      Window(SortNewestFirst(listing), (page - 1) * limit, |listing|)
  {
    var sorted := SortNewestFirst(listing);
    PageWindow(listing, page, limit);
    assert |sorted| == |listing| by {
      assert |sorted| == |multiset(sorted)|;
    }
    WindowClamp(sorted, (page - 1) * limit, page * limit, |listing|);
  }

  /** Past its end, where a run stops does not matter. */
  lemma WindowClamp<T>(s: seq<T>, start: int, end: int, end2: int)
    requires end >= |s| && end2 >= |s|
    ensures Window(s, start, end) == Window(s, start, end2)
  {
  }
}
