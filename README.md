# side-cast main-process core, in Dafny

side-cast is a desktop front end for Android's `adb` and `scrcpy`. Its main process keeps
three dictionaries of external processes keyed by device serial:

- `activeMirrors`, for scrcpy mirror windows;
- `activeRecordings`, for scrcpy screen recordings;
- `logMap`, for `adb logcat` sessions.

It also parses the text that `adb` prints, builds scrcpy's argument list and pages through
the media directories. The renderer buffers logcat output for display. A table turns the error
text of an `adb connect` into a message for the user.

This project models that core and proves what it promises:

| file | module | models |
|---|---|---|
| `wrappers.dfy` | `Wrappers` | `Option` |
| `text.dfy` | `Text` | the JavaScript string operations the code relies on, written by hand: `\s`, `trim`, `split`, `includes`, `/…/i`, `before.*after`, `startsWith`, `String(n)` |
| `window.dfy` | `Window` | keeping the newest `n` elements, shared by the logcat queue (2000) and the renderer window (500) |
| `registry.dfy` | `Registry` | `activeMirrors` and `activeRecordings`, which are driven identically: a class over `map<string, ProcId>` with start, stop and exit events |
| `adb.dfy` | `Adb` | `listDevices` parsing and the USB / TCP-IP classifier, battery and screen parsing, `getDeviceDetails`, `getConnectionState`, `getAdbServerState`, `mirrorDevice`, `stopMirroring` |
| `screen.dfy` | `ScreenUtils` | `startScreenRecord`, `stopScreenRecord`, file names, the scrcpy argument list, `takeScreenShot` step order, `listRecordings` / `listScreenShots` pagination |
| `logcat.dfy` | `LogCat` | `logCatProcess`, `stopLogcat`, `stopAllLogcats`: a class holding `logMap`, the per-session queues and the callback notices |
| `errors.dfy` | `TcpIpErrors` | the `tcpIpErrors` table and `getTcpIpErrorMessage` |
| `devicelog.dfy` | `DeviceLog` | the `DeviceLog` component's buffer, flush, end marker and clean-up |

Processes are not run. A spawned process is a `ProcId`, its index in a launch log. Kill
signals are a log of `ProcId`s. Exits and errors are methods that the environment calls,
each at most once per process. Everything the code reads from outside is a parameter:

- command output;
- a thrown exception, modelled as `Option<string>`;
- the settings store, modelled as a `Settings` value;
- the clock, modelled as an ISO timestamp string;
- a directory listing, modelled as a sequence of name and mtime.

Timer ticks are explicit method calls.

## Model

| member | source | states |
|---|---|---|
| Registry.ProcessRegistry.constructor | electron/adb.ts:26 | The dictionary starts empty, with nothing launched, killed or exited. |
| Registry.ProcessRegistry.IsActive | electron/adb.ts:129-131 | A serial reads as active only when its entry names a process that was started for that serial and has neither exited nor been signalled. |
| Registry.ProcessRegistry.Start | electron/adb.ts:80-94 | If the serial is taken: `AlreadyRunning` and nothing changes. If the spawn throws: the error and nothing changes. Otherwise exactly one launch is logged and exactly that serial is mapped to it. The registry invariant is preserved. |
| Registry.ProcessRegistry.Stop | electron/adb.ts:114-122 | If the serial is present: kill its process and delete its key. If absent: nothing changes. Either way the serial is no longer active. |
| Registry.ProcessRegistry.Exit | electron/adb.ts:96-99 | The exit handler as written: it deletes whatever is registered under the exited process's serial, leaves every other serial alone and records the exit. |
| Registry.ProcessRegistry.ExitOf | electron/adb.ts:96-99 | The corrected handler: it deletes the entry only while it still names this process, and keeps every running, unsignalled process registered. |
| Registry.ProcessRegistry.AtMostOneRunning | electron/adb.ts:80-99 | While every running, unsignalled process is registered, two such processes for one serial are the same process. |
| Registry.StaleExitScenario | electron/adb.ts:96-99 | Stop, restart, then the first process's late exit: the second process keeps running but is no longer registered. |
| Registry.GuardedExitScenario | electron/adb.ts:96-99 | The same events with `ExitOf`: the second process stays registered. |
| Adb.LeadingDigits | electron/adb.ts:181-182 | The length of the run of digits at the start of a string: all digits before it, none at it. |
| Adb.Decompose | electron/adb.ts:48 | An input the `^\d{1,3}(\.\d{1,3}){3}:\d+` scanner accepts from index `j` is, after its first `j` characters, `k` groups of one to three digits joined by dots, `:`, a non-empty run of port digits, and the rest of the string. |
| Adb.RenderedMatchesAfter | electron/adb.ts:48 | The converse of `Decompose`: groups of one to three digits joined by dots, then `:`, port digits and anything, match the scanner wherever they start in a string. |
| Adb.DigitsEnd | electron/adb.ts:48 | The end of the run of digits at an index: every character before it is a digit and the character at it is not. |
| Adb.TcpIpShape | electron/adb.ts:48-50 | Four 1–3 digit groups joined by dots, then `:` and digits, then anything, is a TCP/IP serial. This is a prefix match and octets are not range-checked. |
| Adb.TcpIpParts | electron/adb.ts:48-50 | The converse of `TcpIpShape`: every TCP/IP serial is four 1–3 digit groups joined by dots, `:`, a non-empty run of digits, and anything. |
| Adb.TcpIpExample | electron/adb.ts:48-50 | `a.b.c.d:port` with 1–3 digit groups and a digit port classifies as `tcpip`. |
| Adb.UsbExample | electron/adb.ts:48-50 | `ABC123` classifies as `usb`. |
| Adb.GroupsThenPortLength | electron/adb.ts:48 | A match of `k` groups from index `j` takes at least `2k+1` characters after `j` and starts with a digit at `j`. |
| Adb.Classify | electron/adb.ts:48-50 | A `tcpip` serial starts with a digit and is at least `d.d.d.d:d` long. |
| Adb.PropOf | electron/adb.ts:43 | `item.split(":")`: the key holds no `:`, and a token without `:` is a key with no value. |
| Adb.PropsOf | electron/adb.ts:42-45 | One key and value pair per token, in token order. |
| Adb.Lookup | electron/adb.ts:41-46 | A value that is found belongs to some entry with that key. |
| Adb.ModelOr | electron/adb.ts:56 | `props.model || "unknown"`: a non-empty model is kept, and a missing or empty one gives `unknown`. Never empty. |
| Adb.LastWith | electron/adb.ts:41-46 | The last index holding a key, or none when no entry has it. |
| Adb.LookupLast | electron/adb.ts:41-46 | `Object.fromEntries`: the last entry with a key decides its value. |
| Adb.LookupAbsent | electron/adb.ts:41-46 | A key that no token has reads as undefined. |
| Adb.ParseLinesAppend | electron/adb.ts:37-60 | Filtering and mapping distributes over concatenation, so each line yields its devices independently and in order. |
| Adb.ParseOneLine | electron/adb.ts:38 | A blank line yields no device. Any other line yields exactly one device. |
| Adb.ListDevicesDropsHeader | electron/adb.ts:34-38 | The first line of the output is dropped and the rest is parsed line by line. |
| Adb.ParseLines | electron/adb.ts:37-60 | `filter` then `map`: never more devices than lines. |
| Adb.LineDevices | electron/adb.ts:38-60 | A line gives no device exactly when it is blank, and at most one device otherwise. |
| Adb.ParseDeviceLine | electron/adb.ts:40-59 | The serial is the first token: a whitespace-free prefix of the line, followed by whitespace unless it is the whole line. A `tcpip` serial is at least 9 characters long. The model is never empty. |
| Adb.ListDevices | electron/adb.ts:32-67 | A failed command yields the empty list. Otherwise there are fewer devices than output lines, because the header never yields one. |
| Adb.ParseThreeTokens | electron/adb.ts:40-58 | For a line whose whitespace tokens are `serial status model:M`, the record has that serial, that status and model `M` for a non-empty `M`, the transport of the serial, and no product or device. |
| Adb.ParseRenderedLine | electron/adb.ts:40-58 | Serial, status and model tokens rendered with single spaces are read back as they were. |
| Adb.ParsePaddedLine | electron/adb.ts:40-59 | For the padded layout `serial` + whitespace run + `status` + whitespace run + properties, with runs of any length: the serial and status are read back, the transport is the serial's, and model, product and device are looked up among the property tokens. |
| Adb.ParsePaddedNoModel | electron/adb.ts:56 | A padded line with no `model` property gets the model `unknown`. |
| Adb.ParseTwoTokenLine | electron/adb.ts:40-59 | A line of only a serial and a status gives model `unknown` and no product or device. |
| Adb.ParseExampleLine | electron/adb.ts:40-59 | `ABC123 device model:Pixel6` yields serial `ABC123`, status `device`, transport `usb` and model `Pixel6`. |
| Adb.SkipWs | electron/adb.ts:181-182 | `\s*`: the first non-whitespace position at or after `j`. |
| Adb.FirstCaptureFrom | electron/adb.ts:181-182 | The leftmost position where `key\s*\d+` matches. |
| Adb.Capture | electron/adb.ts:181-182 | `s.match(/key\s*(\d+)/)`: none exactly when the pattern does not match anywhere; otherwise the maximal digit run of the leftmost match. |
| Adb.BatteryLevel | electron/adb.ts:181-185 | `Unknown` exactly when there is no `level:` match; otherwise the captured digits followed by `%`. |
| Adb.BatteryStatusNames | electron/adb.ts:182-196 | Codes 2–5 map to Charging, Discharging, Not charging and Full, each if and only if. Code 1, any other code and a missing code read `Unknown`. |
| Adb.StatusNames | electron/adb.ts:188-196 | On the status code itself: `2`–`5` name a state, each if and only if, and every other code reads `Unknown`. |
| Adb.StatusName | electron/adb.ts:196 | The result is `Unknown` or one of the map's names. |
| Adb.BatteryStatus | electron/adb.ts:182-196 | No `status:` match means the code is `"0"`, which reads `Unknown`. |
| Adb.ScreenSize | electron/adb.ts:179 | Output without `:` gives `Unknown`. |
| Adb.ScreenSizeOf | electron/adb.ts:179 | `caption: WxH` gives `WxH`: the trimmed second `:` segment. |
| Adb.GetDeviceDetails | electron/adb.ts:151-211 | The details exist exactly when every shell command succeeds (`Promise.all`). Brand, model, Android version, API level, CPU ABI and uptime are the trimmed outputs. Screen size, battery level and battery status are parsed from the trimmed outputs. The connection is `getConnectionState` of the serial. |
| Adb.FirstLineWith | electron/adb.ts:229 | `find(l => l.startsWith(serial))`: the first such line, or none when no line starts with the serial. |
| Adb.SecondToken | electron/adb.ts:231-232 | The second whitespace token of the trimmed line, or `unknown` when there is none: the result is never empty. |
| Adb.SecondTokenOf | electron/adb.ts:231-232 | A line of the form serial, whitespace, state (each token free of whitespace) gives exactly the state. |
| Adb.ConnectionState | electron/adb.ts:226-236 | A failed command gives `unknown`. The result is never empty. |
| Adb.ConnectionStateAbsent | electron/adb.ts:229-230 | No line starts with the serial: `offline`. |
| Adb.ConnectionStateFirst | electron/adb.ts:229-232 | When the first line that starts with the serial is not empty, the result is its second token. |
| Adb.ConnectionStateEmptyLine | electron/adb.ts:229-230 | An empty first matching line is falsy and gives `offline`. That happens only for the empty serial. |
| Adb.AdbServerState | electron/adb.ts:247-257 | Running if and only if the command succeeds and its output never contains `daemon not running`. |
| Adb.MirrorDevice | electron/adb.ts:75-108 | An occupied serial gives `success:false` with the source's message and no change. A throwing spawn gives `success:false` with its message and no change. Otherwise one launch of `scrcpy` with `["-s", serial] + options` is registered under exactly that serial, and the result is `success:true`. |
| Adb.StopMirroring | electron/adb.ts:114-122 | `true` with a kill and the key removed when present. `undefined` with no change when absent. Afterwards the serial is not mirroring. |
| Adb.MirrorLifecycle | electron/adb.ts:75-131 | Start, start again, stop, start: the second start is refused, the stop returns `true` and the restart succeeds. |
| ScreenUtils.AdbPath | electron/screenUtils.ts:13 | The configured path, or `adb` when it is empty. Never empty. |
| ScreenUtils.Dashes | electron/screenUtils.ts:37 | `replace(/[:.]/g, "-")`: same length, every `:` and `.` becomes `-`, everything else is kept. |
| ScreenUtils.DashesClean | electron/screenUtils.ts:37 | The result holds no `:` and no `.`. |
| ScreenUtils.DashesIdempotent | electron/screenUtils.ts:37 | Replacing twice is replacing once. |
| ScreenUtils.RecordFilename | electron/screenUtils.ts:37-38 | `screen-record-` at the start and `.mkv` at the end, and the length is fixed by the serial and the timestamp. |
| ScreenUtils.ShotFilename | electron/screenUtils.ts:145-146 | `screenshot-` at the start and `.png` at the end, and the length is fixed by the serial and the timestamp. |
| ScreenUtils.RecordFilenameParts | electron/screenUtils.ts:37-38 | For every serial, the recording name is `screen-record-` + serial + `-` + dashed timestamp + `.mkv`, and those parts can be read back at their offsets. |
| ScreenUtils.ShotFilenameParts | electron/screenUtils.ts:145-146 | A screenshot's name is the `screenshot-` prefix, the serial, `-`, the dashed timestamp and `.png`, each read back at its offset. |
| ScreenUtils.RecordFilenameOneDot | electron/screenUtils.ts:37-38 | For a serial without `.`, the only `.` in the name is the one of the extension. |
| ScreenUtils.RecordFilenamesDiffer | electron/screenUtils.ts:37-38 | For any serial, two different dashed timestamps give two different names. |
| ScreenUtils.BuildRecordArgs | electron/screenUtils.ts:46-68 | The list built push by push equals the argument list specification `RecordArgs`. |
| ScreenUtils.PushVideoFlags | electron/screenUtils.ts:49-53 | `-b`, `-m`, `--max-fps` and `-t` are appended in that order, each only when its setting is truthy. Truthiness follows JavaScript for a number or a text, so the text `"0"` is truthy and the number 0 and NaN are not. |
| ScreenUtils.RecordArgs | electron/screenUtils.ts:46-68 | The argument list always begins `["-s", serial, "--record", outputPath]` and always holds an audio flag after it. |
| ScreenUtils.RecordArgsRoundTrip | electron/screenUtils.ts:46-68 | A reader that walks the list in option order recovers every setting: each optional flag present exactly when its setting is truthy, exactly one audio form, then the custom arguments split on single spaces. |
| ScreenUtils.MaxResZero | electron/screenUtils.ts:50 | A stored text `"0"` for `maxRes` is passed on as `-m 0`. A stored number 0 passes no `-m`. |
| ScreenUtils.Shown | electron/screenUtils.ts:50-52 | `String(v)`: a text is itself, a non-negative number is its decimal digits, and a truthy value never gives `""`. |
| ScreenUtils.StartScreenRecord | electron/screenUtils.ts:26-111 | A serial already recording gives the source's message and no change. A `mkdir` or spawn failure gives its message and no change. Otherwise the named file and the built argument list are launched under exactly that serial. |
| ScreenUtils.StopScreenRecord | electron/screenUtils.ts:113-140 | No entry: `No active recording found…` and no change. Otherwise the process is killed, the entry removed and the result is `success:true`. |
| ScreenUtils.RecordingLifecycle | electron/screenUtils.ts:26-140 | Start, start again, stop, stop again, then the late exit through the handler as written: the second start and the second stop fail with the source's messages, and nothing is recording afterwards. |
| ScreenUtils.Succeeded | electron/screenUtils.ts:142-188 | The number of leading steps that succeed, and the first one that fails. |
| ScreenUtils.TakeScreenShot | electron/screenUtils.ts:142-189 | The steps run in order: `screencap`, create the directory, `pull`, `rm`. The first failure ends the call with its message and skips the later steps. On success the result is the `screenshot-…png` name and `savePath/filename`. |
| ScreenUtils.ShotPlanSameFile | electron/screenUtils.ts:149-175 | Capture, pull and removal all name `/sdcard/<filename>`, and the pull writes `savePath/filename`. |
| ScreenUtils.ShotPlan | electron/screenUtils.ts:149-175 | `takeScreenShot` makes exactly four external steps. |
| ScreenUtils.Insert | electron/screenUtils.ts:220 | Inserting into a newest-first list adds exactly that file. |
| ScreenUtils.SortNewestFirst | electron/screenUtils.ts:214-220 | The sort is a permutation of the listing. |
| ScreenUtils.SortedNewestFirst | electron/screenUtils.ts:220 | The sort orders files by descending mtime. |
| ScreenUtils.SortStable | electron/screenUtils.ts:220 | Files with equal mtimes keep their listing order, as the stable `Array.prototype.sort` does. |
| ScreenUtils.RelIndex | electron/screenUtils.ts:226 | `slice` index resolution: a negative index counts from the end, and the result is clamped to the length. |
| ScreenUtils.Slice | electron/screenUtils.ts:226 | `slice(start, end)` is the run between the resolved indices. |
| ScreenUtils.PageOf | electron/screenUtils.ts:222-226 | Page 0 ends at index 0, so it is always empty. |
| ScreenUtils.ListPage | electron/screenUtils.ts:212-230 | `total` is the listing's length, and `hasMore` holds if and only if `page * limit < total`. |
| ScreenUtils.PageFromListing | electron/screenUtils.ts:212-230 | A page is newest first and drawn from the listing. |
| ScreenUtils.PageBound | electron/screenUtils.ts:222-226 | A page holds at most `limit` files. |
| ScreenUtils.PageWindow | electron/screenUtils.ts:222-226 | For page numbers from 1, the page is the sorted files from `(page-1)*limit` up to `page*limit`. |
| ScreenUtils.PagesTile | electron/screenUtils.ts:222-226 | Pages `p` and `p+1` together are the next `2*limit` files, with no gap and no overlap. |
| ScreenUtils.LastPage | electron/screenUtils.ts:222-228 | When `hasMore` is false, the page reaches the end of the listing. |
| LogCat.Pushed | electron/logCat.ts:43-48 | After a push the queue holds at most 2000 lines and ends with the new line. |
| LogCat.PushedShort | electron/logCat.ts:44-47 | Below the cap nothing is dropped. |
| LogCat.PushedNewest | electron/logCat.ts:43-48 | The queue is always the newest 2000 lines received since the last flush, in arrival order. |
| LogCat.Targets | electron/logCat.ts:84-88 | The processes that the listed serials map to, one for each serial, in order. |
| LogCat.KeysOf | electron/logCat.ts:85 | `Object.keys`: every key once, and only keys. |
| LogCat.LogcatService.constructor | electron/logCat.ts:6-8 | `ADB_PATH` is the setting, or `adb` when the setting is empty. No sessions exist yet. |
| LogCat.LogcatService.Start | electron/logCat.ts:13-35 | A serial already in `logMap` gives nothing at all. Otherwise exactly one `adb -s serial logcat` launch with an empty queue is registered under that serial. |
| LogCat.LogcatService.Line | electron/logCat.ts:43-48 | The session's queue becomes the capped push, and the lines received since the last flush grow by the new line. |
| LogCat.LogcatService.Tick | electron/logCat.ts:37-41 | An empty queue delivers nothing. Otherwise the whole queue is delivered as one batch, in order, and the queue is emptied. No empty batch is ever delivered. |
| LogCat.LogcatService.Stop | electron/logCat.ts:76-82 | A present serial is signalled but keeps its entry and queue. An absent one changes nothing. |
| LogCat.LogcatService.StopAll | electron/logCat.ts:84-88 | Every serial in `logMap` is signalled once, and no other. The map itself is unchanged. |
| LogCat.LogcatService.Cleanup | electron/logCat.ts:50-54 | The serial's entry and the session's queue are removed, so the queued lines are never delivered. |
| LogCat.LogcatService.Exit | electron/logCat.ts:56-65 | Cleanup runs. Then, with `onEnd`, the end is reported as manual if and only if the signal is `SIGTERM`. |
| LogCat.LogcatService.Error | electron/logCat.ts:67-71 | Cleanup runs. Then, with `onEnd`, the end is reported as not manual. |
| LogCat.FeedThenFlush | electron/logCat.ts:37-48 | Feeding `lines` and ticking once delivers nothing for no lines, and otherwise one batch of the newest 2000 lines, which is all of them when there are at most 2000. |
| LogCat.StopThenRestart | electron/logCat.ts:18-20 | After a stop and before the exit event, a second start is a no-op. After the exit, which is reported as manual, a start succeeds. |
| LogCat.ErrorDropsQueue | electron/logCat.ts:50-71 | A line queued before a process error is never delivered. Only the non-manual end is reported. |
| LogCat.TickDelivers | electron/logCat.ts:37-48 | Two lines then a tick deliver exactly those two lines, in order. |
| TcpIpErrors.FindEntry | src/utils/index.ts:69 | `find`: the first entry at or after `from` whose pattern matches, or none when none does. |
| TcpIpErrors.Patterns | src/utils/index.ts:8-61 | The table's patterns in table order, one per entry. |
| TcpIpErrors.ErrorCode | src/utils/index.ts:68-73 | An entry is found if and only if some pattern in the table matches. |
| TcpIpErrors.ErrorMessage | src/utils/index.ts:68-73 | The fallback message exactly when no entry of the table matches. Otherwise the message of the entry that `find` returns. |
| TcpIpErrors.MessageNotFallback | src/utils/index.ts:8-72 | No entry's message equals the fallback message. |
| TcpIpErrors.FirstMatchWins | src/utils/index.ts:68-73 | The first matching entry in table order decides the code and the message. |
| TcpIpErrors.EarlierWins | src/utils/index.ts:8-73 | When two entries match, the later one never decides. |
| TcpIpErrors.OfflineBeatsRefused | src/utils/index.ts:21-48 | A text matching both `device offline` and `connection refused`, and neither of the first two entries, gets the DEVICE_OFFLINE message. |
| TcpIpErrors.CaseInsensitive | src/utils/index.ts:11-57 | Texts that differ only in the case of ASCII letters get the same message (every pattern has the `i` flag). |
| TcpIpErrors.ShortTextNoMatch | src/utils/index.ts:11-57 | A text shorter than a pattern's literal parts cannot match it. |
| TcpIpErrors.PatternNonEmpty | src/utils/index.ts:8-61 | Every pattern in the table needs at least one character, so the empty text matches none. |
| TcpIpErrors.NotFoundBetween | src/utils/index.ts:16-19 | `device `, then any text on the same line, then ` not found` gives DEVICE_NOT_FOUND, unless the text also reports more than one device. |
| TcpIpErrors.EmptyIsUnknown | src/utils/index.ts:68-72 | An empty text matches nothing and gets the fallback message. |
| DeviceLog.DeviceLogView.Mount | src/components/device-log.tsx:42-67 | The effect's set-up: the flag is cleared, the handlers are registered, logcat is requested, and the timer is set with nothing shown. |
| DeviceLog.DeviceLogView.HandleData | src/components/device-log.tsx:45-48 | A batch for another serial is ignored. A batch for this one is appended to the buffer in order. |
| DeviceLog.DeviceLogView.HandleEnd | src/components/device-log.tsx:50-55 | An end for another serial is ignored. For this one, `[Logcat stopped]` is buffered if and only if the manual flag is down. |
| DeviceLog.DeviceLogView.Flush | src/components/device-log.tsx:61-67 | An empty buffer leaves the display unchanged. Otherwise the display becomes the last 500 lines of what it showed followed by the whole buffer, and the buffer empties. The display never exceeds 500 lines, drops nothing when 500 suffice, and is always the newest 500 lines ever flushed. |
| DeviceLog.DeviceLogView.Cleanup | src/components/device-log.tsx:69-82 | The manual flag is raised, logcat is asked to stop, the timer is cleared and the buffer emptied. The data handler is unregistered exactly when the bridge offers `offLogcatData`, and the end handler exactly when it offers `offLogcatEnd`. Each is tested on its own. |
| DeviceLog.UnexpectedEndShowsMarker | src/components/device-log.tsx:45-67 | A batch for another device, a batch for this one and an unexpected end, then a flush: the display is this device's batch followed by the marker. |
| DeviceLog.NoMarkerAfterCleanup | src/components/device-log.tsx:50-82 | After the clean-up, an end event adds no marker, even when the handlers stay registered. The buffered lines are dropped. |
| DeviceLog.LongBatchIsTrimmed | src/components/device-log.tsx:4-67 | A batch longer than 500 lines shows exactly its last 500. |
| Window.NewestAppend | src/components/device-log.tsx:63-67 | Trimming after every append gives the same window as one trim at the end. |
| Window.NewestKeepsAll | src/components/device-log.tsx:66 | Nothing is dropped while the lines fit. |
| Window.Newest | electron/logCat.ts:44-47 | The window holds `n` elements when the input is longer, and the whole input otherwise. |
| Window.NewestSuffix | electron/logCat.ts:44-47 | The window is a suffix of the sequence: it holds the elements that came last, in their order. |
| Text.Trim | electron/adb.ts:38 | `trim()`: no ECMAScript whitespace at either end, and an empty result exactly for all-whitespace input. |
| Text.TrimIsWindow | electron/adb.ts:38 | `trim()` returns a contiguous part of the string with only whitespace before it and after it: the input minus its outer whitespace. |
| Text.SplitWs | electron/adb.ts:40 | `split(/\s+/)`: the tokens hold no whitespace, inner tokens are non-empty, the first token is empty exactly when the line starts with whitespace, and the tokens concatenate to the line without its whitespace. The lemmas below fix where the cuts fall. |
| Text.SplitWsLead | electron/adb.ts:40 | A leading whitespace run of any length yields exactly one empty first token. |
| Text.SplitWsRun | electron/adb.ts:40 | A token followed by a whitespace run of any length is cut off whole, and the rest is split on its own. |
| Text.SplitWsThree | electron/adb.ts:40 | Three tokens separated by two whitespace runs of any length split into exactly those three tokens. |
| Text.SplitWsHead | electron/adb.ts:40 | The first token is a prefix of the line, and whitespace follows it unless it is the whole line. |
| Text.SplitOn | electron/adb.ts:35 | `split(c)` gives at least one piece, and no piece holds `c`. |
| Text.JoinWith | electron/adb.ts:35 | `join(c)`, the inverse that the round trips of `split(c)` are stated with: the result begins with the first piece. |
| Text.StartsWith | electron/adb.ts:229 | `startsWith(t)` holds if and only if `t` is a prefix of the string. |
| Text.JoinSplit | electron/adb.ts:35 | Joining the pieces of `split(c)` with `c` gives back the string. |
| Text.SplitJoin | electron/screenUtils.ts:67 | Splitting pieces that hold no `c`, after joining them with `c`, gives back the pieces. |
| Text.Contains | src/utils/index.ts:69 | `includes`, or `/t/i` when folding case, holds if and only if the phrase occurs at some offset. |
| Text.ContainsGap | src/utils/index.ts:17 | `before.*after` matches if and only if `before` occurs and `after` follows it with no line terminator in between. |
| Text.ParseNatDigits | electron/screenUtils.ts:50-52 | `String(n)` for a non-negative number reads back as `n`. |
| Text.Decimal | electron/screenUtils.ts:50-52 | `String(n)`: digits for `n >= 0`, and `-` then digits otherwise, each reading back as the number. |

## Left out

- Spawning, killing and piping processes, and `unref`/`detached`: spawns are launch records, kills are a log, exit and error are events.
- Timers: `setInterval` ticks are method calls, and the 1 s waits in `stopScreenRecord` and `restartAdbServer` have no logical effect. The logcat `timeout` option is not modelled. It ends a session with SIGTERM, which the source then reports as a manual stop.
- Filesystem calls (`existsSync`, `mkdir`, `readdirSync`, `statSync`, `unlinkSync`):
  - Only the directory creation in `StartScreenRecord` and `TakeScreenShot` can fail in the model. It is an `Option<string>` parameter.
  - A directory listing is a sequence of name and mtime pairs.
  - `path.join` normalisation is not modelled, so a file's `path` is not derived.
- ScreenUtils.ListPage: a `readdirSync` or `statSync` that throws is not modelled. The source has no `try`/`catch` in `listRecordings` or `listScreenShots` (`electron/screenUtils.ts:214-218,235-239`), so its call rejects. `ListPage` has no failure input and always returns a page.
- The settings store: a `Settings` value.
- `ADB_PATH` and `TIMEOUT` in `electron/screenUtils.ts:13-14` and `electron/logCat.ts:7-8` are read once, when the module loads. Other settings are read on each call. The model passes a single `Settings` value to each operation. `TakeScreenShot` and `ShotPlan` take `adbPath` and `screenShotPath` from that one value, so an `adbPath` changed after the module loaded is not modelled.
- `activeMirrors`, `activeRecordings`, `logMap` (`electron/adb.ts:26`, `electron/screenUtils.ts:17`, `electron/logCat.ts:6`) and the property and status dictionaries are plain JavaScript objects. A key such as `constructor` is found on `Object.prototype`: the source would report such a serial as already mirroring, recording or logging, and would read a `constructor` property token as present. The model's `map`s and entry lists have no inherited keys, so these serials behave like any other.
- The defaults `page = 1` and `limit = 20` of `listRecordings` and `listScreenShots` (`electron/screenUtils.ts:212,232`) are not modelled: `ListPage` always takes both arguments.
- PushVideoFlags: a fractional `maxFPS` value is not modelled. The stored value is an integer, NaN or a text, and `String` of a fraction is not written.
- `startScreenRecord` awaits the directory creation between its check and its registration. A second start for the same serial in that gap would also pass the check. The model runs each call without interleaving.
- `getDeviceDetails` runs its shell commands concurrently with `Promise.all`. The model takes their outputs as inputs, and any failure fails the call.
- `LogCat.LogcatService.StopAll`: JavaScript's `Object.keys` order, which is insertion order, is not modelled. The order is an output that lists every key once.
- `LogCat.LogcatService.Cleanup`: it deletes the serial's entry unconditionally, as the source does. An error event followed by a restart and then a late exit event of the errored process would remove the new session's entry. The model allows that order of events but proves nothing about it.
- `DeviceLog.DeviceLogView.Flush`: React state updates are applied at once. Scrolling, rendering and `lines.join("\n")` are not modelled.
- `startAdbServer`, `stopAdbServer`, `restartAdbServer`, `listMediaFiles` and `deleteFile` only wrap a command or a filesystem call. They are not modelled.
- `connectViaWifi` is not defined in `electron/adb.ts`. It, the IPC wiring in `electron/main.ts` and `electron/preload.ts`, and the React screens are not part of this model.
- Console logging.

## Findings

| source | as written | input that shows it | evidently intended | confidence | as-written member | corrected member |
|---|---|---|---|---|---|---|
| electron/adb.ts:96-99 and electron/screenUtils.ts:78-82 | The exit handler of a mirror or recording process deletes `active[serial]` whatever is registered there now. | Start D (process 1), stop D, start D again (process 2), then process 1's exit event arrives. Process 2's entry is deleted while it keeps running, so `isMirroring(D)` is false and it can no longer be stopped. | Delete the entry only while it is still the process that exited. | not executed | Registry.StaleExitScenario | Registry.GuardedExitScenario |
