# Proctoring client core, modelled in Dafny

This project models the decision and state logic of a locked-down exam
client (`secure-web-browser`). It covers:

- the low-level keyboard hook that runs in the `mapper` sidecar. The hook
  decides which key-down events are swallowed. The model also covers how the
  sidecar installs the hook and runs its message loop.
- the main application's trigger pipeline:
  - the per-tick bodies of the input-device and display tasks;
  - the reactor that turns a trigger into a grace period and an exit;
  - the guest-machine / remote-session gate at setup;
  - the window close latch.
- the sidecar supervisor:
  - spawning the sidecar;
  - classifying the sidecar's event stream into fatal and non-fatal events;
  - the guarded child slot that the exit handler empties and kills.
- the shared value types: the remote-control report, port status, the trigger
  message and the command error type with its display and serialisation.
- the host serial-number readers. Each one parses the output of `wmic`,
  `system_profiler` or the DMI serial file.
- the global-shortcut dispatcher `build_bindings`.
- the UI commands `set_server`, `server_url`, `get_server_url` and
  `exit_exam`.

The platform, the framework and the clock do not appear in the model. Each
call into them becomes a plain input:

- `GetAsyncKeyState` becomes a 16-bit key state.
- `SetWindowsHookExW` becomes an install result.
- `GetMessageW` and `TranslateMessage` become a sequence of messages.
- Each detector becomes its result.
- The HTTP reply becomes a status code and a body.
- The store becomes a map of JSON values.
- The locks are a `poisoned` flag on the classes that hold the shared state.

Exit is terminal. Once the reactor, the supervisor or the shortcut handler
decides to exit, that decision is the outcome, and nothing after it is
processed.

The keyboard hook exists twice with the same logic:

- `mapper/src/lib.rs:12-72`, the sidecar crate;
- `src-tauri/src/utils/key_mapper.rs:10-69`, the main crate.

The copies differ in text only. The sidecar crate wraps the pointer
dereference in `unsafe {}`. The main crate's file is Windows-only as a whole,
so it has no stub `capture_key` for other systems.

Module `KeyHook` models that code once. Its members refine both copies line for
line, so each row below cites whichever copy it follows. The same lines hold
in the other copy, two lines later in `mapper/src/lib.rs` for `is_key_pressed`
and three lines later for `keyboard_proc` and `capture_key`.

Modules:

- `Wrappers`: Rust's `Option`, `Result` and `()`, the fixed-width integers,
  and the panic messages of `unwrap`.
- `Text`: the `str` operations the parsers use: `trim`, `contains`,
  `starts_with`, `split` and `lines`.
- `KeyHook`: the hook procedure and the hook installation.
- `Types`: the value types shared across the application.
- `AppState`: the child slot and the `InitState` latch.
- `Sidecar`: spawning, event classification and the exit handler.
- `Pipeline`: the ticks, the reactor, the guest-machine gate and the close
  latch.
- `Serial`: the host serial-number readers.
- `Shortcuts`: the global-shortcut dispatcher.
- `Commands`: the UI commands.

Notes on the code's behaviour:

- The reactor ignores `RemoteApplicationDectected` (`src-tauri/src/lib.rs:348`).
  It does not end the session for it.
- No task in the setup code sends that trigger.
- The hook inspects only key-down messages (`WM_KEYDOWN` and `WM_SYSKEYDOWN`).
  A key-up, including Alt's, is always forwarded.
- The `Triggers` enum in `src-tauri/src/utils/types.rs:42-47` has no
  `AdditionalDisplayDectected` variant. The display task and the reactor use
  that variant anyway (`src-tauri/src/lib.rs:225,323`). The model's `Triggers`
  has all four variants.

## Model

| member | source | states |
|---|---|---|
| `KeyHook.IsKeyPressed` | mapper/src/lib.rs:12-14 | A key counts as pressed exactly when the `SHORT` key state is negative, which is when bit `0x8000` is set after the `as u32` widening. |
| `KeyHook.PressedIsBit15OfShort` | src-tauri/src/utils/key_mapper.rs:10-12 | Widening changes nothing: the test reads bit 15 of the 16-bit key state. |
| `KeyHook.KeyboardProc` | mapper/src/lib.rs:17-48 | `keyboard_proc`: an event is either consumed (`LRESULT(1)`) or passed to `CallNextHookEx` unaltered, and only a key-down with `code >= 0` is ever consumed. Which key-downs are consumed is stated by `ProcMatchesPolicy`. |
| `KeyHook.ProcMatchesPolicy` | mapper/src/lib.rs:17-48 | The procedure swallows an event exactly when it is a key-down with `code >= 0` and the key or modifiers fall under the policy. The policy covers the Windows keys, Alt+Tab, Alt/Ctrl+Escape, Alt+F4, Alt itself, Delete, and any key while Alt is held. Every other event goes to `CallNextHookEx` unchanged. |
| `KeyHook.NonKeyDownForwarded` | src-tauri/src/utils/key_mapper.rs:14-44 | Negative codes, and messages other than `WM_KEYDOWN`/`WM_SYSKEYDOWN` such as key-up, are forwarded unmodified. |
| `KeyHook.AltHeldSuppressesAll` | mapper/src/lib.rs:36-39 | While Alt is down, every key-down is swallowed, whatever the key. |
| `KeyHook.UnconditionalKeys` | src-tauri/src/utils/key_mapper.rs:22-41 | The left and right Windows keys, Delete and `VK_MENU` are swallowed whatever the modifiers. |
| `KeyHook.EscapeNeedsModifier` | mapper/src/lib.rs:28 | Escape is swallowed exactly when Alt or Ctrl is down. Escape alone is forwarded. |
| `KeyHook.TabAndF4NeedAlt` | src-tauri/src/utils/key_mapper.rs:24-26 | Tab and F4 are swallowed exactly when Alt is down. Ctrl alone does not make them swallowed. |
| `KeyHook.OthersForwarded` | mapper/src/lib.rs:25-47 | Any other key, with no modifier or with Ctrl only, is forwarded. Examples: 'A', Ctrl+Tab, Tab or F4 without Alt. |
| `KeyHook.PumpOutcome` | mapper/src/lib.rs:66-70 | The message loop keeps pumping exactly when no message ends it. Once pumping, it never returns an error: it returns `Ok(())` or panics in `TranslateMessage(..).unwrap()`. |
| `KeyHook.PumpReturnsOnQuit` | mapper/src/lib.rs:64-70 | The message loop returns `Ok(())` exactly when `GetMessageW` yields false before any message whose `TranslateMessage(..).unwrap()` panics. |
| `KeyHook.CaptureKeyOffWindows` | mapper/src/lib.rs:96-98 | Off Windows, `capture_key` returns `Ok(())`. |
| `KeyHook.HookThread.constructor` | mapper/src/lib.rs:10 | `HOOK_HANDLE` starts as the null handle, with no message dispatched. |
| `KeyHook.HookThread.CaptureKey` | src-tauri/src/utils/key_mapper.rs:47-69 | An install error is returned before the handle is written. Otherwise `HOOK_HANDLE` is written exactly once, and a null handle panics. Only after a successful install does the loop dispatch messages, in order, up to the first stop. It returns `Ok` when `GetMessageW` yields false. |
| `Types.NewPortStatus` | src-tauri/src/utils/types.rs:13-17 | `PortStatus::new(p, r)` stores `port = p` and `running = r` unchanged. |
| `Types.WebRtcReport.IsRunning` | src-tauri/src/utils/types.rs:37-39 | `is_running`: the report has at least one port and at least one process. Its properties are stated by `RunningNeedsBothSignals`. |
| `Types.RunningNeedsBothSignals` | src-tauri/src/utils/types.rs:36-40 | `is_running` holds exactly when the report has both ports and processes. A report with only one of the two is not running. |
| `Types.RunningExamples` | src-tauri/src/utils/types.rs:37-39 | Port 6301 with no process is not running. Port 6301 with process 4 is running. |
| `Types.FromString` | src-tauri/src/utils/types.rs:131-135 | `From<String>` gives `ModuleError::Internal` carrying the identical string. |
| `Types.FromStringDisplay` | src-tauri/src/utils/types.rs:111-114 | A converted string displays as `"Internal server error: "` followed by the string. The string can be read back after the prefix, and the serialised form is that same text. |
| `Types.Display` | src-tauri/src/utils/types.rs:111-120 | The derived `Display`: `Internal(s)` shows as `"Internal server error: "` followed by `s`. The wrapping variants show the wrapped error's own text. Its properties are stated by `FromStringDisplay` and `InternalDisplayInjective`. |
| `Types.Serialize` | src-tauri/src/utils/types.rs:122-129 | Serialising an error emits exactly its display string. |
| `Types.InternalDisplayInjective` | src-tauri/src/utils/types.rs:111-128 | Two `Internal` errors that serialise alike carry the same message. |
| `Pipeline.InputTick` | src-tauri/src/lib.rs:254-271 | The input task sends exactly one `DisAllowedInputDectected`, carrying the detector's whole list, exactly when the list is non-empty. It always returns `Ok(())`. |
| `Pipeline.DisplayTick` | src-tauri/src/lib.rs:220-239 | The display task sends one `AdditionalDisplayDectected` with all displays exactly when the probe succeeded with more than one display. A probe error sends nothing. |
| `Pipeline.DeviceLabel` | src-tauri/src/lib.rs:299-303 | The label is the last device's description. It is "UnNamed Device" when the list is empty or the last device has no description. |
| `Pipeline.DisplayLabel` | src-tauri/src/lib.rs:324-327 | The label is the last display. It is "UnNamed Display" when there is none. |
| `Pipeline.React` | src-tauri/src/lib.rs:297-349 | Only the disallowed-input and additional-display triggers act. Each one notifies "Device Compromised", waits 30 s or 200 s respectively, and exits with 0. All other variants are ignored. |
| `Pipeline.RunReactor` | src-tauri/src/lib.rs:296-350 | Triggers are received in order. The first one that acts ends the loop, and no later trigger is received. Without one, the loop drains the channel. |
| `Pipeline.InputTriggerExits` | src-tauri/src/lib.rs:298-321 | Every trigger the input task sends leads to exit 0 after 30 s. The label is the last device's description, or the fallback. |
| `Pipeline.DisplayTriggerExits` | src-tauri/src/lib.rs:323-347 | Every trigger the display task sends leads to exit 0 after 200 s, labelled by the last display. The fallback label is never needed there. |
| `Pipeline.OtherTriggersIgnored` | src-tauri/src/lib.rs:348 | The remote-application and UDP triggers cause no action. |
| `Pipeline.IsVirtualMachine` | src-tauri/src/utils/mod.rs:77-97 | The VM test is the `inside_vm` probe on Windows and constantly false elsewhere. |
| `Pipeline.IsRunningInRdp` | src-tauri/src/utils/mod.rs:99-110 | The remote-session test is `GetSystemMetrics(SM_REMOTESESSION) != 0` on Windows and constantly false elsewhere. |
| `Pipeline.GuestGate` | src-tauri/src/lib.rs:55-59 | Setup exits with 0 exactly when the host is a guest machine or a remote session. Off Windows, it never exits here. |
| `Pipeline.OnCloseRequested` | src-tauri/src/lib.rs:355-366 | Closing is prevented exactly when `InitState` can be read and is true. A poisoned latch lets the window close. |
| `Sidecar.Classify` | src-tauri/src/lib.rs:100-125 | Only `CommandEvent::Error` exits, with status 1. `Terminated` is only logged. Stdout is logged as info, stderr as error, and any other event is ignored. |
| `Sidecar.Supervise` | src-tauri/src/lib.rs:98-127 | Events are consumed in order. The process exits with 1 exactly when an `Error` event occurs, right after the first one. Otherwise the whole stream is consumed, and the log is the classification of every consumed event. |
| `Sidecar.SpawnSidecar` | src-tauri/src/lib.rs:80-138 | A failed sidecar lookup is only logged. A failed spawn exits with 1. A successful spawn stores `Some(child)` in the slot, unless the lock is poisoned, which is only logged. |
| `Sidecar.OnExitRequested` | src-tauri/src/lib.rs:377-412 | The slot ends empty and its child, if any, is killed exactly once. The second `take()` on Windows is a no-op. A poisoned lock is counted as a logged error, not a panic. |
| `AppState.ChildSlot.constructor` | src-tauri/src/lib.rs:32 | The slot starts empty, unpoisoned, with nothing killed. |
| `AppState.ChildSlot.Store` | src-tauri/src/lib.rs:87-96 | `*lock = Some(child)` when the lock is obtained. Otherwise the slot is unchanged. No child is ever killed twice. |
| `AppState.ChildSlot.TakeAndKill` | src-tauri/src/lib.rs:399-411 | `take()` leaves the slot `None`, and kill happens only when it held `Some`. A lock error changes nothing. |
| `AppState.InitState.constructor` | src-tauri/src/lib.rs:42 | The latch starts false. |
| `AppState.InitState.Read` | src-tauri/src/lib.rs:359 | `state.0.read()`: the latch's value, or the lock error when the lock is poisoned. |
| `AppState.InitState.MarkInitialized` | src-tauri/src/utils/commands.rs:47-54 | The write guard sets the latch to true. A poisoned lock returns the lock error and leaves the latch as it was. |
| `Serial.WindowsSerialOf` | src-tauri/src/utils/mod.rs:119-126 | The Windows reader's result on a list of lines: the first line that is neither blank nor contains "SerialNumber", trimmed, or `None`. Its properties are stated by the `WindowsSerial*` lemmas. |
| `Serial.WindowsSerial` | src-tauri/src/utils/mod.rs:112-127 | The loop's result is `WindowsSerialOf` of the lines of `wmic`'s output. It is `None` when the tool could not be run. |
| `Serial.WindowsSerialAbsent` | src-tauri/src/utils/mod.rs:119-126 | The Windows serial is `None` exactly when every line is blank or contains "SerialNumber". |
| `Serial.WindowsSerialFirstLine` | src-tauri/src/utils/mod.rs:119-123 | Otherwise it is the first line that is neither blank nor the header, trimmed. |
| `Serial.WindowsSerialClean` | src-tauri/src/utils/mod.rs:120-123 | A Windows serial is non-empty and has no whitespace at either end. |
| `Serial.LinuxSerialOf` | src-tauri/src/utils/mod.rs:152-159 | The Linux reader's result on a list of lines: the first non-blank line, trimmed, or `None`. Its properties are stated by the `LinuxSerial*` lemmas. |
| `Serial.LinuxSerial` | src-tauri/src/utils/mod.rs:145-160 | The loop's result is `LinuxSerialOf` of the lines of the DMI serial file. It is `None` when the file could not be read. |
| `Serial.LinuxSerialAbsent` | src-tauri/src/utils/mod.rs:152-159 | The Linux serial is `None` exactly when every line is blank. |
| `Serial.LinuxSerialFirstLine` | src-tauri/src/utils/mod.rs:152-156 | Otherwise it is the first non-blank line, trimmed. |
| `Serial.LinuxSerialClean` | src-tauri/src/utils/mod.rs:153-156 | A Linux serial is non-empty and has no whitespace at either end. |
| `Serial.MacSerialOf` | src-tauri/src/utils/mod.rs:136-142 | The macOS reader's result on a list of lines: the first line that starts with "Serial Number" once left-trimmed decides. The result is its second `:`-separated field, trimmed, or `None` without a `:`. Its properties are stated by the `MacSerial*` lemmas. |
| `Serial.MacSerial` | src-tauri/src/utils/mod.rs:129-143 | The loop's result is `MacSerialOf` of the lines of `system_profiler`'s output. It is `None` when the tool could not be run. |
| `Serial.MacSerialAbsent` | src-tauri/src/utils/mod.rs:136-142 | Without a line whose left-trimmed form starts with "Serial Number", the macOS serial is `None`. |
| `Serial.MacSerialFirstLine` | src-tauri/src/utils/mod.rs:136-140 | The first serial line decides alone, whatever later lines hold. The result is present exactly when that line has a `:`, and it is the line's second `:`-separated field, trimmed. |
| `Serial.MacSerialMayBeEmpty` | src-tauri/src/utils/mod.rs:137-138 | Output that is one serial line whose only `:` ends it, such as `Serial Number:`, yields `Some("")`. Unlike the other readers, the macOS one may produce an empty serial. |
| `Text.TrimEmptyIffBlank` | src-tauri/src/utils/mod.rs:153 | `line.trim().is_empty()` holds exactly when the line is all whitespace. |
| `Text.TrimIsClean` | src-tauri/src/utils/mod.rs:123 | A non-empty trimmed line has no whitespace at either end. |
| `Text.TrimIdempotent` | src-tauri/src/utils/mod.rs:156 | Trimming twice is trimming once. |
| `Text.ContainsIffOccurs` | src-tauri/src/utils/mod.rs:120 | `contains` holds exactly when the pattern occurs at some index. |
| `Text.SplitJoin` | src-tauri/src/utils/mod.rs:138 | Joining the `split(':')` pieces with `:` gives back the line. |
| `Text.SplitPiecesFree` | src-tauri/src/utils/mod.rs:138 | No `split(':')` piece contains `:`. |
| `Text.SplitSecondPiece` | src-tauri/src/utils/mod.rs:138 | `nth(1)` exists exactly when the line has a `:`. It runs from just after the first `:` up to the next one. |
| `Text.LinesHaveNoNewline` | src-tauri/src/utils/mod.rs:119 | No line produced by `lines()` holds a line feed. |
| `Text.LinesIgnoreFinalNewline` | src-tauri/src/utils/mod.rs:136 | A final line ending does not add a line. |
| `Text.LinesAreSplit` | src-tauri/src/utils/mod.rs:152 | Without carriage returns or a final line feed, `lines()` is `split('\n')`. |
| `Shortcuts.Dispatch` | src-tauri/src/utils/mod.rs:31-74 | `build_bindings`' if/else-if chain: the kill binding is tested first, then Ctrl+Alt+Delete, and only a release acts. Its properties are stated by `DispatchActsOnRelease`. |
| `Shortcuts.DispatchActsOnRelease` | src-tauri/src/utils/mod.rs:31-74 | Only a release acts. The kill binding acts exactly when it matches. Ctrl+Alt+Delete acts only when the kill binding did not match. Super+D and unmatched shortcuts cause no action. |
| `Shortcuts.DefaultDispatch` | src-tauri/src/lib.rs:141-144 | With the three shortcuts built at `src-tauri/src/lib.rs:141-144`: releasing Ctrl+K runs the kill sequence and releasing Ctrl+Alt+Delete prompts. Super+D and Ctrl+Shift+K do nothing. |
| `Shortcuts.BuildBindings` | src-tauri/src/utils/mod.rs:21-75 | On a press, nothing but a log. Releasing Ctrl+K emits `show-password-prompt`. On Windows it then takes and kills the child, which panics on a poisoned lock. It then exits with 0. Releasing Ctrl+Alt+Delete emits `show-ctrl-alt-delete-prompt` and does not exit. A failed emit panics. |
| `Commands.StatusTestsFollowRfc` | src-tauri/src/utils/commands.rs:31-60 | `is_success` is class 2xx (section 15.3 of RFC 9110) and `is_client_error` is class 4xx (section 15.5 of RFC 9110). The two never overlap. |
| `Commands.GetServerUrl` | src-tauri/src/utils/commands.rs:72-89 | The result is the text under `url`. An absent key gives `Internal("Couldn't get server url")`, a store error becomes `Internal`, and a malformed record panics. |
| `Commands.ServerUrl` | src-tauri/src/utils/commands.rs:63-70 | `Ok(u)` becomes `Ok(Some(u))` and `Internal("Couldn't get server url")` becomes `Ok(None)`. Any other error, and a panic, passes through unchanged. |
| `Commands.ServerUrlOfStore` | src-tauri/src/utils/commands.rs:63-89 | `server_url` gives `Ok(None)` exactly when the `url` key is absent (or the store error has that very text). It gives `Ok(Some(u))` exactly when the stored record holds `u`. |
| `Commands.StoredUrlReadsBack` | src-tauri/src/utils/commands.rs:42 | The `{"value": url}` record that `set_server` stores reads back as `url`. |
| `Commands.ExitExam` | src-tauri/src/utils/commands.rs:92-123 | `exit_exam`: a store error becomes `Internal`, and a malformed password record panics. A stored password is compared with the typed one, and a failed notification on a match panics. Without a stored password, the refresh runs and the command fails. Its properties are stated by the three `ExitExam*` lemmas. |
| `Commands.ExitExamComparesPassword` | src-tauri/src/utils/commands.rs:97-115 | With a stored password the answer is `Ok(true)` exactly when the typed password equals it (and the notification shows). It is `Ok(false)` exactly when they differ. |
| `Commands.ExitExamWithoutPassword` | src-tauri/src/utils/commands.rs:116-122 | Without a stored password the command never answers `Ok`. A refresh error propagates. Otherwise it returns `Internal("Couldn't find password in store")`. |
| `Commands.ExitExamTrueNeedsMatch` | src-tauri/src/utils/commands.rs:92-123 | `Ok(true)` only ever comes from a stored password equal to the typed one. |
| `Commands.SetServerResult` | src-tauri/src/utils/commands.rs:11-61 | The result `set_server` returns, given each collaborator's outcome in call order: the first failing step's error, else the status branch, else `Ok(())`. Its properties are stated by the three `SetServer*` lemmas. |
| `Commands.SetServerStatusBranches` | src-tauri/src/utils/commands.rs:25-60 | Once a reply arrives, 4xx gives `Internal("Request was incorrect")`. Any status that is neither 2xx nor 4xx gives `Internal("Something Went Wrong")`. Success implies a 2xx status. |
| `Commands.SetServerOkIff` | src-tauri/src/utils/commands.rs:31-55 | `set_server` succeeds exactly when every step of the success path succeeds and the latch can be written. |
| `Commands.SetServerTransportErrors` | src-tauri/src/utils/commands.rs:15-29 | Client, send and body-read failures are reported as their own errors, whatever the server would have answered. |
| `Commands.SetServer` | src-tauri/src/utils/commands.rs:11-61 | The request goes to exactly `url + ":8080/validate"`. On 2xx, navigation happens first, then `url := {"value": url}`, then the save. The latch becomes true only after navigation and the save both succeed. An earlier failure leaves the latch and the saved store unchanged. |

## Left out

- Tauri wiring is not modelled: plugin registration, the log and notification permission, shortcut registration, fullscreen and the updater (`src-tauri/src/lib.rs:35-183`). It is framework plumbing.
- The reactor's notifications appear only as their title and body. Showing them, and their failures, which the reactor only logs, are not modelled.
- The text of `exit_exam`'s notification ("Exiting", "A user has requested exit and app will shut down in 5 seconds") is not modelled. Only whether it could be shown is an input, and a failure panics through `unwrap`.
- Schedulers and timing are not modelled: the tokio runtime, `every(1).minutes()`, `every_seconds(10)`, the mpsc channel and `sleep`. A tick is a function of its detector's result, the channel is a sequence of triggers, and grace periods are numbers.
- The fact that a failed tick does not unregister its task is not modelled. The scheduler crate is not part of this model; only the tick's own `Ok(())` is.
- The password-query task (`src-tauri/src/lib.rs:198-208`) is not modelled. It only logs the outcome of `query_password_for_server`, which is not part of this model.
- Functions defined elsewhere in the application (`is_disallowed_device_connected`, `get_current_display`, `query_password_for_server`, `disable_cad_actions`, `navigate_and_adjust_window`) are not modelled; their results are inputs. `disable_cad_actions` at setup and exit is only logged on failure and has no other modelled effect.
- Foreign Win32 calls are not modelled: `GetAsyncKeyState`, `SetWindowsHookExW`, `GetMessageW`, `TranslateMessage`, `DispatchMessageW`, `GetSystemMetrics` and `inside_vm`. Their results are inputs. What `DispatchMessageW` does is recorded only as the sequence of dispatched messages.
- `KeyHook.HookThread.CaptureKey`: the hook is a field of one object rather than a process-wide `static mut`. Nothing else in the sidecar touches it, so no aliasing is lost.
- Log and console output are not modelled: `println!`, `log::*`, and the `from_utf8_lossy` rendering of sidecar lines. Only the level of each sidecar log entry is kept.
- Shelling out is not modelled: `wmic`, `system_profiler`, `cat`, and the PowerShell script of `get_usb_devices` (`src-tauri/src/utils/key_mapper.rs:91-140`), whose only work is printing. The serial readers take the tool's output, or its absence, as input.
- `get_host_info` is not modelled. It reads the environment, the process id and the MAC address.
- `ProcessIdentifier.cpu_usage` is an `f32` and is left out of the process record.
- The network, JSON and URL parsing in the commands are not modelled: reqwest, `serde_json` and `Url::parse`. Each of these steps is an input that succeeds or fails with a message. The store is a map from keys to JSON values.
- `ModuleError`'s request and I/O variants stand for foreign error values. They are represented by the text those values display as.
- `src-tauri/src/utils/installer.rs`, `server/src/main.rs`, `build.js`, `src-tauri/build.rs` and the client UI are not part of this model.
