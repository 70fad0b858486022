/**
 * The trigger pipeline of the main application: the per-tick bodies of the
 * input-device and display tasks, the reactor that turns a trigger into an
 * exit, the guest-machine gate run at setup and the close-request check.
 * Schedulers, the channel and sleeps are left to the runtime: a tick is a
 * function of its detector's result, the channel is the sequence of
 * triggers the reactor receives, and grace periods are data.
 */
module Pipeline {
  import opened Wrappers
  import opened Types
  import AppState

  /** What one run of the input task does: the trigger it sends, if any, and what it returns. */
  datatype InputTickOutcome = InputTickOutcome(sent: Option<Triggers>, result: Result<Unit, string>)

  /**
   * The body of the `input_checker` task, given what
   * `is_disallowed_device_connected` found: one trigger carrying the whole
   * list exactly when the list is non-empty; a failed send is only logged.
   * It returns `Ok(())` every time, so the scheduler never drops the task.
   */
  function InputTick(response: seq<USBDevice>): (t: InputTickOutcome)
    ensures t.sent.Some? <==> |response| > 0
    ensures t.sent.Some? ==> t.sent.value == DisAllowedInputDectected(response)
    ensures t.result == Ok(Unit)
  {
    if |response| > 0 then InputTickOutcome(Some(DisAllowedInputDectected(response)), Ok(Unit))
    else InputTickOutcome(None, Ok(Unit))
  }

  /**
   * The body of the display task, given what `get_current_display`
   * returned: one trigger with every display exactly when it found more than
   * one; an error sends nothing.
   */
  function DisplayTick(probe: Result<seq<string>, string>): (sent: Option<Triggers>)
    ensures sent.Some? <==> probe.Ok? && |probe.value| > 1
    ensures sent.Some? ==> sent.value == AdditionalDisplayDectected(probe.value)
  {
    match probe
    case Ok(displays) => if |displays| > 1 then Some(AdditionalDisplayDectected(displays)) else None
    case Err(_) => None
  }

  const DEVICE_FALLBACK: string := "UnNamed Device"
  const DISPLAY_FALLBACK: string := "UnNamed Display"
  const COMPROMISED_TITLE: string := "Device Compromised"
  const COMPROMISED_BODY: string := "An external device has been attached to your device"
  const INPUT_GRACE_SECONDS: nat := 30
  const DISPLAY_GRACE_SECONDS: nat := 200

  /** `s.last()`. */
  function Last<T>(s: seq<T>): Option<T> {
    if s == [] then None else Some(s[|s| - 1])
  }

  /** `o.unwrap_or(default)`. */
  function UnwrapOr<T>(o: Option<T>, default: T): T {
    match o
    case Some(v) => v
    case None => default
  }

  /** `device.last().and_then(|d| d.description.clone()).unwrap_or("UnNamed Device")`. */
  function DeviceLabel(devices: seq<USBDevice>): (name: string)
    ensures devices != [] && devices[|devices| - 1].description.Some? ==>
      name == devices[|devices| - 1].description.value
    ensures devices == [] || devices[|devices| - 1].description.None? ==> name == DEVICE_FALLBACK
  {
    var last := Last(devices);
    UnwrapOr(if last.Some? then last.value.description else None, DEVICE_FALLBACK)
  }

  /** `displays.into_iter().last().unwrap_or("UnNamed Display")`. */
  function DisplayLabel(displays: seq<string>): (name: string)
    ensures displays != [] ==> name == displays[|displays| - 1]
    ensures displays == [] ==> name == DISPLAY_FALLBACK
  {
    UnwrapOr(Last(displays), DISPLAY_FALLBACK)
  }

  /** What the reactor does about a trigger: log the label, notify, wait, then exit with a code. */
  datatype Action = Action(logged: string, title: string, body: string, graceSeconds: nat, exitCode: int)

  /** The reactor's `match event`: two trigger kinds end the application, the others are ignored. */
  function React(t: Triggers): (a: Option<Action>)
    ensures a.Some? <==> t.DisAllowedInputDectected? || t.AdditionalDisplayDectected?
    ensures a.Some? ==> a.value.exitCode == 0 && a.value.title == COMPROMISED_TITLE && a.value.body == COMPROMISED_BODY
    ensures t.DisAllowedInputDectected? ==> a.value.graceSeconds == INPUT_GRACE_SECONDS
    ensures t.AdditionalDisplayDectected? ==> a.value.graceSeconds == DISPLAY_GRACE_SECONDS
  {
    match t
    case DisAllowedInputDectected(devices) =>
      Some(Action(DeviceLabel(devices), COMPROMISED_TITLE, COMPROMISED_BODY, INPUT_GRACE_SECONDS, 0))
    case AdditionalDisplayDectected(displays) =>
      Some(Action(DisplayLabel(displays), COMPROMISED_TITLE, COMPROMISED_BODY, DISPLAY_GRACE_SECONDS, 0))
    case _ => None
  }

  /**
   * The reactor loop `while let Ok(event) = rx.recv()`: triggers are taken
   * in order; the first one that acts ends the application, so no later
   * trigger is received. Without one, the loop ends with the channel.
   */
  method RunReactor(events: seq<Triggers>) returns (received: nat, action: Option<Action>)
    ensures received <= |events|
    ensures action.None? ==> received == |events| && forall j :: 0 <= j < |events| ==> React(events[j]).None?
    ensures action.Some? ==>
      received > 0 && action == React(events[received - 1]) &&
      forall j :: 0 <= j < received - 1 ==> React(events[j]).None?
  {
    received := 0;
    while received < |events|
      invariant received <= |events|
      invariant forall j :: 0 <= j < received ==> React(events[j]).None?
    {
      var event := events[received];
      received := received + 1;
      var act := React(event);
      if act.Some? {
        return received, act;
      }
    }
    return received, None;
  }

  /** Every trigger the input task sends ends the session after 30 s, labelled by the last device. */
  lemma InputTriggerExits(response: seq<USBDevice>)
    requires InputTick(response).sent.Some?
    ensures React(InputTick(response).sent.value) ==
      Some(Action(DeviceLabel(response), COMPROMISED_TITLE, COMPROMISED_BODY, 30, 0))
    ensures response[|response| - 1].description.Some? ==>
      DeviceLabel(response) == response[|response| - 1].description.value
    ensures response[|response| - 1].description.None? ==> DeviceLabel(response) == DEVICE_FALLBACK
  {
  }

  /**
   * Every trigger the display task sends ends the session after 200 s,
   * labelled by the last display; the fallback label is never needed there.
   */
  lemma DisplayTriggerExits(probe: Result<seq<string>, string>)
    requires DisplayTick(probe).Some?
    ensures React(DisplayTick(probe).value) ==
      Some(Action(probe.value[|probe.value| - 1], COMPROMISED_TITLE, COMPROMISED_BODY, 200, 0))
  {
  }

  /** A report of remote-control tooling, and the bare UDP trigger, are received and ignored. */
  lemma OtherTriggersIgnored(report: WebRtcReport)
    ensures React(RemoteApplicationDectected(report)) == None
    ensures React(UDPDectected) == None
  {
  }

  datatype Os = Windows | MacOs | Linux

  /** `is_virtual_machine`: the `inside_vm` probe on Windows, constantly false elsewhere. */
  function IsVirtualMachine(os: Os, insideVm: bool): (vm: bool)
    ensures vm <==> os == Windows && insideVm
  {
    if os == Windows then insideVm else false
  }

  /** `is_running_in_rdp`: `GetSystemMetrics(SM_REMOTESESSION) != 0` on Windows, constantly false elsewhere. */
  function IsRunningInRdp(os: Os, remoteSession: int): (rdp: bool)
    ensures rdp <==> os == Windows && remoteSession != 0
  {
    if os == Windows then remoteSession != 0 else false
  }

  /** The setup gate: inside a guest machine or a remote session the application exits with status 0. */
  function GuestGate(os: Os, insideVm: bool, remoteSession: int): (exitCode: Option<int>)
    ensures exitCode.Some? <==> IsVirtualMachine(os, insideVm) || IsRunningInRdp(os, remoteSession)
    ensures exitCode.Some? ==> exitCode.value == 0
    ensures os != Windows ==> exitCode.None?
  {
    if IsVirtualMachine(os, insideVm) || IsRunningInRdp(os, remoteSession) then Some(0) else None
  }

  /**
   * The `CloseRequested` handler: closing is prevented exactly when the
   * latch can be read and is set; a poisoned latch lets the window close.
   */
  method OnCloseRequested(init: AppState.InitState) returns (preventClose: bool)
    ensures preventClose <==> !init.poisoned && init.value
  {
    var state := init.Read();
    preventClose := state.Ok? && state.value;
  }
}
