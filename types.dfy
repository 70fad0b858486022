/**
 * The value types shared by the detectors, the trigger channel and the
 * commands: port and process findings, the remote-control report, the USB
 * device record, the trigger message and the command error type.
 */
module Types {
  import opened Wrappers

  /** A UDP port found in use. */
  datatype PortStatus = PortStatus(port: U32, running: bool)

  /** `PortStatus::new`. */
  function NewPortStatus(port: U32, running: bool): (p: PortStatus)
    ensures p.port == port && p.running == running
  {
    PortStatus(port, running)
  }

  /** A running process flagged as remote-control tooling (its CPU usage, a float, is left out). */
  datatype ProcessIdentifier = ProcessIdentifier(
    processId: I32, status: bool, parent: Option<I32>, startTime: U64, runTime: U64)

  /** The remote-control probe's findings: ports in use and flagged processes. */
  datatype WebRtcReport = WebRtcReport(ports: seq<PortStatus>, processes: seq<ProcessIdentifier>) {
    /** `is_running`: `ports.len() > 0 && processes.len() > 0`. */
    predicate IsRunning() {
      |ports| > 0 && |processes| > 0
    }
  }

  /** One signal alone is not evidence: a report is running only with ports and processes both found. */
  lemma RunningNeedsBothSignals(r: WebRtcReport)
    ensures r.IsRunning() <==> r.ports != [] && r.processes != []
    ensures r.processes == [] ==> !r.IsRunning()
    ensures r.ports == [] ==> !r.IsRunning()
  {
  }

  /** A port in use with no flagged process is not running; adding process 4 makes it running. */
  lemma RunningExamples()
    ensures !WebRtcReport([PortStatus(6301, true)], []).IsRunning()
    ensures WebRtcReport([PortStatus(6301, true)], [ProcessIdentifier(4, true, None, 0, 0)]).IsRunning()
  {
  }

  /** An attached USB device. */
  datatype USBDevice = USBDevice(
    id: string, vendorId: U16, productId: U16, description: Option<string>, serialNumber: Option<string>)

  /**
   * The trigger message sent to the reactor. The enum declared with the
   * types lacks `AdditionalDisplayDectected`, which the display task sends;
   * this datatype holds all four variants.
   */
  datatype Triggers =
    | DisAllowedInputDectected(devices: seq<USBDevice>)
    | UDPDectected
    | RemoteApplicationDectected(report: WebRtcReport)
    | AdditionalDisplayDectected(displays: seq<string>)

  /**
   * `ModuleError`. The request and I/O variants wrap foreign error values;
   * they are represented by the text those values display as.
   */
  datatype ModuleError = Internal(message: string) | RequsetError(cause: string) | Io(cause: string)

  const INTERNAL_PREFIX: string := "Internal server error: "

  /** `From<String> for ModuleError`. */
  function FromString(s: string): (e: ModuleError)
    ensures e.Internal? && e.message == s
  {
    Internal(s)
  }

  /**
   * The derived `Display`: `Internal` is prefixed; the wrapping variants
   * show the wrapped error's own text.
   */
  function Display(e: ModuleError): string {
    match e
    case Internal(s) => INTERNAL_PREFIX + s
    case RequsetError(cause) => cause
    case Io(cause) => cause
  }

  /** A value in serde's data model; the error serializer produces a string. */
  datatype Serialized = SerializedStr(text: string)

  /** `Serialize for ModuleError`: `serialize_str(self.to_string())`. */
  function Serialize(e: ModuleError): (out: Serialized)
    ensures out.text == Display(e)
  {
    SerializedStr(Display(e))
  }

  /** A converted string displays with the prefix, and the message can be read back after it. */
  lemma {:induction false} FromStringDisplay(s: string)
    ensures Display(FromString(s)) == INTERNAL_PREFIX + s
    ensures INTERNAL_PREFIX <= Display(FromString(s))
    ensures Display(FromString(s))[|INTERNAL_PREFIX|..] == s
    ensures Serialize(FromString(s)) == SerializedStr(INTERNAL_PREFIX + s)
  {
    assert (INTERNAL_PREFIX + s)[|INTERNAL_PREFIX|..] == s;
  }

  /** Distinct internal messages display, and so serialize, differently. */
  lemma InternalDisplayInjective(a: string, b: string)
    ensures Serialize(Internal(a)) == Serialize(Internal(b)) ==> a == b
  {
    if Display(Internal(a)) == Display(Internal(b)) {
      FromStringDisplay(a);
      FromStringDisplay(b);
    }
  }
}
