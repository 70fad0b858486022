/**
 * The sidecar supervisor: spawning the `mapper` sidecar on Windows, the loop
 * that consumes its event stream, and the exit handler that kills it.
 */
module Sidecar {
  import opened Wrappers
  import opened AppState

  type Byte = x: int | 0 <= x < 0x100

  /** `tauri_plugin_shell::process::CommandEvent`; `OtherEvent` stands for the variants added later. */
  datatype CommandEvent =
    | Stdout(line: seq<Byte>)
    | Stderr(line: seq<Byte>)
    | Error(message: string)
    | Terminated(code: Option<int>, signal: Option<int>)
    | OtherEvent

  datatype Level = Info | ErrorLevel

  /** A line written to the log about one event. */
  datatype LogEntry = LogEntry(level: Level, event: CommandEvent)

  /** What the loop does with one event. */
  datatype Reaction = Log(level: Level) | LogAndExit(code: int) | Ignore

  /**
   * Standard output is logged as information and standard error as an
   * error; a structured error is logged and ends the process with status 1;
   * termination is only logged; anything else is ignored.
   */
  function Classify(e: CommandEvent): (r: Reaction)
    ensures r.LogAndExit? <==> e.Error?
    ensures r.LogAndExit? ==> r.code == 1
    ensures e.Stdout? || e.Terminated? ==> r == Log(Info)
    ensures e.Stderr? ==> r == Log(ErrorLevel)
    ensures e.OtherEvent? <==> r == Ignore
  {
    match e
    case Stdout(_) => Log(Info)
    case Stderr(_) => Log(ErrorLevel)
    case Error(_) => LogAndExit(1)
    case Terminated(_, _) => Log(Info)
    case OtherEvent => Ignore
  }

  /** The log lines one event produces. */
  function EntriesOf(e: CommandEvent): seq<LogEntry> {
    match Classify(e)
    case Log(level) => [LogEntry(level, e)]
    case LogAndExit(_) => [LogEntry(ErrorLevel, e)]
    case Ignore => []
  }

  /** The log lines a sequence of events produces, in order. */
  function LogsOf(es: seq<CommandEvent>): seq<LogEntry>
    decreases |es|
  {
    if es == [] then [] else LogsOf(es[..|es| - 1]) + EntriesOf(es[|es| - 1])
  }

  /** Index of the first structured error, or `|es|`. */
  function FirstError(es: seq<CommandEvent>): (k: nat)
    ensures k <= |es|
    ensures forall j :: 0 <= j < k ==> !es[j].Error?
    ensures k < |es| ==> es[k].Error?
    decreases |es|
  {
    if es == [] then 0
    else if es[0].Error? then 0
    else 1 + FirstError(es[1..])
  }

  /**
   * `while let Some(event) = rx.recv().await { match event { .. } }`: the
   * events are consumed in order until the stream ends or a structured
   * error exits the process.
   */
  method Supervise(events: seq<CommandEvent>) returns (consumed: nat, logs: seq<LogEntry>, exitCode: Option<int>)
    ensures exitCode.Some? <==> exists i :: 0 <= i < |events| && events[i].Error?
    ensures exitCode.Some? ==> exitCode == Some(1) && consumed == FirstError(events) + 1
    ensures exitCode.None? ==> consumed == |events|
    ensures consumed <= |events| && logs == LogsOf(events[..consumed])
  {
    consumed, logs, exitCode := 0, [], None;
    while consumed < |events|
      invariant consumed <= |events|
      invariant forall j :: 0 <= j < consumed ==> !events[j].Error?
      invariant logs == LogsOf(events[..consumed])
    {
      var event := events[consumed];
      assert events[..consumed + 1][..consumed] == events[..consumed];
      consumed := consumed + 1;
      logs := logs + EntriesOf(event);
      match Classify(event)
      case LogAndExit(code) =>
        assert FirstError(events) == consumed - 1;
        return consumed, logs, Some(code);
      case _ =>
    }
  }

  /** What became of the sidecar during setup. */
  datatype SpawnSetup =
    | NotWindows
    | SidecarNotFound(reason: string)
    | SpawnFailed(exitCode: int)
    | Spawned(child: ChildId, stored: bool)

  /**
   * The Windows branch of setup: a failed lookup of the `mapper` sidecar is
   * only logged; a failed spawn exits with status 1; a spawned child is
   * stored in the slot (a lock error is only logged).
   */
  method SpawnSidecar(slot: ChildSlot, windows: bool, lookup: Result<Unit, string>, spawn: Result<ChildId, string>)
    returns (setup: SpawnSetup)
    requires slot.Valid() && (spawn.Ok? ==> spawn.value !in slot.killed)
    modifies slot`child
    ensures slot.Valid()
    ensures !windows ==> setup == NotWindows && slot.child == old(slot.child)
    ensures windows && lookup.Err? ==> setup == SidecarNotFound(lookup.error) && slot.child == old(slot.child)
    ensures windows && lookup.Ok? && spawn.Err? ==> setup == SpawnFailed(1) && slot.child == old(slot.child)
    ensures windows && lookup.Ok? && spawn.Ok? ==>
      setup == Spawned(spawn.value, !slot.poisoned) &&
      slot.child == (if slot.poisoned then old(slot.child) else Some(spawn.value))
  {
    if !windows {
      return NotWindows;
    }
    if lookup.Err? {
      return SidecarNotFound(lookup.error);
    }
    if spawn.Err? {
      return SpawnFailed(1);
    }
    var stored := slot.Store(spawn.value);
    return Spawned(spawn.value, stored);
  }

  /**
   * The `ExitRequested` handler. On Windows the slot is emptied twice over
   * (the second time finds nothing); elsewhere once. A lock error is logged,
   * never a panic.
   */
  method OnExitRequested(slot: ChildSlot, windows: bool) returns (victims: seq<ChildId>, lockErrors: nat)
    requires slot.Valid()
    modifies slot`child, slot`killed
    ensures slot.Valid()
    ensures slot.poisoned ==> victims == [] && slot.child == old(slot.child) && lockErrors == (if windows then 2 else 1)
    ensures !slot.poisoned ==>
      slot.child == None && lockErrors == 0 &&
      victims == (if old(slot.child).Some? then [old(slot.child).value] else [])
    ensures slot.killed == old(slot.killed) + victims
  {
    victims, lockErrors := [], 0;
    if windows {
      var locked, victim := slot.TakeAndKill();
      if !locked {
        lockErrors := lockErrors + 1;
      }
      if victim.Some? {
        victims := victims + [victim.value];
      }
    }
    var locked, victim := slot.TakeAndKill();
    if !locked {
      lockErrors := lockErrors + 1;
    }
    if victim.Some? {
      victims := victims + [victim.value];
    }
  }
}
