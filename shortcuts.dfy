/**
 * The global-shortcut handler `build_bindings`: releasing the kill binding
 * (Ctrl+K) asks for the exit password, kills the sidecar on Windows and
 * exits; releasing Ctrl+Alt+Delete shows its prompt; Super+D and every
 * other shortcut do nothing but log.
 */
module Shortcuts {
  import opened Wrappers
  import opened AppState

  datatype Modifier = Control | Alt | Shift | Super

  datatype Code = KeyK | KeyD | Delete | OtherCode(name: string)

  /** `Shortcut::new(Some(mods), key)`; shortcuts compare by modifiers and key. */
  datatype Shortcut = Shortcut(mods: set<Modifier>, key: Code)

  datatype ShortcutState = Pressed | Released

  /** The three shortcuts the application registers, in the order the handler tests them. */
  datatype Bindings = Bindings(kill: Shortcut, ctrlAltDelete: Shortcut, minimized: Shortcut)

  const DEFAULT_BINDINGS: Bindings :=
    Bindings(Shortcut({Control}, KeyK), Shortcut({Control, Alt}, Delete), Shortcut({Super}, KeyD))

  const PASSWORD_PROMPT: string := "show-password-prompt"
  const CAD_PROMPT: string := "show-ctrl-alt-delete-prompt"
  const PASSWORD_EMIT_PANIC: string := "Failed to emit show-password-prompt"
  const CAD_EMIT_PANIC: string := "Failed to emit show-ctrl-alt-delete-prompt"

  /** What the handler decides to do about one shortcut event. */
  datatype Response = NoAction | KillSequence | CadPrompt

  /** The first binding equal to the shortcut decides; only a release does anything. */
  function Dispatch(b: Bindings, shortcut: Shortcut, state: ShortcutState): Response {
    if shortcut == b.kill then (if state == Released then KillSequence else NoAction)
    else if shortcut == b.ctrlAltDelete then (if state == Released then CadPrompt else NoAction)
    else NoAction
  }

  /** Only releases act, and the minimized binding never does unless it equals an earlier one. */
  lemma DispatchActsOnRelease(b: Bindings, shortcut: Shortcut, state: ShortcutState)
    ensures Dispatch(b, shortcut, state) != NoAction ==> state == Released
    ensures Dispatch(b, shortcut, state) == KillSequence <==> shortcut == b.kill && state == Released
    ensures Dispatch(b, shortcut, state) == CadPrompt <==>
      shortcut != b.kill && shortcut == b.ctrlAltDelete && state == Released
    ensures shortcut != b.kill && shortcut != b.ctrlAltDelete ==> Dispatch(b, shortcut, state) == NoAction
  {
  }

  /** With the registered bindings: Ctrl+K exits, Ctrl+Alt+Delete prompts, Super+D and Ctrl+Shift+K do nothing. */
  lemma DefaultDispatch(state: ShortcutState)
    ensures Dispatch(DEFAULT_BINDINGS, Shortcut({Control}, KeyK), Released) == KillSequence
    ensures Dispatch(DEFAULT_BINDINGS, Shortcut({Alt, Control}, Delete), Released) == CadPrompt
    ensures Dispatch(DEFAULT_BINDINGS, Shortcut({Super}, KeyD), state) == NoAction
    ensures Dispatch(DEFAULT_BINDINGS, Shortcut({Control, Shift}, KeyK), state) == NoAction
  {
    assert Shortcut({Alt, Control}, Delete) != DEFAULT_BINDINGS.kill by {
      assert Alt in Shortcut({Alt, Control}, Delete).mods;
    }
    assert Shortcut({Super}, KeyD) != DEFAULT_BINDINGS.ctrlAltDelete by {
      assert Super in Shortcut({Super}, KeyD).mods;
    }
    assert Shortcut({Control, Shift}, KeyK) != DEFAULT_BINDINGS.kill by {
      assert Shift in Shortcut({Control, Shift}, KeyK).mods;
    }
  }

  /** How the handler ends: it returns, asks the application to exit, or panics. */
  datatype BindingOutcome = Continue | Exit(code: int) | Panicked(reason: string)

  /**
   * `build_bindings` for one event. `emitOk` is whether the prompt event
   * could be emitted (the handler `expect`s it); `windows` selects the
   * Windows-only sidecar kill.
   */
  method BuildBindings(slot: ChildSlot, b: Bindings, shortcut: Shortcut, state: ShortcutState,
                       windows: bool, emitOk: bool)
    returns (emitted: seq<string>, victim: Option<ChildId>, outcome: BindingOutcome)
    requires slot.Valid()
    modifies slot`child, slot`killed
    ensures slot.Valid()
    ensures Dispatch(b, shortcut, state) == NoAction ==>
      emitted == [] && victim == None && outcome == Continue && unchanged(slot)
    ensures Dispatch(b, shortcut, state) == CadPrompt ==>
      victim == None && unchanged(slot) &&
      emitted == (if emitOk then [CAD_PROMPT] else []) &&
      outcome == (if emitOk then Continue else Panicked(CAD_EMIT_PANIC))
    ensures Dispatch(b, shortcut, state) == KillSequence && !emitOk ==>
      emitted == [] && victim == None && outcome == Panicked(PASSWORD_EMIT_PANIC) && unchanged(slot)
    ensures Dispatch(b, shortcut, state) == KillSequence && emitOk ==>
      emitted == [PASSWORD_PROMPT] &&
      (!windows ==> victim == None && outcome == Exit(0) && unchanged(slot)) &&
      (windows && slot.poisoned ==> victim == None && outcome == Panicked(RESULT_UNWRAP_PANIC) && unchanged(slot)) &&
      (windows && !slot.poisoned ==>
        victim == old(slot.child) && outcome == Exit(0) && slot.child == None &&
        slot.killed == old(slot.killed) + (if victim.Some? then [victim.value] else []))
  {
    emitted, victim, outcome := [], None, Continue;
    match Dispatch(b, shortcut, state)
    case NoAction =>
    case CadPrompt =>
      if !emitOk {
        return emitted, victim, Panicked(CAD_EMIT_PANIC);
      }
      emitted := [CAD_PROMPT];
    case KillSequence =>
      if !emitOk {
        return emitted, victim, Panicked(PASSWORD_EMIT_PANIC);
      }
      emitted := [PASSWORD_PROMPT];
      if windows {
        var locked;
        locked, victim := slot.TakeAndKill();
        if !locked {
          return emitted, victim, Panicked(RESULT_UNWRAP_PANIC);
        }
      }
      outcome := Exit(0);
  }
}
