/**
 * The sidecar's low-level keyboard hook (`WH_KEYBOARD_LL`): the procedure
 * that decides, for every keyboard event, whether it is consumed or handed
 * to the next hook, and the routine that installs the hook and pumps the
 * thread's messages to keep it alive.
 *
 * The `mapper` crate and the main crate's `key_mapper` module hold the same
 * code; both are modelled by the members below. The Win32 calls become
 * inputs: the async key states that `GetAsyncKeyState` reports, the result of
 * `SetWindowsHookExW`, and the values `GetMessageW` and `TranslateMessage`
 * return.
 */
module KeyHook {
  import opened Wrappers

  // Virtual-key codes and window messages of the Win32 API.
  const VK_TAB: nat := 0x09
  const VK_CONTROL: nat := 0x11
  const VK_MENU: nat := 0x12
  const VK_ESCAPE: nat := 0x1B
  const VK_DELETE: nat := 0x2E
  const VK_LWIN: nat := 0x5B
  const VK_RWIN: nat := 0x5C
  const VK_F4: nat := 0x73
  const WM_KEYDOWN: nat := 0x0100
  const WM_SYSKEYDOWN: nat := 0x0104

  /** Rust's `x as u32` on an `i16`: sign extension, read as unsigned. */
  function I16AsU32(x: I16): U32 {
    if x < 0 then x + 0x1_0000_0000 else x
  }

  /** The 16-bit two's-complement pattern of an `i16`. */
  function Bits16(x: I16): nat {
    if x < 0 then x + 0x1_0000 else x
  }

  /** `u & 0x8000 != 0`. */
  predicate HasBit15(u: nat) {
    (u / 0x8000) % 2 == 1
  }

  /**
   * `is_key_pressed`: the state `GetAsyncKeyState` reports, widened to
   * `u32`, has bit `0x8000` set; that is the sign bit of the `SHORT`.
   */
  function IsKeyPressed(state: I16): (pressed: bool)
    ensures pressed <==> state < 0
  {
    HasBit15(I16AsU32(state))
  }

  /** Widening first changes nothing: the test reads bit 15 of the 16-bit state. */
  lemma PressedIsBit15OfShort(state: I16)
    ensures IsKeyPressed(state) <==> HasBit15(Bits16(state))
    ensures IsKeyPressed(state) <==> Bits16(state) >= 0x8000
  {
  }

  /** What the hook procedure receives: `code`, `wParam` and the event's `vkCode`. */
  datatype HookEvent = HookEvent(code: I32, wParam: nat, vkCode: U32)

  /**
   * The three async key-state reads the procedure makes, in order: Alt for
   * the named-key rules, Ctrl, and Alt again for the catch-all rule.
   */
  datatype KeyReads = KeyReads(altForRules: I16, ctrl: I16, altForCatchAll: I16)

  /** `LRESULT(1)` (the event is consumed), or `CallNextHookEx` with the same arguments. */
  datatype HookResult = Suppress | CallNext(event: HookEvent)

  /** The procedure only inspects key-down messages delivered with a non-negative code. */
  predicate IsKeyDown(ev: HookEvent) {
    ev.code >= 0 && (ev.wParam == WM_KEYDOWN || ev.wParam == WM_SYSKEYDOWN)
  }

  /** The `system_key` match: its guards are tried in order. */
  function SystemKey(vk: U32, altDown: bool, ctrlDown: bool): bool {
    if vk == VK_LWIN || vk == VK_RWIN then true
    else if vk == VK_TAB && altDown then true
    else if vk == VK_ESCAPE && (altDown || ctrlDown) then true
    else if vk == VK_F4 && altDown then true
    else if vk == VK_MENU then true
    else if vk == VK_DELETE then true
    else false
  }

  /**
   * `keyboard_proc`: an event is either consumed or passed on unaltered, and
   * only key-down events are ever consumed.
   */
  function KeyboardProc(ev: HookEvent, keys: KeyReads): (r: HookResult)
    ensures r == Suppress || r == CallNext(ev)
    ensures r == Suppress ==> IsKeyDown(ev)
  {
    if IsKeyDown(ev) then
      var altDown := IsKeyPressed(keys.altForRules);
      var ctrlDown := IsKeyPressed(keys.ctrl);
      var systemKey := SystemKey(ev.vkCode, altDown, ctrlDown);
      if IsKeyPressed(keys.altForCatchAll) then Suppress
      else if systemKey then Suppress
      else CallNext(ev)
    else CallNext(ev)
  }

  /**
   * The suppression policy as a plain list of cases: a Windows key, Alt+Tab,
   * Ctrl+Escape or Alt+Escape, Alt+F4, the Alt key itself, Delete, or any key
   * while Alt is held.
   */
  predicate PolicySuppresses(vk: U32, keys: KeyReads) {
    var alt := IsKeyPressed(keys.altForRules);
    var ctrl := IsKeyPressed(keys.ctrl);
    vk in {VK_LWIN, VK_RWIN, VK_MENU, VK_DELETE}
    || (vk in {VK_TAB, VK_F4} && alt)
    || (vk == VK_ESCAPE && (alt || ctrl))
    || IsKeyPressed(keys.altForCatchAll)
  }

  /** The procedure implements exactly the policy on key-down events and forwards everything else. */
  lemma ProcMatchesPolicy(ev: HookEvent, keys: KeyReads)
    ensures KeyboardProc(ev, keys) == Suppress <==> IsKeyDown(ev) && PolicySuppresses(ev.vkCode, keys)
    ensures KeyboardProc(ev, keys) != Suppress ==> KeyboardProc(ev, keys) == CallNext(ev)
  {
  }

  /** Negative codes and messages other than key-down (key-up, say) go to the next hook unmodified. */
  lemma NonKeyDownForwarded(ev: HookEvent, keys: KeyReads)
    requires ev.code < 0 || (ev.wParam != WM_KEYDOWN && ev.wParam != WM_SYSKEYDOWN)
    ensures KeyboardProc(ev, keys) == CallNext(ev)
  {
  }

  /** While Alt is held, every key-down is consumed, whatever the key. */
  lemma AltHeldSuppressesAll(ev: HookEvent, keys: KeyReads)
    requires IsKeyDown(ev) && IsKeyPressed(keys.altForCatchAll)
    ensures KeyboardProc(ev, keys) == Suppress
  {
  }

  /** The Windows keys, Delete and Alt are consumed whatever the modifiers. */
  lemma UnconditionalKeys(ev: HookEvent, keys: KeyReads)
    requires IsKeyDown(ev) && ev.vkCode in {VK_LWIN, VK_RWIN, VK_DELETE, VK_MENU}
    ensures KeyboardProc(ev, keys) == Suppress
  {
  }

  /** Escape is consumed exactly when Alt or Ctrl is down, so Escape alone is forwarded. */
  lemma EscapeNeedsModifier(ev: HookEvent, keys: KeyReads)
    requires IsKeyDown(ev) && ev.vkCode == VK_ESCAPE
    ensures KeyboardProc(ev, keys) == Suppress <==>
      IsKeyPressed(keys.altForRules) || IsKeyPressed(keys.ctrl) || IsKeyPressed(keys.altForCatchAll)
    ensures KeyboardProc(ev, keys) != Suppress ==> KeyboardProc(ev, keys) == CallNext(ev)
  {
  }

  /** Tab and F4 are consumed only with Alt; Ctrl makes no difference to them. */
  lemma TabAndF4NeedAlt(ev: HookEvent, keys: KeyReads)
    requires IsKeyDown(ev) && ev.vkCode in {VK_TAB, VK_F4}
    ensures KeyboardProc(ev, keys) == Suppress <==>
      IsKeyPressed(keys.altForRules) || IsKeyPressed(keys.altForCatchAll)
    ensures KeyboardProc(ev, keys) != Suppress ==> KeyboardProc(ev, keys) == CallNext(ev)
  {
  }

  /**
   * Any key outside the named ones, with no modifier or only Ctrl, is
   * forwarded: 'A', Ctrl+Tab, Tab or F4 without Alt.
   */
  lemma OthersForwarded(ev: HookEvent, keys: KeyReads)
    requires ev.vkCode !in {VK_LWIN, VK_RWIN, VK_DELETE, VK_MENU}
    requires ev.vkCode != VK_ESCAPE || !IsKeyPressed(keys.ctrl)
    requires !IsKeyPressed(keys.altForRules) && !IsKeyPressed(keys.altForCatchAll)
    ensures KeyboardProc(ev, keys) == CallNext(ev)
  {
  }

  /** What `SetWindowsHookExW(..)?` yields: an error, or a hook handle (0 is the null handle). */
  datatype InstallResult = InstallError(code: int) | Installed(handle: nat)

  /** One turn of the message loop: what `GetMessageW` and `TranslateMessage` return. */
  datatype Message = Message(status: I32, translated: bool)

  /** `windows::core::Error`, reduced to its code. */
  datatype Win32Error = Win32Error(code: int)

  /**
   * How `capture_key` ends: it returns, it panics, or it is still pumping
   * messages when the inputs run out (the supervisor kills the process from
   * outside; there is no other way out of a healthy loop).
   */
  datatype CaptureOutcome = Returned(result: Result<Unit, Win32Error>) | Panicked(reason: string) | Pumping

  const NULL_HOOK_PANIC: string := "Failed to install hook"
  const TRANSLATE_PANIC: string := "TranslateMessage(&msg).unwrap()"

  /** The loop condition `GetMessageW(..).into()` fails (`WM_QUIT`), or `TranslateMessage(..).unwrap()` panics. */
  predicate StopsLoop(m: Message) {
    m.status == 0 || !m.translated
  }

  /** Index of the message at which the loop stops, or `|ms|` if it never does. */
  function FirstStop(ms: seq<Message>): (k: nat)
    ensures k <= |ms|
    ensures forall j :: 0 <= j < k ==> !StopsLoop(ms[j])
    ensures k < |ms| ==> StopsLoop(ms[k])
    decreases |ms|
  {
    if ms == [] then 0
    else if StopsLoop(ms[0]) then 0
    else 1 + FirstStop(ms[1..])
  }

  /**
   * How the message loop ends on the given inputs: it keeps pumping exactly
   * when no message stops it, and once running it never returns an error.
   */
  function PumpOutcome(ms: seq<Message>): (r: CaptureOutcome)
    ensures r == Pumping <==> forall j :: 0 <= j < |ms| ==> !StopsLoop(ms[j])
    ensures r.Returned? ==> r.result == Ok(Unit)
  {
    var k := FirstStop(ms);
    if k == |ms| then Pumping
    else if ms[k].status == 0 then Returned(Ok(Unit))
    else Panicked(TRANSLATE_PANIC)
  }

  /** The loop returns `Ok` exactly when `GetMessageW` yields false before any untranslated message. */
  lemma PumpReturnsOnQuit(ms: seq<Message>)
    ensures PumpOutcome(ms) == Returned(Ok(Unit)) <==>
      exists k :: 0 <= k < |ms| && ms[k].status == 0 && forall j :: 0 <= j < k ==> !StopsLoop(ms[j])
  {
    var k := FirstStop(ms);
    if k < |ms| && ms[k].status == 0 {
      assert 0 <= k < |ms| && ms[k].status == 0 && forall j :: 0 <= j < k ==> !StopsLoop(ms[j]);
    }
  }

  /** `capture_key` off Windows: returns `Ok(())` and does nothing else. */
  function CaptureKeyOffWindows(): (r: Result<Unit, Unit>)
    ensures r.Ok?
  {
    Ok(Unit)
  }

  /** The sidecar's hook thread: the process-wide `HOOK_HANDLE` and the messages it has dispatched. */
  class HookThread {
    var handle: nat
    ghost var handleWrites: nat
    var dispatched: seq<Message>

    constructor ()
      ensures handle == 0 && handleWrites == 0 && dispatched == []
    {
      handle := 0;
      handleWrites := 0;
      dispatched := [];
    }

    /**
     * `capture_key` on Windows: an install error is returned before
     * `HOOK_HANDLE` is written; otherwise the handle is written once, a null
     * handle panics, and only then does the message loop run, dispatching
     * each message until `GetMessageW` yields false.
     */
    method CaptureKey(install: InstallResult, messages: seq<Message>) returns (outcome: CaptureOutcome)
      modifies this
      ensures install.InstallError? ==>
        outcome == Returned(Err(Win32Error(install.code))) && unchanged(this)
      ensures install.Installed? ==> handle == install.handle && handleWrites == old(handleWrites) + 1
      ensures install == Installed(0) ==> outcome == Panicked(NULL_HOOK_PANIC) && dispatched == old(dispatched)
      ensures install.Installed? && install.handle != 0 ==>
        outcome == PumpOutcome(messages) && dispatched == old(dispatched) + messages[..FirstStop(messages)]
    {
      match install
      case InstallError(code) =>
        return Returned(Err(Win32Error(code)));
      case Installed(h) =>
        handle := h;
        handleWrites := handleWrites + 1;
        if handle == 0 {
          return Panicked(NULL_HOOK_PANIC);
        }
        var i := 0;
        while i < |messages| && messages[i].status != 0
          invariant 0 <= i <= |messages|
          invariant forall j :: 0 <= j < i ==> !StopsLoop(messages[j])
          invariant dispatched == old(dispatched) + messages[..i]
          invariant handle == h && handleWrites == old(handleWrites) + 1
        {
          if !messages[i].translated {
            assert FirstStop(messages) == i;
            return Panicked(TRANSLATE_PANIC);
          }
          dispatched := dispatched + [messages[i]];
          i := i + 1;
        }
        assert FirstStop(messages) == i;
        if i == |messages| {
          return Pumping;
        }
        return Returned(Ok(Unit));
    }
  }
}
