/**
 * The host serial-number readers. Each runs a platform tool (`wmic`,
 * `system_profiler`, or `cat` on the DMI serial file) and scans its standard
 * output line by line; the tool's output, or its absence when the tool could
 * not be run, is an input here. Each reader's loop is proved against a
 * recursive definition over the lines, and the properties of the readers are
 * proved about those definitions.
 */
module Serial {
  import opened Wrappers
  import opened Text

  // ----- get_windows_serial -----

  /** `get_windows_serial` passes over blank lines and the `SerialNumber` header. */
  predicate WindowsSkips(line: string) {
    Trim(line) == [] || Contains(line, "SerialNumber")
  }

  /** Line `i` is the first one the Windows reader does not pass over. */
  predicate IsFirstWindowsLine(lines: seq<string>, i: int) {
    0 <= i < |lines| && !WindowsSkips(lines[i]) && forall j :: 0 <= j < i ==> WindowsSkips(lines[j])
  }

  /** What the Windows reader makes of the lines: the first line not passed over, trimmed. */
  function WindowsSerialOf(lines: seq<string>): Option<string>
    decreases |lines|
  {
    if lines == [] then None
    else if WindowsSkips(lines[0]) then WindowsSerialOf(lines[1..])
    else Some(Trim(lines[0]))
  }

  /** The Windows serial is absent exactly when every line is blank or the header. */
  lemma {:induction false} WindowsSerialAbsent(lines: seq<string>)
    ensures WindowsSerialOf(lines).None? <==> forall i :: 0 <= i < |lines| ==> WindowsSkips(lines[i])
    decreases |lines|
  {
    if lines != [] {
      WindowsSerialAbsent(lines[1..]);
      assert forall i :: 1 <= i < |lines| ==> lines[i] == lines[1..][i - 1];
    }
  }

  /** Otherwise it is the first line that is neither, trimmed. */
  lemma {:induction false} WindowsSerialFirstLine(lines: seq<string>, i: int)
    requires IsFirstWindowsLine(lines, i)
    ensures WindowsSerialOf(lines) == Some(Trim(lines[i]))
    decreases i
  {
    if i > 0 {
      assert lines[i] == lines[1..][i - 1];
      assert IsFirstWindowsLine(lines[1..], i - 1);
      WindowsSerialFirstLine(lines[1..], i - 1);
    }
  }

  /** A Windows serial is non-empty and has no whitespace at either end. */
  lemma {:induction false} WindowsSerialClean(lines: seq<string>)
    ensures WindowsSerialOf(lines).Some? ==> IsClean(WindowsSerialOf(lines).value)
    decreases |lines|
  {
    if lines != [] {
      if WindowsSkips(lines[0]) {
        WindowsSerialClean(lines[1..]);
      } else {
        TrimIsClean(lines[0]);
      }
    }
  }

  /**
   * `get_windows_serial`, from the standard output of `wmic bios get
   * serialnumber`, or `None` when the tool could not be run.
   */
  method WindowsSerial(output: Option<string>) returns (serial: Option<string>)
    ensures serial == (if output.Some? then WindowsSerialOf(Lines(output.value)) else None)
  {
    if output.None? {
      return None;
    }
    var lines := Lines(output.value);
    for i := 0 to |lines|
      invariant WindowsSerialOf(lines[i..]) == WindowsSerialOf(lines)
    {
      assert lines[i..][0] == lines[i] && lines[i..][1..] == lines[i + 1..];
      if WindowsSkips(lines[i]) {
        continue;
      }
      return Some(Trim(lines[i]));
    }
    assert lines[|lines|..] == [];
    return None;
  }

  // ----- get_linux_serial -----

  /** `line.trim().is_empty()`. */
  predicate IsBlank(line: string) {
    Trim(line) == []
  }

  /** Line `i` is the first line that is not blank. */
  predicate IsFirstNonBlankLine(lines: seq<string>, i: int) {
    0 <= i < |lines| && !IsBlank(lines[i]) && forall j :: 0 <= j < i ==> IsBlank(lines[j])
  }

  /** What the Linux reader makes of the lines: the first non-blank line, trimmed. */
  function LinuxSerialOf(lines: seq<string>): Option<string>
    decreases |lines|
  {
    if lines == [] then None
    else if IsBlank(lines[0]) then LinuxSerialOf(lines[1..])
    else Some(Trim(lines[0]))
  }

  /** The Linux serial is absent exactly when every line is blank. */
  lemma {:induction false} LinuxSerialAbsent(lines: seq<string>)
    ensures LinuxSerialOf(lines).None? <==> forall i :: 0 <= i < |lines| ==> IsBlank(lines[i])
    decreases |lines|
  {
    if lines != [] {
      LinuxSerialAbsent(lines[1..]);
      assert forall i :: 1 <= i < |lines| ==> lines[i] == lines[1..][i - 1];
    }
  }

  /** Otherwise it is the first non-blank line, trimmed. */
  lemma {:induction false} LinuxSerialFirstLine(lines: seq<string>, i: int)
    requires IsFirstNonBlankLine(lines, i)
    ensures LinuxSerialOf(lines) == Some(Trim(lines[i]))
    decreases i
  {
    if i > 0 {
      assert lines[i] == lines[1..][i - 1];
      assert IsFirstNonBlankLine(lines[1..], i - 1);
      LinuxSerialFirstLine(lines[1..], i - 1);
    }
  }

  /** A Linux serial is non-empty and has no whitespace at either end. */
  lemma {:induction false} LinuxSerialClean(lines: seq<string>)
    ensures LinuxSerialOf(lines).Some? ==> IsClean(LinuxSerialOf(lines).value)
    decreases |lines|
  {
    if lines != [] {
      if IsBlank(lines[0]) {
        LinuxSerialClean(lines[1..]);
      } else {
        TrimIsClean(lines[0]);
      }
    }
  }

  /**
   * `get_linux_serial`, from what `cat /sys/class/dmi/id/product_serial`
   * prints, or `None` when the tool could not be run.
   */
  method LinuxSerial(output: Option<string>) returns (serial: Option<string>)
    ensures serial == (if output.Some? then LinuxSerialOf(Lines(output.value)) else None)
  {
    if output.None? {
      return None;
    }
    var lines := Lines(output.value);
    for i := 0 to |lines|
      invariant LinuxSerialOf(lines[i..]) == LinuxSerialOf(lines)
    {
      assert lines[i..][0] == lines[i] && lines[i..][1..] == lines[i + 1..];
      if IsBlank(lines[i]) {
        continue;
      }
      return Some(Trim(lines[i]));
    }
    assert lines[|lines|..] == [];
    return None;
  }

  // ----- get_macos_serial -----

  /** The line `system_profiler SPHardwareDataType` prints the serial on. */
  predicate IsMacSerialLine(line: string) {
    StartsWith(TrimStart(line), "Serial Number")
  }

  /** Line `i` is the first serial line. */
  predicate IsFirstMacLine(lines: seq<string>, i: int) {
    0 <= i < |lines| && IsMacSerialLine(lines[i]) && forall j :: 0 <= j < i ==> !IsMacSerialLine(lines[j])
  }

  /** `line.split(':').nth(1)`. */
  function SecondField(line: string): Option<string> {
    var parts := Split(line, ':');
    if |parts| > 1 then Some(parts[1]) else None
  }

  /**
   * What the macOS reader makes of the lines: the first serial line
   * decides; its second `:`-separated field, trimmed, or `None` when it has
   * no `:` (the `?` returns from the function).
   */
  function MacSerialOf(lines: seq<string>): Option<string>
    decreases |lines|
  {
    if lines == [] then None
    else if IsMacSerialLine(lines[0]) then
      match SecondField(lines[0])
      case None => None
      case Some(field) => Some(Trim(field))
    else MacSerialOf(lines[1..])
  }

  /** Without a serial line there is no serial. */
  lemma {:induction false} MacSerialAbsent(lines: seq<string>)
    requires forall i :: 0 <= i < |lines| ==> !IsMacSerialLine(lines[i])
    ensures MacSerialOf(lines).None?
    decreases |lines|
  {
    if lines != [] {
      assert forall i :: 1 <= i < |lines| ==> lines[1..][i - 1] == lines[i];
      MacSerialAbsent(lines[1..]);
    }
  }

  /**
   * With one, the first serial line decides alone, later lines
   * notwithstanding: the result is present exactly when that line has a
   * `:`, and it is the trimmed text between its first `:` and the next.
   */
  lemma {:induction false} MacSerialFirstLine(lines: seq<string>, i: int)
    requires IsFirstMacLine(lines, i)
    ensures MacSerialOf(lines).Some? <==> ':' in lines[i]
    ensures MacSerialOf(lines).Some? ==> MacSerialOf(lines).value == Trim(Split(lines[i], ':')[1])
    decreases i
  {
    if i > 0 {
      assert lines[i] == lines[1..][i - 1];
      assert IsFirstMacLine(lines[1..], i - 1);
      MacSerialFirstLine(lines[1..], i - 1);
    } else {
      SplitSecondPiece(lines[0], ':');
    }
  }

  /**
   * `get_macos_serial`, from the standard output of `system_profiler
   * SPHardwareDataType`, or `None` when the tool could not be run.
   */
  method MacSerial(output: Option<string>) returns (serial: Option<string>)
    ensures serial == (if output.Some? then MacSerialOf(Lines(output.value)) else None)
  {
    if output.None? {
      return None;
    }
    var lines := Lines(output.value);
    for i := 0 to |lines|
      invariant MacSerialOf(lines[i..]) == MacSerialOf(lines)
    {
      assert lines[i..][0] == lines[i] && lines[i..][1..] == lines[i + 1..];
      if StartsWith(TrimStart(lines[i]), "Serial Number") {
        var field := SecondField(lines[i]);
        if field.None? {
          return None;
        }
        return Some(Trim(field.value));
      }
    }
    assert lines[|lines|..] == [];
    return None;
  }

  /**
   * Unlike the other two readers, the macOS reader can yield an empty
   * serial: a serial line whose only `:` ends it, such as `Serial Number:`,
   * gives `Some("")`.
   */
  lemma MacSerialMayBeEmpty(line: string)
    requires IsMacSerialLine(line) && '\n' !in line
    requires line != [] && line[|line| - 1] == ':' && ':' !in line[..|line| - 1]
    ensures MacSerialOf(Lines(line)) == Some("")
  {
    EmptySecondField(line);
    OneLine(line);
    var lines := [line];
    assert lines[0] == line;
    assert MacSerialOf(lines) == Some(Trim(""));
  }

  /** A line whose only `:` ends it has an empty second field. */
  lemma EmptySecondField(line: string)
    requires line != [] && line[|line| - 1] == ':' && ':' !in line[..|line| - 1]
    ensures SecondField(line) == Some("")
  {
    var head := line[..|line| - 1];
    assert head + [':'] == line;
    LastColonSplit(head);
  }

  /** Text with no line feed is one line. */
  lemma OneLine(s: string)
    requires s != [] && '\n' !in s
    ensures Lines(s) == [s]
  {
  }

  /** Splitting `s + ":"`, where `s` has no colon, leaves an empty second piece. */
  lemma LastColonSplit(s: string)
    requires ':' !in s
    ensures Split(s + ":", ':') == [s, ""]
  {
    var t := s + ":";
    assert t[|s|] == ':';
    assert forall j :: 0 <= j < |s| ==> t[j] == s[j];
    assert IndexOf(t, ':') == |s|;
    assert t[..|s|] == s;
    assert t[|s| + 1..] == [];
  }
}
