/** The text format in which the main process and its worker exchange commands:
    `key=value;` fields, with `\` escaping `\`, `=` and `;`. */
module CommandCodec {
  import opened MachineWords
  import opened Decimal

  /** `to_sanitize_command_value` */
  const SPECIALS: string := "\\=;"

  predicate ShouldSanitize(c: char) {
    c in SPECIALS
  }

  predicate Plain(s: string) {
    forall i | 0 <= i < |s| :: !ShouldSanitize(s[i])
  }

  // --------------------------------------------------------------- conversions

  datatype Conversion = Converted(n: int) | Throws

  const SPACES: string := " \t\n\U{0B}\U{0C}\r"

  function SkipSpaces(s: string): string {
    if s != [] && s[0] in SPACES then SkipSpaces(s[1..]) else s
  }

  /** Whether the numeral of `s` is negative, and its digits. */
  function SignAndDigits(s: string): (bool, string) {
    var t := SkipSpaces(s);
    if t != [] && t[0] == '-' then (true, DigitPrefix(t[1..]))
    else if t != [] && t[0] == '+' then (false, DigitPrefix(t[1..]))
    else (false, DigitPrefix(t))
  }

  const INT_MAX: int := 0x7FFF_FFFF

  function Signed(negative: bool, magnitude: nat): int {
    var m: int := magnitude;
    if negative then -m else m
  }

  /** `std::stoi` */
  function Stoi(s: string): Conversion {
    var (negative, digits) := SignAndDigits(s);
    var n := Signed(negative, Value(digits));
    if digits == [] || n > INT_MAX || n < -INT_MAX - 1 then Throws else Converted(n)
  }

  /** `std::stoull`, which negates a numeral with a minus sign modulo 2^64. */
  function Stoull(s: string): Conversion {
    var (negative, digits) := SignAndDigits(s);
    if digits == [] || Value(digits) >= TWO_64 then Throws
    else if negative then Converted((TWO_64 - Value(digits)) % TWO_64)
    else Converted(Value(digits))
  }

  // ------------------------------------------------------------------- options

  /** The fields of `command_options_t` that a command can set. */
  datatype Options = Options(
    command: string, filePath: string, debug: bool, id: string, guildId: string, ready: int,
    seek: string, volume: int, helperChain: string, force: bool,
    ytdlpUtilExe: string, ytdlpQuery: string, ytdlpMaxEntries: int, ytdlpLibPath: string,
    gnuplotCmd: string, sysCmd: string, sysMaxOutLen: int, sysNoStderr: bool, sysWStderrMark: bool)

  /** `create_command_options` */
  const DEFAULTS := Options("", "", false, "", "", 0, "", 100, "", false, "", "", -1, "", "", "", 10000, false, false)

  /** The options after an assignment, and whether it threw. */
  datatype Assigned = Assigned(options: Options, threw: bool)

  /** The keys of the command that calls the system; an unknown key is ignored. */
  function AssignSystem(o: Options, key: string, value: string): Assigned {
    if key == "syscmd" then Assigned(o.(sysCmd := value), false)
    else if key == "sysmol" then
      if value == "" then Assigned(o.(sysMaxOutLen := 1), false)
      else
        match Stoull(value) case Converted(n) => Assigned(o.(sysMaxOutLen := n), false) case Throws => Assigned(o, true)
    else if key == "sysns" then Assigned(o.(sysNoStderr := value == "1"), false)
    else if key == "syswsm" then Assigned(o.(sysWStderrMark := value == "1"), false)
    else Assigned(o, false)
  }

  /** The keys of the commands that call yt-dlp or gnuplot. */
  function AssignTool(o: Options, key: string, value: string): Assigned {
    if key == "ytdex" then Assigned(o.(ytdlpUtilExe := value), false)
    else if key == "ytdq" then Assigned(o.(ytdlpQuery := value), false)
    else if key == "ytdlibp" then Assigned(o.(ytdlpLibPath := value), false)
    else if key == "ytdme" then
      match Stoi(value) case Converted(n) => Assigned(o.(ytdlpMaxEntries := n), false) case Throws => Assigned(o, true)
    else if key == "gplotcmd" then Assigned(o.(gnuplotCmd := value), false)
    else AssignSystem(o, key, value)
  }

  /** `assign_command_option_key_value` */
  function Assign(o: Options, key: string, value: string): Assigned {
    if key == "id" then Assigned(o.(id := value), false)
    else if key == "cmd" then Assigned(o.(command := value), false)
    else if key == "fp" then Assigned(o.(filePath := value), false)
    else if key == "dbg" then Assigned(o.(debug := value == "1"), false)
    else if key == "gid" then Assigned(o.(guildId := value), false)
    else if key == "rdy" then
      match Stoi(value) case Converted(n) => Assigned(o.(ready := n), false) case Throws => Assigned(o, true)
    else if key == "sk" then Assigned(o.(seek := value), false)
    else if key == "vl" then
      match Stoi(value) case Converted(n) => Assigned(o.(volume := n), false) case Throws => Assigned(o, true)
    else if key == "ehl" then Assigned(o.(helperChain := o.helperChain + "@" + value + "@"), false)
    else if key == "frc" then Assigned(o.(force := value == "1"), false)
    else AssignTool(o, key, value)
  }

  /** Assignments in order, up to and including the first that throws. */
  function AssignAll(o: Options, list: seq<(string, string)>): Assigned
    decreases |list|
  {
    if list == [] then Assigned(o, false)
    else
      var a := Assign(o, list[0].0, list[0].1);
      if a.threw then a else AssignAll(a.options, list[1..])
  }

  // ------------------------------------------------------------------ printing

  /** What `sanitize_command_value` returns. */
  function Sanitized(value: string): string {
    if value == [] then []
    else (if ShouldSanitize(value[0]) then ['\\', value[0]] else [value[0]]) + Sanitized(value[1..])
  }

  /** What `sanitize_command_key_value` returns: everything up to the first `=`
      as it is, the rest sanitized. */
  function SanitizedKeyValue(keyValue: string): string {
    if keyValue == [] then []
    else if keyValue[0] == '=' then ['='] + Sanitized(keyValue[1..])
    else [keyValue[0]] + SanitizedKeyValue(keyValue[1..])
  }

  /** The part of `SanitizedKeyValue` still to come once `checking`, that is once
      the first `=` has been seen. */
  function SanitizedRest(checking: bool, rest: string): string {
    if checking then Sanitized(rest) else SanitizedKeyValue(rest)
  }

  /** `create_arg` */
  function CreateArg(key: string, value: string): string {
    key + "=" + value + ";"
  }

  /** `create_arg_sanitize_value` */
  function CreateArgSanitizeValue(key: string, value: string): string {
    CreateArg(key, Sanitized(value))
  }

  // ------------------------------------------------------------------- parsing

  /** `parse_command_to_options` in the middle of a command: the fields it has
      closed, the one it is collecting, and whether the next character is
      escaped. */
  datatype Scanner = Scanner(closed: seq<string>, current: string, escaped: bool)

  function Read(st: Scanner, c: char): Scanner {
    if !st.escaped && c == '\\' then st.(escaped := true)
    else if !st.escaped && c == ';' then Scanner(st.closed + [st.current], "", false)
    else Scanner(st.closed, st.current + [c], false)
  }

  function ReadAll(st: Scanner, rest: string): Scanner
    decreases |rest|
  {
    if rest == [] then st else ReadAll(Read(st, rest[0]), rest[1..])
  }

  const START := Scanner([], "", false)

  /** The fields at the end of a command, where an empty one is no field. */
  function Closing(st: Scanner): seq<string> {
    if st.current == "" then st.closed else st.closed + [st.current]
  }

  /** The fields of a command, unescaped once. */
  function Fields(cmd: string): seq<string> {
    Closing(ReadAll(START, cmd))
  }

  /** `set_option` in the middle of a field. */
  datatype Splitter = Splitter(key: string, value: string, filling: bool, escaped: bool)

  function Take(st: Splitter, c: char): Splitter {
    if !st.escaped && c == '\\' then st.(escaped := true)
    else if !st.escaped && c == '=' then st.(filling := true)
    else if st.filling then st.(value := st.value + [c], escaped := false)
    else st.(key := st.key + [c], escaped := false)
  }

  function TakeAll(st: Splitter, rest: string): Splitter
    decreases |rest|
  {
    if rest == [] then st else TakeAll(Take(st, rest[0]), rest[1..])
  }

  /** The key and the value that `set_option` assigns. */
  function Split(option: string): (string, string) {
    var st := TakeAll(Splitter("", "", false, false), option);
    (st.key, st.value)
  }

  function Pair(field: string): (string, string) {
    Split(SanitizedKeyValue(field))
  }

  function Pairs(fields: seq<string>): (pairs: seq<(string, string)>)
    ensures |pairs| == |fields|
    ensures forall i | 0 <= i < |fields| :: pairs[i] == Pair(fields[i])
  {
    seq(|fields|, i requires 0 <= i < |fields| => Pair(fields[i]))
  }

  /** The assignments a command amounts to, in order. */
  function Assignments(cmd: string): seq<(string, string)> {
    Pairs(Fields(cmd))
  }

  // ------------------------------------------------------- the code, as written

  method SanitizeCommandValue(value: string) returns (newValue: string)
    ensures newValue == Sanitized(value)
  {
    newValue := "";
    for i := 0 to |value|
      invariant newValue + Sanitized(value[i..]) == Sanitized(value)
    {
      assert value[i..][1..] == value[i + 1..];
      if ShouldSanitize(value[i]) {
        newValue := newValue + ['\\'];
      }
      newValue := newValue + [value[i]];
    }
  }

  /** What sanitizing makes of one character. */
  function Piece(checking: bool, c: char): string {
    if checking && ShouldSanitize(c) then ['\\', c] else [c]
  }

  lemma SanitizedRestStep(done: string, checking: bool, s: string)
    requires s != []
    ensures done + SanitizedRest(checking, s)
         == (done + Piece(checking, s[0])) + SanitizedRest(checking || s[0] == '=', s[1..])
  {
    var rest := SanitizedRest(checking || s[0] == '=', s[1..]);
    assert SanitizedRest(checking, s) == Piece(checking, s[0]) + rest;
    assert done + (Piece(checking, s[0]) + rest) == (done + Piece(checking, s[0])) + rest;
  }

  method SanitizeCommandKeyValue(keyValue: string) returns (newKeyValue: string)
    ensures newKeyValue == SanitizedKeyValue(keyValue)
  {
    newKeyValue := "";
    var shouldCheck := false;
    for i := 0 to |keyValue|
      invariant newKeyValue + SanitizedRest(shouldCheck, keyValue[i..]) == SanitizedKeyValue(keyValue)
    {
      assert keyValue[i..][1..] == keyValue[i + 1..];
      SanitizedRestStep(newKeyValue, shouldCheck, keyValue[i..]);
      ghost var next := newKeyValue + Piece(shouldCheck, keyValue[i]);
      if shouldCheck && ShouldSanitize(keyValue[i]) {
        newKeyValue := newKeyValue + ['\\'];
      }
      if !shouldCheck && keyValue[i] == '=' {
        shouldCheck := true;
      }
      newKeyValue := newKeyValue + [keyValue[i]];
      assert newKeyValue == next;
    }
    assert keyValue[|keyValue|..] == [];
  }

  lemma {:induction false} ReadAllKeepsClosed(st: Scanner, rest: string)
    ensures st.closed <= ReadAll(st, rest).closed
    decreases |rest|
  {
    if rest != [] {
      ReadAllKeepsClosed(Read(st, rest[0]), rest[1..]);
    }
  }

  lemma {:induction false} AssignAllAppend(o: Options, a: seq<(string, string)>, b: seq<(string, string)>)
    ensures AssignAll(o, a + b) ==
            if AssignAll(o, a).threw then AssignAll(o, a) else AssignAll(AssignAll(o, a).options, b)
    decreases |a|
  {
    if a == [] {
      assert a + b == b;
    } else {
      assert (a + b)[1..] == a[1..] + b;
      AssignAllAppend(Assign(o, a[0].0, a[0].1).options, a[1..], b);
    }
  }

  lemma AssignAllStops(o: Options, fields: seq<string>, all: seq<string>)
    requires fields <= all && AssignAll(o, Pairs(fields)).threw
    ensures AssignAll(o, Pairs(all)) == AssignAll(o, Pairs(fields))
  {
    assert Pairs(all) == Pairs(fields) + Pairs(all[|fields|..]);
    AssignAllAppend(o, Pairs(fields), Pairs(all[|fields|..]));
  }

  lemma AssignAllSnoc(o: Options, fields: seq<string>, f: string)
    requires !AssignAll(o, Pairs(fields)).threw
    ensures AssignAll(o, Pairs(fields + [f])) == Assign(AssignAll(o, Pairs(fields)).options, Pair(f).0, Pair(f).1)
  {
    assert Pairs(fields + [f]) == Pairs(fields) + [Pair(f)];
    AssignAllAppend(o, Pairs(fields), [Pair(f)]);
    assert [Pair(f)][1..] == [];
  }

  /** A `command_options_t` that commands are parsed into. */
  class CommandOptions {
    var fields: Options

    constructor ()
      ensures fields == DEFAULTS
    {
      fields := DEFAULTS;
    }

    method SetOption(cmdOption: string) returns (threw: bool)
      modifies this
      ensures Assigned(fields, threw) == Assign(old(fields), Split(cmdOption).0, Split(cmdOption).1)
    {
      var opt, value := "", "";
      var fillingValue, includeNextSpecial := false, false;
      for i := 0 to |cmdOption|
        invariant TakeAll(Splitter(opt, value, fillingValue, includeNextSpecial), cmdOption[i..])
               == TakeAll(Splitter("", "", false, false), cmdOption)
      {
        var c := cmdOption[i];
        assert cmdOption[i..][1..] == cmdOption[i + 1..];
        if !includeNextSpecial {
          if c == '\\' {
            includeNextSpecial := true;
            continue;
          }
          if c == '=' {
            fillingValue := true;
            continue;
          }
        } else {
          includeNextSpecial := false;
        }
        if fillingValue {
          value := value + [c];
          continue;
        }
        opt := opt + [c];
      }
      assert cmdOption[|cmdOption|..] == [];
      var a := Assign(fields, opt, value);
      fields, threw := a.options, a.threw;
    }

    /** Parsing a command makes the assignments that its fields amount to. */
    method ParseCommandToOptions(cmd: string) returns (threw: bool)
      modifies this
      ensures Assigned(fields, threw) == AssignAll(old(fields), Assignments(cmd))
    {
      var includeNextSpecial := false;
      var tempStr := "";
      ghost var closed: seq<string> := [];
      for i := 0 to |cmd|
        invariant ReadAll(Scanner(closed, tempStr, includeNextSpecial), cmd[i..]) == ReadAll(START, cmd)
        invariant AssignAll(old(fields), Pairs(closed)) == Assigned(fields, false)
      {
        var c := cmd[i];
        assert cmd[i..][1..] == cmd[i + 1..];
        if !includeNextSpecial {
          if c == '\\' {
            includeNextSpecial := true;
            continue;
          }
          if c == ';' {
            AssignAllSnoc(old(fields), closed, tempStr);
            closed := closed + [tempStr];
            ReadAllKeepsClosed(Scanner(closed, "", false), cmd[i + 1..]);
            var optStr := SanitizeCommandKeyValue(tempStr);
            threw := SetOption(optStr);
            if threw {
              AssignAllStops(old(fields), closed, Fields(cmd));
              return;
            }
            tempStr := "";
            continue;
          }
        } else {
          includeNextSpecial := false;
        }
        tempStr := tempStr + [c];
      }
      assert cmd[|cmd|..] == [];
      threw := false;
      if tempStr != "" {
        AssignAllSnoc(old(fields), closed, tempStr);
        var optStr := SanitizeCommandKeyValue(tempStr);
        threw := SetOption(optStr);
      }
    }
  }
}
