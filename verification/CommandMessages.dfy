/** The commands that the program sends, and the options they are read as. */
module CommandMessages {
  import opened MachineWords
  import opened Decimal
  import opened CommandCodec
  import opened CommandRoundTrip

  // -------------------------------------------------------------------- fields

  lemma SanitizedThen(key: string, value: string, rest: string)
    requires Plain(key)
    ensures Assignments(CreateArgSanitizeValue(key, value) + rest) == [(key, value)] + Assignments(rest)
  {
    var front := key + "=" + Sanitized(value);
    PlainExcludes(key);
    ReadAllAppend(START, key + "=", Sanitized(value));
    ReadUnescaped(START, key + "=");
    assert "" + (key + "=") == key + "=";
    ReadSanitized(Scanner([], key + "=", false), value);
    ParseDistributes(front, rest);
    PrintOne(key, value);
    RoundTrip([(key, value)]);
  }

  lemma PrintOne(key: string, value: string)
    ensures Print([(key, value)]) == CreateArgSanitizeValue(key, value)
  {
    assert [(key, value)][1..] == [];
  }

  /** A sanitized argument at the front is assigned before the rest is read. */
  lemma Sets(o: Options, key: string, value: string, rest: string, next: Options)
    requires Plain(key) && Assign(o, key, value) == Assigned(next, false)
    ensures AssignAll(o, Assignments(CreateArgSanitizeValue(key, value) + rest)) == AssignAll(next, Assignments(rest))
  {
    SanitizedThen(key, value, rest);
    AssignFirst(o, key, value, Assignments(rest));
  }

  /** So is a plain value that was not sanitized. */
  lemma SetsPlain(o: Options, key: string, value: string, rest: string, next: Options)
    requires Plain(key) && Plain(value) && Assign(o, key, value) == Assigned(next, false)
    ensures AssignAll(o, Assignments(CreateArg(key, value) + rest)) == AssignAll(next, Assignments(rest))
  {
    PlainStays(value);
    Sets(o, key, value, rest, next);
  }

  lemma NothingMore(o: Options)
    ensures AssignAll(o, Assignments("")) == Assigned(o, false)
  {
  }

  /** The keys that set a text. */
  lemma TextKeys(o: Options, v: string)
    ensures Assign(o, "id", v) == Assigned(o.(id := v), false)
    ensures Assign(o, "cmd", v) == Assigned(o.(command := v), false)
    ensures Assign(o, "fp", v) == Assigned(o.(filePath := v), false)
    ensures Assign(o, "gid", v) == Assigned(o.(guildId := v), false)
    ensures Assign(o, "sk", v) == Assigned(o.(seek := v), false)
  {
  }

  lemma ToolTextKeys(o: Options, v: string)
    ensures Assign(o, "ytdex", v) == Assigned(o.(ytdlpUtilExe := v), false)
    ensures Assign(o, "ytdq", v) == Assigned(o.(ytdlpQuery := v), false)
    ensures Assign(o, "ytdlibp", v) == Assigned(o.(ytdlpLibPath := v), false)
    ensures Assign(o, "gplotcmd", v) == Assigned(o.(gnuplotCmd := v), false)
    ensures Assign(o, "syscmd", v) == Assigned(o.(sysCmd := v), false)
  {
  }

  /** How the program writes a flag. */
  function Flag(b: bool): string {
    if b then "1" else "0"
  }

  lemma FlagKeys(o: Options, b: bool)
    ensures Assign(o, "dbg", Flag(b)) == Assigned(o.(debug := b), false)
    ensures Assign(o, "frc", Flag(b)) == Assigned(o.(force := b), false)
    ensures Assign(o, "sysns", Flag(b)) == Assigned(o.(sysNoStderr := b), false)
    ensures Assign(o, "syswsm", Flag(b)) == Assigned(o.(sysWStderrMark := b), false)
    ensures Plain(Flag(b))
  {
  }

  lemma NumberKeys(o: Options, n: int)
    requires -INT_MAX - 1 <= n <= INT_MAX
    ensures Assign(o, "rdy", IntToString(n)) == Assigned(o.(ready := n), false)
    ensures Assign(o, "vl", IntToString(n)) == Assigned(o.(volume := n), false)
    ensures Assign(o, "ytdme", IntToString(n)) == Assigned(o.(ytdlpMaxEntries := n), false)
  {
    StoiReads(n);
  }

  lemma StoullReads(n: nat)
    requires n < TWO_64
    ensures Stoull(ToString(n)) == Converted(n) && Plain(ToString(n))
  {
    var s := ToString(n);
    ValueOfToString(n);
    assert s[..|s|] == s;
    DigitPrefixIs(s, |s|);
    DigitsAreNoSpaces(s[0]);
    assert SignAndDigits(s) == (false, s);
    DigitsAreSafe(s);
  }

  lemma DigitsAreSafe(s: string)
    requires AllDigits(s)
    ensures Plain(s)
  {
    forall i | 0 <= i < |s| ensures !ShouldSanitize(s[i]) {
      assert IsDigit(s[i]);
    }
  }

  lemma LengthKey(o: Options, n: nat)
    requires n < TWO_64
    ensures Assign(o, "sysmol", ToString(n)) == Assigned(o.(sysMaxOutLen := n), false)
    ensures Assign(o, "sysmol", "") == Assigned(o.(sysMaxOutLen := 1), false)
  {
    StoullReads(n);
  }

  lemma IntIsPlain(n: int)
    ensures Plain(IntToString(n))
  {
    var s := IntToString(n);
    DigitsAreSafe(ToString(if n < 0 then -n else n));
    if n < 0 {
      forall i | 0 <= i < |s| ensures !ShouldSanitize(s[i]) {
        assert i > 0 ==> s[i] == ToString(-n)[i - 1];
      }
    }
  }

  lemma KeysArePlain()
    ensures Plain("id") && Plain("cmd") && Plain("fp") && Plain("dbg") && Plain("sk") && Plain("vl") && Plain("frc")
    ensures Plain("ehl") && Plain("gid")
  {
  }

  lemma ToolKeysArePlain()
    ensures Plain("ytdex") && Plain("ytdq") && Plain("ytdlibp") && Plain("ytdme") && Plain("gplotcmd")
    ensures Plain("syscmd") && Plain("sysns") && Plain("syswsm") && Plain("sysmol")
  {
  }

  lemma CommandsArePlain()
    ensures Plain("dlm") && Plain("ytd") && Plain("sys") && Plain("shut")
  {
  }

  // ------------------------------------------------------------------ messages

  /** Downloading a track. */
  function DownloadCommand(id: string, path: string, url: string, exe: string, debug: bool): string {
    CreateArgSanitizeValue("id", id)
    + (CreateArg("cmd", "dlm")
       + (CreateArgSanitizeValue("fp", path)
          + (CreateArgSanitizeValue("ytdq", url)
             + (CreateArgSanitizeValue("ytdex", exe) + (CreateArg("dbg", Flag(debug)) + "")))))
  }

  /** The worker reads every field of it, whatever it contains, and leaves all other
      options as they are in a fresh set. */
  lemma DownloadCommandParses(id: string, path: string, url: string, exe: string, debug: bool)
    ensures AssignAll(DEFAULTS, Assignments(DownloadCommand(id, path, url, exe, debug)))
         == Assigned(Options("dlm", path, debug, id, "", 0, "", 100, "", false,
                             exe, url, -1, "", "", "", 10000, false, false), false)
  {
    KeysArePlain();
    ToolKeysArePlain();
    CommandsArePlain();
    var o0 := DEFAULTS;
    var o1 := o0.(id := id);
    var o2 := o1.(command := "dlm");
    var o3 := o2.(filePath := path);
    var o4 := o3.(ytdlpQuery := url);
    var o5 := o4.(ytdlpUtilExe := exe);
    var o6 := o5.(debug := debug);
    TextKeys(o0, id);
    TextKeys(o1, "dlm");
    TextKeys(o2, path);
    ToolTextKeys(o3, url);
    ToolTextKeys(o4, exe);
    FlagKeys(o5, debug);
    var r6 := "";
    var r5 := CreateArg("dbg", Flag(debug)) + r6;
    var r4 := CreateArgSanitizeValue("ytdex", exe) + r5;
    var r3 := CreateArgSanitizeValue("ytdq", url) + r4;
    var r2 := CreateArgSanitizeValue("fp", path) + r3;
    var r1 := CreateArg("cmd", "dlm") + r2;
    Sets(o0, "id", id, r1, o1);
    SetsPlain(o1, "cmd", "dlm", r2, o2);
    Sets(o2, "fp", path, r3, o3);
    Sets(o3, "ytdq", url, r4, o4);
    Sets(o4, "ytdex", exe, r5, o5);
    SetsPlain(o5, "dbg", Flag(debug), r6, o6);
    NothingMore(o6);
  }

  /** Looking a query up with yt-dlp; `entries` is at least 1 where a limit is given. */
  function YtdlpCommand(id: string, exe: string, lib: string, query: string, entries: int): string {
    CreateArg("cmd", "ytd")
    + (CreateArgSanitizeValue("id", id)
       + (CreateArgSanitizeValue("ytdex", exe)
          + (CreateArgSanitizeValue("ytdlibp", lib)
             + (CreateArgSanitizeValue("ytdq", query)
                + (if entries >= 1 then CreateArg("ytdme", IntToString(entries)) + "" else "")))))
  }

  /** The limit is read as the number given, or left at -1. */
  lemma YtdlpCommandParses(id: string, exe: string, lib: string, query: string, entries: int)
    requires entries <= INT_MAX
    ensures AssignAll(DEFAULTS, Assignments(YtdlpCommand(id, exe, lib, query, entries)))
         == Assigned(Options("ytd", "", false, id, "", 0, "", 100, "", false,
                             exe, query, if entries >= 1 then entries else -1, lib, "", "", 10000, false, false), false)
  {
    KeysArePlain();
    ToolKeysArePlain();
    CommandsArePlain();
    var o0 := DEFAULTS;
    var o1 := o0.(command := "ytd");
    var o2 := o1.(id := id);
    var o3 := o2.(ytdlpUtilExe := exe);
    var o4 := o3.(ytdlpLibPath := lib);
    var o5 := o4.(ytdlpQuery := query);
    TextKeys(o0, "ytd");
    TextKeys(o1, id);
    ToolTextKeys(o2, exe);
    ToolTextKeys(o3, lib);
    ToolTextKeys(o4, query);
    var r5 := if entries >= 1 then CreateArg("ytdme", IntToString(entries)) + "" else "";
    var r4 := CreateArgSanitizeValue("ytdq", query) + r5;
    var r3 := CreateArgSanitizeValue("ytdlibp", lib) + r4;
    var r2 := CreateArgSanitizeValue("ytdex", exe) + r3;
    var r1 := CreateArgSanitizeValue("id", id) + r2;
    SetsPlain(o0, "cmd", "ytd", r1, o1);
    Sets(o1, "id", id, r2, o2);
    Sets(o2, "ytdex", exe, r3, o3);
    Sets(o3, "ytdlibp", lib, r4, o4);
    Sets(o4, "ytdq", query, r5, o5);
    EntriesLast(o5, entries, r5);
  }

  lemma EntriesLast(o: Options, entries: int, rest: string)
    requires entries <= INT_MAX
    requires rest == if entries >= 1 then CreateArg("ytdme", IntToString(entries)) + "" else ""
    ensures AssignAll(o, Assignments(rest))
         == Assigned(if entries >= 1 then o.(ytdlpMaxEntries := entries) else o, false)
  {
    if entries >= 1 {
      ToolKeysArePlain();
      IntIsPlain(entries);
      NumberKeys(o, entries);
      SetsPlain(o, "ytdme", IntToString(entries), "", o.(ytdlpMaxEntries := entries));
      NothingMore(o.(ytdlpMaxEntries := entries));
    } else {
      NothingMore(o);
    }
  }

  /** Calling the system; the id is made of numbers and dots. */
  function SystemCommand(id: string, command: string, noStderr: bool, marks: bool, maxLen: nat): string {
    CreateArg("id", id)
    + (CreateArg("cmd", "sys")
       + (CreateArgSanitizeValue("syscmd", command)
          + (CreateArg("sysns", Flag(noStderr))
             + (CreateArg("syswsm", Flag(marks)) + (CreateArg("sysmol", ToString(maxLen)) + "")))))
  }

  lemma SystemCommandParses(id: string, command: string, noStderr: bool, marks: bool, maxLen: nat)
    requires Plain(id) && maxLen < TWO_64
    ensures AssignAll(DEFAULTS, Assignments(SystemCommand(id, command, noStderr, marks, maxLen)))
         == Assigned(Options("sys", "", false, id, "", 0, "", 100, "", false,
                             "", "", -1, "", "", command, maxLen, noStderr, marks), false)
  {
    KeysArePlain();
    ToolKeysArePlain();
    CommandsArePlain();
    var o0 := DEFAULTS;
    var o1 := o0.(id := id);
    var o2 := o1.(command := "sys");
    var o3 := o2.(sysCmd := command);
    var o4 := o3.(sysNoStderr := noStderr);
    var o5 := o4.(sysWStderrMark := marks);
    var o6 := o5.(sysMaxOutLen := maxLen);
    TextKeys(o0, id);
    TextKeys(o1, "sys");
    ToolTextKeys(o2, command);
    FlagKeys(o3, noStderr);
    FlagKeys(o4, marks);
    LengthKey(o5, maxLen);
    StoullReads(maxLen);
    var r5 := CreateArg("sysmol", ToString(maxLen)) + "";
    var r4 := CreateArg("syswsm", Flag(marks)) + r5;
    var r3 := CreateArg("sysns", Flag(noStderr)) + r4;
    var r2 := CreateArgSanitizeValue("syscmd", command) + r3;
    var r1 := CreateArg("cmd", "sys") + r2;
    FlagKeys(o3, marks);
    SetsPlain(o0, "id", id, r1, o1);
    SetsPlain(o1, "cmd", "sys", r2, o2);
    Sets(o2, "syscmd", command, r3, o3);
    SetsPlain(o3, "sysns", Flag(noStderr), r4, o4);
    SetsPlain(o4, "syswsm", Flag(marks), r5, o5);
    SetsPlain(o5, "sysmol", ToString(maxLen), "", o6);
    NothingMore(o6);
  }

  /** What the worker answers when it is done: the file with the result, or none. */
  function ResultMessage(id: string, command: string, path: string): string {
    CreateArgSanitizeValue("id", id) + (CreateArg("cmd", command) + (CreateArgSanitizeValue("fp", path) + ""))
  }

  lemma ResultMessageParses(o: Options, id: string, command: string, path: string)
    requires Plain(command)
    ensures AssignAll(o, Assignments(ResultMessage(id, command, path)))
         == Assigned(o.(id := id, command := command, filePath := path), false)
  {
    KeysArePlain();
    var o1 := o.(id := id);
    var o2 := o1.(command := command);
    var o3 := o2.(filePath := path);
    TextKeys(o, id);
    TextKeys(o1, command);
    TextKeys(o2, path);
    var r2 := CreateArgSanitizeValue("fp", path) + "";
    var r1 := CreateArg("cmd", command) + r2;
    Sets(o, "id", id, r1, o1);
    SetsPlain(o1, "cmd", command, r2, o2);
    Sets(o2, "fp", path, "", o3);
    NothingMore(o3);
  }

  /** An exit command that a caller forces. */
  lemma ForcedExitParses(o: Options, id: string)
    ensures AssignAll(o, Assignments(ExitCommand(id) + CreateArg("frc", "1")))
         == Assigned(o.(id := id, command := "shut", force := true), false)
  {
    KeysArePlain();
    CommandsArePlain();
    var o1 := o.(id := id);
    var o2 := o1.(command := "shut");
    var o3 := o2.(force := true);
    TextKeys(o, id);
    TextKeys(o1, "shut");
    FlagKeys(o2, true);
    var r2 := CreateArg("frc", "1") + "";
    var r1 := CreateArg("cmd", "shut") + r2;
    Sets(o, "id", id, r1, o1);
    SetsPlain(o1, "cmd", "shut", r2, o2);
    SetsPlain(o2, "frc", "1", "", o3);
    NothingMore(o3);
    assert ExitCommand(id) + CreateArg("frc", "1") == CreateArgSanitizeValue("id", id) + r1;
  }

  /** What the audio processor understands: a position to seek, a volume, or a chain of
      effects.  The command is the key of the field it sets. */
  lemma SeekMessageParses(seek: string)
    ensures AssignAll(DEFAULTS, Assignments(CreateArg("cmd", "sk") + (CreateArgSanitizeValue("sk", seek) + "")))
         == Assigned(DEFAULTS.(command := "sk", seek := seek), false)
  {
    KeysArePlain();
    AudioMessage("sk", seek, DEFAULTS.(command := "sk", seek := seek));
  }

  lemma VolumeMessageParses(volume: int)
    requires -INT_MAX - 1 <= volume <= INT_MAX
    ensures AssignAll(DEFAULTS, Assignments(CreateArg("cmd", "vl") + (CreateArg("vl", IntToString(volume)) + "")))
         == Assigned(DEFAULTS.(command := "vl", volume := volume), false)
  {
    KeysArePlain();
    NumberKeys(DEFAULTS.(command := "vl"), volume);
    IntIsPlain(volume);
    PlainStays(IntToString(volume));
    AudioMessage("vl", IntToString(volume), DEFAULTS.(command := "vl", volume := volume));
  }

  lemma EffectMessageParses(effect: string)
    ensures AssignAll(DEFAULTS, Assignments(CreateArg("cmd", "ehl") + (CreateArgSanitizeValue("ehl", effect) + "")))
         == Assigned(DEFAULTS.(command := "ehl", helperChain := "@" + effect + "@"), false)
  {
    KeysArePlain();
    assert "" + "@" + effect + "@" == "@" + effect + "@";
    AudioMessage("ehl", effect, DEFAULTS.(command := "ehl", helperChain := "@" + effect + "@"));
  }

  lemma AudioMessage(key: string, value: string, o: Options)
    requires Plain(key) && Assign(DEFAULTS.(command := key), key, value) == Assigned(o, false)
    ensures AssignAll(DEFAULTS, Assignments(CreateArg("cmd", key) + (CreateArgSanitizeValue(key, value) + "")))
         == Assigned(o, false)
  {
    KeysArePlain();
    TextKeys(DEFAULTS, key);
    SetsPlain(DEFAULTS, "cmd", key, CreateArgSanitizeValue(key, value) + "", DEFAULTS.(command := key));
    Sets(DEFAULTS.(command := key), key, value, "", o);
    NothingMore(o);
  }

  /** The two keys that none of these messages uses. */
  lemma OtherKeysParse(o: Options, guild: string, plot: string)
    ensures AssignAll(o, Assignments(CreateArgSanitizeValue("gid", guild)
                                     + (CreateArgSanitizeValue("gplotcmd", plot) + "")))
         == Assigned(o.(guildId := guild, gnuplotCmd := plot), false)
  {
    KeysArePlain();
    ToolKeysArePlain();
    var o1 := o.(guildId := guild);
    var o2 := o1.(gnuplotCmd := plot);
    TextKeys(o, guild);
    ToolTextKeys(o1, plot);
    Sets(o, "gid", guild, CreateArgSanitizeValue("gplotcmd", plot) + "", o1);
    Sets(o1, "gplotcmd", plot, "", o2);
    NothingMore(o2);
  }

  // ------------------------------------------------------------- the numerals

  predicate IsSpace(c: char) {
    c == ' ' || c == '\t' || c == '\n' || c == '\r' || c == '\U{0B}' || c == '\U{0C}'
  }

  lemma SpacesAre(c: char)
    ensures c in SPACES <==> IsSpace(c)
  {
  }

  lemma {:induction false} SpacesAreSkipped(spaces: string, rest: string)
    requires (forall i | 0 <= i < |spaces| :: IsSpace(spaces[i])) && (rest != "" ==> !IsSpace(rest[0]))
    ensures SkipSpaces(spaces + rest) == rest
  {
    if spaces == "" {
      assert spaces + rest == rest;
      if rest != "" {
        SpacesAre(rest[0]);
      }
    } else {
      SpacesAre(spaces[0]);
      assert (spaces + rest)[1..] == spaces[1..] + rest;
      SpacesAreSkipped(spaces[1..], rest);
    }
  }

  /** A text that a numeral begins: white space, a sign or none, digits, and whatever
      does not go on with a digit. */
  ghost predicate BeginsWithNumeral(s: string, spaces: string, sign: string, digits: string, tail: string) {
    && s == spaces + (sign + (digits + tail))
    && (forall i | 0 <= i < |spaces| :: IsSpace(spaces[i]))
    && (sign == "" || sign == "+" || sign == "-")
    && digits != "" && AllDigits(digits) && (tail != "" ==> !IsDigit(tail[0]))
  }

  lemma NumeralIsFound(s: string, spaces: string, sign: string, digits: string, tail: string)
    requires BeginsWithNumeral(s, spaces, sign, digits, tail)
    ensures SignAndDigits(s) == (sign == "-", digits)
  {
    var body := digits + tail;
    var rest := sign + body;
    DigitsAreNoSpaces(digits[0]);
    SpacesAre(digits[0]);
    SpacesAre('-');
    SpacesAre('+');
    SpacesAreSkipped(spaces, rest);
    assert body[..|digits|] == digits;
    DigitPrefixIs(body, |digits|);
    if sign == "" {
      assert rest == body;
    } else {
      assert rest[1..] == body;
    }
  }

  /** `std::stoi` and `std::stoull` read the numeral that a text begins with and ignore
      the rest; they throw exactly out of range, and a minus sign wraps around for the
      unsigned one. */
  lemma NumeralsAreRead(s: string, spaces: string, sign: string, digits: string, tail: string)
    requires BeginsWithNumeral(s, spaces, sign, digits, tail)
    ensures var n := if sign == "-" then -(Value(digits) as int) else Value(digits);
            Stoi(s) == if -0x8000_0000 <= n <= 0x7FFF_FFFF then Converted(n) else Throws
    ensures Stoull(s) == if Value(digits) >= TWO_64 then Throws
                         else if sign == "-" && Value(digits) > 0 then Converted(TWO_64 - Value(digits))
                         else Converted(Value(digits))
  {
    NumeralIsFound(s, spaces, sign, digits, tail);
  }

  /** They also throw on a text that no numeral begins. */
  lemma NoNumeralThrows(s: string, spaces: string, sign: string, tail: string)
    requires s == spaces + (sign + tail) && (forall i | 0 <= i < |spaces| :: IsSpace(spaces[i]))
    requires sign == "" || sign == "+" || sign == "-"
    requires tail != "" ==> !IsDigit(tail[0]) && (sign == "" ==> !IsSpace(tail[0]) && tail[0] != '+' && tail[0] != '-')
    ensures Stoi(s) == Throws && Stoull(s) == Throws
  {
    var rest := sign + tail;
    SpacesAre('-');
    SpacesAre('+');
    SpacesAreSkipped(spaces, rest);
    assert tail[..0] == "";
    DigitPrefixIs(tail, 0);
    if sign == "" {
      assert rest == tail;
    } else {
      assert rest[1..] == tail;
    }
  }

  // ------------------------------------------------------------- what is escaped

  /** Sanitizing leaves a value as it is exactly when it holds none of the three
      characters. */
  lemma SanitizedExactly(value: string)
    ensures Sanitized(value) == value <==> '\\' !in value && '=' !in value && ';' !in value
  {
    SanitizedLength(value);
    if '\\' !in value && '=' !in value && ';' !in value {
      PlainStays(value);
    }
  }

  lemma {:induction false} SanitizedLength(value: string)
    ensures |Sanitized(value)| >= |value|
    ensures '\\' in value || '=' in value || ';' in value ==> |Sanitized(value)| > |value|
  {
    if value != "" {
      SanitizedLength(value[1..]);
      assert value == [value[0]] + value[1..];
    }
  }

  /** The last field of a command needs no `;`. */
  lemma LastNeedsNoEnd(front: string)
    requires !ReadAll(START, front).escaped && ReadAll(START, front).current != ""
    ensures Assignments(front) == Assignments(front + ";")
  {
    ReadAllAppend(START, front, ";");
    ReadOne(ReadAll(START, front), ';');
  }
}
