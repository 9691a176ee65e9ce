/** Printing a command and parsing it back. */
module CommandRoundTrip {
  import opened Decimal
  import opened CommandCodec

  lemma {:induction false} ReadAllAppend(st: Scanner, a: string, b: string)
    ensures ReadAll(st, a + b) == ReadAll(ReadAll(st, a), b)
    decreases |a|
  {
    if a == [] {
      assert a + b == b;
    } else {
      assert (a + b)[1..] == a[1..] + b;
      ReadAllAppend(Read(st, a[0]), a[1..], b);
    }
  }

  lemma ReadOne(st: Scanner, c: char)
    ensures ReadAll(st, [c]) == Read(st, c)
  {
    assert [c][1..] == [];
  }

  lemma TakeOne(st: Splitter, c: char)
    ensures TakeAll(st, [c]) == Take(st, c)
  {
    assert [c][1..] == [];
  }

  lemma {:induction false} TakeAllAppend(st: Splitter, a: string, b: string)
    ensures TakeAll(st, a + b) == TakeAll(TakeAll(st, a), b)
    decreases |a|
  {
    if a == [] {
      assert a + b == b;
    } else {
      assert (a + b)[1..] == a[1..] + b;
      TakeAllAppend(Take(st, a[0]), a[1..], b);
    }
  }

  /** The first parser undoes sanitizing. */
  lemma {:induction false} ReadSanitized(st: Scanner, value: string)
    requires !st.escaped
    ensures ReadAll(st, Sanitized(value)) == st.(current := st.current + value)
    decreases |value|
  {
    if value != [] {
      var c := value[0];
      var head := if ShouldSanitize(c) then ['\\', c] else [c];
      ReadAllAppend(st, head, Sanitized(value[1..]));
      if ShouldSanitize(c) {
        assert head[1..] == [c];
        ReadOne(Read(st, '\\'), c);
      } else {
        ReadOne(st, c);
      }
      assert ReadAll(st, head) == st.(current := st.current + [c]);
      ReadSanitized(st.(current := st.current + [c]), value[1..]);
      assert st.current + [c] + value[1..] == st.current + value;
    } else {
      assert st.current + value == st.current;
    }
  }

  /** The second parser, on a value, undoes sanitizing too. */
  lemma {:induction false} TakeSanitized(st: Splitter, value: string)
    requires st.filling && !st.escaped
    ensures TakeAll(st, Sanitized(value)) == st.(value := st.value + value)
    decreases |value|
  {
    if value != [] {
      var c := value[0];
      var head := if ShouldSanitize(c) then ['\\', c] else [c];
      TakeAllAppend(st, head, Sanitized(value[1..]));
      if ShouldSanitize(c) {
        assert head[1..] == [c];
        TakeOne(Take(st, '\\'), c);
      } else {
        TakeOne(st, c);
      }
      assert TakeAll(st, head) == st.(value := st.value + [c]);
      TakeSanitized(st.(value := st.value + [c]), value[1..]);
      assert st.value + [c] + value[1..] == st.value + value;
    } else {
      assert st.value + value == st.value;
    }
  }

  lemma {:induction false} ReadUnescaped(st: Scanner, s: string)
    requires !st.escaped && '\\' !in s && ';' !in s
    ensures ReadAll(st, s) == st.(current := st.current + s)
    decreases |s|
  {
    if s != [] {
      assert s[0] in s;
      ReadUnescaped(Read(st, s[0]), s[1..]);
      assert st.current + [s[0]] + s[1..] == st.current + s;
    } else {
      assert st.current + s == st.current;
    }
  }

  lemma {:induction false} TakeKey(st: Splitter, key: string)
    requires !st.filling && !st.escaped && '\\' !in key && '=' !in key
    ensures TakeAll(st, key) == st.(key := st.key + key)
    decreases |key|
  {
    if key != [] {
      assert key[0] in key;
      TakeKey(Take(st, key[0]), key[1..]);
      assert st.key + [key[0]] + key[1..] == st.key + key;
    } else {
      assert st.key + key == st.key;
    }
  }

  lemma {:induction false} SanitizeKeepsKey(key: string, value: string)
    requires '=' !in key
    ensures SanitizedKeyValue(key + "=" + value) == key + "=" + Sanitized(value)
    decreases |key|
  {
    var s := key + "=" + value;
    if key == [] {
      assert s[0] == '=' && s[1..] == value;
    } else {
      assert key[0] in key;
      assert s[0] == key[0] && s[1..] == key[1..] + "=" + value;
      SanitizeKeepsKey(key[1..], value);
      assert [key[0]] + (key[1..] + "=" + Sanitized(value)) == key + "=" + Sanitized(value);
    }
  }

  /** Re-escaping a field and splitting it recovers any value whatsoever. */
  lemma PairRecovers(key: string, value: string)
    requires '=' !in key && '\\' !in key
    ensures Pair(key + "=" + value) == (key, value)
  {
    SanitizeKeepsKey(key, value);
    var start := Splitter("", "", false, false);
    TakeAllAppend(start, key + "=", Sanitized(value));
    TakeAllAppend(start, key, "=");
    TakeKey(start, key);
    assert "" + key == key && "=="[1..] == "=" && "="[1..] == [];
    TakeSanitized(Splitter(key, "", true, false), value);
    assert "" + value == value;
  }

  // ---------------------------------------------------------------- round trip

  /** A command made of sanitized arguments. */
  function Print(arguments: seq<(string, string)>): string
    decreases |arguments|
  {
    if arguments == [] then ""
    else CreateArgSanitizeValue(arguments[0].0, arguments[0].1) + Print(arguments[1..])
  }

  predicate PlainKeys(arguments: seq<(string, string)>) {
    forall i | 0 <= i < |arguments| :: Plain(arguments[i].0)
  }

  lemma PlainExcludes(key: string)
    requires Plain(key)
    ensures '\\' !in key && ';' !in key && '=' !in key
  {
    assert ShouldSanitize('\\') && ShouldSanitize(';') && ShouldSanitize('=');
  }

  /** One printed argument is read as one field. */
  lemma ReadArgument(closed: seq<string>, key: string, value: string)
    requires Plain(key)
    ensures ReadAll(Scanner(closed, "", false), CreateArgSanitizeValue(key, value))
         == Scanner(closed + [key + "=" + value], "", false)
  {
    PlainExcludes(key);
    var st := Scanner(closed, "", false);
    ReadAllAppend(st, key + "=" + Sanitized(value), ";");
    ReadAllAppend(st, key + "=", Sanitized(value));
    ReadUnescaped(st, key + "=");
    assert "" + (key + "=") == key + "=";
    ReadSanitized(Scanner(closed, key + "=", false), value);
    assert ";"[1..] == [];
  }

  lemma {:induction false} ReadPrinted(closed: seq<string>, arguments: seq<(string, string)>)
    requires PlainKeys(arguments)
    ensures ReadAll(Scanner(closed, "", false), Print(arguments))
         == Scanner(closed + seq(|arguments|, i requires 0 <= i < |arguments| => arguments[i].0 + "=" + arguments[i].1),
                    "", false)
    decreases |arguments|
  {
    if arguments != [] {
      var (key, value) := arguments[0];
      var rest := arguments[1..];
      ReadAllAppend(Scanner(closed, "", false), CreateArgSanitizeValue(key, value), Print(rest));
      ReadArgument(closed, key, value);
      ReadPrinted(closed + [key + "=" + value], rest);
    }
  }

  /** Whatever the values contain, parsing what was printed makes exactly the
      assignments printed, in order. */
  lemma RoundTrip(arguments: seq<(string, string)>)
    requires PlainKeys(arguments)
    ensures Assignments(Print(arguments)) == arguments
  {
    ReadPrinted([], arguments);
    var pairs := Assignments(Print(arguments));
    forall i | 0 <= i < |arguments| ensures pairs[i] == arguments[i] {
      PlainExcludes(arguments[i].0);
      PairRecovers(arguments[i].0, arguments[i].1);
    }
  }

  /** So two lists that print alike are alike. */
  lemma PrintIsInjective(a: seq<(string, string)>, b: seq<(string, string)>)
    requires PlainKeys(a) && PlainKeys(b) && Print(a) == Print(b)
    ensures a == b
  {
    RoundTrip(a);
    RoundTrip(b);
  }

  lemma FieldsDistribute(front: string, back: string)
    requires !ReadAll(START, front).escaped
    ensures Fields(front + ";" + back) == Fields(front + ";") + Fields(back)
  {
    var st := ReadAll(START, front);
    var closed := st.closed + [st.current];
    ReadAllAppend(START, front, ";");
    ReadOne(st, ';');
    assert Fields(front + ";") == closed;
    ReadAllAppend(START, front + ";", back);
    ShiftClosed(closed, START, back);
    assert closed + [] == closed;
    ClosingShifts(closed, ReadAll(START, back));
  }

  lemma ClosingShifts(closed: seq<string>, end: Scanner)
    ensures Closing(end.(closed := closed + end.closed)) == closed + Closing(end)
  {
    assert closed + end.closed + [end.current] == closed + (end.closed + [end.current]);
  }

  /** Commands compose: parsing distributes over concatenation after a `;` that
      is not escaped, whatever precedes and follows. */
  lemma ParseDistributes(front: string, back: string)
    requires !ReadAll(START, front).escaped
    ensures Assignments(front + ";" + back) == Assignments(front + ";") + Assignments(back)
  {
    FieldsDistribute(front, back);
    assert Pairs(Fields(front + ";") + Fields(back)) == Pairs(Fields(front + ";")) + Pairs(Fields(back));
  }

  lemma {:induction false} ShiftClosed(closed: seq<string>, st: Scanner, rest: string)
    ensures ReadAll(st.(closed := closed + st.closed), rest)
         == ReadAll(st, rest).(closed := closed + ReadAll(st, rest).closed)
    decreases |rest|
  {
    if rest != [] {
      assert closed + (st.closed + [st.current]) == closed + st.closed + [st.current];
      ShiftClosed(closed, Read(st, rest[0]), rest[1..]);
    }
  }

  // ------------------------------------------------------- unsanitized values

  /** The first field of what a scanner that has closed none goes on to read. */
  function FirstField(st: Scanner, rest: string): string {
    var end := ReadAll(st, rest);
    if end.closed == [] then end.current else end.closed[0]
  }

  lemma {:induction false} FirstFieldIsShort(st: Scanner, rest: string)
    requires st.closed == []
    ensures var f := FirstField(st, rest);
            && st.current <= f && |f| <= |st.current| + |rest|
            && (|f| == |st.current| + |rest| ==> f == st.current + rest)
    decreases |rest|
  {
    if rest != [] {
      var st' := Read(st, rest[0]);
      if st'.closed == [] {
        FirstFieldIsShort(st', rest[1..]);
        assert st.current + [rest[0]] + rest[1..] == st.current + rest;
      } else {
        ReadAllKeepsClosed(st', rest[1..]);
      }
    }
  }

  lemma SplitAt(s: string, p: nat)
    requires p < |s|
    ensures s == s[..p] + [s[p]] + s[p + 1..]
  {
  }

  /** Losing a `\` and gaining a final `;` changes a string. */
  lemma ShiftDiffers(value: string, p: nat)
    requires p < |value| && value[p] == '\\'
    ensures value[..p] + (value[p + 1..] + ";") != value
  {
    SplitAt(value, p);
    var shifted := value[..p] + (value[p + 1..] + ";");
    assert multiset(value) == multiset(value[..p]) + multiset{value[p]} + multiset(value[p + 1..]);
    assert multiset(shifted) == multiset(value[..p]) + multiset(value[p + 1..]) + multiset{';'};
    assert multiset(shifted)[';'] == multiset(value)[';'] + 1;
  }

  /** The first special character that the parser meets in an unsanitized value
      keeps the value from being recovered. */
  lemma SpecialIsLost(key: string, value: string, p: nat)
    requires Plain(key) && p < |value|
    requires '\\' !in value[..p] && ';' !in value[..p] && (value[p] == '\\' || value[p] == ';')
    ensures Assignments(CreateArg(key, value)) != [(key, value)]
  {
    PlainExcludes(key);
    var front, back := key + "=" + value[..p], value[p + 1..] + ";";
    SplitAt(value, p);
    assert CreateArg(key, value) == front + ([value[p]] + back);
    ReadAllAppend(START, front, [value[p]] + back);
    ReadUnescaped(START, front);
    assert "" + front == front;
    assert ([value[p]] + back)[1..] == back;
    var st := Read(Scanner([], front, false), value[p]);
    assert ReadAll(START, CreateArg(key, value)) == ReadAll(st, back);
    if value[p] == ';' {
      ReadAllKeepsClosed(st, back);
      assert Fields(CreateArg(key, value))[0] == front;
      PairRecovers(key, value[..p]);
    } else {
      FirstFieldIsShort(st, back);
      var f := FirstField(st, back);
      assert front <= f && Fields(CreateArg(key, value))[0] == f;
      var recovered := f[|key| + 1..];
      assert f == key + "=" + recovered;
      PairRecovers(key, recovered);
      ShiftDiffers(value, p);
      assert f == front + back ==> recovered == value[..p] + back;
    }
  }

  /** An argument printed without sanitizing its value is recovered exactly when
      the value contains neither `\` nor `;`; an `=` does no harm. */
  lemma UnsanitizedExactly(key: string, value: string)
    requires Plain(key)
    ensures Assignments(CreateArg(key, value)) == [(key, value)] <==> '\\' !in value && ';' !in value
  {
    if '\\' !in value && ';' !in value {
      PlainExcludes(key);
      ReadAllAppend(START, key + "=" + value, ";");
      ReadUnescaped(START, key + "=" + value);
      assert "" + (key + "=" + value) == key + "=" + value && ";"[1..] == [];
      PairRecovers(key, value);
    } else {
      var p := FirstSpecial(value);
      SpecialIsLost(key, value, p);
    }
  }

  lemma FirstSpecial(value: string) returns (p: nat)
    requires '\\' in value || ';' in value
    ensures p < |value| && (value[p] == '\\' || value[p] == ';')
    ensures '\\' !in value[..p] && ';' !in value[..p]
  {
    p := 0;
    while value[p] != '\\' && value[p] != ';'
      invariant p < |value| && '\\' !in value[..p] && ';' !in value[..p]
      invariant '\\' in value[p..] || ';' in value[p..]
      decreases |value| - p
    {
      assert value[p..] == [value[p]] + value[p + 1..];
      p := p + 1;
    }
  }

  // --------------------------------------------------------- the ready message

  /** `std::to_string` of an `int`. */
  function IntToString(n: int): string {
    if n < 0 then "-" + ToString(-n) else ToString(n)
  }

  /** What the worker answers when it has started a slave. */
  function ReadyMessage(status: int, id: string): string {
    CreateArg("rdy", IntToString(status)) + (CreateArg("id", id) + CreateArg("cmd", "rdy"))
  }

  lemma {:induction false} DigitsArePlain(s: string)
    requires AllDigits(s)
    ensures '\\' !in s && ';' !in s
  {
  }

  lemma DigitsAreNoSpaces(c: char)
    requires IsDigit(c) || c == '-'
    ensures c !in SPACES && c != '+' && (IsDigit(c) ==> c != '-')
  {
  }

  lemma StoiReads(n: int)
    requires -INT_MAX - 1 <= n <= INT_MAX
    ensures Stoi(IntToString(n)) == Converted(n)
    ensures '\\' !in IntToString(n) && ';' !in IntToString(n)
  {
    var magnitude := if n < 0 then -n else n;
    var digits := ToString(magnitude);
    ValueOfToString(magnitude);
    assert digits[..|digits|] == digits;
    DigitPrefixIs(digits, |digits|);
    DigitsArePlain(digits);
    DigitsAreNoSpaces(digits[0]);
    DigitsAreNoSpaces('-');
    if n < 0 {
      assert IntToString(n)[1..] == digits;
    }
    assert SignAndDigits(IntToString(n)) == (n < 0, digits);
  }

  /** An unsanitized argument, followed by more. */
  lemma ArgumentThen(key: string, value: string, rest: string)
    requires Plain(key) && '\\' !in value && ';' !in value
    ensures Assignments(CreateArg(key, value) + rest) == [(key, value)] + Assignments(rest)
  {
    PlainExcludes(key);
    ReadUnescaped(START, key + "=" + value);
    ParseDistributes(key + "=" + value, rest);
    UnsanitizedExactly(key, value);
  }

  lemma AssignFirst(o: Options, key: string, value: string, rest: seq<(string, string)>)
    requires !Assign(o, key, value).threw
    ensures AssignAll(o, [(key, value)] + rest) == AssignAll(Assign(o, key, value).options, rest)
  {
    assert ([(key, value)] + rest)[1..] == rest;
  }

  lemma AssignReadyFields(o: Options, ready: string, n: int, id: string, command: string)
    requires Stoi(ready) == Converted(n)
    ensures Assign(o, "rdy", ready) == Assigned(o.(ready := n), false)
    ensures Assign(o, "id", id) == Assigned(o.(id := id), false)
    ensures Assign(o, "cmd", command) == Assigned(o.(command := command), false)
  {
  }

  lemma ThreeArguments(a: (string, string), b: (string, string), c: (string, string))
    requires Plain(a.0) && '\\' !in a.1 && ';' !in a.1
    requires Plain(b.0) && '\\' !in b.1 && ';' !in b.1
    requires Plain(c.0) && '\\' !in c.1 && ';' !in c.1
    ensures Assignments(CreateArg(a.0, a.1) + (CreateArg(b.0, b.1) + CreateArg(c.0, c.1))) == [a, b, c]
  {
    ArgumentThen(a.0, a.1, CreateArg(b.0, b.1) + CreateArg(c.0, c.1));
    ArgumentThen(b.0, b.1, CreateArg(c.0, c.1));
    UnsanitizedExactly(c.0, c.1);
  }

  /** The main process reads the status and the id out of a ready message, with
      any id that has neither `\` nor `;` in it. */
  lemma ReadyMessageParses(o: Options, status: int, id: string)
    requires -INT_MAX - 1 <= status <= INT_MAX && '\\' !in id && ';' !in id
    ensures AssignAll(o, Assignments(ReadyMessage(status, id)))
         == Assigned(o.(ready := status, id := id, command := "rdy"), false)
  {
    var ready := IntToString(status);
    StoiReads(status);
    ThreeArguments(("rdy", ready), ("id", id), ("cmd", "rdy"));
    var o1 := o.(ready := status);
    var o2 := o1.(id := id);
    AssignReadyFields(o, ready, status, id, "rdy");
    AssignReadyFields(o1, ready, status, id, "rdy");
    AssignReadyFields(o2, ready, status, id, "rdy");
    AssignFirst(o2, "cmd", "rdy", []);
    AssignFirst(o1, "id", id, [("cmd", "rdy")]);
    AssignFirst(o, "rdy", ready, [("id", id), ("cmd", "rdy")]);
  }

  // ---------------------------------------------------------- the exit command

  const SHUTDOWN: string := "shut"

  /** `get_exit_command` */
  function ExitCommand(id: string): string {
    CreateArgSanitizeValue("id", id) + CreateArg("cmd", SHUTDOWN)
  }

  lemma {:induction false} PlainStays(s: string)
    requires Plain(s)
    ensures Sanitized(s) == s
  {
    if s != [] {
      PlainStays(s[1..]);
    }
  }

  lemma PrintTwo(a: (string, string), b: (string, string))
    requires Plain(a.0) && Plain(b.0) && Plain(b.1)
    ensures Assignments(CreateArgSanitizeValue(a.0, a.1) + CreateArg(b.0, b.1)) == [a, b]
  {
    PlainStays(b.1);
    assert [a, b][1..] == [b] && [b][1..] == [];
    assert Print([b]) == CreateArg(b.0, b.1);
    RoundTrip([a, b]);
  }

  lemma AssignTwo(o: Options, id: string, command: string)
    ensures AssignAll(o, [("id", id), ("cmd", command)]) == Assigned(o.(id := id, command := command), false)
  {
    AssignFirst(o, "id", id, [("cmd", command)]);
    AssignFirst(o.(id := id), "cmd", command, []);
  }

  /** The worker reads the order to shut down out of it, and the id, whatever that
      contains. */
  lemma ExitCommandParses(o: Options, id: string)
    ensures AssignAll(o, Assignments(ExitCommand(id))) == Assigned(o.(id := id, command := SHUTDOWN), false)
  {
    PrintTwo(("id", id), ("cmd", SHUTDOWN));
    AssignTwo(o, id, SHUTDOWN);
  }
}
