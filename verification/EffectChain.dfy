/** The chain of audio effects: accumulated by the command parser into one string
    of `@effect@` items, and split again for the helper processors. */
module EffectChain {
  import opened CommandCodec
  import opened CommandRoundTrip

  /** `helper_chain_option_t` */
  datatype Link = Link(rawArgs: string, debug: bool, parsed: bool, firstChain: bool, finalChain: bool)

  /** What the splitter still produces from index `i` on, when the item it is in
      starts at `start` (0 when it is in none). */
  function LinksFrom(chain: string, debug: bool, i: nat, start: nat): seq<Link>
    requires i <= |chain| && start <= i
    decreases |chain| - i
  {
    if i == |chain| then []
    else if start != 0 && start == i && chain[i] == '!' then LinksFrom(chain, debug, i + 1, start + 1)
    else if chain[i] != '@' then LinksFrom(chain, debug, i + 1, start)
    else if start == 0 then LinksFrom(chain, debug, i + 1, i + 1)
    else if i == start then LinksFrom(chain, debug, i + 1, 0)
    else [Link(chain[start..i], debug, false, i == 0, i == |chain| - 1)] + LinksFrom(chain, debug, i + 1, 0)
  }

  function Links(chain: string, debug: bool): seq<Link> {
    LinksFrom(chain, debug, 0, 0)
  }

  /** `parse_helper_chain_option` with `EHL_ALL_EXCLUSIVE`, which the header
      defines. */
  method ParseHelperChainOption(chain: string, debug: bool) returns (helperChain: seq<Link>)
    ensures helperChain == Links(chain, debug)
  {
    helperChain := [];
    var startD := 0;
    var exclusive := false;
    for i := 0 to |chain|
      invariant startD <= i
      invariant helperChain + LinksFrom(chain, debug, i, startD) == Links(chain, debug)
    {
      if startD != 0 && startD == i && chain[i] == '!' {
        startD := startD + 1;
        exclusive := true;
        continue;
      }
      if chain[i] != '@' {
        continue;
      }
      if startD == 0 {
        startD := i + 1;
        continue;
      }
      var res := i - startD;
      if res <= 0 {
        startD := 0;
        continue;
      }
      var rarg := chain[startD..i];
      helperChain := helperChain + [Link(rarg, debug, false, i == 0, |chain| - 1 == i)];
      exclusive := false;
      startD := 0;
    }
  }

  // ---------------------------------------------------------- what it splits to

  function StripBangs(value: string): string {
    if value != "" && value[0] == '!' then StripBangs(value[1..]) else value
  }

  /** The chain string that assigning these `ehl` values one after the other
      builds up. */
  function ChainOf(values: seq<string>): string
    decreases |values|
  {
    if values == [] then "" else "@" + values[0] + "@" + ChainOf(values[1..])
  }

  /** What one effect becomes. */
  function Item(value: string, debug: bool, final: bool): seq<Link> {
    var stripped := StripBangs(value);
    if stripped == "" then [] else [Link(stripped, debug, false, false, final)]
  }

  /** The links that a list of effects is meant to become: an effect loses its
      leading `!`s and is dropped when nothing is left; the last one is final. */
  function Expected(values: seq<string>, debug: bool): seq<Link>
    decreases |values|
  {
    if values == [] then []
    else Item(values[0], debug, |values| == 1) + Expected(values[1..], debug)
  }

  /** Inside an item, with `value` and the closing `@` ahead. */
  lemma {:induction false} InsideItem(chain: string, debug: bool, i: nat, start: nat, value: string, end: nat)
    requires 0 < start < i <= end < |chain| && chain[i..end] == value && '@' !in value && chain[end] == '@'
    ensures LinksFrom(chain, debug, i, start)
         == [Link(chain[start..end], debug, false, false, end == |chain| - 1)] + LinksFrom(chain, debug, end + 1, 0)
    decreases end - i
  {
    if i < end {
      assert chain[i] == value[0] && chain[i] in value;
      assert chain[i + 1..end] == value[1..];
      InsideItem(chain, debug, i + 1, start, value[1..], end);
    }
  }

  /** At the start of an item, with `value` and the closing `@` ahead. */
  lemma {:induction false} AtItem(chain: string, debug: bool, start: nat, value: string, end: nat)
    requires 0 < start <= end < |chain| && chain[start..end] == value && '@' !in value && chain[end] == '@'
    ensures LinksFrom(chain, debug, start, start)
         == Item(value, debug, end == |chain| - 1) + LinksFrom(chain, debug, end + 1, 0)
    decreases end - start
  {
    if value != "" {
      assert chain[start] == value[0] && value[0] in value;
      assert chain[start + 1..end] == value[1..];
      if value[0] == '!' {
        AtItem(chain, debug, start + 1, value[1..], end);
      } else {
        InsideItem(chain, debug, start + 1, start, value[1..], end);
      }
    }
  }

  predicate NoAt(values: seq<string>) {
    forall j | 0 <= j < |values| :: '@' !in values[j]
  }

  lemma {:induction false} ChainFrom(chain: string, debug: bool, i: nat, values: seq<string>)
    requires i <= |chain| && chain[i..] == ChainOf(values) && NoAt(values)
    ensures LinksFrom(chain, debug, i, 0) == Expected(values, debug)
    decreases |values|
  {
    if values == [] {
      assert i == |chain|;
    } else {
      var value, rest := values[0], ChainOf(values[1..]);
      var end := i + 1 + |value|;
      assert chain[i..] == "@" + value + "@" + rest;
      assert chain[i] == chain[i..][0] && chain[end] == chain[i..][1 + |value|];
      assert chain[i + 1..end] == chain[i..][1..1 + |value|] == value;
      assert chain[end + 1..] == chain[i..][2 + |value|..] == rest;
      assert end == |chain| - 1 <==> |values| == 1 by {
        if |values| > 1 { assert |rest| >= 2; }
      }
      AtItem(chain, debug, i + 1, value, end);
      ChainFrom(chain, debug, end + 1, values[1..]);
    }
  }

  /** Splitting a chain gives the expected links, whatever the effects are, as
      long as they contain no `@`. */
  lemma SplitsAsExpected(values: seq<string>, debug: bool)
    requires NoAt(values)
    ensures Links(ChainOf(values), debug) == Expected(values, debug)
  {
    assert ChainOf(values)[0..] == ChainOf(values);
    ChainFrom(ChainOf(values), debug, 0, values);
  }

  // ---------------------------------------------------------------- round trip

  function RawArgs(links: seq<Link>): (args: seq<string>)
    ensures |args| == |links|
    ensures forall j | 0 <= j < |links| :: args[j] == links[j].rawArgs
  {
    seq(|links|, j requires 0 <= j < |links| => links[j].rawArgs)
  }

  predicate Survives(value: string) {
    value != "" && '@' !in value && value[0] != '!'
  }

  ghost predicate Sound(links: seq<Link>) {
    forall l | l in links :: Survives(l.rawArgs) && !l.firstChain
  }

  /** Whatever string is split, each link holds an effect that would survive, and
      none is marked as the first of its chain. */
  lemma {:induction false} LinksAreSound(chain: string, debug: bool, i: nat, start: nat)
    requires start <= i <= |chain|
    requires start != 0 ==> '@' !in chain[start..i] && (start < i ==> chain[start] != '!')
    ensures Sound(LinksFrom(chain, debug, i, start))
    decreases |chain| - i
  {
    if i < |chain| {
      if start != 0 && start == i && chain[i] == '!' {
        LinksAreSound(chain, debug, i + 1, start + 1);
      } else if chain[i] != '@' {
        assert chain[start..i + 1] == chain[start..i] + [chain[i]];
        LinksAreSound(chain, debug, i + 1, start);
      } else {
        LinksAreSound(chain, debug, i + 1, if start == 0 then i + 1 else 0);
      }
    }
  }

  lemma {:induction false} SurvivorsExpected(values: seq<string>, debug: bool)
    requires forall j | 0 <= j < |values| :: Survives(values[j])
    ensures |Expected(values, debug)| == |values|
    ensures forall j | 0 <= j < |values| ::
              Expected(values, debug)[j] == Link(values[j], debug, false, false, j == |values| - 1)
    decreases |values|
  {
    if values != [] {
      assert Survives(values[0]);
      SurvivorsExpected(values[1..], debug);
    }
  }

  /** Splitting gives back the list of effects exactly when each is non-empty,
      does not start with `!` and contains no `@`. */
  lemma RoundTripExactly(values: seq<string>, debug: bool)
    ensures RawArgs(Links(ChainOf(values), debug)) == values <==> forall j | 0 <= j < |values| :: Survives(values[j])
  {
    var links := Links(ChainOf(values), debug);
    if forall j | 0 <= j < |values| :: Survives(values[j]) {
      SplitsAsExpected(values, debug);
      SurvivorsExpected(values, debug);
    } else {
      LinksAreSound(ChainOf(values), debug, 0, 0);
      var j :| 0 <= j < |values| && !Survives(values[j]);
      if j < |links| {
        assert links[j] in links;
        assert RawArgs(links)[j] != values[j];
      }
    }
  }

  // ------------------------------------------------ through the command format

  /** The effects among the arguments of a command. */
  function Effects(arguments: seq<(string, string)>): seq<string>
    decreases |arguments|
  {
    if arguments == [] then []
    else (if arguments[0].0 == "ehl" then [arguments[0].1] else []) + Effects(arguments[1..])
  }

  lemma SystemKeepsTheChain(o: Options, key: string, value: string)
    ensures AssignSystem(o, key, value).options.helperChain == o.helperChain
  {
  }

  lemma ToolsKeepTheChain(o: Options, key: string, value: string)
    ensures AssignTool(o, key, value).options.helperChain == o.helperChain
  {
    SystemKeepsTheChain(o, key, value);
  }

  lemma OthersKeepTheChain(o: Options, key: string, value: string)
    requires key != "ehl"
    ensures Assign(o, key, value).options.helperChain == o.helperChain
  {
    ToolsKeepTheChain(o, key, value);
  }

  lemma AssignAccumulates(o: Options, key: string, value: string)
    ensures Assign(o, key, value).options.helperChain
         == if key == "ehl" then o.helperChain + "@" + value + "@" else o.helperChain
  {
    if key != "ehl" {
      OthersKeepTheChain(o, key, value);
    }
  }

  lemma Regroup(a: string, b: string, c: string, d: string, e: string)
    ensures a + b + c + d + e == a + (b + c + d + e)
  {
  }

  lemma ChainStep(base: string, next: string, total: string, arguments: seq<(string, string)>)
    requires arguments != []
    requires next == if arguments[0].0 == "ehl" then base + "@" + arguments[0].1 + "@" else base
    requires total == next + ChainOf(Effects(arguments[1..]))
    ensures total == base + ChainOf(Effects(arguments))
  {
    var value, rest := arguments[0].1, Effects(arguments[1..]);
    if arguments[0].0 == "ehl" {
      var effects := [value] + rest;
      assert effects[1..] == rest;
      assert ChainOf(effects) == "@" + value + "@" + ChainOf(rest);
      Regroup(base, "@", value, "@", ChainOf(rest));
    } else {
      assert [] + rest == rest;
    }
  }

  lemma {:induction false} EffectsAccumulate(o: Options, arguments: seq<(string, string)>)
    requires !AssignAll(o, arguments).threw
    ensures AssignAll(o, arguments).options.helperChain == o.helperChain + ChainOf(Effects(arguments))
    decreases |arguments|
  {
    if arguments == [] {
      assert o.helperChain + "" == o.helperChain;
    } else {
      var next := Assign(o, arguments[0].0, arguments[0].1).options;
      AssignAccumulates(o, arguments[0].0, arguments[0].1);
      EffectsAccumulate(next, arguments[1..]);
      ChainStep(o.helperChain, next.helperChain, AssignAll(o, arguments).options.helperChain, arguments);
    }
  }

  /** The effects of a command that was printed, parsed into fresh options and
      split arrive as they were sent, in order, and only the last is final. */
  lemma EffectsArrive(arguments: seq<(string, string)>, debug: bool)
    requires PlainKeys(arguments)
    requires !AssignAll(DEFAULTS, Assignments(Print(arguments))).threw
    ensures var sent := Effects(arguments);
            var links := Links(AssignAll(DEFAULTS, Assignments(Print(arguments))).options.helperChain, debug);
            && (RawArgs(links) == sent <==> forall j | 0 <= j < |sent| :: Survives(sent[j]))
            && (RawArgs(links) == sent ==> |links| == |sent| && forall j | 0 <= j < |sent| ::
                  links[j] == Link(sent[j], debug, false, false, j == |sent| - 1))
  {
    RoundTrip(arguments);
    EffectsAccumulate(DEFAULTS, arguments);
    var sent := Effects(arguments);
    assert "" + ChainOf(sent) == ChainOf(sent);
    RoundTripExactly(sent, debug);
    if forall j | 0 <= j < |sent| :: Survives(sent[j]) {
      SplitsAsExpected(sent, debug);
      SurvivorsExpected(sent, debug);
    }
  }
}
