/**
 * IpsecManagerCommandLineParser.py: the command table with one validator per
 * parameter, the address validators, the ordered checks of
 * `parseCommandLine` and the usage texts. Python callables in the table
 * become the `Validator` enumeration; exceptions become `ParseError`.
 */
module CommandLineParser {
  import opened Wrappers
  import opened Strings

  datatype Validator = AnyText | IpAddress | IpAddressWithNetmask

  datatype Param = Param(name: string, validator: Validator)

  datatype Command = Command(name: string, params: seq<Param>)

  /**
   * `HelpRequestedException`, `InsufficientInputException` and the
   * `ValueError` whose message names what is wrong.
   */
  datatype ParseError = InsufficientInput | HelpRequested | InvalidInput(message: string)

  datatype ParseResult = Parsed(command: string, params: seq<string>) | Rejected(error: ParseError)

  /**
   * `ipAddressIsValid`: four digit runs joined by dots, each of value at
   * most 255. An accepted address is its four octet fields joined by dots,
   * and nothing else.
   */
  predicate IpAddressIsValid(ipAddress: string)
    ensures IpAddressIsValid(ipAddress) ==>
              |Split(ipAddress, '.')| == 4 && Join(Split(ipAddress, '.'), ".") == ipAddress &&
              forall k :: 0 <= k < 4 ==> IsOctetField(Split(ipAddress, '.')[k])
  {
    JoinSplit(ipAddress, '.');
    IsDottedQuad(ipAddress) && forall k :: 0 <= k < 4 ==> DigitsValue(Split(ipAddress, '.')[k]) <= 255
  }

  /**
   * `ipAddressWithNetmaskIsValid`: the text must have the shape
   * `(\d+\.){3}\d+/\d+`; then the address part must be valid and the mask at most 32.
   * An accepted text is a valid address, one slash and a mask of at most 32.
   */
  predicate IpAddressWithNetmaskIsValid(ipAddress: string)
    ensures IpAddressWithNetmaskIsValid(ipAddress) ==>
              var parts := Split(ipAddress, '/');
              |parts| == 2 && ipAddress == parts[0] + "/" + parts[1] &&
              IpAddressIsValid(parts[0]) && IsDigits(parts[1]) && DigitsValue(parts[1]) <= 32
  {
    JoinSplit(ipAddress, '/');
    var parts := Split(ipAddress, '/');
    if !(|parts| == 2 && IsDottedQuad(parts[0]) && IsDigits(parts[1])) then false
    else IpAddressIsValid(parts[0]) && DigitsValue(parts[1]) <= 32
  }

  predicate Validate(validator: Validator, input: string) {
    match validator
    case AnyText => true
    case IpAddress => IpAddressIsValid(input)
    case IpAddressWithNetmask => IpAddressWithNetmaskIsValid(input)
  }

  /** `commandsAndParams`: the commands in table order, each with its parameters in order. */
  const CommandsAndParams: seq<Command> := [
    Command("createIpsecGateway", [Param("ovsBridge", AnyText), Param("gatewayIp", IpAddressWithNetmask)]),
    Command("destroyIpsecGateway", []),
    Command("addIpsecTunnel", [Param("name", AnyText), Param("sourceIp", IpAddress), Param("destIp", IpAddress),
                               Param("remoteGatewayIp", IpAddress), Param("localId", AnyText), Param("remoteId", AnyText)]),
    Command("removeIpsecTunnel", [Param("name", AnyText)]),
    Command("listIpsecTunnels", [])
  ]

  /** Dictionary lookup by command name. */
  function FindCommand(table: seq<Command>, name: string): (r: Option<Command>)
    ensures r.Some? <==> exists k :: 0 <= k < |table| && table[k].name == name
    ensures r.Some? ==> r.value in table && r.value.name == name
  {
    if table == [] then None
    else if table[0].name == name then Some(table[0])
    else FindCommand(table[1..], name)
  }

  predicate IsHelpWord(arg: string) {
    arg == "help" || arg == "--help" || arg == "-h"
  }

  /** The scan over every argument, the program name included, for a request for help. */
  predicate AsksForHelp(args: seq<string>)
    decreases |args|
  {
    args != [] && (IsHelpWord(args[0]) || AsksForHelp(args[1..]))
  }

  lemma {:induction false} AsksForHelpIffSomeArgument(args: seq<string>)
    ensures AsksForHelp(args) <==> exists i :: 0 <= i < |args| && IsHelpWord(args[i])
    decreases |args|
  {
    if args != [] {
      AsksForHelpIffSomeArgument(args[1..]);
      assert forall i :: 1 <= i < |args| ==> args[i] == args[1..][i - 1];
    }
  }

  /** The first parameter, from index `from` on, whose validator rejects its value. */
  function FirstIllegalParam(params: seq<Param>, values: seq<string>, from: nat): (r: Option<nat>)
    requires |params| == |values| && from <= |params|
    ensures r.None? <==> forall j :: from <= j < |params| ==> Validate(params[j].validator, values[j])
    ensures r.Some? ==> from <= r.value < |params| && !Validate(params[r.value].validator, values[r.value])
    ensures r.Some? ==> forall j :: from <= j < r.value ==> Validate(params[j].validator, values[j])
    decreases |params| - from
  {
    if from == |params| then None
    else if !Validate(params[from].validator, values[from]) then Some(from)
    else FirstIllegalParam(params, values, from + 1)
  }

  /** `'<' + param + '>'` for every parameter, in table order. */
  function ParamTokens(params: seq<Param>): (r: seq<string>)
    ensures |r| == |params|
    ensures forall k :: 0 <= k < |params| ==> r[k] == "<" + params[k].name + ">"
  {
    if params == [] then [] else ["<" + params[0].name + ">"] + ParamTokens(params[1..])
  }

  /** The usage line of one command of the table. */
  function CommandHelp(command: Command, padding: nat): string {
    Join([command.name + Spaces(padding)] + ParamTokens(command.params), " ")
  }

  /**
   * `getCommandHelpMessage`; the command is always one of the table's. The
   * line is the command, `padding` spaces, then ` <param>` for each of its
   * parameters in table order.
   */
  function GetCommandHelpMessage(command: string, padding: nat): (r: string)
    requires FindCommand(CommandsAndParams, command).Some?
    ensures r == command + Spaces(padding) + PrefixEach(ParamTokens(FindCommand(CommandsAndParams, command).value.params), " ")
  {
    CommandHelpLayout(FindCommand(CommandsAndParams, command).value, padding);
    CommandHelp(FindCommand(CommandsAndParams, command).value, padding)
  }

  /** The usage line is the name, `padding` spaces, then ` <param>` for each parameter in order. */
  lemma CommandHelpLayout(command: Command, padding: nat)
    ensures CommandHelp(command, padding) == command.name + Spaces(padding) + PrefixEach(ParamTokens(command.params), " ")
  {
    JoinIsHeadThenPrefixed(command.name + Spaces(padding), ParamTokens(command.params), " ");
  }

  /** The length of the longest command name. */
  function MaxCommandLen(table: seq<Command>): (r: nat)
    requires |table| > 0
    ensures forall k :: 0 <= k < |table| ==> |table[k].name| <= r
    ensures exists k :: 0 <= k < |table| && |table[k].name| == r
  {
    if |table| == 1 then |table[0].name|
    else
      var rest := MaxCommandLen(table[1..]);
      assert forall k :: 1 <= k < |table| ==> table[k] == table[1..][k - 1];
      if |table[0].name| >= rest then |table[0].name| else rest
  }

  /** An entry whose name no earlier entry has is what the lookup of that name finds. */
  lemma {:induction false} FindCommandFindsFirstOfName(table: seq<Command>, k: nat)
    requires k < |table|
    requires forall i :: 0 <= i < k ==> table[i].name != table[k].name
    ensures FindCommand(table, table[k].name) == Some(table[k])
    decreases k
  {
    if k > 0 {
      assert table[0].name != table[k].name;
      assert table[1..][k - 1] == table[k];
      FindCommandFindsFirstOfName(table[1..], k - 1);
    }
  }

  /** Each command of the table, looked up by its own name, is found as itself: no two names have the same length. */
  lemma TableLookupFindsEntry(k: nat)
    requires k < |CommandsAndParams|
    ensures FindCommand(CommandsAndParams, CommandsAndParams[k].name) == Some(CommandsAndParams[k])
  {
    var lengths := [18, 19, 14, 17, 16];
    assert forall i :: 0 <= i < |CommandsAndParams| ==> |CommandsAndParams[i].name| == lengths[i];
    FindCommandFindsFirstOfName(CommandsAndParams, k);
  }

  /** The usage lines of the global help: every command padded to the longest name. */
  function CommandHelpLines(): (r: seq<string>)
    ensures |r| == |CommandsAndParams|
  {
    var width := MaxCommandLen(CommandsAndParams);
    seq(|CommandsAndParams|, k requires 0 <= k < |CommandsAndParams| =>
      TableLookupFindsEntry(k);
      GetCommandHelpMessage(CommandsAndParams[k].name, width - |CommandsAndParams[k].name|))
  }

  const UsageHeader := "Usage: ipsecManager.py <command> [parameters]"

  /**
   * `getGlobalHelpMessage`: the usage header, then `Commands:`, then one
   * indented line per command in table order.
   */
  function GetGlobalHelpMessage(): (r: string)
    ensures r == UsageHeader + "\n" + ("Commands:" + PrefixEach(CommandHelpLines(), "\n    "))
  {
    JoinIsHeadThenPrefixed("Commands:", CommandHelpLines(), "\n    ");
    UsageHeader + "\n" + Join(["Commands:"] + CommandHelpLines(), "\n    ")
  }

  /**
   * The line of the k-th command in the global help: its name padded with
   * spaces to the length of the longest name, so that every command's
   * parameters start at the same column.
   */
  lemma GlobalHelpLine(k: nat)
    requires k < |CommandsAndParams|
    ensures var name := CommandsAndParams[k].name;
            var width := MaxCommandLen(CommandsAndParams);
            |name| <= width &&
            CommandHelpLines()[k] == name + Spaces(width - |name|) + PrefixEach(ParamTokens(CommandsAndParams[k].params), " ") &&
            |name + Spaces(width - |name|)| == width
  {
    var width := MaxCommandLen(CommandsAndParams);
    var command := CommandsAndParams[k];
    var padding := width - |command.name|;
    assert CommandHelpLines()[k] == GetCommandHelpMessage(command.name, padding);
    assert GetCommandHelpMessage(command.name, padding) == CommandHelp(command, padding) by {
      TableLookupFindsEntry(k);
    }
    CommandHelpLayout(command, padding);
  }

  /** `destroyIpsecGateway` is the longest name: the parameters of the global help start at column 19 (plus the indent). */
  lemma LongestCommandName()
    ensures MaxCommandLen(CommandsAndParams) == 19
  {
    assert |CommandsAndParams[1].name| == 19;
  }

  /** The `ValueError` message for a command that is not in the table: the global help follows. */
  function UnrecognizedCommandMessage(command: string): string {
    "Unrecognized command: " + command + "\n" + GetGlobalHelpMessage()
  }

  /** The `ValueError` message for a wrong number of parameters: the command's usage follows. */
  function CountMessage(command: string, received: nat, expected: nat): string
    requires FindCommand(CommandsAndParams, command).Some?
  {
    command + " has an incorrect amount of parameters, received " + NatToString(received)
    + " instead of " + NatToString(expected) + "\n" + "Usage: " + GetCommandHelpMessage(command, 0)
  }

  /** The `ValueError` message for a parameter its validator rejects: the command's usage follows. */
  function IllegalInputMessage(command: string, param: string): string
    requires FindCommand(CommandsAndParams, command).Some?
  {
    param + " has an illegal input" + "\n" + "Usage: " + GetCommandHelpMessage(command, 0)
  }

  /**
   * The checks of `parseCommandLine` after the help scan: the command is
   * known, the number of parameters is the command's, and every parameter
   * passes its validator, in that order.
   */
  function ParseCommand(command: string, commandParams: seq<string>): (r: ParseResult)
    ensures FindCommand(CommandsAndParams, command).None? ==>
              r == Rejected(InvalidInput(UnrecognizedCommandMessage(command)))
    ensures FindCommand(CommandsAndParams, command).Some? &&
            |FindCommand(CommandsAndParams, command).value.params| != |commandParams| ==>
              r == Rejected(InvalidInput(CountMessage(command, |commandParams|, |FindCommand(CommandsAndParams, command).value.params|)))
    ensures FindCommand(CommandsAndParams, command).Some? &&
            |FindCommand(CommandsAndParams, command).value.params| == |commandParams| && r.Rejected? ==>
              var params := FindCommand(CommandsAndParams, command).value.params;
              exists j :: 0 <= j < |params| && !Validate(params[j].validator, commandParams[j]) &&
                (forall i :: 0 <= i < j ==> Validate(params[i].validator, commandParams[i])) &&
                r == Rejected(InvalidInput(IllegalInputMessage(command, params[j].name)))
    ensures r.Parsed? <==>
              FindCommand(CommandsAndParams, command).Some? &&
              |FindCommand(CommandsAndParams, command).value.params| == |commandParams| &&
              forall j :: 0 <= j < |commandParams| ==> Validate(FindCommand(CommandsAndParams, command).value.params[j].validator, commandParams[j])
    ensures r.Parsed? ==> r.command == command && r.params == commandParams
  {
    match FindCommand(CommandsAndParams, command)
    case None =>
      Rejected(InvalidInput(UnrecognizedCommandMessage(command)))
    case Some(entry) =>
      if |entry.params| != |commandParams| then
        Rejected(InvalidInput(CountMessage(command, |commandParams|, |entry.params|)))
      else
        match FirstIllegalParam(entry.params, commandParams, 0)
        case Some(j) =>
          Rejected(InvalidInput(IllegalInputMessage(command, entry.params[j].name)))
        case None =>
          Parsed(command, commandParams)
  }

  /**
   * `parseCommandLine`: at least two arguments are needed, and an argument
   * asking for help (the program name included) wins over every other check;
   * the rest is `ParseCommand` on the command and its parameters.
   */
  function ParseCommandLine(args: seq<string>): (r: ParseResult)
    ensures |args| < 2 ==> r == Rejected(InsufficientInput)
    ensures |args| >= 2 && (exists i :: 0 <= i < |args| && IsHelpWord(args[i])) ==> r == Rejected(HelpRequested)
    ensures |args| >= 2 && (forall i :: 0 <= i < |args| ==> !IsHelpWord(args[i])) ==> r == ParseCommand(args[1], args[2..])
  {
    AsksForHelpIffSomeArgument(args);
    if |args| < 2 then Rejected(InsufficientInput)
    else if AsksForHelp(args) then Rejected(HelpRequested)
    else ParseCommand(args[1], args[2..])
  }

  // ---------------------------------------------------------------------
  // What the address validators accept
  // ---------------------------------------------------------------------

  predicate IsOctetField(field: string) {
    IsDigits(field) && DigitsValue(field) <= 255
  }

  lemma {:induction false} JoinAvoidsChar(fields: seq<string>, sep: string, c: char)
    requires c !in sep
    requires forall k :: 0 <= k < |fields| ==> c !in fields[k]
    ensures c !in Join(fields, sep)
    decreases |fields|
  {
    if |fields| > 1 {
      JoinAvoidsChar(fields[1..], sep, c);
    }
  }

  lemma DigitsAvoid(s: string, c: char)
    requires IsDigits(s) && !IsDigit(c)
    ensures c !in s
  {
  }

  /** Any four octet fields (leading zeros allowed) joined by dots form a valid address. */
  lemma FourOctetsAreValidIp(fields: seq<string>)
    requires |fields| == 4
    requires forall k :: 0 <= k < 4 ==> IsOctetField(fields[k])
    ensures IpAddressIsValid(Join(fields, "."))
    ensures Split(Join(fields, "."), '.') == fields
  {
    forall k | 0 <= k < 4 ensures '.' !in fields[k] {
      DigitsAvoid(fields[k], '.');
    }
    SplitJoin(fields, '.');
  }

  /** A field with a value above 255 makes the address invalid. */
  lemma LargeFieldIsInvalid(fields: seq<string>, k: nat)
    requires |fields| == 4 && k < 4
    requires forall i :: 0 <= i < 4 ==> IsDigits(fields[i])
    requires IsDigits(fields[k]) && DigitsValue(fields[k]) > 255
    ensures !IpAddressIsValid(Join(fields, "."))
  {
    forall i | 0 <= i < 4 ensures '.' !in fields[i] {
      DigitsAvoid(fields[i], '.');
    }
    SplitJoin(fields, '.');
  }

  /** A valid address followed by `/` and a mask of at most 32 is a valid address with netmask, and only such texts are. */
  lemma NetmaskForm(ipAddress: string, mask: string)
    requires '/' !in mask
    ensures IpAddressWithNetmaskIsValid(ipAddress + "/" + mask) <==>
              IpAddressIsValid(ipAddress) && IsDigits(mask) && DigitsValue(mask) <= 32
  {
    if IpAddressIsValid(ipAddress) {
      var fields := Split(ipAddress, '.');
      forall k | 0 <= k < 4 ensures '/' !in fields[k] {
        DigitsAvoid(fields[k], '/');
      }
      JoinAvoidsChar(fields, ".", '/');
      assert '/' !in ipAddress;
      SplitAfterField(ipAddress, '/', mask);
      SplitWithoutSeparator(mask, '/');
      assert ipAddress + "/" + mask == ipAddress + ['/'] + mask;
    } else if '/' !in ipAddress {
      SplitAfterField(ipAddress, '/', mask);
      SplitWithoutSeparator(mask, '/');
      assert ipAddress + "/" + mask == ipAddress + ['/'] + mask;
    } else {
      NetmaskNeedsOneSlash(ipAddress, mask);
    }
  }

  /** An address part that itself holds a slash gives more than two parts, so the text is rejected. */
  lemma NetmaskNeedsOneSlash(ipAddress: string, mask: string)
    requires '/' in ipAddress
    ensures !IpAddressWithNetmaskIsValid(ipAddress + "/" + mask)
  {
    var s := ipAddress + "/" + mask;
    var i :| 0 <= i < |ipAddress| && ipAddress[i] == '/';
    CountSplit(s, '/', i, |ipAddress|);
  }

  /** Two separators at different positions give at least three fields. */
  lemma {:induction false} CountSplit(s: string, c: char, i: nat, j: nat)
    requires i < j < |s| && s[i] == c && s[j] == c
    ensures |Split(s, c)| >= 3
    decreases |s|
  {
    if i > 0 {
      CountSplit(s[1..], c, i - 1, j - 1);
    } else {
      assert s[1..][j - 1] == c;
      SplitHasTwoFields(s[1..], c, j - 1);
    }
  }
}
