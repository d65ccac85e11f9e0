# Transparent IPsec Manager, modelled in Dafny

TransparentIpsecManager sets up transparent IPsec tunnels on a host whose
traffic passes through an Open vSwitch bridge. It has four kinds of
operation:

- `createIpsecGateway` builds a veth pair. One end goes on the bridge and
  the other carries the gateway address; strongSwan is then started.
- `destroyIpsecGateway` removes every tunnel and takes the gateway down.
- `addIpsecTunnel` appends a tunnel entry to `ipsec.conf` and
  `ipsec.secrets`, installs the OpenFlow rules and the host route, and
  raises the tunnel with `strongswan up`.
- `removeIpsecTunnel` excises those entries and undoes the rules and the
  route.

Both the `ipsec.conf` entries and the gateway state (`gateway.conf`) are
plain text files, and parsing that text is the only way the manager keeps
state.

The model keeps the three files as sequences of lines, without their
terminators, as `readlines()` returns them. Rendered template lines are
appended as a later read sees them, so a replacement value holding a line
break becomes several lines of the file. Every external command becomes a text appended to a trace.
The reply to the command at trace position `i` is `respond(i, command)`,
an input of the model carrying an exit status, stdout, stderr and running
time. Each operation is written twice:

- as a function from the files and the trace before the call to an
  `Effect`: the new files, the new trace and the outcome (`CreateEffect`,
  `AddEffect`, `RemoveEffect`, `DestroyEffect`);
- as a method of the class `Manager.IpsecManager`, which updates its
  fields step by step, in the source's order, and is proved to produce
  exactly that `Effect`.

The lemmas then state what the source promises about those functions.

Modules and the files they model:

- `Shell`: what the manager sees of `BashCommand` and `TimedBashCommand`
  (BashCommand.py).
- `Strings`: Python's `strip`, `split`, `join`, `startswith`, `endswith`,
  `in` and `int` on digit runs.
- `UtilityMethods`: IpsecManagerUtilityMethods.py.
- `ErrorHandlers`: IpsecManagerErrorHandlers.py.
- `CommandLineParser`: IpsecManagerCommandLineParser.py.
- `IpsecConfig`: the pure readers of IpsecManager.py, plus its command
  texts and messages.
- `Manager`: the four operations of IpsecManager.py.

Regular expressions are written out as predicates. The parts of a
predicate that scan text (leftmost match, greedy digit runs) are functions
with their own contracts. `os.linesep` is `"\n"`.

Where the code and its design description disagree, the model follows the
code. The description says any non-timeout failure of `strongswan up` is
read from its output. In the code, `strongswan up` runs with the default
error handler (IpsecManager.py:107-109), so a non-zero exit raises its
error output right away. The output is classified only when the command
exits 0. `Manager.UpAftermath` models it that way.

## Model

| member | source | states |
|---|---|---|
| Shell.UndoCommands | BashCommand.py:29-31 | `undo()` launches at most one command. It launches one exactly when the step has a non-empty undo command, and that command is the step's undo. |
| Shell.ScriptStopsAtFirstFailure | BashCommand.py:25-27 | A run of `execute()` calls passes iff every command passes. Otherwise it issued the commands up to and including the first that raised, and ends with that command's error. |
| Shell.HandlerOnlyOnFailure | BashCommand.py:25-27 | The error handler is consulted only on a non-zero exit, and then on the stripped error output. A zero exit always passes. |
| Shell.DefaultHandlerFailsOnNonZero | BashCommand.py:17-18 | With the default handler, a command fails exactly when it exits non-zero, raising a RuntimeError with its stripped error output. |
| Shell.TimeoutWins | BashCommand.py:42-54 | A timed command that overran raises `Timeout` whatever it printed or returned. Within the limit it behaves like the untimed command. |
| ErrorHandlers.IpRouteAddStderrHandler | IpsecManagerErrorHandlers.py:6-8 | Passes iff the stripped error output is exactly `RTNETLINK answers: File exists`. Otherwise it raises a RuntimeError carrying the text as received. |
| ErrorHandlers.PaddedRouteExistsPasses | IpsecManagerErrorHandlers.py:7 | Blanks before and after the message are ignored. |
| ErrorHandlers.MultiLineStderrRaises | IpsecManagerErrorHandlers.py:7 | Text on two different lines raises, even when one line is the message, because the pattern is not in multi-line mode. |
| ErrorHandlers.RouteExistsAloneIsIdempotentSuccess | IpsecManagerErrorHandlers.py:6-8 | An `ip route add` that exits non-zero having printed only the message counts as success. |
| UtilityMethods.RemoveLinesFromFile | IpsecManagerUtilityMethods.py:16-26 | The two-state scanning loop writes back exactly `Kept(lines, false, …)`, the lines the flag leaves in. |
| UtilityMethods.KeptIsSubsequence | IpsecManagerUtilityMethods.py:16-26 | The lines written back are input lines, unchanged and in their original order. |
| UtilityMethods.NoStartKeepsEverything | IpsecManagerUtilityMethods.py:24-26 | If no stripped line satisfies the start predicate, the file is written back unchanged. |
| UtilityMethods.KeptOfAppend | IpsecManagerUtilityMethods.py:20-26 | Scanning `a + b` is scanning `a`, then scanning `b` from the flag `a` left. |
| UtilityMethods.RunBodyDropped | IpsecManagerUtilityMethods.py:21-22 | Inside a dropped run, lines that do not satisfy the continuation predicate are dropped and the run goes on. |
| UtilityMethods.DropsOneRun | IpsecManagerUtilityMethods.py:21-26 | A run starting at a line satisfying the start predicate is dropped up to the first later line satisfying the continuation predicate. That line is kept and is not tested as a new start. The rest is scanned afresh, so later runs are dropped too. |
| UtilityMethods.RunDropped | IpsecManagerUtilityMethods.py:21-26 | The same at the top of the file. |
| UtilityMethods.DropsToEndOfFile | IpsecManagerUtilityMethods.py:20-26 | A run with no terminating line drops everything up to the end of the file. |
| UtilityMethods.KeptLinesDoNotStartRuns | IpsecManagerUtilityMethods.py:21-26 | Suppose no line satisfies both predicates. Then no line written back satisfies the start predicate. |
| UtilityMethods.ComplementaryPredicatesDropMarkedLines | IpsecManagerUtilityMethods.py:21-26 | With complementary predicates, exactly the marked lines are dropped. |
| UtilityMethods.WriteToFileFromTemplate | IpsecManagerUtilityMethods.py:9-14 | One written piece per template line: piece `i` is template line `i` with every replacement applied in dictionary order. |
| UtilityMethods.EmptyDictionaryCopiesTemplate | IpsecManagerUtilityMethods.py:9-14 | With an empty dictionary the template is copied unchanged. |
| UtilityMethods.ReadBack | IpsecManager.py:159 | The lines a later `readlines()` returns for the written pieces: at least one per piece, a piece holding line breaks giving several. |
| UtilityMethods.ReadBackOfSingleLines | IpsecManagerUtilityMethods.py:17 | Pieces without a line break read back as exactly the pieces written. |
| UtilityMethods.ReadBackAddsLines | IpsecManager.py:156-159 | A piece holding a line break reads back as more lines than were written, so the tunnel entry is longer than the template's line count. |
| UtilityMethods.RenderedTemplateReadsBack | IpsecManagerUtilityMethods.py:9-14 | When neither the template lines nor the replacement values hold a line break, the rendered template reads back line for line. |
| UtilityMethods.RenderLineKeepsOneLine | IpsecManagerUtilityMethods.py:11-14 | A template line without a line break stays a single line when no replacement value holds one. |
| UtilityMethods.ReplaceAllKeepsOneLine | IpsecManagerUtilityMethods.py:13 | `replace` with a value without a line break adds none. |
| UtilityMethods.ReplaceAbsentKey | IpsecManagerUtilityMethods.py:13 | A non-empty key that does not occur leaves the line as it was. |
| UtilityMethods.Format02xOfOctet | IpsecManagerUtilityMethods.py:44 | `'02x'` turns a value up to 255 into two lower-case hex digits that read back as the value. |
| UtilityMethods.FieldsToHexOfOctets | IpsecManagerUtilityMethods.py:44 | Fields that are digit runs of value at most 255 give two hex digits each, in field order, each pair reading back as its field. |
| UtilityMethods.ConvertIpv4ToHex | IpsecManagerUtilityMethods.py:43-44 | A valid IPv4 address becomes eight lower-case hex digits, pair `k` being the value of field `k`. |
| UtilityMethods.FieldsToHex | IpsecManagerUtilityMethods.py:44 | The conversion of the fields succeeds iff every field is a digit run. |
| UtilityMethods.ConvertIpToHex | IpsecManagerUtilityMethods.py:43-44 | The conversion raises iff some field between the dots is not a digit run. |
| UtilityMethods.StripMacAddress | IpsecManagerUtilityMethods.py:46-47 | Every `:` is removed and every other character is kept, in order. |
| UtilityMethods.StripMacAddressOfGroups | IpsecManagerUtilityMethods.py:46-47 | Colon-separated groups become the groups side by side. |
| CommandLineParser.IpAddressIsValid | IpsecManagerCommandLineParser.py:16-23 | An accepted address is four digit runs of value at most 255 joined by dots, and nothing else. |
| CommandLineParser.IpAddressWithNetmaskIsValid | IpsecManagerCommandLineParser.py:25-30 | An accepted text is exactly a valid address, one slash and a digit-run mask of at most 32. |
| CommandLineParser.FourOctetsAreValidIp | IpsecManagerCommandLineParser.py:16-23 | Any four digit runs of value at most 255 joined by dots are accepted, leading zeros included. |
| CommandLineParser.LargeFieldIsInvalid | IpsecManagerCommandLineParser.py:20-22 | A field above 255 makes the address invalid. |
| CommandLineParser.NetmaskForm | IpsecManagerCommandLineParser.py:25-30 | `addr/mask` is accepted iff `addr` is a valid address and `mask` is a digit run of value at most 32. |
| CommandLineParser.NetmaskNeedsOneSlash | IpsecManagerCommandLineParser.py:26-27 | A second slash is rejected. |
| CommandLineParser.FindCommand | IpsecManagerCommandLineParser.py:53 | The lookup finds an entry iff the table has a command of that name, and the entry found has that name. |
| CommandLineParser.TableLookupFindsEntry | IpsecManagerCommandLineParser.py:32-42 | Every command of the table, looked up by its name, is found as itself. |
| CommandLineParser.AsksForHelpIffSomeArgument | IpsecManagerCommandLineParser.py:48-50 | The help scan fires iff some argument, the program name included, is `help`, `--help` or `-h`. |
| CommandLineParser.FirstIllegalParam | IpsecManagerCommandLineParser.py:60-63 | Validators run in table order. The result is the first parameter its validator rejects, or none when all pass. |
| CommandLineParser.ParamTokens | IpsecManagerCommandLineParser.py:68 | `<param>` for each parameter, in table order. |
| CommandLineParser.CommandHelpLayout | IpsecManagerCommandLineParser.py:67-68 | A usage line is the command, `padding` spaces, then ` <param>` for each parameter in order. |
| CommandLineParser.GetCommandHelpMessage | IpsecManagerCommandLineParser.py:67-68 | The usage line of a command of the table: its name, `padding` spaces, then ` <param>` for each of its parameters in table order. |
| CommandLineParser.MaxCommandLen | IpsecManagerCommandLineParser.py:71 | The length of the longest command name: no name is longer and some name has it. |
| CommandLineParser.GetGlobalHelpMessage | IpsecManagerCommandLineParser.py:70-72 | The global help is the usage header, then `Commands:`, then one indented line per command in table order. |
| CommandLineParser.GlobalHelpLine | IpsecManagerCommandLineParser.py:70-72 | Each command's line pads its name to the longest name's length, then lists its parameters. |
| CommandLineParser.LongestCommandName | IpsecManagerCommandLineParser.py:32-42 | The longest name, `destroyIpsecGateway`, has 19 characters. |
| CommandLineParser.ParseCommand | IpsecManagerCommandLineParser.py:52-65 | The checks in order: an unknown command gives `Unrecognized command: …` with the global help; a wrong count reports received and expected; otherwise the first rejected parameter is named. The call succeeds iff all three hold, returning the command and its parameters unchanged. |
| CommandLineParser.ParseCommandLine | IpsecManagerCommandLineParser.py:44-65 | Fewer than two arguments raises `InsufficientInputException` first. A help word anywhere raises `HelpRequestedException` next. Only then is the command checked. |
| IpsecConfig.TunnelHeaderName | IpsecManager.py:158 | A header is exactly `conn ` and a non-empty name without blanks. |
| IpsecConfig.HeaderOfName | IpsecManager.py:158 | Every `conn <name>` line with such a name is a header naming it. |
| IpsecConfig.DottedQuadLengthFields | IpsecManager.py:189 | What `(\d+\.){3}\d+` matches is four digit runs joined by dots. |
| IpsecConfig.FirstKeywordIp | IpsecManager.py:189 | `re.search` finds the leftmost position where `keyword=` and a dotted quad match. |
| IpsecConfig.SearchKeywordIp | IpsecManager.py:189 | What the search captures is a dotted quad. |
| IpsecConfig.FirstMatchingLine | IpsecManager.py:188-191 | The first window line where the keyword pattern matches, or the window's end when none does. |
| IpsecConfig.GetIpFromTunnelLines | IpsecManager.py:187-191 | The address of the first line, in order, where the pattern matches. The result is `None` iff no line matches. |
| IpsecConfig.Window | IpsecManager.py:167 | `lines[k:k + n]`: `n` lines, cut short at the end of the file. |
| IpsecConfig.TitleIndex | IpsecManager.py:161-164 | The first line whose stripped text is the title line, or none. |
| IpsecConfig.ListTunnels | IpsecManager.py:155-170 | Without a title line the listing is empty, not an error. |
| IpsecConfig.TunnelNames | IpsecManager.py:172-173 | The names of the listed tunnels, in order. |
| IpsecConfig.TitleFoundAt | IpsecManager.py:161-164 | Once the first title line is found, the listing is what the lines after it give. |
| IpsecConfig.ListingStep | IpsecManager.py:165-168 | After the title, a header adds the tunnel read from the window starting at it; any other line adds nothing. |
| IpsecConfig.TunnelsFromSuffix | IpsecManager.py:165-168 | The listing from a line depends only on the lines from there on. |
| IpsecConfig.ListingIgnoresLinesBeforeTitle | IpsecManager.py:161-164 | Headers at or before the first title line are ignored: the listing is that of the lines after it. |
| IpsecConfig.ListedIffHeader | IpsecManager.py:165-168 | A name is listed from line `from` iff a header naming it lies at `from` or later. |
| IpsecConfig.ListedIffHeaderAfterTitle | IpsecManager.py:155-170 | A name is listed iff a header naming it lies after the first title line. |
| IpsecConfig.ConnLineIndex | IpsecManager.py:196-197 | The first line of the whole file that is exactly `conn <name>`. |
| IpsecConfig.GetIpFromIpsecConf | IpsecManager.py:193-199 | The address from the window of the first `conn <name>` line. It is `None` when no such line exists. |
| IpsecConfig.GetTunnelThatSharesSourceIp | IpsecManager.py:206-210 | The first other tunnel, in listing order, with the same source address. It is `None` iff there is none. |
| IpsecConfig.AnotherTunnelSharesSourceIp | IpsecManager.py:212-213 | Holds iff some listed tunnel of another name has the same source address. |
| IpsecConfig.SearchField | IpsecManager.py:176-182 | `key\s+:\s+value` at the leftmost match, and the value it captures has its pattern's form. |
| IpsecConfig.FirstFieldMatch | IpsecManager.py:176-182 | The leftmost position where the field pattern matches. |
| IpsecConfig.GetLocalGatewayIpFromGatewayConf | IpsecManager.py:175-176 | The gateway address read from gateway.conf is a dotted quad. |
| IpsecConfig.GetOvsBridgeFromGatewayConf | IpsecManager.py:178-179 | The bridge read from gateway.conf is a non-empty blank-free word. |
| IpsecConfig.GetLocalGatewayMacAddressFromGatewayConf | IpsecManager.py:181-182 | The MAC read from gateway.conf is six hex pairs joined by colons. |
| IpsecConfig.GetArpIpSpoofingRule | IpsecManager.py:184-185 | The rule exists iff the destination converts to hex. It is the fixed prefix, the hex address, then the fixed suffix. |
| IpsecConfig.ArpRuleOfValidAddress | IpsecManager.py:184-185 | For a valid destination the rule loads eight hex digits, the address's fields in order. |
| IpsecConfig.GatewayCreationSteps | IpsecManager.py:30-36 | Gateway creation has seven steps. |
| IpsecConfig.ComposeErrorLayout | IpsecManager.py:46 | The rollback error is `Failed to execute '<command>':`, then each line of the underlying error on its own line, indented by four spaces. |
| IpsecConfig.ClassifyUp | IpsecManager.py:112-117 | Success iff the output holds the success line. Otherwise `AUTHENTICATION_FAILED` or `NO_PROPOSAL_CHOSEN` marks an authentication failure; anything else is a failure. |
| IpsecConfig.FirstConflict | IpsecManager.py:75-79 | The first listed tunnel, from a given index on, with the same name or the same source and destination together; no earlier one conflicts. |
| IpsecConfig.DuplicateTunnelError | IpsecManager.py:75-79 | Raises iff some listed tunnel has the same name, or the same source and destination together. The first such tunnel decides the message: `A tunnel named …` when its name matches, else `A tunnel from … to …`. |
| IpsecConfig.SecretsExcisionDropsMarkedLines | IpsecManager.py:121-122 | The secrets excision drops exactly the lines ending in `# <name>`. |
| IpsecConfig.RemovedTunnelIsNotListed | IpsecManager.py:124-138 | After the ipsec.conf excision, no tunnel of that name is listed. |
| Manager.UndosOfAppend | IpsecManager.py:43-44 | Undoing a longer run undoes the later steps first. |
| Manager.NothingToUndo | IpsecManager.py:43-44 | Steps without an undo command issue nothing on rollback. |
| Manager.GatewayUndos | IpsecManager.py:30-44 | When step `k` fails, that step is not undone. A failure at step 0 undoes nothing. A failure at step 1 deletes the link. A failure at any later step deletes the port, then the link. The `strongswan stop` undo is never issued. |
| Manager.WithTitleLine | IpsecManager.py:54-55 | After the title check, the file has a line that is exactly the title. |
| Manager.TitleLineNeverDuplicated | IpsecManager.py:54-55 | The check never adds a second title line and adds exactly one to a file without it. Applying it twice changes nothing more. |
| Manager.CreateEffect | IpsecManager.py:26-55 | Commands are only ever added to the trace. A failed creation leaves the files as they were; one that passes has written gateway.conf and left ipsec.secrets alone. |
| Manager.CreateFailureRollsBack | IpsecManager.py:38-46 | If step `k` exits non-zero, the files are unchanged. The trace is steps `0..k`, then the undos of the completed steps, last first. The error names step `k`'s command and carries its stripped error output. |
| Manager.RemoveEffect | IpsecManager.py:120-151 | Commands are only ever added to the trace, and gateway.conf is never touched. |
| Manager.RemovedTunnelIsGone | IpsecManager.py:120-138 | A refused removal changes nothing and issues nothing. A removal that gets past its checks leaves the name unlisted, the secrets without its marked lines, and gateway.conf unchanged. |
| Manager.FollowUpChoice | IpsecManager.py:147-151 | The last command deletes the route when no other tunnel shares the source. Otherwise it is the ARP rule for the first such tunnel's destination. |
| Manager.RouteDeleteIsNotFixed | IpsecManager.py:140-151 | The route deletion is none of the five fixed removal commands. |
| Manager.RemovalCommandsThatSucceed | IpsecManager.py:140-151 | A removal that ends normally issued exactly update, secrets, down, the two flow deletions, then the follow-up. |
| Manager.RemovalCommandsShape | IpsecManager.py:140-151 | Issues the ARP rule for the first sharing tunnel, or else exactly one `ip route del <src>/32`. |
| Manager.FollowUpIssued | IpsecManager.py:147-151 | The route deletion occurs once in the six commands iff no tunnel shares the source. |
| Manager.RemovalThatSucceeds | IpsecManager.py:120-151 | A removal that ends normally found the tunnel listed, read its bridge and both addresses before the excision, and ran its commands on the excised files. |
| Manager.UpReading | IpsecManager.py:107-117 | The up step passes iff `strongswan up` ran in time, exited 0 and reported the connection established. Otherwise an overrun raises "unreachable" and an authentication failure raises with the files and trace untouched. |
| Manager.FailedUpRemovesTunnel | IpsecManager.py:115-117 | Any other up failure removes the tunnel again: the name is unlisted, its secrets are dropped, gateway.conf is untouched, and the add fails. |
| Manager.AddEffect | IpsecManager.py:71-117 | Commands are only ever added to the trace, and gateway.conf is never touched, the removal after a failed `strongswan up` included. |
| Manager.AddRefusalChangesNothing | IpsecManager.py:72-79 | A refused add changes no file and issues no command. A missing gateway, an already-listed name, and a listed tunnel with the same source and destination are all refused. |
| Manager.SharedSourceDoesNotBlockAdd | IpsecManager.py:75-79 | Listed tunnels that differ in name, and in destination where they share the source, do not affect the add: it plans as if none were listed. |
| Manager.SetupThatSucceeds | IpsecManager.py:97-105 | Setup that passes issued the forward flow, the ARP rule, the route, update and secrets, in that order. |
| Manager.ActivationThatSucceeds | IpsecManager.py:97-117 | Setup and up that pass change no file, issue the six commands in order, and `strongswan up` reported success. |
| Manager.AddThatSucceeds | IpsecManager.py:71-117 | An add that ends normally had the gateway, no same-named tunnel and no tunnel with the same source and destination. It appended both rendered entries and issued exactly the six commands, ending with a successful up. |
| Manager.TeardownTexts | IpsecManager.py:65-67 | Teardown deletes the port, then the veth pair, then stops strongSwan. |
| Manager.TeardownThatSucceeds | IpsecManager.py:65-68 | A teardown that passes read the bridge, issued the three teardown commands and deleted gateway.conf. |
| Manager.RemovalTakesDown | IpsecManager.py:140-142 | A removal that ends normally extends the trace and issues `strongswan down <name>`. |
| Manager.RemovalCommandsTakeDown | IpsecManager.py:142 | The third removal command takes the tunnel down. |
| Manager.RemoveAll | IpsecManager.py:62-63 | The removals only add to the trace and never touch gateway.conf. |
| Manager.DestroyEffect | IpsecManager.py:58-68 | Commands are only ever added to the trace. gateway.conf is either left as it was or deleted, and deleted whenever the destroy passes. |
| Manager.RemoveAllTakesEachDown | IpsecManager.py:62-63 | Removals that all pass extend the trace, and every named tunnel was taken down. |
| Manager.DestroyOutcomes | IpsecManager.py:58-68 | A refused destroy changes nothing. One that passes took down every tunnel listed at its start, stopped strongSwan last and deleted gateway.conf. |
| Manager.IpsecManager.constructor | IpsecManager.py:13-23 | The manager starts with the given files and templates and an empty trace. |
| Manager.IpsecManager.Run | BashCommand.py:25-27 | Issues the command and returns the outcome of its reply under the handler. |
| Manager.IpsecManager.RunTimed | BashCommand.py:42-54 | Issues the command and returns its timed outcome and stripped output. |
| Manager.IpsecManager.LaunchUndo | BashCommand.py:29-31 | Issues the undo command if there is one. |
| Manager.IpsecManager.RunScript | BashCommand.py:25-27 | The loop issues the commands of `Script` and ends with its outcome. |
| Manager.IpsecManager.UndoCompleted | IpsecManager.py:43-44 | The reversed loop issues `Undos(completed)`. |
| Manager.IpsecManager.RunGatewayCreationCommands | IpsecManager.py:38-46 | The creation loop issues the steps and, on failure, the rollback of `CreationRun`, raising its error. |
| Manager.IpsecManager.EnsureTitleLine | IpsecManager.py:54-55 | ipsec.conf becomes `WithTitleLine` of itself. |
| Manager.IpsecManager.CreateIpsecGateway | IpsecManager.py:26-55 | Files, trace and result are those of `CreateEffect`. |
| Manager.IpsecManager.ListIpsecTunnels | IpsecManager.py:155-170 | The walk with the title flag returns `ListTunnels` of ipsec.conf. |
| Manager.IpsecManager.RunRemovalCommands | IpsecManager.py:140-151 | Issues the commands of `RemovalCommands`. |
| Manager.IpsecManager.RunFlows | IpsecManager.py:144-151 | Issues the flow deletions and the follow-up. |
| Manager.IpsecManager.RunFollowUp | IpsecManager.py:147-151 | Issues the ARP rule or the route deletion. |
| Manager.IpsecManager.RemoveIpsecTunnel | IpsecManager.py:120-151 | Files, trace and result are those of `RemoveEffect`. |
| Manager.IpsecManager.PlanRemoval | IpsecManager.py:130-135 | The checks and reads return `RemovalPlan` and change nothing. |
| Manager.IpsecManager.ExciseTunnel | IpsecManager.py:137-138 | The files become `Excise` of themselves. |
| Manager.IpsecManager.DestroyIpsecGateway | IpsecManager.py:58-68 | Files, trace and result are those of `DestroyEffect`. |
| Manager.IpsecManager.RemoveTunnels | IpsecManager.py:62-63 | The loop has the effect of `RemoveAll`. |
| Manager.IpsecManager.TearDownGateway | IpsecManager.py:65-68 | Has the effect of `Teardown`. |
| Manager.IpsecManager.AppendTunnelEntries | IpsecManager.py:86-95 | The files become `AppendTunnel` of themselves. |
| Manager.IpsecManager.RunTunnelSetup | IpsecManager.py:97-105 | Issues the commands of `SetupRun`. |
| Manager.IpsecManager.RaiseTunnel | IpsecManager.py:107-117 | Has the effect of `UpEffect`. |
| Manager.IpsecManager.ReadUpOutcome | IpsecManager.py:110-117 | Has the effect of `UpAftermath`. |
| Manager.IpsecManager.RemoveAfterFailedUp | IpsecManager.py:116-117 | Has the effect of `FailedUpRemoval`. |
| Manager.IpsecManager.AddIpsecTunnel | IpsecManager.py:71-117 | Files, trace and result are those of `AddEffect`. |
| Manager.IpsecManager.PlanAddition | IpsecManager.py:72-83 | The checks and reads return `AddPlan` and change nothing. |
| Manager.IpsecManager.Install | IpsecManager.py:86-117 | Has the effect of `Installation`. |
| Manager.IpsecManager.Activate | IpsecManager.py:97-117 | Has the effect of `Activation`. |

## Left out

- Processes, threads and signals (BashCommand.py:20-23, 42-54): spawning the shell, the thread joined with a timeout, and `killpg` are not modelled. A command's exit status, outputs and running time are the input `respond`. A timed command times out when its running time exceeds the timeout.
- Undo commands (BashCommand.py:29-31) are launched without waiting. The model appends them to the trace, and they consume no reply.
- `interfaceExists` and `getMacAddr` (IpsecManagerUtilityMethods.py:28-41) probe the system. The interface's presence and the new MAC address are parameters of the operations.
- The entry point `ipsecManager.py`, with its argv handling, printing, exit codes and dispatch by name, is not part of this model.
- `os.makedirs` and `sleep(1)` have no effect on the modelled state. `os.remove` of gateway.conf is `gatewayConf := None`. A missing gateway.conf raises `IOError` when read. ipsec.conf and ipsec.secrets are assumed to exist.
- Files are assumed to end with a line break, so appending rendered lines is sequence concatenation. Lines are kept without their terminators, and a `$` that would match before a trailing line break is read as the end of the line.
- Tunnel names are spliced into patterns as literal text. Names holding regular-expression metacharacters are not modelled.
- UtilityMethods.WriteToFileFromTemplate: the dictionary's iteration order (Python 2, unspecified) is taken to be the order of the literal. No order-independence is claimed when a value contains another key.
- UtilityMethods.ConvertIpToHex: `int()` is modelled only on ASCII digit runs. Signs and surrounding blanks, which `int()` also accepts, are read as non-numeric.
- Python exceptions the entry point does not catch (`TypeError`, `AttributeError`, `ValueError`, `IOError`) are collapsed into `Uncaught(<kind>)` without their messages.
- strongSwan and `ovs-ofctl` output is opaque text, checked only by substring containment.
- IpsecConfig.GatewayCreationSteps: the contract states only the number of steps. Their texts and undo commands are used by `Manager.GatewayUndos` and `Manager.CreateFailureRollsBack`, which state the rollback.
