/**
 * IpsecManager.py: the operations of the manager, as changes to the three
 * files it keeps (ipsec.conf, ipsec.secrets and gateway.conf) and the
 * external commands it issues, in order.
 *
 * Each operation is a method of `IpsecManager`, proved against a function
 * of the files before the call (`CreateEffect`, `AddEffect`,
 * `RemoveEffect`, `DestroyEffect`) that says what the files become, which
 * commands are issued and how the operation ends.
 */
module Manager {
  import opened Wrappers
  import opened Strings
  import opened Shell
  import opened ErrorHandlers
  import opened UtilityMethods
  import opened IpsecConfig

  /** The three files the manager reads and writes; gateway.conf exists only while a gateway does. */
  datatype Files = Files(ipsecConf: seq<string>, ipsecSecrets: seq<string>, gatewayConf: Option<seq<string>>)

  /**
   * What an operation leaves behind: the files, the trace of every command
   * issued so far (the operation's own commands appended to the trace it
   * started from) and how it ended.
   */
  datatype Effect = Effect(files: Files, trace: seq<string>, outcome: Outcome)

  /** Every command of a straight run is executed with the default error handler. */
  function Plain(command: string): Cmd {
    Cmd(command, DefaultErrorHandler)
  }

  // ---------------------------------------------------------------------
  // createIpsecGateway
  // ---------------------------------------------------------------------

  function StepCmds(steps: seq<Step>): (r: seq<Cmd>)
    ensures |r| == |steps| && forall i :: 0 <= i < |r| ==> r[i] == Plain(steps[i].command)
  {
    seq(|steps|, i requires 0 <= i < |steps| => Plain(steps[i].command))
  }

  /** The undo commands `undo()` launches for `completed`, visited last to first. */
  function Undos(completed: seq<Step>): seq<string>
    decreases |completed|
  {
    if completed == [] then [] else Undos(completed[1..]) + UndoCommands(completed[0])
  }

  /** Undoing a longer run undoes the later steps first. */
  lemma {:induction false} UndosOfAppend(a: seq<Step>, b: seq<Step>)
    ensures Undos(a + b) == Undos(b) + Undos(a)
    decreases |a|
  {
    if a == [] {
      assert a + b == b;
    } else {
      assert (a + b)[1..] == a[1..] + b;
      UndosOfAppend(a[1..], b);
    }
  }

  /**
   * The rollback of a failed gateway creation: when step `k` fails, the
   * completed steps with an undo command are undone, last first, and the
   * failing step is not; `strongswan start` is the last step, so the daemon
   * is never stopped by a rollback.
   */
  lemma GatewayUndos(ovsBridge: string, gatewayIp: string, k: nat)
    requires k < 7
    ensures var undos := Undos(GatewayCreationSteps(ovsBridge, gatewayIp)[..k]);
            (k == 0 ==> undos == []) &&
            (k == 1 ==> undos == [DeleteLinkCommand]) &&
            (2 <= k ==> undos == [DeletePortCommand(ovsBridge), DeleteLinkCommand])
  {
    var steps := GatewayCreationSteps(ovsBridge, gatewayIp);
    var linked := steps[..2];
    assert Undos(linked[1..]) == [DeletePortCommand(ovsBridge)] by {
      assert linked[1..][1..] == [];
    }
    assert Undos(linked) == [DeletePortCommand(ovsBridge), DeleteLinkCommand];
    if k == 0 {
      assert steps[..0] == [];
    } else if k == 1 {
      assert steps[..1][1..] == [];
    } else {
      assert steps[..k] == linked + steps[2..k];
      NothingToUndo(steps[2..k]);
      UndosOfAppend(linked, steps[2..k]);
    }
  }

  /** Steps without an undo command leave nothing to undo. */
  lemma {:induction false} NothingToUndo(completed: seq<Step>)
    requires forall i :: 0 <= i < |completed| ==> completed[i].undo.None?
    ensures Undos(completed) == []
    decreases |completed|
  {
    if completed != [] {
      NothingToUndo(completed[1..]);
    }
  }

  /** The replacement dictionary of gateway.template, in the order its pairs are written. */
  function GatewayReplacements(gatewayIp: string, gatewayMac: string, ovsBridge: string): seq<(string, string)> {
    [("GATEWAY_IP", gatewayIp), ("GATEWAY_MAC", gatewayMac), ("OVS_BRIDGE", ovsBridge)]
  }

  /** ipsec.conf after the title check: the title line is appended after a blank line when no line is exactly the title. */
  function WithTitleLine(ipsecConf: seq<string>): (r: seq<string>)
    ensures IpsecConfTitleLine in r
  {
    if IpsecConfTitleLine in ipsecConf then ipsecConf else ipsecConf + ["", IpsecConfTitleLine]
  }

  /** Creating the gateway again never adds a second title line, and a file without one gains exactly one. */
  lemma TitleLineNeverDuplicated(ipsecConf: seq<string>)
    ensures multiset(WithTitleLine(ipsecConf))[IpsecConfTitleLine] ==
            if IpsecConfTitleLine in ipsecConf then multiset(ipsecConf)[IpsecConfTitleLine] else 1
    ensures WithTitleLine(WithTitleLine(ipsecConf)) == WithTitleLine(ipsecConf)
    ensures WithTitleLine(ipsecConf)[..|ipsecConf|] == ipsecConf
  {
    if IpsecConfTitleLine !in ipsecConf {
      assert multiset(ipsecConf)[IpsecConfTitleLine] == 0;
      assert multiset(ipsecConf + ["", IpsecConfTitleLine]) == multiset(ipsecConf) + multiset{"", IpsecConfTitleLine};
      assert (ipsecConf + ["", IpsecConfTitleLine])[..|ipsecConf|] == ipsecConf;
    }
  }

  /**
   * `createIpsecGateway` with the gateway interface present or not, and the
   * MAC address the new interface was given.
   */
  function CreateEffect(respond: (nat, string) -> Reply, trace: seq<string>, files: Files, gatewayTemplate: seq<string>,
                        ovsBridge: string, gatewayIp: string, interfaceExists: bool, gatewayMac: string): (e: Effect)
    ensures trace <= e.trace
    ensures e.outcome.Fail? ==> e.files == files
    ensures e.outcome.Pass? ==> e.files.gatewayConf.Some? && e.files.ipsecSecrets == files.ipsecSecrets
  {
    if interfaceExists then Effect(files, trace, Fail(RuntimeError("A gateway already exists")))
    else
      var run := CreationRun(respond, |trace|, GatewayCreationSteps(ovsBridge, gatewayIp));
      if run.1.Fail? then Effect(files, trace + run.0, run.1)
      else
        var gatewayConf := ReadBack(RenderedTemplate(gatewayTemplate, GatewayReplacements(gatewayIp, gatewayMac, ovsBridge)));
        Effect(files.(gatewayConf := Some(gatewayConf), ipsecConf := WithTitleLine(files.ipsecConf)), trace + run.0, run.1)
  }

  /**
   * The commands of the creation loop and how it ends: the steps run as a
   * straight run; when one fails, the completed steps are undone and the
   * composed error is raised.
   */
  function CreationRun(respond: (nat, string) -> Reply, base: nat, steps: seq<Step>): (seq<string>, Outcome) {
    var run := Script(respond, base, StepCmds(steps));
    if run.1.Pass? then run
    else
      var k := |run.0| - 1;
      (run.0 + Undos(steps[..k]), Fail(RuntimeError(ComposeError(steps[k].command, ErrorText(run.1.error)))))
  }

  /**
   * A failed gateway creation leaves the files as they were; the commands
   * issued are the steps up to the failing one, then the rollback; the error
   * names the failing command and carries its error output.
   */
  lemma CreateFailureRollsBack(respond: (nat, string) -> Reply, trace: seq<string>, files: Files, gatewayTemplate: seq<string>,
                               ovsBridge: string, gatewayIp: string, gatewayMac: string, k: nat)
    requires k < 7
    requires forall i :: 0 <= i < k ==> respond(|trace| + i, GatewayCreationSteps(ovsBridge, gatewayIp)[i].command).exitCode == 0
    requires respond(|trace| + k, GatewayCreationSteps(ovsBridge, gatewayIp)[k].command).exitCode != 0
    ensures var steps := GatewayCreationSteps(ovsBridge, gatewayIp);
            var e := CreateEffect(respond, trace, files, gatewayTemplate, ovsBridge, gatewayIp, false, gatewayMac);
            e.files == files &&
            e.trace == trace + seq(k + 1, i requires 0 <= i <= k => steps[i].command) + Undos(steps[..k]) &&
            e.outcome == Fail(RuntimeError(ComposeError(steps[k].command, Strip(respond(|trace| + k, steps[k].command).stderr))))
  {
    var base := |trace|;
    var steps := GatewayCreationSteps(ovsBridge, gatewayIp);
    var cmds := StepCmds(steps);
    forall i | 0 <= i < k ensures StepOutcome(respond, base, cmds, i).Pass? {
      HandlerOnlyOnFailure(respond(base + i, steps[i].command), DefaultErrorHandler);
    }
    assert StepOutcome(respond, base, cmds, k).Fail?;
    FirstFailingIs(respond, base, cmds, 0, k);
  }

  /** The first failure is the one at `k` when every command before it passes and it fails. */
  lemma {:induction false} FirstFailingIs(respond: (nat, string) -> Reply, base: nat, commands: seq<Cmd>, from: nat, k: nat)
    requires from <= k <= |commands|
    requires forall i :: from <= i < k ==> StepOutcome(respond, base, commands, i).Pass?
    requires k < |commands| ==> StepOutcome(respond, base, commands, k).Fail?
    ensures FirstFailing(respond, base, commands, from) == k
    decreases k - from
  {
    if from < k {
      FirstFailingIs(respond, base, commands, from + 1, k);
    }
  }

  // ---------------------------------------------------------------------
  // removeIpsecTunnel
  // ---------------------------------------------------------------------

  /**
   * A field read from gateway.conf: opening a missing file raises
   * `IOError`, and `.group` on a pattern that did not match raises
   * `AttributeError`.
   */
  function ReadGatewayConf(gatewayConf: Option<seq<string>>, read: seq<string> -> Option<string>): Attempt<string> {
    match gatewayConf
    case None => Raised(Uncaught("IOError"))
    case Some(lines) =>
      match read(lines)
      case None => Raised(Uncaught("AttributeError"))
      case Some(value) => Value(value)
  }

  function NoTunnelMessage(name: string): string {
    "No tunnel named " + name + " exists"
  }

  /**
   * What `removeIpsecTunnel` learns before it changes anything: the tunnel
   * must be listed, then the bridge is read and the tunnel's two addresses
   * are looked up in ipsec.conf as it still is.
   */
  function RemovalPlan(files: Files, n: nat, name: string): Attempt<(string, Option<string>, Option<string>)> {
    if name !in TunnelNames(ListTunnels(files.ipsecConf, n)) then Raised(RuntimeError(NoTunnelMessage(name)))
    else
      match ReadGatewayConf(files.gatewayConf, GetOvsBridgeFromGatewayConf)
      case Raised(e) => Raised(e)
      case Value(ovsBridge) =>
        Value((ovsBridge, GetIpFromIpsecConf(files.ipsecConf, name, "leftsubnet", n),
               GetIpFromIpsecConf(files.ipsecConf, name, "rightsubnet", n)))
  }

  /** Both excisions: the secrets lines marked with the tunnel's name, and its block of ipsec.conf. */
  function Excise(files: Files, name: string): Files {
    files.(ipsecSecrets := Kept(files.ipsecSecrets, false, SecretsLineMatchesTunnel(name), SecretsLineDoesNotMatchTunnel(name)),
           ipsecConf := Kept(files.ipsecConf, false, ConfLineStartsTunnel(name), ConfLineStartsNextTunnel(name)))
  }

  /**
   * The last command of a removal, decided on ipsec.conf after the
   * excision: when another tunnel still has the same source address, the
   * ARP rule is re-added for the first such tunnel's destination (`None`
   * has no `split`, and a field `int()` rejects raises); otherwise the host
   * route is deleted.
   */
  function RouteFollowUp(ipsecConf: seq<string>, n: nat, name: string, ovsBridge: string, sourceIp: string): Attempt<string> {
    match GetTunnelThatSharesSourceIp(ListTunnels(ipsecConf, n), name, Some(sourceIp))
    case None => Value(RouteDeleteCommand(sourceIp))
    case Some(sharer) =>
      match sharer.destIp
      case None => Raised(Uncaught("AttributeError"))
      case Some(alternateDestIp) =>
        match GetArpIpSpoofingRule(ovsBridge, sourceIp, alternateDestIp)
        case None => Raised(Uncaught("ValueError"))
        case Some(rule) => Value(rule)
  }

  /**
   * The commands of a removal once the files are rewritten: strongswan
   * reloads and takes the tunnel down, the two flows are deleted (a missing
   * address is a `TypeError` when the command text is built), then the
   * follow-up command.
   */
  function RemovalCommands(respond: (nat, string) -> Reply, base: nat, ipsecConf: seq<string>, n: nat, name: string,
                           ovsBridge: string, sourceIp: Option<string>, destIp: Option<string>): (seq<string>, Outcome)
  {
    var reload := Script(respond, base, [Plain(UpdateCommand), Plain(SecretsCommand), Plain(DownCommand(name))]);
    if reload.1.Fail? then reload
    else if sourceIp.None? || destIp.None? then (reload.0, Fail(Uncaught("TypeError")))
    else
      var rest := FlowsRun(respond, base + 3, ipsecConf, n, name, ovsBridge, sourceIp.value, destIp.value);
      (reload.0 + rest.0, rest.1)
  }

  /** The two flow deletions, then the follow-up command. */
  function FlowsRun(respond: (nat, string) -> Reply, base: nat, ipsecConf: seq<string>, n: nat, name: string,
                    ovsBridge: string, sourceIp: string, destIp: string): (seq<string>, Outcome)
  {
    var flows := Script(respond, base, [Plain(DeleteForwardFlowCommand(ovsBridge, sourceIp, destIp)),
                                        Plain(DeleteArpFlowCommand(ovsBridge, sourceIp))]);
    if flows.1.Fail? then flows
    else
      var last := FollowUpRun(respond, base + 2, ipsecConf, n, name, ovsBridge, sourceIp);
      (flows.0 + last.0, last.1)
  }

  /** The follow-up command issued, or the error raised while building it. */
  function FollowUpRun(respond: (nat, string) -> Reply, base: nat, ipsecConf: seq<string>, n: nat, name: string,
                       ovsBridge: string, sourceIp: string): (seq<string>, Outcome)
  {
    match RouteFollowUp(ipsecConf, n, name, ovsBridge, sourceIp)
    case Raised(e) => ([], Fail(e))
    case Value(command) => ([command], Execute(respond(base, command), DefaultErrorHandler))
  }

  /** `removeIpsecTunnel` on `files`, after the commands of `trace`. */
  function RemoveEffect(respond: (nat, string) -> Reply, trace: seq<string>, files: Files, n: nat, name: string): (e: Effect)
    ensures trace <= e.trace
    ensures e.files.gatewayConf == files.gatewayConf
  {
    match RemovalPlan(files, n, name)
    case Raised(e) => Effect(files, trace, Fail(e))
    case Value((ovsBridge, sourceIp, destIp)) =>
      var excised := Excise(files, name);
      var run := RemovalCommands(respond, |trace|, excised.ipsecConf, n, name, ovsBridge, sourceIp, destIp);
      Effect(excised, trace + run.0, run.1)
  }

  /**
   * A removal that is refused changes nothing and issues nothing; one that
   * gets past its checks leaves no tunnel of that name listed and no
   * secrets line marked with it, whatever its commands do afterwards.
   */
  lemma RemovedTunnelIsGone(respond: (nat, string) -> Reply, trace: seq<string>, files: Files, n: nat, name: string)
    ensures RemovalPlan(files, n, name).Raised? ==>
              RemoveEffect(respond, trace, files, n, name) == Effect(files, trace, Fail(RemovalPlan(files, n, name).error))
    ensures RemovalPlan(files, n, name).Value? ==>
              var after := RemoveEffect(respond, trace, files, n, name).files;
              name !in TunnelNames(ListTunnels(after.ipsecConf, n)) &&
              after.ipsecSecrets == Unmarked(files.ipsecSecrets, SecretsLineMatchesTunnel(name)) &&
              after.gatewayConf == files.gatewayConf
  {
    if RemovalPlan(files, n, name).Value? {
      RemovedTunnelIsNotListed(files.ipsecConf, name, n);
      SecretsExcisionDropsMarkedLines(files.ipsecSecrets, name);
    }
  }

  /**
   * The follow-up command: with no other tunnel on the same source address
   * it is the route deletion, otherwise the ARP rule for the first such
   * tunnel's destination, which is an `ovs-ofctl` command.
   */
  lemma FollowUpChoice(ipsecConf: seq<string>, n: nat, name: string, ovsBridge: string, sourceIp: string)
    requires RouteFollowUp(ipsecConf, n, name, ovsBridge, sourceIp).Value?
    ensures var command := RouteFollowUp(ipsecConf, n, name, ovsBridge, sourceIp).value;
            var sharer := GetTunnelThatSharesSourceIp(ListTunnels(ipsecConf, n), name, Some(sourceIp));
            (sharer.None? ==> command == RouteDeleteCommand(sourceIp)) &&
            (sharer.Some? ==> sharer.value.destIp.Some? &&
                              GetArpIpSpoofingRule(ovsBridge, sourceIp, sharer.value.destIp.value) == Some(command) &&
                              command[0] == 'o')
  {
    var sharer := GetTunnelThatSharesSourceIp(ListTunnels(ipsecConf, n), name, Some(sourceIp));
    if sharer.Some? {
      var hex := ConvertIpToHex(sharer.value.destIp.value).value;
      var command := ArpRulePrefix(ovsBridge, sourceIp) + hex + ArpRuleSuffix;
      assert command[0] == ArpRulePrefix(ovsBridge, sourceIp)[0];
    }
  }

  /** The host-route deletion is none of the five fixed commands of a removal: it alone starts with `i`. */
  lemma RouteDeleteIsNotFixed(name: string, ovsBridge: string, sourceIp: string, destIp: string)
    ensures RouteDeleteCommand(sourceIp) !in [UpdateCommand, SecretsCommand, DownCommand(name),
                                              DeleteForwardFlowCommand(ovsBridge, sourceIp, destIp),
                                              DeleteArpFlowCommand(ovsBridge, sourceIp)]
  {
    assert RouteDeleteCommand(sourceIp)[0] == 'i';
    assert DownCommand(name)[0] == 's';
    assert DeleteForwardFlowCommand(ovsBridge, sourceIp, destIp)[0] == 'o';
    assert DeleteArpFlowCommand(ovsBridge, sourceIp)[0] == 'o';
  }

  /** A command absent from the first part of a sequence occurs in it as often as it is its last element. */
  lemma CountAfterPrefix(prefix: seq<string>, last: string, command: string)
    requires command !in prefix
    ensures multiset(prefix + [last])[command] == if last == command then 1 else 0
  {
    assert multiset(prefix + [last]) == multiset(prefix) + multiset{last};
  }

  /** The commands of a removal that ends normally: all five fixed ones, then the follow-up. */
  lemma RemovalCommandsThatSucceed(respond: (nat, string) -> Reply, base: nat, ipsecConf: seq<string>, n: nat, name: string,
                                   ovsBridge: string, sourceIp: Option<string>, destIp: Option<string>)
    requires RemovalCommands(respond, base, ipsecConf, n, name, ovsBridge, sourceIp, destIp).1 == Pass
    ensures sourceIp.Some? && destIp.Some?
    ensures RouteFollowUp(ipsecConf, n, name, ovsBridge, sourceIp.value).Value?
    ensures RemovalCommands(respond, base, ipsecConf, n, name, ovsBridge, sourceIp, destIp).0 ==
            [UpdateCommand, SecretsCommand, DownCommand(name),
             DeleteForwardFlowCommand(ovsBridge, sourceIp.value, destIp.value),
             DeleteArpFlowCommand(ovsBridge, sourceIp.value),
             RouteFollowUp(ipsecConf, n, name, ovsBridge, sourceIp.value).value]
  {
    var reload := [Plain(UpdateCommand), Plain(SecretsCommand), Plain(DownCommand(name))];
    assert Script(respond, base, reload).0 == CommandTexts(reload);
    var flows := [Plain(DeleteForwardFlowCommand(ovsBridge, sourceIp.value, destIp.value)), Plain(DeleteArpFlowCommand(ovsBridge, sourceIp.value))];
    assert Script(respond, base + 3, flows).0 == CommandTexts(flows);
  }

  /**
   * The commands of a removal that ends normally, on the configuration left
   * after the excision: the reload, the take-down, the two flow deletions,
   * and then either the ARP rule for the first remaining tunnel with the
   * same source address or, when there is none, the one deletion of the
   * host route.
   */
  lemma RemovalCommandsShape(respond: (nat, string) -> Reply, base: nat, ipsecConf: seq<string>, n: nat, name: string,
                             ovsBridge: string, sourceIp: Option<string>, destIp: Option<string>)
    requires RemovalCommands(respond, base, ipsecConf, n, name, ovsBridge, sourceIp, destIp).1 == Pass
    ensures var issued := RemovalCommands(respond, base, ipsecConf, n, name, ovsBridge, sourceIp, destIp).0;
            var sharer := GetTunnelThatSharesSourceIp(ListTunnels(ipsecConf, n), name, sourceIp);
            sourceIp.Some? && destIp.Some? &&
            |issued| == 6 &&
            issued[..5] == [UpdateCommand, SecretsCommand, DownCommand(name),
                            DeleteForwardFlowCommand(ovsBridge, sourceIp.value, destIp.value),
                            DeleteArpFlowCommand(ovsBridge, sourceIp.value)] &&
            (sharer.None? ==> issued[5] == RouteDeleteCommand(sourceIp.value)) &&
            (sharer.Some? ==> sharer.value.destIp.Some? &&
                              GetArpIpSpoofingRule(ovsBridge, sourceIp.value, sharer.value.destIp.value) == Some(issued[5])) &&
            multiset(issued)[RouteDeleteCommand(sourceIp.value)] == (if sharer.None? then 1 else 0)
  {
    RemovalCommandsThatSucceed(respond, base, ipsecConf, n, name, ovsBridge, sourceIp, destIp);
    FollowUpIssued(ipsecConf, n, name, ovsBridge, sourceIp.value, destIp.value);
  }

  /** The facts of `RemovalCommandsShape`, about the six commands themselves. */
  lemma FollowUpIssued(ipsecConf: seq<string>, n: nat, name: string, ovsBridge: string, sourceIp: string, destIp: string)
    requires RouteFollowUp(ipsecConf, n, name, ovsBridge, sourceIp).Value?
    ensures var issued := [UpdateCommand, SecretsCommand, DownCommand(name),
                           DeleteForwardFlowCommand(ovsBridge, sourceIp, destIp),
                           DeleteArpFlowCommand(ovsBridge, sourceIp),
                           RouteFollowUp(ipsecConf, n, name, ovsBridge, sourceIp).value];
            var sharer := GetTunnelThatSharesSourceIp(ListTunnels(ipsecConf, n), name, Some(sourceIp));
            (sharer.None? ==> issued[5] == RouteDeleteCommand(sourceIp)) &&
            (sharer.Some? ==> sharer.value.destIp.Some? &&
                              GetArpIpSpoofingRule(ovsBridge, sourceIp, sharer.value.destIp.value) == Some(issued[5])) &&
            multiset(issued)[RouteDeleteCommand(sourceIp)] == (if sharer.None? then 1 else 0)
  {
    FollowUpChoice(ipsecConf, n, name, ovsBridge, sourceIp);
    var fixed := [UpdateCommand, SecretsCommand, DownCommand(name),
                  DeleteForwardFlowCommand(ovsBridge, sourceIp, destIp),
                  DeleteArpFlowCommand(ovsBridge, sourceIp)];
    var last := RouteFollowUp(ipsecConf, n, name, ovsBridge, sourceIp).value;
    RouteDeleteIsNotFixed(name, ovsBridge, sourceIp, destIp);
    CountAfterPrefix(fixed, last, RouteDeleteCommand(sourceIp));
  }

  /**
   * A removal that ends normally found the tunnel, its bridge and both its
   * addresses, and ran its commands on the excised configuration with the
   * addresses read before the excision.
   */
  lemma RemovalThatSucceeds(respond: (nat, string) -> Reply, trace: seq<string>, files: Files, n: nat, name: string)
    requires RemoveEffect(respond, trace, files, n, name).outcome == Pass
    ensures RemovalPlan(files, n, name).Value?
    ensures var plan := RemovalPlan(files, n, name).value;
            var e := RemoveEffect(respond, trace, files, n, name);
            e.files == Excise(files, name) &&
            e.trace == trace + RemovalCommands(respond, |trace|, e.files.ipsecConf, n, name, plan.0, plan.1, plan.2).0 &&
            RemovalCommands(respond, |trace|, e.files.ipsecConf, n, name, plan.0, plan.1, plan.2).1 == Pass &&
            plan.1.Some? && plan.2.Some? &&
            name in TunnelNames(ListTunnels(files.ipsecConf, n)) &&
            ReadGatewayConf(files.gatewayConf, GetOvsBridgeFromGatewayConf) == Value(plan.0)
  {
    var plan := RemovalPlan(files, n, name).value;
    RemovalCommandsShape(respond, |trace|, Excise(files, name).ipsecConf, n, name, plan.0, plan.1, plan.2);
  }

  // ---------------------------------------------------------------------
  // addIpsecTunnel
  // ---------------------------------------------------------------------

  /** The six parameters of `addIpsecTunnel`. */
  datatype TunnelRequest = TunnelRequest(name: string, sourceIp: string, destIp: string,
                                         remoteGateway: string, localId: string, remoteId: string)

  /** How long `strongswan up` may run, in seconds. */
  const UpTimeout: nat := 5

  /** The replacements for the ipsec.conf entry, in the order the dictionary literal lists them. */
  function ConfReplacements(localGatewayIp: string, request: TunnelRequest): seq<(string, string)> {
    [("LOCAL_GATEWAY_IP", localGatewayIp), ("REMOTE_GATEWAY_IP", request.remoteGateway),
     ("SOURCE_IP", request.sourceIp), ("DEST_IP", request.destIp),
     ("LOCAL_ID", request.localId), ("REMOTE_ID", request.remoteId), ("TUNNEL_NAME", request.name)]
  }

  /** The replacements for the ipsec.secrets entry. */
  function SecretsReplacements(request: TunnelRequest): seq<(string, string)> {
    [("LOCAL_ID", request.localId), ("REMOTE_ID", request.remoteId), ("TUNNEL_NAME", request.name)]
  }

  /**
   * What `addIpsecTunnel` checks and reads before it changes anything:
   * the gateway interface must exist, no listed tunnel may have the same
   * name or the same pair of addresses, and the gateway address, bridge and
   * MAC address are read from gateway.conf, in that order.
   */
  function AddPlan(files: Files, n: nat, request: TunnelRequest, interfaceExists: bool): Attempt<(string, string, string)> {
    if !interfaceExists then Raised(RuntimeError(NoGatewayMessage()))
    else match DuplicateTunnelError(ListTunnels(files.ipsecConf, n), request.name, request.sourceIp, request.destIp)
    case Some(message) => Raised(RuntimeError(message))
    case None =>
      match ReadGatewayConf(files.gatewayConf, GetLocalGatewayIpFromGatewayConf)
      case Raised(e) => Raised(e)
      case Value(localGatewayIp) =>
        match ReadGatewayConf(files.gatewayConf, GetOvsBridgeFromGatewayConf)
        case Raised(e) => Raised(e)
        case Value(ovsBridge) =>
          match ReadGatewayConf(files.gatewayConf, GetLocalGatewayMacAddressFromGatewayConf)
          case Raised(e) => Raised(e)
          case Value(gatewayMac) => Value((localGatewayIp, ovsBridge, gatewayMac))
  }

  /** Both templates rendered and appended, as later reads see them: the tunnel's entry to ipsec.conf, its secret to ipsec.secrets. */
  function AppendTunnel(files: Files, ipsecConfTemplate: seq<string>, ipsecSecretsTemplate: seq<string>,
                        localGatewayIp: string, request: TunnelRequest): Files
  {
    files.(ipsecConf := files.ipsecConf + ReadBack(RenderedTemplate(ipsecConfTemplate, ConfReplacements(localGatewayIp, request))),
           ipsecSecrets := files.ipsecSecrets + ReadBack(RenderedTemplate(ipsecSecretsTemplate, SecretsReplacements(request))))
  }

  /**
   * The commands that wire the tunnel in: the forward flow, then the ARP
   * rule (whose text is built only after the flow is added, so an address
   * `int()` rejects raises `ValueError` there), the host route (an existing
   * route is accepted), and the strongswan reload.
   */
  function SetupRun(respond: (nat, string) -> Reply, base: nat, ovsBridge: string, gatewayMac: string,
                    request: TunnelRequest): (seq<string>, Outcome)
  {
    var forward := ForwardFlowCommand(ovsBridge, request.sourceIp, request.destIp, gatewayMac);
    var first := Execute(respond(base, forward), DefaultErrorHandler);
    if first.Fail? then ([forward], first)
    else
      match GetArpIpSpoofingRule(ovsBridge, request.sourceIp, request.destIp)
      case None => ([forward], Fail(Uncaught("ValueError")))
      case Some(rule) =>
        var rest := Script(respond, base + 1, [Plain(rule), Cmd(RouteAddCommand(request.sourceIp), IpRouteAddStderrHandler),
                                               Plain(UpdateCommand), Plain(SecretsCommand)]);
        ([forward] + rest.0, rest.1)
  }

  /**
   * Raising the tunnel: a `strongswan up` that overruns the timeout means
   * the remote gateway was not reached, one that exits non-zero raises its
   * error output, and otherwise its output decides. An authentication
   * failure leaves the tunnel configured; any other failure removes it
   * again, and the removal's own error, if any, is the one raised.
   */
  function UpEffect(respond: (nat, string) -> Reply, trace: seq<string>, files: Files, n: nat, name: string): (e: Effect)
    ensures trace <= e.trace
    ensures e.files.gatewayConf == files.gatewayConf
  {
    var up := UpCommand(name);
    var reply := respond(|trace|, up);
    UpAftermath(respond, trace + [up], files, n, name, ExecuteTimed(reply, DefaultErrorHandler, UpTimeout), Output(reply))
  }

  /** What follows `strongswan up` with the given outcome and output. */
  function UpAftermath(respond: (nat, string) -> Reply, trace: seq<string>, files: Files, n: nat, name: string,
                       outcome: Outcome, output: string): (e: Effect)
    ensures trace <= e.trace
    ensures e.files.gatewayConf == files.gatewayConf
  {
    match outcome
    case Fail(Timeout) => Effect(files, trace, Fail(RuntimeError(UnreachableMessage(name))))
    case Fail(e) => Effect(files, trace, Fail(e))
    case Pass =>
      match ClassifyUp(name, output)
      case Established => Effect(files, trace, Pass)
      case NotAuthenticated => Effect(files, trace, Fail(RuntimeError(NotAuthenticatedMessage(name))))
      case UpFailed => FailedUpRemoval(respond, trace, files, n, name, output)
  }

  /** The removal after an unexplained `strongswan up` failure, which raises the up output unless it raised first. */
  function FailedUpRemoval(respond: (nat, string) -> Reply, trace: seq<string>, files: Files, n: nat, name: string,
                           output: string): (e: Effect)
    ensures trace <= e.trace
    ensures e.files.gatewayConf == files.gatewayConf
  {
    var removal := RemoveEffect(respond, trace, files, n, name);
    if removal.outcome.Fail? then removal
    else removal.(outcome := Fail(RuntimeError(UpFailureMessage(name, output))))
  }

  /** `addIpsecTunnel` on `files`, with the interface probe given. */
  function AddEffect(respond: (nat, string) -> Reply, trace: seq<string>, files: Files, ipsecConfTemplate: seq<string>,
                     ipsecSecretsTemplate: seq<string>, request: TunnelRequest, interfaceExists: bool): (e: Effect)
    ensures trace <= e.trace
    ensures e.files.gatewayConf == files.gatewayConf
  {
    match AddPlan(files, |ipsecConfTemplate|, request, interfaceExists)
    case Raised(e) => Effect(files, trace, Fail(e))
    case Value((localGatewayIp, ovsBridge, gatewayMac)) =>
      Installation(respond, trace, files, ipsecConfTemplate, ipsecSecretsTemplate, request, localGatewayIp, ovsBridge, gatewayMac)
  }

  /** What `addIpsecTunnel` does once its checks pass: append the entries, wire the tunnel in, raise it. */
  function Installation(respond: (nat, string) -> Reply, trace: seq<string>, files: Files, ipsecConfTemplate: seq<string>,
                        ipsecSecretsTemplate: seq<string>, request: TunnelRequest,
                        localGatewayIp: string, ovsBridge: string, gatewayMac: string): (e: Effect)
    ensures trace <= e.trace
    ensures e.files.gatewayConf == files.gatewayConf
  {
    Activation(respond, trace, AppendTunnel(files, ipsecConfTemplate, ipsecSecretsTemplate, localGatewayIp, request),
               |ipsecConfTemplate|, request, ovsBridge, gatewayMac)
  }

  /** The setup commands on the appended files and, if they all pass, `strongswan up`. */
  function Activation(respond: (nat, string) -> Reply, trace: seq<string>, files: Files, n: nat, request: TunnelRequest,
                      ovsBridge: string, gatewayMac: string): (e: Effect)
    ensures trace <= e.trace
    ensures e.files.gatewayConf == files.gatewayConf
  {
    var setup := SetupRun(respond, |trace|, ovsBridge, gatewayMac, request);
    if setup.1.Fail? then Effect(files, trace + setup.0, setup.1)
    else UpEffect(respond, trace + setup.0, files, n, request.name)
  }

  /**
   * `strongswan up` succeeds exactly when it ran in time, exited normally
   * and reported the connection established, and success changes nothing
   * more. An overrun and an authentication failure leave the files and the
   * trace as they were.
   */
  lemma UpReading(respond: (nat, string) -> Reply, trace: seq<string>, files: Files, n: nat, name: string,
                  outcome: Outcome, output: string)
    ensures var e := UpAftermath(respond, trace, files, n, name, outcome, output);
            (e.outcome == Pass <==> outcome == Pass && Contains(output, SuccessLine(name))) &&
            (e.outcome == Pass ==> e.files == files && e.trace == trace) &&
            (outcome == Fail(Timeout) ==> e == Effect(files, trace, Fail(RuntimeError(UnreachableMessage(name))))) &&
            (outcome.Fail? && outcome != Fail(Timeout) ==> e == Effect(files, trace, outcome)) &&
            (outcome == Pass && ClassifyUp(name, output) == NotAuthenticated ==>
               e == Effect(files, trace, Fail(RuntimeError(NotAuthenticatedMessage(name)))))
  {
    if outcome == Pass && ClassifyUp(name, output) == UpFailed {
      assert UpAftermath(respond, trace, files, n, name, outcome, output).outcome ==
             FailedUpRemoval(respond, trace, files, n, name, output).outcome;
    }
  }

  /**
   * After an unexplained `strongswan up` failure on a listed tunnel the
   * tunnel is gone again: it is no longer listed, its secrets line is
   * dropped, gateway.conf is untouched, and the add fails whatever the
   * removal's commands do.
   */
  lemma FailedUpRemovesTunnel(respond: (nat, string) -> Reply, trace: seq<string>, files: Files, n: nat, name: string,
                              output: string)
    requires ClassifyUp(name, output) == UpFailed
    requires name in TunnelNames(ListTunnels(files.ipsecConf, n))
    requires files.gatewayConf.Some? && GetOvsBridgeFromGatewayConf(files.gatewayConf.value).Some?
    ensures var e := UpAftermath(respond, trace, files, n, name, Pass, output);
            e.outcome.Fail? &&
            name !in TunnelNames(ListTunnels(e.files.ipsecConf, n)) &&
            e.files.ipsecSecrets == Unmarked(files.ipsecSecrets, SecretsLineMatchesTunnel(name)) &&
            e.files.gatewayConf == files.gatewayConf
  {
    assert UpAftermath(respond, trace, files, n, name, Pass, output) == FailedUpRemoval(respond, trace, files, n, name, output);
    assert RemovalPlan(files, n, name).Value?;
    RemovedTunnelIsGone(respond, trace, files, n, name);
  }

  /**
   * An add that is refused changes no file and issues no command: when
   * there is no gateway interface, when a tunnel of the same name is
   * already listed, and when a tunnel with the same source and the same
   * destination is, whatever else the request says.
   */
  lemma AddRefusalChangesNothing(respond: (nat, string) -> Reply, trace: seq<string>, files: Files,
                                 ipsecConfTemplate: seq<string>, ipsecSecretsTemplate: seq<string>,
                                 request: TunnelRequest, interfaceExists: bool)
    ensures var plan := AddPlan(files, |ipsecConfTemplate|, request, interfaceExists);
            plan.Raised? ==>
              AddEffect(respond, trace, files, ipsecConfTemplate, ipsecSecretsTemplate, request, interfaceExists) ==
              Effect(files, trace, Fail(plan.error))
    ensures !interfaceExists ==> AddPlan(files, |ipsecConfTemplate|, request, interfaceExists) == Raised(RuntimeError(NoGatewayMessage()))
    ensures request.name in TunnelNames(ListTunnels(files.ipsecConf, |ipsecConfTemplate|)) ==>
              AddPlan(files, |ipsecConfTemplate|, request, interfaceExists).Raised?
    ensures (exists t :: t in ListTunnels(files.ipsecConf, |ipsecConfTemplate|) &&
                         t.sourceIp == Some(request.sourceIp) && t.destIp == Some(request.destIp)) ==>
              AddPlan(files, |ipsecConfTemplate|, request, interfaceExists).Raised?
  {
    var tunnels := ListTunnels(files.ipsecConf, |ipsecConfTemplate|);
    if request.name in TunnelNames(tunnels) {
      var i :| 0 <= i < |TunnelNames(tunnels)| && TunnelNames(tunnels)[i] == request.name;
      assert tunnels[i].name == request.name;
    }
    if exists t :: t in tunnels && t.sourceIp == Some(request.sourceIp) && t.destIp == Some(request.destIp) {
      var t :| t in tunnels && t.sourceIp == Some(request.sourceIp) && t.destIp == Some(request.destIp);
      var i :| 0 <= i < |tunnels| && tunnels[i] == t;
      assert tunnels[i].sourceIp == Some(request.sourceIp) && tunnels[i].destIp == Some(request.destIp);
    }
  }

  /**
   * Only a tunnel with the same name, or with the same source and the same
   * destination together, stands in the way of an add: when every listed
   * tunnel differs in name and, where it shares the source, in destination,
   * the add plans exactly as if no tunnel were listed.
   */
  lemma SharedSourceDoesNotBlockAdd(files: Files, n: nat, request: TunnelRequest, interfaceExists: bool)
    requires forall t :: t in ListTunnels(files.ipsecConf, n) ==>
               t.name != request.name && (t.sourceIp == Some(request.sourceIp) ==> t.destIp != Some(request.destIp))
    ensures AddPlan(files, n, request, interfaceExists) == AddPlan(files.(ipsecConf := []), n, request, interfaceExists)
  {
    var tunnels := ListTunnels(files.ipsecConf, n);
    assert forall i :: 0 <= i < |tunnels| ==> tunnels[i] in tunnels;
    assert ListTunnels([], n) == [];
  }

  /**
   * Setup and `strongswan up` that end normally: the files are as they
   * were, the five setup commands and `strongswan up` were issued, and
   * `strongswan up` reported the connection established.
   */
  lemma ActivationThatSucceeds(respond: (nat, string) -> Reply, trace: seq<string>, files: Files, n: nat, request: TunnelRequest,
                               ovsBridge: string, gatewayMac: string)
    requires Activation(respond, trace, files, n, request, ovsBridge, gatewayMac).outcome == Pass
    ensures var e := Activation(respond, trace, files, n, request, ovsBridge, gatewayMac);
            var rule := GetArpIpSpoofingRule(ovsBridge, request.sourceIp, request.destIp);
            e.files == files &&
            rule.Some? &&
            e.trace == trace + [ForwardFlowCommand(ovsBridge, request.sourceIp, request.destIp, gatewayMac), rule.value,
                                RouteAddCommand(request.sourceIp), UpdateCommand, SecretsCommand, UpCommand(request.name)] &&
            Contains(Output(respond(|trace| + 5, UpCommand(request.name))), SuccessLine(request.name))
  {
    var setup := SetupRun(respond, |trace|, ovsBridge, gatewayMac, request);
    assert setup.1 == Pass;
    SetupThatSucceeds(respond, |trace|, ovsBridge, gatewayMac, request);
    ghost var mid := trace + setup.0;
    ghost var up := UpCommand(request.name);
    ghost var reply := respond(|mid|, up);
    ghost var outcome := ExecuteTimed(reply, DefaultErrorHandler, UpTimeout);
    ghost var e := UpAftermath(respond, mid + [up], files, n, request.name, outcome, Output(reply));
    assert Activation(respond, trace, files, n, request, ovsBridge, gatewayMac) == e;
    UpReading(respond, mid + [up], files, n, request.name, outcome, Output(reply));
    assert |mid| == |trace| + 5;
  }

  /**
   * An add that ends normally passed every check, appended both rendered
   * entries, issued exactly the forward flow, the ARP rule, the route, the
   * reload, the secrets reload and `strongswan up`, and `strongswan up`
   * reported the connection established.
   */
  lemma AddThatSucceeds(respond: (nat, string) -> Reply, trace: seq<string>, files: Files,
                        ipsecConfTemplate: seq<string>, ipsecSecretsTemplate: seq<string>,
                        request: TunnelRequest, interfaceExists: bool)
    requires AddEffect(respond, trace, files, ipsecConfTemplate, ipsecSecretsTemplate, request, interfaceExists).outcome == Pass
    ensures interfaceExists && request.name !in TunnelNames(ListTunnels(files.ipsecConf, |ipsecConfTemplate|))
    ensures forall t :: t in ListTunnels(files.ipsecConf, |ipsecConfTemplate|) ==>
              !(t.sourceIp == Some(request.sourceIp) && t.destIp == Some(request.destIp))
    ensures AddPlan(files, |ipsecConfTemplate|, request, interfaceExists).Value?
    ensures var (localGatewayIp, ovsBridge, gatewayMac) := AddPlan(files, |ipsecConfTemplate|, request, interfaceExists).value;
            var e := AddEffect(respond, trace, files, ipsecConfTemplate, ipsecSecretsTemplate, request, interfaceExists);
            var rule := GetArpIpSpoofingRule(ovsBridge, request.sourceIp, request.destIp);
            e.files == AppendTunnel(files, ipsecConfTemplate, ipsecSecretsTemplate, localGatewayIp, request) &&
            rule.Some? &&
            e.trace == trace + [ForwardFlowCommand(ovsBridge, request.sourceIp, request.destIp, gatewayMac), rule.value,
                                RouteAddCommand(request.sourceIp), UpdateCommand, SecretsCommand, UpCommand(request.name)] &&
            Contains(Output(respond(|trace| + 5, UpCommand(request.name))), SuccessLine(request.name))
  {
    AddRefusalChangesNothing(respond, trace, files, ipsecConfTemplate, ipsecSecretsTemplate, request, interfaceExists);
    var (localGatewayIp, ovsBridge, gatewayMac) := AddPlan(files, |ipsecConfTemplate|, request, interfaceExists).value;
    var appended := AppendTunnel(files, ipsecConfTemplate, ipsecSecretsTemplate, localGatewayIp, request);
    assert AddEffect(respond, trace, files, ipsecConfTemplate, ipsecSecretsTemplate, request, interfaceExists) ==
           Activation(respond, trace, appended, |ipsecConfTemplate|, request, ovsBridge, gatewayMac);
    ActivationThatSucceeds(respond, trace, appended, |ipsecConfTemplate|, request, ovsBridge, gatewayMac);
  }

  /** The setup commands that all pass: the forward flow, the ARP rule, the route and both reloads. */
  lemma SetupThatSucceeds(respond: (nat, string) -> Reply, base: nat, ovsBridge: string, gatewayMac: string,
                          request: TunnelRequest)
    requires SetupRun(respond, base, ovsBridge, gatewayMac, request).1 == Pass
    ensures var rule := GetArpIpSpoofingRule(ovsBridge, request.sourceIp, request.destIp);
            rule.Some? &&
            SetupRun(respond, base, ovsBridge, gatewayMac, request).0 ==
              [ForwardFlowCommand(ovsBridge, request.sourceIp, request.destIp, gatewayMac), rule.value,
               RouteAddCommand(request.sourceIp), UpdateCommand, SecretsCommand]
  {
    var rule := GetArpIpSpoofingRule(ovsBridge, request.sourceIp, request.destIp).value;
    var rest := [Plain(rule), Cmd(RouteAddCommand(request.sourceIp), IpRouteAddStderrHandler),
                 Plain(UpdateCommand), Plain(SecretsCommand)];
    assert Script(respond, base + 1, rest).0 == CommandTexts(rest);
  }

  // ---------------------------------------------------------------------
  // destroyIpsecGateway
  // ---------------------------------------------------------------------

  /** The removals of `destroyIpsecGateway`, one per name in order; the first that raises ends them. */
  function RemoveAll(respond: (nat, string) -> Reply, trace: seq<string>, files: Files, n: nat, names: seq<string>): (e: Effect)
    ensures trace <= e.trace
    ensures e.files.gatewayConf == files.gatewayConf
    decreases |names|
  {
    if names == [] then Effect(files, trace, Pass)
    else
      var first := RemoveEffect(respond, trace, files, n, names[0]);
      if first.outcome.Fail? then first
      else RemoveAll(respond, first.trace, first.files, n, names[1..])
  }

  /** The commands that take the gateway down: its port off the bridge, the veth pair, the daemon. */
  function TeardownCommands(ovsBridge: string): seq<Cmd> {
    [Plain(DeletePortCommand(ovsBridge)), Plain(DeleteLinkCommand), Plain(StopCommand)]
  }

  /** The end of `destroyIpsecGateway`: the bridge is read, the gateway taken down and gateway.conf deleted. */
  function Teardown(respond: (nat, string) -> Reply, trace: seq<string>, files: Files): Effect {
    match ReadGatewayConf(files.gatewayConf, GetOvsBridgeFromGatewayConf)
    case Raised(e) => Effect(files, trace, Fail(e))
    case Value(ovsBridge) =>
      var run := Script(respond, |trace|, TeardownCommands(ovsBridge));
      if run.1.Fail? then Effect(files, trace + run.0, run.1)
      else Effect(files.(gatewayConf := None), trace + run.0, Pass)
  }

  /**
   * `destroyIpsecGateway` on `files`, with the interface probe given: the
   * names are listed once, before the first removal.
   */
  function DestroyEffect(respond: (nat, string) -> Reply, trace: seq<string>, files: Files, n: nat, interfaceExists: bool): (e: Effect)
    ensures trace <= e.trace
    ensures e.files.gatewayConf == files.gatewayConf || e.files.gatewayConf.None?
    ensures e.outcome.Pass? ==> e.files.gatewayConf.None?
  {
    if !interfaceExists then Effect(files, trace, Fail(RuntimeError(NoGatewayMessage())))
    else
      var removals := RemoveAll(respond, trace, files, n, TunnelNames(ListTunnels(files.ipsecConf, n)));
      if removals.outcome.Fail? then removals
      else Teardown(respond, removals.trace, removals.files)
  }

  /** The commands after the removals of a destroy that ends normally, and the deleted gateway.conf. */
  lemma TeardownThatSucceeds(respond: (nat, string) -> Reply, trace: seq<string>, files: Files)
    requires Teardown(respond, trace, files).outcome == Pass
    ensures ReadGatewayConf(files.gatewayConf, GetOvsBridgeFromGatewayConf).Value?
    ensures var e := Teardown(respond, trace, files);
            var ovsBridge := ReadGatewayConf(files.gatewayConf, GetOvsBridgeFromGatewayConf).value;
            e.files == files.(gatewayConf := None) &&
            e.trace == trace + [DeletePortCommand(ovsBridge), DeleteLinkCommand, StopCommand]
  {
    var ovsBridge := ReadGatewayConf(files.gatewayConf, GetOvsBridgeFromGatewayConf).value;
    var run := Script(respond, |trace|, TeardownCommands(ovsBridge));
    assert run.1 == Pass;
    TeardownTexts(ovsBridge);
  }

  /** The texts of the teardown commands. */
  lemma TeardownTexts(ovsBridge: string)
    ensures CommandTexts(TeardownCommands(ovsBridge)) == [DeletePortCommand(ovsBridge), DeleteLinkCommand, StopCommand]
  {
    var texts := CommandTexts(TeardownCommands(ovsBridge));
    assert texts[0] == DeletePortCommand(ovsBridge) && texts[1] == DeleteLinkCommand && texts[2] == StopCommand;
  }

  /** `command` was issued at position `from` of `t` or later. */
  predicate IssuedFrom(t: seq<string>, from: nat, command: string) {
    exists j :: from <= j < |t| && t[j] == command
  }

  /** A removal that ends normally extends the trace, and it took the tunnel down. */
  lemma RemovalTakesDown(respond: (nat, string) -> Reply, trace: seq<string>, files: Files, n: nat, name: string)
    requires RemoveEffect(respond, trace, files, n, name).outcome == Pass
    ensures var e := RemoveEffect(respond, trace, files, n, name);
            trace <= e.trace && IssuedFrom(e.trace, |trace|, DownCommand(name))
  {
    var plan := RemovalPlan(files, n, name);
    assert plan.Value?;
    var excised := Excise(files, name);
    var run := RemovalCommands(respond, |trace|, excised.ipsecConf, n, name, plan.value.0, plan.value.1, plan.value.2);
    assert RemoveEffect(respond, trace, files, n, name) == Effect(excised, trace + run.0, run.1);
    RemovalCommandsTakeDown(respond, |trace|, excised.ipsecConf, n, name, plan.value.0, plan.value.1, plan.value.2);
    PrefixOfAppend(trace, run.0, 2);
  }

  /** The third command of a removal that ends normally takes the tunnel down. */
  lemma RemovalCommandsTakeDown(respond: (nat, string) -> Reply, base: nat, ipsecConf: seq<string>, n: nat, name: string,
                                ovsBridge: string, sourceIp: Option<string>, destIp: Option<string>)
    requires RemovalCommands(respond, base, ipsecConf, n, name, ovsBridge, sourceIp, destIp).1 == Pass
    ensures var issued := RemovalCommands(respond, base, ipsecConf, n, name, ovsBridge, sourceIp, destIp).0;
            2 < |issued| && issued[2] == DownCommand(name)
  {
    RemovalCommandsThatSucceed(respond, base, ipsecConf, n, name, ovsBridge, sourceIp, destIp);
  }

  /** A trace with commands appended starts with the trace, and the `k`-th appended command comes after it. */
  lemma PrefixOfAppend(trace: seq<string>, issued: seq<string>, k: nat)
    requires k < |issued|
    ensures trace <= trace + issued && IssuedFrom(trace + issued, |trace|, issued[k])
  {
    assert (trace + issued)[|trace| + k] == issued[k];
  }

  /**
   * Removals that all end normally extend the trace, and each named tunnel
   * was taken down with `strongswan down` after the trace they started from.
   */
  lemma {:induction false} RemoveAllTakesEachDown(respond: (nat, string) -> Reply, trace: seq<string>, files: Files, n: nat,
                                                  names: seq<string>)
    requires RemoveAll(respond, trace, files, n, names).outcome == Pass
    ensures var e := RemoveAll(respond, trace, files, n, names);
            trace <= e.trace && forall i :: 0 <= i < |names| ==> IssuedFrom(e.trace, |trace|, DownCommand(names[i]))
    decreases |names|
  {
    if names != [] {
      var first := RemoveEffect(respond, trace, files, n, names[0]);
      var e := RemoveAll(respond, first.trace, first.files, n, names[1..]);
      assert first.outcome == Pass && RemoveAll(respond, trace, files, n, names) == e;
      RemovalTakesDown(respond, trace, files, n, names[0]);
      RemoveAllTakesEachDown(respond, first.trace, first.files, n, names[1..]);
      forall i | 0 <= i < |names| ensures IssuedFrom(e.trace, |trace|, DownCommand(names[i])) {
        if i == 0 {
          IssuedInPrefix(first.trace, e.trace, |trace|, DownCommand(names[0]));
        } else {
          assert names[1..][i - 1] == names[i];
          IssuedLater(e.trace, |trace|, |first.trace|, DownCommand(names[i]));
        }
      }
    }
  }

  /** What a trace shows as issued, a longer trace that starts with it shows too. */
  lemma IssuedInPrefix(t: seq<string>, u: seq<string>, from: nat, command: string)
    requires t <= u && IssuedFrom(t, from, command)
    ensures IssuedFrom(u, from, command)
  {
    var j :| from <= j < |t| && t[j] == command;
    assert u[j] == t[j];
  }

  /** A command issued at a later position was issued at an earlier one or later. */
  lemma IssuedLater(t: seq<string>, from: nat, later: nat, command: string)
    requires from <= later && IssuedFrom(t, later, command)
    ensures IssuedFrom(t, from, command)
  {
    var j :| later <= j < |t| && t[j] == command;
    assert from <= j;
  }

  /**
   * A destroy that is refused changes nothing; one that ends normally took
   * down every tunnel listed when it started, then stopped the daemon last,
   * and deleted gateway.conf.
   */
  lemma DestroyOutcomes(respond: (nat, string) -> Reply, trace: seq<string>, files: Files, n: nat, interfaceExists: bool)
    ensures !interfaceExists ==>
              DestroyEffect(respond, trace, files, n, interfaceExists) == Effect(files, trace, Fail(RuntimeError(NoGatewayMessage())))
    ensures var e := DestroyEffect(respond, trace, files, n, interfaceExists);
            var names := TunnelNames(ListTunnels(files.ipsecConf, n));
            e.outcome == Pass ==>
              interfaceExists && e.files.gatewayConf.None? &&
              trace <= e.trace && |trace| + 3 <= |e.trace| &&
              e.trace[|e.trace| - 1] == StopCommand &&
              forall i :: 0 <= i < |names| ==> IssuedFrom(e.trace, |trace|, DownCommand(names[i]))
  {
    var e := DestroyEffect(respond, trace, files, n, interfaceExists);
    if e.outcome == Pass {
      var names := TunnelNames(ListTunnels(files.ipsecConf, n));
      var removals := RemoveAll(respond, trace, files, n, names);
      assert removals.outcome == Pass;
      RemoveAllTakesEachDown(respond, trace, files, n, names);
      assert e == Teardown(respond, removals.trace, removals.files);
      TeardownThatSucceeds(respond, removals.trace, removals.files);
      forall i | 0 <= i < |names| ensures IssuedFrom(e.trace, |trace|, DownCommand(names[i])) {
        IssuedInPrefix(removals.trace, e.trace, |trace|, DownCommand(names[i]));
      }
    }
  }

  // ---------------------------------------------------------------------
  // The manager
  // ---------------------------------------------------------------------

  /**
   * The manager with the files it keeps and the commands it has issued so
   * far. `respond` stands for the world outside: the reply to the command
   * issued at each position of the trace. The three templates are the
   * contents of the template files.
   */
  class IpsecManager {
    const gatewayTemplate: seq<string>
    const ipsecConfTemplate: seq<string>
    const ipsecSecretsTemplate: seq<string>
    const respond: (nat, string) -> Reply
    var ipsecConf: seq<string>
    var ipsecSecrets: seq<string>
    var gatewayConf: Option<seq<string>>
    var trace: seq<string>

    constructor (gatewayTemplate: seq<string>, ipsecConfTemplate: seq<string>, ipsecSecretsTemplate: seq<string>,
                 respond: (nat, string) -> Reply, files: Files)
      ensures this.gatewayTemplate == gatewayTemplate && this.ipsecConfTemplate == ipsecConfTemplate
      ensures this.ipsecSecretsTemplate == ipsecSecretsTemplate && this.respond == respond
      ensures Contents() == files && trace == []
    {
      this.gatewayTemplate := gatewayTemplate;
      this.ipsecConfTemplate := ipsecConfTemplate;
      this.ipsecSecretsTemplate := ipsecSecretsTemplate;
      this.respond := respond;
      ipsecConf := files.ipsecConf;
      ipsecSecrets := files.ipsecSecrets;
      gatewayConf := files.gatewayConf;
      trace := [];
    }

    function Contents(): Files
      reads this
    {
      Files(ipsecConf, ipsecSecrets, gatewayConf)
    }

    /** `BashCommand(command, errorHandler=handler).execute()`. */
    method Run(command: string, handler: string -> Outcome) returns (outcome: Outcome)
      modifies this`trace
      ensures trace == old(trace) + [command]
      ensures outcome == Execute(respond(|old(trace)|, command), handler)
    {
      var reply := respond(|trace|, command);
      trace := trace + [command];
      outcome := Execute(reply, handler);
    }

    /** `TimedBashCommand(command, timeout=timeout).execute()`, and the output it leaves behind. */
    method RunTimed(command: string, timeout: nat) returns (outcome: Outcome, output: string)
      modifies this`trace
      ensures trace == old(trace) + [command]
      ensures outcome == ExecuteTimed(respond(|old(trace)|, command), DefaultErrorHandler, timeout)
      ensures output == Output(respond(|old(trace)|, command))
    {
      var reply := respond(|trace|, command);
      trace := trace + [command];
      outcome := ExecuteTimed(reply, DefaultErrorHandler, timeout);
      output := Output(reply);
    }

    /** `undo()`: the undo command, if there is a non-empty one, is launched and not waited for. */
    method LaunchUndo(step: Step)
      modifies this`trace
      ensures trace == old(trace) + UndoCommands(step)
    {
      if step.undo.Some? && step.undo.value != "" {
        trace := trace + [step.undo.value];
      }
    }

    /** A straight run of `execute()` calls, ended by the first that raises. */
    method RunScript(commands: seq<Cmd>) returns (outcome: Outcome)
      modifies this`trace
      ensures trace == old(trace) + Script(respond, |old(trace)|, commands).0
      ensures outcome == Script(respond, |old(trace)|, commands).1
    {
      var base := |trace|;
      outcome := Pass;
      for i := 0 to |commands|
        invariant trace == old(trace) + CommandTexts(commands[..i])
        invariant outcome == Pass
        invariant forall j :: 0 <= j < i ==> StepOutcome(respond, base, commands, j).Pass?
        invariant FirstFailing(respond, base, commands, 0) == FirstFailing(respond, base, commands, i)
      {
        assert CommandTexts(commands[..i + 1]) == CommandTexts(commands[..i]) + [commands[i].command];
        assert |trace| == base + i;
        outcome := Run(commands[i].command, commands[i].handler);
        assert outcome == StepOutcome(respond, base, commands, i);
        if outcome.Fail? {
          assert FirstFailing(respond, base, commands, i) == i;
          return;
        }
      }
      assert commands[..|commands|] == commands;
      assert FirstFailing(respond, base, commands, |commands|) == |commands|;
    }

    /** The rollback: `undo()` on each completed step, the last one first. */
    method UndoCompleted(completed: seq<Step>)
      modifies this`trace
      ensures trace == old(trace) + Undos(completed)
    {
      var j := |completed|;
      while j > 0
        invariant 0 <= j <= |completed|
        invariant trace == old(trace) + Undos(completed[j..])
      {
        j := j - 1;
        LaunchUndo(completed[j]);
        assert completed[j..][1..] == completed[j + 1..];
      }
      assert completed[0..] == completed;
    }

    /**
     * The loop of `createIpsecGateway`: the steps run in order; when one
     * fails, the completed ones are undone in reverse order and the composed
     * error is raised.
     */
    method RunGatewayCreationCommands(steps: seq<Step>) returns (outcome: Outcome)
      modifies this`trace
      ensures trace == old(trace) + CreationRun(respond, |old(trace)|, steps).0
      ensures outcome == CreationRun(respond, |old(trace)|, steps).1
    {
      var base := |trace|;
      outcome := RunScript(StepCmds(steps));
      if outcome.Fail? {
        var index := |trace| - base - 1;
        UndoCompleted(steps[..index]);
        outcome := Fail(RuntimeError(ComposeError(steps[index].command, ErrorText(outcome.error))));
      }
    }

    /** The title check of `createIpsecGateway`: the title line is appended unless a line already is exactly it. */
    method EnsureTitleLine()
      modifies this`ipsecConf
      ensures ipsecConf == WithTitleLine(old(ipsecConf))
    {
      if IpsecConfTitleLine !in ipsecConf {
        ipsecConf := ipsecConf + ["", IpsecConfTitleLine];
      }
    }

    /** `createIpsecGateway`, with the interface probe and the new interface's MAC address given. */
    method CreateIpsecGateway(ovsBridge: string, gatewayIp: string, interfaceExists: bool, gatewayMac: string)
      returns (result: Outcome)
      modifies this
      ensures var e := CreateEffect(respond, old(trace), old(Contents()), gatewayTemplate, ovsBridge, gatewayIp, interfaceExists, gatewayMac);
              Contents() == e.files && trace == e.trace && result == e.outcome
    {
      if interfaceExists {
        return Fail(RuntimeError("A gateway already exists"));
      }
      result := RunGatewayCreationCommands(GatewayCreationSteps(ovsBridge, gatewayIp));
      if result.Fail? {
        return;
      }
      var written := WriteToFileFromTemplate(gatewayTemplate, GatewayReplacements(gatewayIp, gatewayMac, ovsBridge));
      gatewayConf := Some(ReadBack(written));
      EnsureTitleLine();
    }

    /** `listIpsecTunnels`: a walk that waits for the title line, then lists every header after it. */
    method ListIpsecTunnels() returns (ipsecTunnels: seq<Tunnel>)
      ensures ipsecTunnels == ListTunnels(ipsecConf, |ipsecConfTemplate|)
    {
      var tunnelEntryLen := |ipsecConfTemplate|;
      var lines := ipsecConf;
      ipsecTunnels := [];
      var titleLineFound := false;
      for lineIndex := 0 to |lines|
        invariant !titleLineFound ==> ipsecTunnels == [] && forall k :: 0 <= k < lineIndex ==> Strip(lines[k]) != IpsecConfTitleLine
        invariant titleLineFound ==> ipsecTunnels + TunnelsFrom(lines, lineIndex, tunnelEntryLen) == ListTunnels(lines, tunnelEntryLen)
      {
        var line := lines[lineIndex];
        if !titleLineFound {
          titleLineFound := Strip(line) == IpsecConfTitleLine;
          if titleLineFound {
            TitleFoundAt(lines, lineIndex, tunnelEntryLen);
          }
          continue;
        }
        ListingStep(lines, lineIndex, tunnelEntryLen);
        var dataMatches := TunnelHeaderName(line);
        if dataMatches.Some? {
          var end := if lineIndex + tunnelEntryLen <= |lines| then lineIndex + tunnelEntryLen else |lines|;
          var tunnel := TunnelOfWindow(dataMatches.value, lines[lineIndex..end]);
          AppendAssoc(ipsecTunnels, [tunnel], TunnelsFrom(lines, lineIndex + 1, tunnelEntryLen));
          ipsecTunnels := ipsecTunnels + [tunnel];
        }
      }
    }

    /** The commands `removeIpsecTunnel` issues once the files are rewritten. */
    method RunRemovalCommands(name: string, ovsBridge: string, sourceIp: Option<string>, destIp: Option<string>)
      returns (result: Outcome)
      modifies this`trace
      ensures var run := RemovalCommands(respond, |old(trace)|, ipsecConf, |ipsecConfTemplate|, name, ovsBridge, sourceIp, destIp);
              trace == old(trace) + run.0 && result == run.1
    {
      ghost var start := trace;
      result := RunScript([Plain(UpdateCommand), Plain(SecretsCommand), Plain(DownCommand(name))]);
      if result.Fail? {
        return;
      }
      if sourceIp.None? || destIp.None? {
        return Fail(Uncaught("TypeError"));
      }
      ghost var reloaded := trace;
      assert |reloaded| == |start| + 3;
      result := RunFlows(name, ovsBridge, sourceIp.value, destIp.value);
      AppendAssoc(start, reloaded[|start|..], trace[|reloaded|..]);
    }

    /** The flow deletions of `removeIpsecTunnel` and its follow-up command. */
    method RunFlows(name: string, ovsBridge: string, sourceIp: string, destIp: string) returns (result: Outcome)
      modifies this`trace
      ensures var run := FlowsRun(respond, |old(trace)|, ipsecConf, |ipsecConfTemplate|, name, ovsBridge, sourceIp, destIp);
              trace == old(trace) + run.0 && result == run.1
    {
      result := RunScript([Plain(DeleteForwardFlowCommand(ovsBridge, sourceIp, destIp)),
                           Plain(DeleteArpFlowCommand(ovsBridge, sourceIp))]);
      if result.Fail? {
        return;
      }
      result := RunFollowUp(name, ovsBridge, sourceIp);
    }

    /** The end of `removeIpsecTunnel`: the ARP rule for a tunnel still sharing the source address, or the route deletion. */
    method RunFollowUp(name: string, ovsBridge: string, sourceIp: string) returns (result: Outcome)
      modifies this`trace
      ensures var run := FollowUpRun(respond, |old(trace)|, ipsecConf, |ipsecConfTemplate|, name, ovsBridge, sourceIp);
              trace == old(trace) + run.0 && result == run.1
    {
      var tunnels := ListIpsecTunnels();
      if AnotherTunnelSharesSourceIp(tunnels, name, Some(sourceIp)) {
        var sharer := GetTunnelThatSharesSourceIp(tunnels, name, Some(sourceIp)).value;
        if sharer.destIp.None? {
          return Fail(Uncaught("AttributeError"));
        }
        var rule := GetArpIpSpoofingRule(ovsBridge, sourceIp, sharer.destIp.value);
        if rule.None? {
          return Fail(Uncaught("ValueError"));
        }
        result := Run(rule.value, DefaultErrorHandler);
      } else {
        result := Run(RouteDeleteCommand(sourceIp), DefaultErrorHandler);
      }
    }

    /** `removeIpsecTunnel`. */
    method RemoveIpsecTunnel(name: string) returns (result: Outcome)
      modifies this
      ensures var e := RemoveEffect(respond, old(trace), old(Contents()), |ipsecConfTemplate|, name);
              Contents() == e.files && trace == e.trace && result == e.outcome
    {
      var plan := PlanRemoval(name);
      if plan.Raised? {
        return Fail(plan.error);
      }
      var (ovsBridge, sourceIp, destIp) := plan.value;
      ExciseTunnel(name);
      result := RunRemovalCommands(name, ovsBridge, sourceIp, destIp);
    }

    /** The checks and reads of `removeIpsecTunnel`, which change nothing. */
    method PlanRemoval(name: string) returns (plan: Attempt<(string, Option<string>, Option<string>)>)
      ensures plan == RemovalPlan(Contents(), |ipsecConfTemplate|, name)
    {
      var tunnelEntryLen := |ipsecConfTemplate|;
      var tunnels := ListIpsecTunnels();
      if name !in TunnelNames(tunnels) {
        return Raised(RuntimeError(NoTunnelMessage(name)));
      }
      if gatewayConf.None? {
        return Raised(Uncaught("IOError"));
      }
      var ovsBridge := GetOvsBridgeFromGatewayConf(gatewayConf.value);
      if ovsBridge.None? {
        return Raised(Uncaught("AttributeError"));
      }
      var sourceIp := GetIpFromIpsecConf(ipsecConf, name, "leftsubnet", tunnelEntryLen);
      var destIp := GetIpFromIpsecConf(ipsecConf, name, "rightsubnet", tunnelEntryLen);
      plan := Value((ovsBridge.value, sourceIp, destIp));
    }

    /** The two excisions of `removeIpsecTunnel`: the secrets lines first, then the block of ipsec.conf. */
    method ExciseTunnel(name: string)
      modifies this`ipsecConf, this`ipsecSecrets
      ensures Contents() == Excise(old(Contents()), name)
    {
      ipsecSecrets := RemoveLinesFromFile(ipsecSecrets, SecretsLineMatchesTunnel(name), SecretsLineDoesNotMatchTunnel(name));
      ipsecConf := RemoveLinesFromFile(ipsecConf, ConfLineStartsTunnel(name), ConfLineStartsNextTunnel(name));
    }

    /** `destroyIpsecGateway`, with the interface probe given. */
    method DestroyIpsecGateway(interfaceExists: bool) returns (result: Outcome)
      modifies this
      ensures var e := DestroyEffect(respond, old(trace), old(Contents()), |ipsecConfTemplate|, interfaceExists);
              Contents() == e.files && trace == e.trace && result == e.outcome
    {
      if !interfaceExists {
        return Fail(RuntimeError(NoGatewayMessage()));
      }
      var tunnels := ListIpsecTunnels();
      result := RemoveTunnels(TunnelNames(tunnels));
      if result.Fail? {
        return;
      }
      result := TearDownGateway();
    }

    /** The loop of `destroyIpsecGateway`: `removeIpsecTunnel` on each name, stopped by the first that raises. */
    method RemoveTunnels(names: seq<string>) returns (result: Outcome)
      modifies this
      ensures var e := RemoveAll(respond, old(trace), old(Contents()), |ipsecConfTemplate|, names);
              Contents() == e.files && trace == e.trace && result == e.outcome
    {
      result := Pass;
      for i := 0 to |names|
        invariant RemoveAll(respond, trace, Contents(), |ipsecConfTemplate|, names[i..]) ==
                  RemoveAll(respond, old(trace), old(Contents()), |ipsecConfTemplate|, names)
        invariant result == Pass
      {
        ghost var rest := names[i..];
        assert rest[0] == names[i] && rest[1..] == names[i + 1..];
        result := RemoveIpsecTunnel(names[i]);
        if result.Fail? {
          return;
        }
      }
      assert names[|names|..] == [];
    }

    /** The end of `destroyIpsecGateway`: the port, the veth pair and the daemon go, then gateway.conf. */
    method TearDownGateway() returns (result: Outcome)
      modifies this`trace, this`gatewayConf
      ensures var e := Teardown(respond, old(trace), old(Contents()));
              Contents() == e.files && trace == e.trace && result == e.outcome
    {
      var ovsBridge := ReadGatewayConf(gatewayConf, GetOvsBridgeFromGatewayConf);
      if ovsBridge.Raised? {
        return Fail(ovsBridge.error);
      }
      result := RunScript(TeardownCommands(ovsBridge.value));
      if result.Fail? {
        return;
      }
      gatewayConf := None;
    }

    /** The two appends of `addIpsecTunnel`: the rendered conf entry, then the rendered secret. */
    method AppendTunnelEntries(localGatewayIp: string, request: TunnelRequest)
      modifies this`ipsecConf, this`ipsecSecrets
      ensures Contents() == AppendTunnel(old(Contents()), ipsecConfTemplate, ipsecSecretsTemplate, localGatewayIp, request)
    {
      var confEntry := WriteToFileFromTemplate(ipsecConfTemplate, ConfReplacements(localGatewayIp, request));
      ipsecConf := ipsecConf + ReadBack(confEntry);
      var secretsEntry := WriteToFileFromTemplate(ipsecSecretsTemplate, SecretsReplacements(request));
      ipsecSecrets := ipsecSecrets + ReadBack(secretsEntry);
    }

    /** The flows, the route and the reload of `addIpsecTunnel`. */
    method RunTunnelSetup(ovsBridge: string, gatewayMac: string, request: TunnelRequest) returns (result: Outcome)
      modifies this`trace
      ensures var run := SetupRun(respond, |old(trace)|, ovsBridge, gatewayMac, request);
              trace == old(trace) + run.0 && result == run.1
    {
      result := Run(ForwardFlowCommand(ovsBridge, request.sourceIp, request.destIp, gatewayMac), DefaultErrorHandler);
      if result.Fail? {
        return;
      }
      var rule := GetArpIpSpoofingRule(ovsBridge, request.sourceIp, request.destIp);
      if rule.None? {
        return Fail(Uncaught("ValueError"));
      }
      result := RunScript([Plain(rule.value), Cmd(RouteAddCommand(request.sourceIp), IpRouteAddStderrHandler),
                           Plain(UpdateCommand), Plain(SecretsCommand)]);
    }

    /** The end of `addIpsecTunnel`: `strongswan up` under its timeout, and the reading of its output. */
    method RaiseTunnel(name: string) returns (result: Outcome)
      modifies this
      ensures var e := UpEffect(respond, old(trace), old(Contents()), |ipsecConfTemplate|, name);
              Contents() == e.files && trace == e.trace && result == e.outcome
    {
      var outcome, output := RunTimed(UpCommand(name), UpTimeout);
      result := ReadUpOutcome(name, outcome, output);
    }

    /** What `addIpsecTunnel` does with the outcome and output of `strongswan up`. */
    method ReadUpOutcome(name: string, outcome: Outcome, output: string) returns (result: Outcome)
      modifies this
      ensures var e := UpAftermath(respond, old(trace), old(Contents()), |ipsecConfTemplate|, name, outcome, output);
              Contents() == e.files && trace == e.trace && result == e.outcome
    {
      if outcome == Fail(Timeout) {
        return Fail(RuntimeError(UnreachableMessage(name)));
      }
      if outcome.Fail? {
        return outcome;
      }
      var reading := ClassifyUp(name, output);
      if reading == Established {
        result := Pass;
      } else if reading == NotAuthenticated {
        result := Fail(RuntimeError(NotAuthenticatedMessage(name)));
      } else {
        result := RemoveAfterFailedUp(name, output);
      }
    }

    /** The removal `addIpsecTunnel` falls back to when `strongswan up` failed for no known reason. */
    method RemoveAfterFailedUp(name: string, output: string) returns (result: Outcome)
      modifies this
      ensures var e := FailedUpRemoval(respond, old(trace), old(Contents()), |ipsecConfTemplate|, name, output);
              Contents() == e.files && trace == e.trace && result == e.outcome
    {
      result := RemoveIpsecTunnel(name);
      if result.Pass? {
        result := Fail(RuntimeError(UpFailureMessage(name, output)));
      }
    }

    /** `addIpsecTunnel`, with the interface probe given. */
    method AddIpsecTunnel(name: string, sourceIp: string, destIp: string, remoteGateway: string, localId: string,
                          remoteId: string, interfaceExists: bool) returns (result: Outcome)
      modifies this
      ensures var e := AddEffect(respond, old(trace), old(Contents()), ipsecConfTemplate, ipsecSecretsTemplate,
                                 TunnelRequest(name, sourceIp, destIp, remoteGateway, localId, remoteId), interfaceExists);
              Contents() == e.files && trace == e.trace && result == e.outcome
    {
      var request := TunnelRequest(name, sourceIp, destIp, remoteGateway, localId, remoteId);
      var plan := PlanAddition(request, interfaceExists);
      if plan.Raised? {
        return Fail(plan.error);
      }
      var (localGatewayIp, ovsBridge, gatewayMac) := plan.value;
      result := Install(request, localGatewayIp, ovsBridge, gatewayMac);
    }

    /** The checks and reads of `addIpsecTunnel`, which change nothing. */
    method PlanAddition(request: TunnelRequest, interfaceExists: bool) returns (plan: Attempt<(string, string, string)>)
      ensures plan == AddPlan(Contents(), |ipsecConfTemplate|, request, interfaceExists)
    {
      if !interfaceExists {
        return Raised(RuntimeError(NoGatewayMessage()));
      }
      var tunnels := ListIpsecTunnels();
      var duplicate := DuplicateTunnelError(tunnels, request.name, request.sourceIp, request.destIp);
      if duplicate.Some? {
        return Raised(RuntimeError(duplicate.value));
      }
      var localGatewayIp := ReadGatewayConf(gatewayConf, GetLocalGatewayIpFromGatewayConf);
      if localGatewayIp.Raised? {
        return Raised(localGatewayIp.error);
      }
      var ovsBridge := ReadGatewayConf(gatewayConf, GetOvsBridgeFromGatewayConf);
      if ovsBridge.Raised? {
        return Raised(ovsBridge.error);
      }
      var gatewayMac := ReadGatewayConf(gatewayConf, GetLocalGatewayMacAddressFromGatewayConf);
      if gatewayMac.Raised? {
        return Raised(gatewayMac.error);
      }
      plan := Value((localGatewayIp.value, ovsBridge.value, gatewayMac.value));
    }

    /** The part of `addIpsecTunnel` that changes things: the appends, the setup commands and `strongswan up`. */
    method Install(request: TunnelRequest, localGatewayIp: string, ovsBridge: string, gatewayMac: string)
      returns (result: Outcome)
      modifies this
      ensures var e := Installation(respond, old(trace), old(Contents()), ipsecConfTemplate, ipsecSecretsTemplate,
                                    request, localGatewayIp, ovsBridge, gatewayMac);
              Contents() == e.files && trace == e.trace && result == e.outcome
    {
      AppendTunnelEntries(localGatewayIp, request);
      result := Activate(request, ovsBridge, gatewayMac);
    }

    /** The setup commands of `addIpsecTunnel`, then `strongswan up` if they all pass. */
    method Activate(request: TunnelRequest, ovsBridge: string, gatewayMac: string) returns (result: Outcome)
      modifies this
      ensures var e := Activation(respond, old(trace), old(Contents()), |ipsecConfTemplate|, request, ovsBridge, gatewayMac);
              Contents() == e.files && trace == e.trace && result == e.outcome
    {
      result := RunTunnelSetup(ovsBridge, gatewayMac, request);
      if result.Fail? {
        return;
      }
      result := RaiseTunnel(request.name);
    }
  }
}
