/** The iptables rule generator and its cleanup: cmd/iptables/iptables.go and
    cmd/iptables/clenaup-iptables.go, run against a model of the nat table.

    How iptables reads a --dport or --to-ports operand is a parameter: a PortReader gives the
    ports an operand stands for, or None when iptables refuses it. */
module Iptables {
  import opened Strings
  import opened Objects

  /** Chains of the nat table: PREROUTING, INPUT, OUTPUT and POSTROUTING are built in, the next
      three are APISIX_INBOUND, APISIX_REDIRECT and APISIX_INBOUND_REDIRECT, and any other name
      belongs to some other program. */
  datatype Chain =
    | PreRoutingChain
    | InputChain
    | OutputChain
    | PostRoutingChain
    | InboundChain
    | RedirectChain
    | InboundRedirectChain
    | OtherChain(name: string)

  predicate Builtin(c: Chain) {
    c.PreRoutingChain? || c.InputChain? || c.OutputChain? || c.PostRoutingChain?
  }

  predicate Ours(c: Chain) {
    c == InboundChain || c == RedirectChain || c == InboundRedirectChain
  }

  /** The matches the generator writes; Other stands for whatever else a table may hold. */
  datatype Match =
    | Tcp
    | TcpPort(dport: string)
    | LoopbackByUser(uid: string)
    | ByGroup(gid: string)
    | Other(text: string)

  datatype Target = Return | Redirect(toPorts: string) | Jump(chain: Chain) | Handle(text: string)
  datatype Rule = Rule(cond: Match, target: Target)
  type Table = map<Chain, seq<Rule>>
  type PortReader = string -> Option<set<nat>>

  datatype Packet = Packet(
    tcp: bool, dport: nat, viaLoopback: bool, toLocalhost: bool, uid: string, gid: string, others: set<string>)

  datatype Outcome = Passed | Redirected(toPorts: string) | Handled(text: string)

  function Ports(read: PortReader, operand: string): set<nat> {
    if read(operand).Some? then read(operand).value else {}
  }

  predicate Holds(read: PortReader, m: Match, p: Packet) {
    match m
    case Tcp => p.tcp
    case TcpPort(dport) => p.tcp && p.dport in Ports(read, dport)
    case LoopbackByUser(uid) => p.viaLoopback && !p.toLocalhost && p.uid == uid
    case ByGroup(gid) => p.gid == gid
    case Other(text) => text in p.others
  }

  /** The walk of a packet along a chain; unvisited are the chains it may still enter, which
      is no restriction on the loop-free tables the kernel admits. */
  function Walk(read: PortReader, t: Table, rules: seq<Rule>, p: Packet, unvisited: set<Chain>): Outcome
    decreases unvisited, |rules|
  {
    if rules == [] then Passed
    else if !Holds(read, rules[0].cond, p) then Walk(read, t, rules[1..], p, unvisited)
    else
      match rules[0].target
      case Return => Passed
      case Redirect(toPorts) => Redirected(toPorts)
      case Handle(text) => Handled(text)
      case Jump(c) =>
        var inner := if c in unvisited && c in t then Walk(read, t, t[c], p, unvisited - {c}) else Passed;
        if inner != Passed then inner else Walk(read, t, rules[1..], p, unvisited)
  }

  function Verdict(read: PortReader, t: Table, chain: Chain, p: Packet): Outcome
    requires chain in t
  {
    Walk(read, t, t[chain], p, t.Keys - {chain})
  }

  datatype Command =
    | New(chain: Chain)
    | Append(chain: Chain, rule: Rule)
    | DeleteRule(chain: Chain, rule: Rule)
    | Flush(chain: Chain)
    | DeleteChain(chain: Chain)

  predicate References(t: Table, c: Chain) {
    exists d :: d in t && exists r :: r in t[d] && r.target == Jump(c)
  }

  predicate Readable(read: PortReader, r: Rule) {
    && (r.cond.TcpPort? ==> read(r.cond.dport).Some?)
    && (r.target.Redirect? ==> read(r.target.toPorts).Some?)
  }

  predicate Admits(read: PortReader, t: Table, chain: Chain, r: Rule) {
    && chain in t
    && Readable(read, r)
    && (r.target.Jump? ==> r.target.chain in t && !Builtin(r.target.chain))
  }

  function RemoveFirst(rules: seq<Rule>, r: Rule): seq<Rule> {
    if rules == [] then [] else if rules[0] == r then rules[1..] else [rules[0]] + RemoveFirst(rules[1..], r)
  }

  /** One iptables command: the new table, or None with the table left alone. */
  function Exec(read: PortReader, t: Table, cmd: Command): Option<Table> {
    match cmd
    case New(c) => if c in t then None else Some(t[c := []])
    case Append(c, r) => if Admits(read, t, c, r) then Some(t[c := t[c] + [r]]) else None
    case DeleteRule(c, r) => if c in t && r in t[c] then Some(t[c := RemoveFirst(t[c], r)]) else None
    case Flush(c) => if c in t then Some(t[c := []]) else None
    case DeleteChain(c) =>
      if c in t && !Builtin(c) && t[c] == [] && !References(t, c) then Some(t - {c}) else None
  }

  /** Commands run until one fails: the table they leave, and whether all succeeded. */
  function RunAll(read: PortReader, t: Table, cmds: seq<Command>): (Table, bool) {
    if cmds == [] then (t, true)
    else
      var (t', ok) := RunAll(read, t, cmds[..|cmds| - 1]);
      if !ok then (t', false)
      else
        match Exec(read, t', cmds[|cmds| - 1])
        case Some(t'') => (t'', true)
        case None => (t', false)
  }

  function Quietly(read: PortReader, t: Table, cmd: Command): Table {
    match Exec(read, t, cmd)
    case Some(t') => t'
    case None => t
  }

  /** Commands run with failures ignored. */
  function RunQuietly(read: PortReader, t: Table, cmds: seq<Command>): Table {
    if cmds == [] then t
    else Quietly(read, RunQuietly(read, t, cmds[..|cmds| - 1]), cmds[|cmds| - 1])
  }

  // ---------------------------------------------------------------- the rules

  datatype Config = Config(
    proxyPort: string, inboundCapturePort: string, proxyUID: string, proxyGID: string,
    inboundPortsInclude: string, inboundPortsExclude: string,
    outboundPortsInclude: string, outboundPortsExclude: string)

  datatype Entry = Entry(chain: Chain, rule: Rule)

  function NonEmpty(strs: seq<string>): seq<string> {
    if strs == [] then []
    else NonEmpty(strs[..|strs| - 1]) + if strs[|strs| - 1] == "" then [] else [strs[|strs| - 1]]
  }

  function PortFields(s: string): seq<string> {
    if s == "" then [] else NonEmpty(Split(s, ','))
  }

  /** Fields are kept or dropped one by one, in order. */
  lemma {:induction false} NonEmptyAppend(a: seq<string>, b: seq<string>)
    ensures NonEmpty(a + b) == NonEmpty(a) + NonEmpty(b)
    ensures forall s :: NonEmpty([s]) == if s == "" then [] else [s]
  {
    forall s
      ensures NonEmpty([s]) == if s == "" then [] else [s]
    {
      assert [s][..0] == [];
    }
    if b == [] {
      assert a + b == a;
    } else {
      var front, last := b[..|b| - 1], b[|b| - 1];
      NonEmptyAppend(a, front);
      assert (a + b)[..|a + b| - 1] == a + front;
      Associative(NonEmpty(a), NonEmpty(front), if last == "" then [] else [last]);
    }
  }

  lemma {:induction false} NonEmptyMembers(strs: seq<string>, x: string)
    ensures x in NonEmpty(strs) <==> x in strs && x != ""
  {
    if strs != [] {
      NonEmptyMembers(strs[..|strs| - 1], x);
    }
  }

  /** The fields kept are the maximal comma-free stretches of the text that are not empty. */
  lemma {:induction false} PortFieldsAreFields(s: string, x: string)
    ensures x in PortFields(s) <==> x != "" && IsField(s, ',', x)
  {
    SplitFields(s, ',', x);
    NonEmptyMembers(Split(s, ','), x);
  }

  function PortEntries(chain: Chain, fields: seq<string>, target: Target): seq<Entry> {
    seq(|fields|, i requires 0 <= i < |fields| => Entry(chain, Rule(TcpPort(fields[i]), target)))
  }

  const PRE_ROUTING_JUMP := Rule(Tcp, Jump(InboundChain))

  function SkipEntries(cfg: Config): seq<Entry> {
    [Entry(OutputChain, Rule(LoopbackByUser(cfg.proxyUID), Return)),
     Entry(OutputChain, Rule(ByGroup(cfg.proxyGID), Return))]
  }

  function InboundEntries(cfg: Config): seq<Entry> {
    if cfg.inboundPortsInclude == "" then []
    else
      [Entry(PreRoutingChain, PRE_ROUTING_JUMP)] +
      if cfg.inboundPortsInclude == "*" then AllPortsEntries(cfg)
      else PortEntries(InboundChain, PortFields(cfg.inboundPortsInclude), Jump(InboundRedirectChain))
  }

  function AllPortsEntries(cfg: Config): seq<Entry> {
    [Entry(InboundChain, Rule(TcpPort("22"), Return))]
    + PortEntries(InboundChain, PortFields(cfg.inboundPortsExclude), Return)
    + [Entry(InboundChain, Rule(Tcp, Jump(InboundRedirectChain)))]
  }

  function OutboundEntries(cfg: Config): seq<Entry> {
    if cfg.outboundPortsInclude == "" then []
    else if cfg.outboundPortsInclude == "*" then
      PortEntries(OutputChain, PortFields(cfg.outboundPortsExclude), Return)
      + [Entry(OutputChain, Rule(Tcp, Jump(RedirectChain)))]
    else
      PortEntries(OutputChain, PortFields(cfg.outboundPortsInclude), Jump(RedirectChain))
  }

  function FirstEntries(cfg: Config): seq<Entry> {
    [Entry(RedirectChain, Rule(Tcp, Redirect(cfg.proxyPort))),
     Entry(InboundRedirectChain, Rule(Tcp, Redirect(cfg.inboundCapturePort)))]
  }

  function SetupEntries(cfg: Config): seq<Entry> {
    FirstEntries(cfg) + SkipEntries(cfg) + InboundEntries(cfg) + OutboundEntries(cfg)
  }

  /** The user chains with rules, by first use. */
  function NewChains(es: seq<Entry>): seq<Chain> {
    if es == [] then []
    else
      var before := NewChains(es[..|es| - 1]);
      var c := es[|es| - 1].chain;
      if Builtin(c) || c in before then before else before + [c]
  }

  function News(chains: seq<Chain>): seq<Command> {
    seq(|chains|, i requires 0 <= i < |chains| => New(chains[i]))
  }

  function Appends(es: seq<Entry>): seq<Command> {
    seq(|es|, i requires 0 <= i < |es| => Append(es[i].chain, es[i].rule))
  }

  function Build(es: seq<Entry>): seq<Command> {
    News(NewChains(es)) + Appends(es)
  }

  function Setup(cfg: Config): seq<Command> {
    Build(SetupEntries(cfg))
  }

  function FlushAndDelete(chains: seq<Chain>): seq<Command> {
    if chains == [] then []
    else FlushAndDelete(chains[..|chains| - 1]) + [Flush(chains[|chains| - 1]), DeleteChain(chains[|chains| - 1])]
  }

  const OLD_CHAINS := [InboundChain, OutputChain, RedirectChain, InboundRedirectChain]

  const CLEANUP: seq<Command> :=
    [DeleteRule(PreRoutingChain, PRE_ROUTING_JUMP), DeleteRule(OutputChain, Rule(Tcp, Jump(OutputChain)))]
    + FlushAndDelete(OLD_CHAINS)

  // ---------------------------------------------------------------- the table setup leaves

  /** The rules of one chain, in order. */
  function RulesFor(c: Chain, es: seq<Entry>): seq<Rule> {
    if es == [] then []
    else RulesFor(c, es[..|es| - 1]) + if es[|es| - 1].chain == c then [es[|es| - 1].rule] else []
  }

  lemma {:induction false} RulesForAppend(c: Chain, a: seq<Entry>, b: seq<Entry>)
    ensures RulesFor(c, a + b) == RulesFor(c, a) + RulesFor(c, b)
  {
    if b == [] {
      assert a + b == a;
    } else {
      RulesForAppend(c, a, b[..|b| - 1]);
      assert (a + b)[..|a + b| - 1] == a + b[..|b| - 1];
    }
  }

  lemma {:induction false} RulesForPorts(c: Chain, chain: Chain, fields: seq<string>, target: Target)
    ensures RulesFor(c, PortEntries(chain, fields, target)) == if c == chain then PortRules(fields, target) else []
  {
    if fields != [] {
      var front, last := fields[..|fields| - 1], Rule(TcpPort(fields[|fields| - 1]), target);
      RulesForPorts(c, chain, front, target);
      var es := PortEntries(chain, fields, target);
      assert es[..|es| - 1] == PortEntries(chain, front, target);
      assert es[|es| - 1] == Entry(chain, last);
      assert PortRules(fields, target) == PortRules(front, target) + [last];
    }
  }

  function PortRules(fields: seq<string>, target: Target): seq<Rule> {
    seq(|fields|, i requires 0 <= i < |fields| => Rule(TcpPort(fields[i]), target))
  }

  function Base(t0: Table, c: Chain): seq<Rule> {
    if c in t0 then t0[c] else []
  }

  /** t is t0 with the chains and the rules in front of each other as listed. */
  ghost predicate Laid(t0: Table, t: Table, chains: seq<Chain>, es: seq<Entry>) {
    && t.Keys == t0.Keys + (set c | c in chains)
    && forall c :: c in t ==> t[c] == Base(t0, c) + RulesFor(c, es)
  }

  /** No chain of ours exists or is referred to yet. */
  ghost predicate Clean(t: Table) {
    && PreRoutingChain in t && OutputChain in t
    && forall c :: Ours(c) ==> c !in t && !References(t, c)
  }

  ghost predicate Uses(es: seq<Entry>, c: Chain) {
    exists e :: e in es && e.chain == c
  }

  lemma {:induction false} UsesAppend(a: seq<Entry>, b: seq<Entry>, c: Chain)
    ensures Uses(a + b, c) <==> Uses(a, c) || Uses(b, c)
  {
    if Uses(a, c) {
      var e :| e in a && e.chain == c;
      assert e in a + b;
    }
    if Uses(b, c) {
      var e :| e in b && e.chain == c;
      assert e in a + b;
    }
  }

  lemma {:induction false} NewChainsAreUsed(es: seq<Entry>, c: Chain)
    ensures c in NewChains(es) <==> !Builtin(c) && Uses(es, c)
  {
    if es != [] {
      var front, e := es[..|es| - 1], es[|es| - 1];
      NewChainsAreUsed(front, c);
      assert es == front + [e];
      UsesAppend(front, [e], c);
      assert Uses([e], c) <==> e.chain == c by {
        assert e in [e];
      }
    }
  }

  /** Some entry before i is for the chain. */
  ghost predicate UsedBefore(es: seq<Entry>, i: int, c: Chain) {
    exists k :: 0 <= k < i && k < |es| && es[k].chain == c
  }

  /** Chains are created in the order of their first use: where one is used first, all those used
      before come before it. */
  lemma {:induction false} NewChainsByFirstUse(es: seq<Entry>, i: nat)
    requires i < |es| && !Builtin(es[i].chain) && !UsedBefore(es, i, es[i].chain)
    ensures NewChains(es[..i]) + [es[i].chain] <= NewChains(es)
    ensures forall c :: c in NewChains(es[..i]) <==> !Builtin(c) && UsedBefore(es, i, c)
  {
    forall c
      ensures c in NewChains(es[..i]) <==> !Builtin(c) && UsedBefore(es, i, c)
    {
      NewChainsAreUsed(es[..i], c);
      if UsedBefore(es, i, c) {
        var k :| 0 <= k < i && k < |es| && es[k].chain == c;
        assert es[..i][k] in es[..i];
      }
    }
    assert es[..i + 1][..i] == es[..i];
    assert NewChains(es[..i + 1]) == NewChains(es[..i]) + [es[i].chain];
    NewChainsGrow(es, i + 1);
  }

  lemma {:induction false} NewChainsGrow(es: seq<Entry>, i: nat)
    requires i <= |es|
    ensures NewChains(es[..i]) <= NewChains(es)
  {
    if i == |es| {
      assert es[..i] == es;
    } else {
      NewChainsGrow(es[..|es| - 1], i);
      assert es[..|es| - 1][..i] == es[..i];
    }
  }

  lemma {:induction false} NewChainsDiffer(es: seq<Entry>)
    ensures forall i, j :: 0 <= i < j < |NewChains(es)| ==> NewChains(es)[i] != NewChains(es)[j]
  {
    if es != [] {
      NewChainsDiffer(es[..|es| - 1]);
    }
  }

  lemma {:induction false} RunNews(read: PortReader, t0: Table, chains: seq<Chain>)
    requires forall c :: c in chains ==> c !in t0
    requires forall i, j :: 0 <= i < j < |chains| ==> chains[i] != chains[j]
    ensures RunAll(read, t0, News(chains)).1
    ensures Laid(t0, RunAll(read, t0, News(chains)).0, chains, [])
  {
    if chains != [] {
      var front, c := chains[..|chains| - 1], chains[|chains| - 1];
      RunNews(read, t0, front);
      assert News(chains)[..|chains| - 1] == News(front);
      assert chains == front + [c];
    }
  }

  lemma {:induction false} LaidStep(read: PortReader, t0: Table, t: Table, chains: seq<Chain>, es: seq<Entry>, e: Entry)
    requires Laid(t0, t, chains, es) && Admits(read, t, e.chain, e.rule)
    ensures Laid(t0, t[e.chain := t[e.chain] + [e.rule]], chains, es + [e])
  {
    assert (es + [e])[..|es|] == es;
  }

  predicate AllAdmitted(read: PortReader, t: Table, es: seq<Entry>) {
    forall e :: e in es ==> Admits(read, t, e.chain, e.rule)
  }

  lemma {:induction false} AdmittedSnoc(read: PortReader, bare: Table, t: Table, es: seq<Entry>, e: Entry)
    requires bare.Keys == t.Keys
    ensures AllAdmitted(read, bare, es + [e]) <==> AllAdmitted(read, bare, es) && Admits(read, t, e.chain, e.rule)
  {
    assert e in es + [e];
    assert forall x :: x in es ==> x in es + [e];
  }

  /** Where setup is after the first rules of es, if it ever stopped. */
  ghost predicate PartlyLaid(t0: Table, t: Table, chains: seq<Chain>, es: seq<Entry>) {
    exists k :: 0 <= k <= |es| && Laid(t0, t, chains, es[..k])
  }

  lemma {:induction false} AppendStep(read: PortReader, t0: Table, news: seq<Command>, es: seq<Entry>, e: Entry)
    ensures var (t, ok) := RunAll(read, t0, news + Appends(es));
      RunAll(read, t0, news + Appends(es + [e])) ==
      if ok && Admits(read, t, e.chain, e.rule) then (t[e.chain := t[e.chain] + [e.rule]], true) else (t, false)
  {
    var cmds := news + Appends(es + [e]);
    assert cmds[..|cmds| - 1] == news + Appends(es);
    assert cmds[|cmds| - 1] == Append(e.chain, e.rule);
  }

  /** bare is the table with the chains and no rules; result is what appending es gives. */
  ghost predicate AppendsGive(read: PortReader, t0: Table, bare: Table, chains: seq<Chain>, es: seq<Entry>, result: (Table, bool)) {
    && (result.1 <==> AllAdmitted(read, bare, es))
    && (result.1 ==> Laid(t0, result.0, chains, es))
    && PartlyLaid(t0, result.0, chains, es)
  }

  lemma {:induction false} AppendsGiveStep(
    read: PortReader, t0: Table, bare: Table, chains: seq<Chain>, es: seq<Entry>, e: Entry, t: Table, ok: bool)
    requires bare.Keys == t0.Keys + (set c | c in chains)
    requires AppendsGive(read, t0, bare, chains, es, (t, ok))
    ensures ok && Admits(read, t, e.chain, e.rule)
      ==> AppendsGive(read, t0, bare, chains, es + [e], (t[e.chain := t[e.chain] + [e.rule]], true))
    ensures !(ok && Admits(read, t, e.chain, e.rule)) ==> AppendsGive(read, t0, bare, chains, es + [e], (t, false))
  {
    Stopped(t0, t, chains, es, e);
    if ok {
      AdmittedSnoc(read, bare, t, es, e);
      if Admits(read, t, e.chain, e.rule) {
        LaidStep(read, t0, t, chains, es, e);
        AllLaid(t0, t[e.chain := t[e.chain] + [e.rule]], chains, es + [e]);
      }
    } else {
      AdmittedSnoc(read, bare, bare, es, e);
    }
  }

  /** Appending rules touches no chain but their own, and fails at the first one the table
      does not admit; admission depends on which chains exist, which appending leaves alone. */
  lemma {:induction false} RunAppends(read: PortReader, t0: Table, bare: Table, chains: seq<Chain>, es: seq<Entry>)
    requires RunAll(read, t0, News(chains)) == (bare, true)
    requires Laid(t0, bare, chains, [])
    ensures AppendsGive(read, t0, bare, chains, es, RunAll(read, t0, News(chains) + Appends(es)))
  {
    var news := News(chains);
    if es == [] {
      assert news + Appends(es) == news;
      AllLaid(t0, bare, chains, es);
    } else {
      var front, e := es[..|es| - 1], es[|es| - 1];
      assert es == front + [e];
      RunAppends(read, t0, bare, chains, front);
      AppendStep(read, t0, news, front, e);
      var (t, ok) := RunAll(read, t0, news + Appends(front));
      AppendsGiveStep(read, t0, bare, chains, front, e, t, ok);
    }
  }

  lemma {:induction false} AllLaid(t0: Table, t: Table, chains: seq<Chain>, es: seq<Entry>)
    requires Laid(t0, t, chains, es)
    ensures PartlyLaid(t0, t, chains, es)
  {
    assert es[..|es|] == es;
  }

  lemma {:induction false} Stopped(t0: Table, t: Table, chains: seq<Chain>, es: seq<Entry>, e: Entry)
    requires PartlyLaid(t0, t, chains, es)
    ensures PartlyLaid(t0, t, chains, es + [e])
  {
    var k :| 0 <= k <= |es| && Laid(t0, t, chains, es[..k]);
    assert (es + [e])[..k] == es[..k];
  }

  /** Running the built commands on a table without our chains: all chains are created, and
      then the rules go in. */
  lemma {:induction false} RunBuild(read: PortReader, t0: Table, es: seq<Entry>)
    requires forall e :: e in es ==> Builtin(e.chain) || e.chain !in t0
    ensures var bare := RunAll(read, t0, News(NewChains(es))).0;
      && bare.Keys == t0.Keys + (set c | c in NewChains(es))
      && AppendsGive(read, t0, bare, NewChains(es), es, RunAll(read, t0, Build(es)))
  {
    var chains := NewChains(es);
    forall c | c in chains
      ensures c !in t0
    {
      NewChainsAreUsed(es, c);
    }
    NewChainsDiffer(es);
    RunNews(read, t0, chains);
    var bare := RunAll(read, t0, News(chains)).0;
    RunAppends(read, t0, bare, chains, es);
  }

  // ---------------------------------------------------------------- setup

  ghost predicate InboundRead(read: PortReader, cfg: Config) {
    if cfg.inboundPortsInclude == "*" then read("22").Some? && FieldsRead(read, cfg.inboundPortsExclude)
    else FieldsRead(read, cfg.inboundPortsInclude)
  }

  ghost predicate OutboundRead(read: PortReader, cfg: Config) {
    FieldsRead(read, if cfg.outboundPortsInclude == "*" then cfg.outboundPortsExclude else cfg.outboundPortsInclude)
  }

  /** Every operand setup passes to --dport or --to-ports is one iptables reads. */
  ghost predicate OperandsRead(read: PortReader, cfg: Config) {
    && read(cfg.proxyPort).Some? && read(cfg.inboundCapturePort).Some?
    && InboundRead(read, cfg) && OutboundRead(read, cfg)
  }

  ghost predicate FieldsRead(read: PortReader, s: string) {
    forall f :: f != "" && IsField(s, ',', f) ==> read(f).Some?
  }

  ghost predicate HasField(s: string) {
    exists f :: f != "" && IsField(s, ',', f)
  }

  /** A list such as "," is not empty as text but names no port. */
  ghost predicate OnlySeparators(s: string) {
    s != "" && !HasField(s)
  }

  lemma {:induction false} PortEntriesReadable(read: PortReader, chain: Chain, s: string, target: Target)
    requires !target.Redirect?
    ensures (forall e :: e in PortEntries(chain, PortFields(s), target) ==> Readable(read, e.rule)) <==> FieldsRead(read, s)
  {
    var es := PortEntries(chain, PortFields(s), target);
    if forall e :: e in es ==> Readable(read, e.rule) {
      forall f | f != "" && IsField(s, ',', f)
        ensures read(f).Some?
      {
        PortFieldsAreFields(s, f);
        var i :| 0 <= i < |PortFields(s)| && PortFields(s)[i] == f;
        assert es[i].rule == Rule(TcpPort(f), target);
        assert es[i] in es;
      }
    }
    if FieldsRead(read, s) {
      forall e | e in es
        ensures Readable(read, e.rule)
      {
        var i :| 0 <= i < |es| && es[i] == e;
        PortFieldsAreFields(s, PortFields(s)[i]);
      }
    }
  }

  /** The jumps setup writes, by chain. */
  predicate Placed(e: Entry) {
    if e.chain == PreRoutingChain then e.rule == PRE_ROUTING_JUMP
    else if e.chain == InboundChain then e.rule.target == Return || e.rule.target == Jump(InboundRedirectChain)
    else if e.chain == OutputChain then e.rule.target == Return || e.rule.target == Jump(RedirectChain)
    else (e.chain == RedirectChain || e.chain == InboundRedirectChain) && e.rule.target.Redirect?
  }

  predicate AllPlaced(es: seq<Entry>) {
    forall e :: e in es ==> Placed(e)
  }

  lemma {:induction false} PlacedAppend(a: seq<Entry>, b: seq<Entry>)
    requires AllPlaced(a) && AllPlaced(b)
    ensures AllPlaced(a + b)
  {
  }

  lemma {:induction false} PortEntriesPlaced(chain: Chain, fields: seq<string>, target: Target)
    requires Placed(Entry(chain, Rule(TcpPort(""), target))) && chain != PreRoutingChain
    ensures AllPlaced(PortEntries(chain, fields, target))
  {
  }

  lemma {:induction false} SetupIsPlaced(cfg: Config)
    ensures AllPlaced(SetupEntries(cfg))
  {
    FixedIsPlaced(cfg);
    InboundIsPlaced(cfg);
    OutboundIsPlaced(cfg);
    PlacedAppend(FirstEntries(cfg) + SkipEntries(cfg), InboundEntries(cfg));
    PlacedAppend(FirstEntries(cfg) + SkipEntries(cfg) + InboundEntries(cfg), OutboundEntries(cfg));
  }

  lemma {:induction false} FixedIsPlaced(cfg: Config)
    ensures AllPlaced(FirstEntries(cfg) + SkipEntries(cfg))
  {
    PlacedAppend(FirstEntries(cfg), SkipEntries(cfg));
  }

  lemma {:induction false} InboundIsPlaced(cfg: Config)
    ensures AllPlaced(InboundEntries(cfg))
  {
    PortEntriesPlaced(InboundChain, PortFields(cfg.inboundPortsExclude), Return);
    PortEntriesPlaced(InboundChain, PortFields(cfg.inboundPortsInclude), Jump(InboundRedirectChain));
  }

  lemma {:induction false} OutboundIsPlaced(cfg: Config)
    ensures AllPlaced(OutboundEntries(cfg))
  {
    PortEntriesPlaced(OutputChain, PortFields(cfg.outboundPortsExclude), Return);
    PortEntriesPlaced(OutputChain, PortFields(cfg.outboundPortsInclude), Jump(RedirectChain));
  }

  lemma {:induction false} AdmittedAppend(read: PortReader, t: Table, a: seq<Entry>, b: seq<Entry>)
    ensures AllAdmitted(read, t, a + b) <==> AllAdmitted(read, t, a) && AllAdmitted(read, t, b)
  {
    assert forall e :: e in a ==> e in a + b;
    assert forall e :: e in b ==> e in a + b;
  }

  lemma {:induction false} AdmittedOne(read: PortReader, t: Table, e: Entry)
    ensures AllAdmitted(read, t, [e]) <==> Admits(read, t, e.chain, e.rule)
  {
    assert e in [e];
  }

  lemma {:induction false} PortEntriesAdmitted(read: PortReader, t: Table, chain: Chain, s: string, target: Target)
    requires chain in t && !target.Redirect?
    requires target.Jump? ==> target.chain in t && !Builtin(target.chain)
    ensures AllAdmitted(read, t, PortEntries(chain, PortFields(s), target)) <==> FieldsRead(read, s)
  {
    PortEntriesReadable(read, chain, s, target);
    var es := PortEntries(chain, PortFields(s), target);
    assert forall e :: e in es ==> e.chain == chain && e.rule.target == target;
    assert forall e :: e in es ==> (Readable(read, e.rule) <==> Admits(read, t, e.chain, e.rule));
  }

  lemma {:induction false} EmptyHasNoField()
    ensures !HasField("")
  {
  }

  lemma {:induction false} StarIsField()
    ensures HasField("*")
  {
    assert FieldAt("*", ',', "*", 0, 1);
    assert IsField("*", ',', "*");
  }

  lemma {:induction false} SomePortField(s: string)
    ensures HasField(s) <==> PortFields(s) != []
  {
    if HasField(s) {
      var f :| f != "" && IsField(s, ',', f);
      PortFieldsAreFields(s, f);
    }
    if PortFields(s) != [] {
      PortFieldsAreFields(s, PortFields(s)[0]);
    }
  }

  lemma {:induction false} InboundAdmitted(read: PortReader, t: Table, cfg: Config)
    requires PreRoutingChain in t && InboundRedirectChain in t
    requires InboundChain in t <==> HasField(cfg.inboundPortsInclude)
    ensures AllAdmitted(read, t, InboundEntries(cfg)) <==> InboundRead(read, cfg) && !OnlySeparators(cfg.inboundPortsInclude)
  {
    EmptyHasNoField();
    var listed := cfg.inboundPortsInclude;
    if listed != "" {
      var jump := [Entry(PreRoutingChain, PRE_ROUTING_JUMP)];
      AdmittedOne(read, t, jump[0]);
      AdmittedAppend(read, t, jump, InboundEntries(cfg)[1..]);
      assert jump + InboundEntries(cfg)[1..] == InboundEntries(cfg);
      if InboundChain in t {
        if listed == "*" {
          var ssh := Entry(InboundChain, Rule(TcpPort("22"), Return));
          var all := Entry(InboundChain, Rule(Tcp, Jump(InboundRedirectChain)));
          var ports := PortEntries(InboundChain, PortFields(cfg.inboundPortsExclude), Return);
          assert InboundEntries(cfg)[1..] == [ssh] + ports + [all];
          AdmittedOne(read, t, ssh);
          AdmittedOne(read, t, all);
          AdmittedAppend(read, t, [ssh], ports);
          AdmittedAppend(read, t, [ssh] + ports, [all]);
          PortEntriesAdmitted(read, t, InboundChain, cfg.inboundPortsExclude, Return);
        } else {
          PortEntriesAdmitted(read, t, InboundChain, listed, Jump(InboundRedirectChain));
        }
      }
    }
  }

  lemma {:induction false} OutboundAdmitted(read: PortReader, t: Table, cfg: Config)
    requires OutputChain in t && RedirectChain in t
    ensures AllAdmitted(read, t, OutboundEntries(cfg)) <==> OutboundRead(read, cfg)
  {
    EmptyHasNoField();
    if cfg.outboundPortsInclude == "*" {
      var ports := PortEntries(OutputChain, PortFields(cfg.outboundPortsExclude), Return);
      var all := Entry(OutputChain, Rule(Tcp, Jump(RedirectChain)));
      AdmittedOne(read, t, all);
      AdmittedAppend(read, t, ports, [all]);
      PortEntriesAdmitted(read, t, OutputChain, cfg.outboundPortsExclude, Return);
    } else if cfg.outboundPortsInclude != "" {
      PortEntriesAdmitted(read, t, OutputChain, cfg.outboundPortsInclude, Jump(RedirectChain));
    }
  }

  lemma {:induction false} FirstAdmitted(read: PortReader, t: Table, cfg: Config)
    requires OutputChain in t && RedirectChain in t && InboundRedirectChain in t
    ensures AllAdmitted(read, t, FirstEntries(cfg) + SkipEntries(cfg))
      <==> read(cfg.proxyPort).Some? && read(cfg.inboundCapturePort).Some?
  {
    var es := FirstEntries(cfg) + SkipEntries(cfg);
    assert es[0] in es && es[1] in es;
  }

  lemma {:induction false} InboundUses(cfg: Config)
    ensures Uses(InboundEntries(cfg), InboundChain) <==> HasField(cfg.inboundPortsInclude)
    ensures !Uses(OutboundEntries(cfg), InboundChain) && !Uses(FirstEntries(cfg) + SkipEntries(cfg), InboundChain)
  {
    StarIsField();
    EmptyHasNoField();
    SomePortField(cfg.inboundPortsInclude);
    assert forall e :: e in OutboundEntries(cfg) ==> e.chain == OutputChain;
    if HasField(cfg.inboundPortsInclude) {
      assert InboundEntries(cfg)[1].chain == InboundChain;
      assert InboundEntries(cfg)[1] in InboundEntries(cfg);
    }
  }

  lemma {:induction false} InboundChainUsed(cfg: Config)
    ensures InboundChain in NewChains(SetupEntries(cfg)) <==> HasField(cfg.inboundPortsInclude)
  {
    var before := FirstEntries(cfg) + SkipEntries(cfg);
    NewChainsAreUsed(SetupEntries(cfg), InboundChain);
    UsesAppend(before, InboundEntries(cfg), InboundChain);
    UsesAppend(before + InboundEntries(cfg), OutboundEntries(cfg), InboundChain);
    InboundUses(cfg);
  }

  lemma {:induction false} SetupChains(cfg: Config)
    ensures RedirectChain in NewChains(SetupEntries(cfg)) && InboundRedirectChain in NewChains(SetupEntries(cfg))
    ensures forall c :: c in NewChains(SetupEntries(cfg)) ==> Ours(c)
  {
    var es := SetupEntries(cfg);
    SetupIsPlaced(cfg);
    assert es[0] in es && es[1] in es;
    assert es[0].chain == RedirectChain && es[1].chain == InboundRedirectChain;
    NewChainsAreUsed(es, RedirectChain);
    NewChainsAreUsed(es, InboundRedirectChain);
    forall c | c in NewChains(es)
      ensures Ours(c)
    {
      NewChainsAreUsed(es, c);
      var e :| e in es && e.chain == c;
      assert Placed(e);
    }
  }

  /** Setup, which stops at the first failing command, goes through on a table without our
      chains exactly when iptables reads every port and the inbound list is empty or names one.
      A list of separators only makes PREROUTING jump to a chain that was never created. */
  lemma {:induction false} SetupSucceedsIff(read: PortReader, cfg: Config, t0: Table)
    requires Clean(t0)
    ensures RunAll(read, t0, Setup(cfg)).1
      <==> OperandsRead(read, cfg) && !OnlySeparators(cfg.inboundPortsInclude)
  {
    var es := SetupEntries(cfg);
    SetupIsPlaced(cfg);
    assert forall e :: e in es ==> Placed(e);
    RunBuild(read, t0, es);
    var bare := RunAll(read, t0, News(NewChains(es))).0;
    InboundChainUsed(cfg);
    SetupChains(cfg);
    var before := FirstEntries(cfg) + SkipEntries(cfg);
    assert es == before + InboundEntries(cfg) + OutboundEntries(cfg);
    FirstAdmitted(read, bare, cfg);
    InboundAdmitted(read, bare, cfg);
    OutboundAdmitted(read, bare, cfg);
    AdmittedAppend(read, bare, before, InboundEntries(cfg));
    AdmittedAppend(read, bare, before + InboundEntries(cfg), OutboundEntries(cfg));
  }

  const COMMAS_ONLY := Config("9080", "9081", "0", "0", ",", "", "", "")

  /** The list "," makes setup fail, whatever iptables accepts as a port. */
  lemma {:induction false} CommasOnlyFails(read: PortReader, t0: Table)
    requires Clean(t0)
    ensures !RunAll(read, t0, Setup(COMMAS_ONLY)).1
  {
    SetupSucceedsIff(read, COMMAS_ONLY, t0);
  }

  // ---------------------------------------------------------------- the port policy

  /** Some field of the list names the port. */
  ghost predicate Lists(read: PortReader, s: string, port: nat) {
    exists f :: f != "" && IsField(s, ',', f) && port in Ports(read, f)
  }

  ghost predicate InboundSelects(read: PortReader, cfg: Config, port: nat) {
    if cfg.inboundPortsInclude == "*" then port != 22 && !Lists(read, cfg.inboundPortsExclude, port)
    else Lists(read, cfg.inboundPortsInclude, port)
  }

  ghost predicate OutboundSelects(read: PortReader, cfg: Config, port: nat) {
    if cfg.outboundPortsInclude == "*" then !Lists(read, cfg.outboundPortsExclude, port)
    else Lists(read, cfg.outboundPortsInclude, port)
  }

  /** Traffic of the proxy itself. */
  predicate OwnerSkips(cfg: Config, p: Packet) {
    (p.viaLoopback && !p.toLocalhost && p.uid == cfg.proxyUID) || p.gid == cfg.proxyGID
  }

  predicate AnyPort(read: PortReader, fields: seq<string>, port: nat) {
    exists f :: f in fields && port in Ports(read, f)
  }

  lemma {:induction false} AnyPortIsListed(read: PortReader, s: string, port: nat)
    ensures AnyPort(read, PortFields(s), port) <==> Lists(read, s, port)
  {
    if AnyPort(read, PortFields(s), port) {
      var f :| f in PortFields(s) && port in Ports(read, f);
      PortFieldsAreFields(s, f);
    }
    if Lists(read, s, port) {
      var f :| f != "" && IsField(s, ',', f) && port in Ports(read, f);
      PortFieldsAreFields(s, f);
    }
  }

  /** Entering a chain that redirects all TCP traffic. */
  ghost predicate Redirects(t: Table, c: Chain, toPorts: string, unvisited: set<Chain>) {
    c in t && c in unvisited && t[c] == [Rule(Tcp, Redirect(toPorts))]
  }

  lemma {:induction false} WalkRedirect(read: PortReader, t: Table, c: Chain, toPorts: string, p: Packet, unvisited: set<Chain>, tail: seq<Rule>)
    requires Redirects(t, c, toPorts, unvisited) && p.tcp
    ensures Walk(read, t, [Rule(Tcp, Jump(c))] + tail, p, unvisited) == Redirected(toPorts)
  {
    assert Walk(read, t, t[c], p, unvisited - {c}) == Redirected(toPorts);
  }

  /** Port rules that return: a listed port ends the walk, any other packet goes on. */
  lemma {:induction false} WalkReturns(
    read: PortReader, t: Table, fields: seq<string>, tail: seq<Rule>, p: Packet, unvisited: set<Chain>)
    ensures Walk(read, t, PortRules(fields, Return) + tail, p, unvisited) ==
      if p.tcp && AnyPort(read, fields, p.dport) then Passed else Walk(read, t, tail, p, unvisited)
  {
    var rules := PortRules(fields, Return);
    if fields == [] {
      assert rules + tail == tail;
    } else {
      assert fields == [fields[0]] + fields[1..];
      assert (rules + tail)[1..] == PortRules(fields[1..], Return) + tail;
      WalkReturns(read, t, fields[1..], tail, p, unvisited);
    }
  }

  /** Port rules that jump to a redirecting chain: a listed port is redirected. */
  lemma {:induction false} WalkJumps(
    read: PortReader, t: Table, fields: seq<string>, c: Chain, toPorts: string, p: Packet, unvisited: set<Chain>)
    requires Redirects(t, c, toPorts, unvisited)
    ensures Walk(read, t, PortRules(fields, Jump(c)), p, unvisited) ==
      if p.tcp && AnyPort(read, fields, p.dport) then Redirected(toPorts) else Passed
  {
    var rules := PortRules(fields, Jump(c));
    if fields != [] {
      assert fields == [fields[0]] + fields[1..];
      assert rules[1..] == PortRules(fields[1..], Jump(c));
      WalkJumps(read, t, fields[1..], c, toPorts, p, unvisited);
      if Holds(read, rules[0].cond, p) {
        assert Walk(read, t, t[c], p, unvisited - {c}) == Redirected(toPorts);
      }
    }
  }

  function InboundRules(cfg: Config): seq<Rule> {
    if cfg.inboundPortsInclude == "" then []
    else if cfg.inboundPortsInclude == "*" then AllPortsRules(cfg)
    else PortRules(PortFields(cfg.inboundPortsInclude), Jump(InboundRedirectChain))
  }

  function AllPortsRules(cfg: Config): seq<Rule> {
    [Rule(TcpPort("22"), Return)] + PortRules(PortFields(cfg.inboundPortsExclude), Return)
    + [Rule(Tcp, Jump(InboundRedirectChain))]
  }

  function OutboundRules(cfg: Config): seq<Rule> {
    if cfg.outboundPortsInclude == "" then []
    else if cfg.outboundPortsInclude == "*" then
      PortRules(PortFields(cfg.outboundPortsExclude), Return) + [Rule(Tcp, Jump(RedirectChain))]
    else PortRules(PortFields(cfg.outboundPortsInclude), Jump(RedirectChain))
  }

  lemma {:induction false} RulesForOne(c: Chain, e: Entry)
    ensures RulesFor(c, [e]) == if e.chain == c then [e.rule] else []
  {
    assert [e][..0] == [];
  }

  lemma {:induction false} RulesForTwo(c: Chain, d: Entry, e: Entry)
    ensures RulesFor(c, [d, e]) == RulesFor(c, [d]) + RulesFor(c, [e])
  {
    assert [d, e] == [d] + [e];
    RulesForAppend(c, [d], [e]);
  }

  lemma {:induction false} RulesForInbound(c: Chain, cfg: Config)
    ensures RulesFor(c, InboundEntries(cfg)) ==
      if c == PreRoutingChain && cfg.inboundPortsInclude != "" then [PRE_ROUTING_JUMP]
      else if c == InboundChain then InboundRules(cfg) else []
  {
    if cfg.inboundPortsInclude == "*" {
      RulesAfterJump(c, AllPortsEntries(cfg));
      RulesForAllPorts(c, cfg);
    } else if cfg.inboundPortsInclude != "" {
      var fields := PortFields(cfg.inboundPortsInclude);
      RulesAfterJump(c, PortEntries(InboundChain, fields, Jump(InboundRedirectChain)));
      RulesForPorts(c, InboundChain, fields, Jump(InboundRedirectChain));
    }
  }

  lemma {:induction false} RulesAfterJump(c: Chain, es: seq<Entry>)
    ensures RulesFor(c, [Entry(PreRoutingChain, PRE_ROUTING_JUMP)] + es) ==
      (if c == PreRoutingChain then [PRE_ROUTING_JUMP] else []) + RulesFor(c, es)
  {
    var jump := Entry(PreRoutingChain, PRE_ROUTING_JUMP);
    RulesForOne(c, jump);
    RulesForAppend(c, [jump], es);
  }

  lemma {:induction false} RulesForAllPorts(c: Chain, cfg: Config)
    ensures RulesFor(c, AllPortsEntries(cfg)) == if c == InboundChain then AllPortsRules(cfg) else []
  {
    var ssh := Entry(InboundChain, Rule(TcpPort("22"), Return));
    var all := Entry(InboundChain, Rule(Tcp, Jump(InboundRedirectChain)));
    var ports := PortEntries(InboundChain, PortFields(cfg.inboundPortsExclude), Return);
    RulesForOne(c, ssh);
    RulesForOne(c, all);
    RulesForAppend(c, [ssh], ports);
    RulesForAppend(c, [ssh] + ports, [all]);
    RulesForPorts(c, InboundChain, PortFields(cfg.inboundPortsExclude), Return);
  }

  lemma {:induction false} RulesForOutbound(c: Chain, cfg: Config)
    ensures RulesFor(c, OutboundEntries(cfg)) == if c == OutputChain then OutboundRules(cfg) else []
  {
    if cfg.outboundPortsInclude == "*" {
      var ports := PortEntries(OutputChain, PortFields(cfg.outboundPortsExclude), Return);
      var all := Entry(OutputChain, Rule(Tcp, Jump(RedirectChain)));
      RulesForOne(c, all);
      RulesForAppend(c, ports, [all]);
      RulesForPorts(c, OutputChain, PortFields(cfg.outboundPortsExclude), Return);
    } else if cfg.outboundPortsInclude != "" {
      RulesForPorts(c, OutputChain, PortFields(cfg.outboundPortsInclude), Jump(RedirectChain));
    }
  }

  /** What setup puts into each chain. */
  lemma {:induction false} RulesForSetup(c: Chain, cfg: Config)
    ensures RulesFor(c, SetupEntries(cfg)) ==
      RulesFor(c, FirstEntries(cfg)) + RulesFor(c, SkipEntries(cfg))
      + RulesFor(c, InboundEntries(cfg)) + RulesFor(c, OutboundEntries(cfg))
  {
    var first, skip, inbound, outbound := FirstEntries(cfg), SkipEntries(cfg), InboundEntries(cfg), OutboundEntries(cfg);
    assert SetupEntries(cfg) == first + skip + inbound + outbound;
    RulesForAppend(c, first, skip);
    RulesForAppend(c, first + skip, inbound);
    RulesForAppend(c, first + skip + inbound, outbound);
  }

  lemma {:induction false} RulesForFixed(c: Chain, cfg: Config)
    ensures RulesFor(c, FirstEntries(cfg)) + RulesFor(c, SkipEntries(cfg)) ==
      if c == RedirectChain then [Rule(Tcp, Redirect(cfg.proxyPort))]
      else if c == InboundRedirectChain then [Rule(Tcp, Redirect(cfg.inboundCapturePort))]
      else if c == OutputChain then SkipRules(cfg)
      else []
  {
    var first, skip := FirstEntries(cfg), SkipEntries(cfg);
    RulesForTwo(c, first[0], first[1]);
    RulesForTwo(c, skip[0], skip[1]);
    RulesForOne(c, first[0]);
    RulesForOne(c, first[1]);
    RulesForOne(c, skip[0]);
    RulesForOne(c, skip[1]);
  }

  function SkipRules(cfg: Config): seq<Rule> {
    [Rule(LoopbackByUser(cfg.proxyUID), Return), Rule(ByGroup(cfg.proxyGID), Return)]
  }

  function Content(c: Chain, cfg: Config): seq<Rule> {
    if c == RedirectChain then [Rule(Tcp, Redirect(cfg.proxyPort))]
    else if c == InboundRedirectChain then [Rule(Tcp, Redirect(cfg.inboundCapturePort))]
    else if c == InboundChain then InboundRules(cfg)
    else if c == OutputChain then SkipRules(cfg) + OutboundRules(cfg)
    else if c == PreRoutingChain && cfg.inboundPortsInclude != "" then [PRE_ROUTING_JUMP]
    else []
  }

  /** What setup puts into each chain. */
  lemma {:induction false} ChainContents(c: Chain, cfg: Config)
    ensures RulesFor(c, SetupEntries(cfg)) == Content(c, cfg)
  {
    RulesForSetup(c, cfg);
    RulesForFixed(c, cfg);
    RulesForInbound(c, cfg);
    RulesForOutbound(c, cfg);
    Concat(RulesFor(c, FirstEntries(cfg)) + RulesFor(c, SkipEntries(cfg)),
           RulesFor(c, InboundEntries(cfg)), RulesFor(c, OutboundEntries(cfg)));
  }

  lemma {:induction false} Concat(a: seq<Rule>, b: seq<Rule>, c: seq<Rule>)
    ensures b == [] ==> a + b + c == a + c
    ensures b == [] && c == [] ==> a + b + c == a
    ensures a == [] && c == [] ==> a + b + c == b
  {
  }

  /** The table after a successful setup. */
  ghost predicate SetUp(t0: Table, cfg: Config, t: Table) {
    && t0.Keys <= t.Keys
    && RedirectChain in t && t[RedirectChain] == [Rule(Tcp, Redirect(cfg.proxyPort))]
    && InboundRedirectChain in t && t[InboundRedirectChain] == [Rule(Tcp, Redirect(cfg.inboundCapturePort))]
    && (InboundChain in t <==> HasField(cfg.inboundPortsInclude))
    && (InboundChain in t ==> t[InboundChain] == InboundRules(cfg))
    && PreRoutingChain in t
    && t[PreRoutingChain] == Base(t0, PreRoutingChain) + (if cfg.inboundPortsInclude == "" then [] else [PRE_ROUTING_JUMP])
    && OutputChain in t && t[OutputChain] == Base(t0, OutputChain) + (SkipRules(cfg) + OutboundRules(cfg))
  }

  lemma {:induction false} TableAfterSetup(read: PortReader, cfg: Config, t0: Table)
    requires Clean(t0) && RunAll(read, t0, Setup(cfg)).1
    ensures SetUp(t0, cfg, RunAll(read, t0, Setup(cfg)).0)
  {
    var es := SetupEntries(cfg);
    UsedChainsAreOurs(cfg, t0);
    RunBuild(read, t0, es);
    InboundChainUsed(cfg);
    SetupChains(cfg);
    var t := RunAll(read, t0, Setup(cfg)).0;
    LaidSetup(t0, t, cfg);
  }

  lemma {:induction false} UsedChainsAreOurs(cfg: Config, t0: Table)
    requires Clean(t0)
    ensures forall e :: e in SetupEntries(cfg) ==> Builtin(e.chain) || e.chain !in t0
  {
    SetupIsPlaced(cfg);
    assert forall e :: e in SetupEntries(cfg) ==> Placed(e);
  }

  lemma {:induction false} LaidSetup(t0: Table, t: Table, cfg: Config)
    requires Clean(t0) && Laid(t0, t, NewChains(SetupEntries(cfg)), SetupEntries(cfg))
    ensures SetUp(t0, cfg, t)
  {
    InboundChainUsed(cfg);
    SetupChains(cfg);
    ChainContents(RedirectChain, cfg);
    ChainContents(InboundRedirectChain, cfg);
    ChainContents(InboundChain, cfg);
    ChainContents(PreRoutingChain, cfg);
    ChainContents(OutputChain, cfg);
  }

  /** A packet entering PREROUTING after setup is redirected to the inbound capture port exactly
      when it is TCP and the inbound lists select its port; nothing else happens to it. */
  lemma {:induction false} InboundPolicy(read: PortReader, cfg: Config, t0: Table, p: Packet)
    requires Clean(t0) && t0[PreRoutingChain] == []
    requires RunAll(read, t0, Setup(cfg)).1 && Ports(read, "22") == {22}
    ensures var t := RunAll(read, t0, Setup(cfg)).0;
      PreRoutingChain in t && Verdict(read, t, PreRoutingChain, p) ==
      if p.tcp && InboundSelects(read, cfg, p.dport) then Redirected(cfg.inboundCapturePort) else Passed
  {
    TableAfterSetup(read, cfg, t0);
    SetupSucceedsIff(read, cfg, t0);
    InboundVerdict(read, t0, cfg, RunAll(read, t0, Setup(cfg)).0, p);
  }

  lemma {:induction false} InboundVerdict(read: PortReader, t0: Table, cfg: Config, t: Table, p: Packet)
    requires SetUp(t0, cfg, t) && Base(t0, PreRoutingChain) == [] && Ports(read, "22") == {22}
    requires !OnlySeparators(cfg.inboundPortsInclude)
    ensures Verdict(read, t, PreRoutingChain, p) ==
      if p.tcp && InboundSelects(read, cfg, p.dport) then Redirected(cfg.inboundCapturePort) else Passed
  {
    var unvisited := t.Keys - {PreRoutingChain};
    if cfg.inboundPortsInclude == "" {
      EmptyHasNoField();
    } else {
      var rules := t[PreRoutingChain];
      assert rules == [PRE_ROUTING_JUMP];
      assert HasField(cfg.inboundPortsInclude);
      assert Walk(read, t, rules[1..], p, unvisited) == Passed;
      InboundWalk(read, t, cfg, p, unvisited - {InboundChain});
    }
  }

  lemma {:induction false} InboundWalk(read: PortReader, t: Table, cfg: Config, p: Packet, unvisited: set<Chain>)
    requires cfg.inboundPortsInclude != "" && Ports(read, "22") == {22}
    requires Redirects(t, InboundRedirectChain, cfg.inboundCapturePort, unvisited)
    ensures Walk(read, t, InboundRules(cfg), p, unvisited) ==
      if p.tcp && InboundSelects(read, cfg, p.dport) then Redirected(cfg.inboundCapturePort) else Passed
  {
    if cfg.inboundPortsInclude == "*" {
      var fields := PortFields(cfg.inboundPortsExclude);
      var all := [Rule(Tcp, Jump(InboundRedirectChain))];
      assert InboundRules(cfg)[1..] == PortRules(fields, Return) + all;
      WalkReturns(read, t, fields, all, p, unvisited);
      AnyPortIsListed(read, cfg.inboundPortsExclude, p.dport);
      if p.tcp {
        WalkRedirect(read, t, InboundRedirectChain, cfg.inboundCapturePort, p, unvisited, []);
        assert all + [] == all;
      }
    } else {
      var fields := PortFields(cfg.inboundPortsInclude);
      WalkJumps(read, t, fields, InboundRedirectChain, cfg.inboundCapturePort, p, unvisited);
      AnyPortIsListed(read, cfg.inboundPortsInclude, p.dport);
    }
  }

  /** A packet entering OUTPUT after setup is redirected to the proxy port exactly when it is
      TCP, neither owner rule spares it and the outbound lists select its port. */
  lemma {:induction false} OutboundPolicy(read: PortReader, cfg: Config, t0: Table, p: Packet)
    requires Clean(t0) && t0[OutputChain] == []
    requires RunAll(read, t0, Setup(cfg)).1
    ensures var t := RunAll(read, t0, Setup(cfg)).0;
      OutputChain in t && Verdict(read, t, OutputChain, p) ==
      if p.tcp && !OwnerSkips(cfg, p) && OutboundSelects(read, cfg, p.dport) then Redirected(cfg.proxyPort) else Passed
  {
    TableAfterSetup(read, cfg, t0);
    OutboundVerdict(read, t0, cfg, RunAll(read, t0, Setup(cfg)).0, p);
  }

  lemma {:induction false} OutboundVerdict(read: PortReader, t0: Table, cfg: Config, t: Table, p: Packet)
    requires SetUp(t0, cfg, t) && Base(t0, OutputChain) == []
    ensures Verdict(read, t, OutputChain, p) ==
      if p.tcp && !OwnerSkips(cfg, p) && OutboundSelects(read, cfg, p.dport) then Redirected(cfg.proxyPort) else Passed
  {
    var unvisited := t.Keys - {OutputChain};
    var rules := t[OutputChain];
    var outbound := OutboundRules(cfg);
    assert rules == SkipRules(cfg) + outbound;
    assert rules[1..] == [Rule(ByGroup(cfg.proxyGID), Return)] + outbound;
    assert rules[1..][1..] == outbound;
    OutboundWalk(read, t, cfg, p, unvisited);
    assert Walk(read, t, rules[1..], p, unvisited) ==
      if p.gid == cfg.proxyGID then Passed else Walk(read, t, outbound, p, unvisited);
    assert Holds(read, rules[0].cond, p) == (p.viaLoopback && !p.toLocalhost && p.uid == cfg.proxyUID);
  }

  lemma {:induction false} OutboundWalk(read: PortReader, t: Table, cfg: Config, p: Packet, unvisited: set<Chain>)
    requires Redirects(t, RedirectChain, cfg.proxyPort, unvisited)
    ensures Walk(read, t, OutboundRules(cfg), p, unvisited) ==
      if p.tcp && OutboundSelects(read, cfg, p.dport) then Redirected(cfg.proxyPort) else Passed
  {
    if cfg.outboundPortsInclude == "*" {
      var fields := PortFields(cfg.outboundPortsExclude);
      var all := [Rule(Tcp, Jump(RedirectChain))];
      WalkReturns(read, t, fields, all, p, unvisited);
      AnyPortIsListed(read, cfg.outboundPortsExclude, p.dport);
      if p.tcp {
        WalkRedirect(read, t, RedirectChain, cfg.proxyPort, p, unvisited, []);
        assert all + [] == all;
      }
    } else {
      var fields := PortFields(cfg.outboundPortsInclude);
      AnyPortIsListed(read, cfg.outboundPortsInclude, p.dport);
      if cfg.outboundPortsInclude != "" {
        WalkJumps(read, t, fields, RedirectChain, cfg.proxyPort, p, unvisited);
      }
    }
  }

  // ---------------------------------------------------------------- cleanup

  /** What setup, complete or stopped anywhere, may have added to t0. */
  ghost predicate Overlay(t0: Table, t: Table) {
    && PreRoutingChain in t0 && t0.Keys <= t.Keys
    && (forall c :: c in t && c !in t0 ==> Ours(c))
    && (forall c :: c in t0 && c != PreRoutingChain && c != OutputChain ==> t[c] == t0[c])
    && (t[PreRoutingChain] == t0[PreRoutingChain] || t[PreRoutingChain] == t0[PreRoutingChain] + [PRE_ROUTING_JUMP])
    && OutputChain in t0
    && (forall r :: r in t[OutputChain] && r.target.Jump? ==>
         r.target.chain != InboundChain && r.target.chain != InboundRedirectChain)
    && (InboundChain in t ==> forall r :: r in t[InboundChain] && r.target.Jump? ==> r.target.chain == InboundRedirectChain)
    && (RedirectChain in t ==> forall r :: r in t[RedirectChain] ==> !r.target.Jump?)
    && (InboundRedirectChain in t ==> forall r :: r in t[InboundRedirectChain] ==> !r.target.Jump?)
  }

  lemma {:induction false} RulesForPlaced(c: Chain, es: seq<Entry>)
    requires AllPlaced(es)
    ensures forall r :: r in RulesFor(c, es) ==> Placed(Entry(c, r))
  {
    if es != [] {
      RulesForPlaced(c, es[..|es| - 1]);
    }
  }

  lemma {:induction false} RulesForPrefix(c: Chain, es: seq<Entry>, k: nat)
    requires k <= |es|
    ensures RulesFor(c, es[..k]) <= RulesFor(c, es)
  {
    RulesForAppend(c, es[..k], es[k..]);
    assert es[..k] + es[k..] == es;
  }

  lemma {:induction false} SetupOverlays(read: PortReader, cfg: Config, t0: Table)
    requires Clean(t0)
    ensures Overlay(t0, RunAll(read, t0, Setup(cfg)).0)
  {
    var es := SetupEntries(cfg);
    UsedChainsAreOurs(cfg, t0);
    RunBuild(read, t0, es);
    var t := RunAll(read, t0, Setup(cfg)).0;
    var k :| 0 <= k <= |es| && Laid(t0, t, NewChains(es), es[..k]);
    LaidOverlays(cfg, t0, t, k);
  }

  lemma {:induction false} UntouchedChain(c: Chain, es: seq<Entry>)
    requires AllPlaced(es) && !Ours(c) && c != PreRoutingChain && c != OutputChain
    ensures RulesFor(c, es) == []
  {
    if es != [] {
      assert Placed(es[|es| - 1]);
      UntouchedChain(c, es[..|es| - 1]);
    }
  }

  lemma {:induction false} JumpsOf(es: seq<Entry>)
    requires AllPlaced(es)
    ensures forall r :: r in RulesFor(OutputChain, es) && r.target.Jump? ==> r.target.chain == RedirectChain
    ensures forall r :: r in RulesFor(InboundChain, es) && r.target.Jump? ==> r.target.chain == InboundRedirectChain
    ensures forall r :: r in RulesFor(RedirectChain, es) ==> !r.target.Jump?
    ensures forall r :: r in RulesFor(InboundRedirectChain, es) ==> !r.target.Jump?
  {
    RulesForPlaced(OutputChain, es);
    RulesForPlaced(InboundChain, es);
    RulesForPlaced(RedirectChain, es);
    RulesForPlaced(InboundRedirectChain, es);
    assert forall r :: r in RulesFor(OutputChain, es) ==> Placed(Entry(OutputChain, r));
    assert forall r :: r in RulesFor(InboundChain, es) ==> Placed(Entry(InboundChain, r));
    assert forall r :: r in RulesFor(RedirectChain, es) ==> Placed(Entry(RedirectChain, r));
    assert forall r :: r in RulesFor(InboundRedirectChain, es) ==> Placed(Entry(InboundRedirectChain, r));
  }

  lemma {:induction false} PreRoutingPrefix(cfg: Config, k: nat)
    requires k <= |SetupEntries(cfg)|
    ensures var rules := RulesFor(PreRoutingChain, SetupEntries(cfg)[..k]); rules == [] || rules == [PRE_ROUTING_JUMP]
  {
    RulesForPrefix(PreRoutingChain, SetupEntries(cfg), k);
    ChainContents(PreRoutingChain, cfg);
    PreRoutingContent(cfg);
    ShortPrefix(RulesFor(PreRoutingChain, SetupEntries(cfg)[..k]), Content(PreRoutingChain, cfg));
  }

  lemma {:induction false} PreRoutingContent(cfg: Config)
    ensures Content(PreRoutingChain, cfg) == [] || Content(PreRoutingChain, cfg) == [PRE_ROUTING_JUMP]
  {
  }

  lemma {:induction false} ShortPrefix(a: seq<Rule>, b: seq<Rule>)
    requires a <= b && |b| <= 1
    ensures a == [] || a == b
  {
  }

  lemma {:induction false} OutputJumps(t0: Table, es: seq<Entry>)
    requires Clean(t0) && AllPlaced(es)
    ensures forall r :: r in t0[OutputChain] + RulesFor(OutputChain, es) && r.target.Jump? ==>
      r.target.chain != InboundChain && r.target.chain != InboundRedirectChain
  {
    JumpsOf(es);
    assert !References(t0, InboundChain) && !References(t0, InboundRedirectChain);
    forall r | r in t0[OutputChain] && r.target.Jump?
      ensures r.target.chain != InboundChain && r.target.chain != InboundRedirectChain
    {
      assert r.target == Jump(r.target.chain);
    }
  }

  lemma {:induction false} LaidOverlays(cfg: Config, t0: Table, t: Table, k: nat)
    requires Clean(t0) && k <= |SetupEntries(cfg)|
    requires Laid(t0, t, NewChains(SetupEntries(cfg)), SetupEntries(cfg)[..k])
    ensures Overlay(t0, t)
  {
    InboundChainUsed(cfg);
    SetupChains(cfg);
    SetupIsPlaced(cfg);
    var es := SetupEntries(cfg)[..k];
    assert AllPlaced(es);
    forall c | c in t0 && c != PreRoutingChain && c != OutputChain
      ensures t[c] == t0[c]
    {
      UntouchedChain(c, es);
    }
    PreRoutingPrefix(cfg, k);
    JumpsOf(es);
    OutputJumps(t0, es);
  }

  lemma {:induction false} RemoveFirstAppended(rules: seq<Rule>, r: Rule)
    requires r !in rules
    ensures RemoveFirst(rules + [r], r) == rules
  {
    if rules != [] {
      assert (rules + [r])[1..] == rules[1..] + [r];
      RemoveFirstAppended(rules[1..], r);
    }
  }

  /** Flush then delete: a user chain goes if no other chain refers to it. */
  lemma {:induction false} FlushThenDelete(read: PortReader, t: Table, c: Chain)
    ensures var t' := Quietly(read, Quietly(read, t, Flush(c)), DeleteChain(c));
      if c !in t then t' == t
      else if Builtin(c) || References(t[c := []], c) then t' == t[c := []]
      else t' == t - {c}
  {
    if c in t {
      assert t[c := []] - {c} == t - {c};
    } else {
      assert Quietly(read, t, Flush(c)) == t;
    }
  }

  lemma {:induction false} RunQuietlyAppend(read: PortReader, t: Table, a: seq<Command>, b: seq<Command>)
    ensures RunQuietly(read, t, a + b) == RunQuietly(read, RunQuietly(read, t, a), b)
  {
    if b == [] {
      assert a + b == a;
    } else {
      RunQuietlyAppend(read, t, a, b[..|b| - 1]);
      assert (a + b)[..|a + b| - 1] == a + b[..|b| - 1];
    }
  }

  lemma {:induction false} RunQuietlyTwo(read: PortReader, t: Table, a: Command, b: Command)
    ensures RunQuietly(read, t, [a, b]) == Quietly(read, Quietly(read, t, a), b)
  {
    assert [a, b][..1] == [a];
    assert RunQuietly(read, t, [a]) == Quietly(read, t, a);
  }

  /** The chain c after being flushed and deleted. */
  function Dropped(t: Table, c: Chain): Table {
    if c !in t then t
    else if Builtin(c) || References(t[c := []], c) then t[c := []]
    else t - {c}
  }

  function DroppedAll(t: Table, chains: seq<Chain>): Table {
    if chains == [] then t else Dropped(DroppedAll(t, chains[..|chains| - 1]), chains[|chains| - 1])
  }

  lemma {:induction false} FlushAndDeleteDrops(read: PortReader, t: Table, chains: seq<Chain>)
    ensures RunQuietly(read, t, FlushAndDelete(chains)) == DroppedAll(t, chains)
  {
    if chains != [] {
      var front, c := chains[..|chains| - 1], chains[|chains| - 1];
      FlushAndDeleteDrops(read, t, front);
      RunQuietlyAppend(read, t, FlushAndDelete(front), [Flush(c), DeleteChain(c)]);
      RunQuietlyTwo(read, DroppedAll(t, front), Flush(c), DeleteChain(c));
      FlushThenDelete(read, DroppedAll(t, front), c);
    }
  }

  lemma {:induction false} RemoveFirstMembers(rules: seq<Rule>, r: Rule)
    ensures forall x :: x in RemoveFirst(rules, r) ==> x in rules
  {
    if rules != [] && rules[0] != r {
      RemoveFirstMembers(rules[1..], r);
    }
  }

  /** The table with the PREROUTING jump gone and everything else as setup left it. */
  ghost predicate Unhooked(t0: Table, t: Table) {
    Overlay(t0, t) && t[PreRoutingChain] == t0[PreRoutingChain]
  }

  lemma {:induction false} DeleteJump(read: PortReader, t0: Table, t: Table)
    requires Clean(t0) && Overlay(t0, t)
    ensures Unhooked(t0, Quietly(read, t, DeleteRule(PreRoutingChain, PRE_ROUTING_JUMP)))
  {
    assert Ours(InboundChain) && !References(t0, InboundChain);
    assert PRE_ROUTING_JUMP !in t0[PreRoutingChain];
    RemoveFirstAppended(t0[PreRoutingChain], PRE_ROUTING_JUMP);
  }

  lemma {:induction false} DeleteFromOutput(read: PortReader, t0: Table, t: Table, r: Rule)
    requires Unhooked(t0, t)
    ensures Unhooked(t0, Quietly(read, t, DeleteRule(OutputChain, r)))
  {
    RemoveFirstMembers(t[OutputChain], r);
  }

  lemma {:induction false} Unhook(read: PortReader, t0: Table, t: Table)
    requires Clean(t0) && Overlay(t0, t)
    ensures Unhooked(t0, RunQuietly(read, t, CLEANUP[..2]))
  {
    assert CLEANUP[..2] == [CLEANUP[0], CLEANUP[1]];
    RunQuietlyTwo(read, t, CLEANUP[0], CLEANUP[1]);
    DeleteJump(read, t0, t);
    DeleteFromOutput(read, t0, Quietly(read, t, CLEANUP[0]), Rule(Tcp, Jump(OutputChain)));
  }

  /** Dropping one of our chains that nothing refers to. */
  lemma {:induction false} DropInbound(t0: Table, t: Table)
    requires Clean(t0) && Unhooked(t0, t)
    ensures Unhooked(t0, Dropped(t, InboundChain)) && Dropped(t, InboundChain) == t - {InboundChain}
  {
    var t' := t[InboundChain := []];
    assert Ours(InboundChain) && !References(t0, InboundChain);
    forall d: Chain, r: Rule | d in t' && r in t'[d]
      ensures r.target != Jump(InboundChain)
    {
      assert d in t0 && d != OutputChain ==> t'[d] == t0[d];
    }
    assert !References(t', InboundChain);
  }

  lemma {:induction false} DropRedirect(t0: Table, t: Table, c: Chain)
    requires Clean(t0) && Unhooked(t0, t) && InboundChain !in t && t[OutputChain] == []
    requires c == RedirectChain || c == InboundRedirectChain
    ensures Unhooked(t0, Dropped(t, c)) && Dropped(t, c) == t - {c}
  {
    var t' := t[c := []];
    assert Ours(c) && !References(t0, c);
    forall d: Chain, r: Rule | d in t' && r in t'[d]
      ensures r.target != Jump(c)
    {
      assert d in t0 && d != OutputChain ==> t'[d] == t0[d];
    }
    assert !References(t', c);
  }

  /** Cleanup removes everything setup may have left, wherever setup stopped, and empties
      OUTPUT: chains of other programs and the PREROUTING rules that were there stay. */
  lemma {:induction false} CleanupUndoesSetup(read: PortReader, cfg: Config, t0: Table)
    requires Clean(t0)
    ensures RunQuietly(read, RunAll(read, t0, Setup(cfg)).0, CLEANUP) == t0[OutputChain := []]
  {
    var t := RunAll(read, t0, Setup(cfg)).0;
    SetupOverlays(read, cfg, t0);
    Unhook(read, t0, t);
    var unhooked := RunQuietly(read, t, CLEANUP[..2]);
    assert CLEANUP == CLEANUP[..2] + FlushAndDelete(OLD_CHAINS);
    RunQuietlyAppend(read, t, CLEANUP[..2], FlushAndDelete(OLD_CHAINS));
    FlushAndDeleteDrops(read, unhooked, OLD_CHAINS);
    DropOldChains(t0, unhooked);
  }

  lemma {:induction false} DropOldChains(t0: Table, t: Table)
    requires Clean(t0) && Unhooked(t0, t)
    ensures DroppedAll(t, OLD_CHAINS) == t0[OutputChain := []]
  {
    DroppedFour(t, InboundChain, OutputChain, RedirectChain, InboundRedirectChain);
    DropInbound(t0, t);
    var t2 := t - {InboundChain};
    var t3 := t2[OutputChain := []];
    assert Dropped(t2, OutputChain) == t3 && Unhooked(t0, t3);
    DropRedirect(t0, t3, RedirectChain);
    var t4 := t3 - {RedirectChain};
    DropRedirect(t0, t4, InboundRedirectChain);
    OnlyOutputDiffers(t0, t4 - {InboundRedirectChain});
  }

  lemma {:induction false} OnlyOutputDiffers(t0: Table, t: Table)
    requires Clean(t0) && Unhooked(t0, t) && t[OutputChain] == []
    requires InboundChain !in t && RedirectChain !in t && InboundRedirectChain !in t
    ensures t == t0[OutputChain := []]
  {
    forall c
      ensures c in t <==> c in t0
    {
      assert c in t && c !in t0 ==> Ours(c);
    }
    assert t.Keys == t0.Keys;
  }

  lemma {:induction false} DroppedFour(t: Table, a: Chain, b: Chain, c: Chain, d: Chain)
    ensures DroppedAll(t, [a, b, c, d]) == Dropped(Dropped(Dropped(Dropped(t, a), b), c), d)
  {
    assert [a, b, c, d][..3] == [a, b, c];
    assert [a, b, c][..2] == [a, b];
    assert [a, b][..1] == [a];
    assert DroppedAll(t, [a]) == Dropped(t, a);
    assert DroppedAll(t, [a, b]) == Dropped(Dropped(t, a), b);
    assert DroppedAll(t, [a, b, c]) == Dropped(Dropped(Dropped(t, a), b), c);
  }

  /** So cleanup gives back the table setup found exactly when its OUTPUT chain was empty. */
  lemma {:induction false} CleanupRestoresIff(read: PortReader, cfg: Config, t0: Table)
    requires Clean(t0)
    ensures RunQuietly(read, RunAll(read, t0, Setup(cfg)).0, CLEANUP) == t0 <==> t0[OutputChain] == []
  {
    CleanupUndoesSetup(read, cfg, t0);
    assert t0[OutputChain := []][OutputChain] == [];
  }

  // ---------------------------------------------------------------- the programs

  /** The rule builder of istio-iptables, as the expected outputs of the tests show it: one -N
      per user chain in order of first use, then the -A commands in order. */
  class Builder {
    var rules: seq<Entry>

    constructor ()
      ensures rules == []
    {
      rules := [];
    }

    method AppendRuleV4(chain: Chain, rule: Rule)
      modifies this
      ensures rules == old(rules) + [Entry(chain, rule)]
    {
      rules := rules + [Entry(chain, rule)];
    }

    method BuildV4() returns (commands: seq<Command>)
      ensures commands == Build(rules)
    {
      var chains: seq<Chain> := [];
      var adds: seq<Command> := [];
      for i := 0 to |rules|
        invariant chains == NewChains(rules[..i])
        invariant adds == Appends(rules[..i])
      {
        assert rules[..i + 1][..i] == rules[..i];
        var c := rules[i].chain;
        if !Builtin(c) && c !in chains {
          chains := chains + [c];
        }
        adds := adds + [Append(c, rules[i].rule)];
      }
      assert rules[..|rules|] == rules;
      commands := [];
      for i := 0 to |chains|
        invariant commands == News(chains)[..i]
      {
        commands := commands + [New(chains[i])];
      }
      commands := commands + adds;
    }
  }

  /** The kernel's nat table and the two ways of running a command on it. */
  class Dependencies {
    const read: PortReader
    var table: Table

    constructor (read: PortReader, table: Table)
      ensures this.read == read && this.table == table
    {
      this.read, this.table := read, table;
    }

    /** ok is false where the program ends. */
    method RunOrFail(cmd: Command) returns (ok: bool)
      modifies this
      ensures ok <==> Exec(read, old(table), cmd).Some?
      ensures table == Quietly(read, old(table), cmd)
    {
      var t := Exec(read, table, cmd);
      ok := t.Some?;
      if ok {
        table := t.value;
      }
    }

    method RunQuietlyAndIgnore(cmd: Command)
      modifies this
      ensures table == Quietly(read, old(table), cmd)
    {
      var t := Exec(read, table, cmd);
      if t.Some? {
        table := t.value;
      }
    }
  }

  method FilterEmpty(strs: seq<string>) returns (filtered: seq<string>)
    ensures filtered == NonEmpty(strs)
  {
    filtered := [];
    for i := 0 to |strs|
      invariant filtered == NonEmpty(strs[..i])
    {
      assert strs[..i + 1][..i] == strs[..i];
      if strs[i] == "" {
        continue;
      }
      filtered := filtered + [strs[i]];
    }
    assert strs[..|strs|] == strs;
  }

  method SplitPorts(s: string) returns (fields: seq<string>)
    ensures fields == PortFields(s)
    ensures forall x :: x in fields <==> x != "" && IsField(s, ',', x)
  {
    if s == "" {
      fields := [];
    } else {
      fields := FilterEmpty(Split(s, ','));
    }
    forall x
      ensures x in fields <==> x != "" && IsField(s, ',', x)
    {
      PortFieldsAreFields(s, x);
    }
  }

  class IptablesConstructor {
    const cfg: Config
    const iptables: Builder
    const dep: Dependencies

    constructor (cfg: Config, dep: Dependencies)
      ensures this.cfg == cfg && this.dep == dep && fresh(iptables) && iptables.rules == []
    {
      this.cfg, this.dep := cfg, dep;
      iptables := new Builder();
    }

    method AppendPorts(chain: Chain, ports: string, target: Target)
      modifies iptables
      ensures iptables.rules == old(iptables.rules) + PortEntries(chain, PortFields(ports), target)
    {
      var fields := SplitPorts(ports);
      for i := 0 to |fields|
        invariant iptables.rules == old(iptables.rules) + PortEntries(chain, fields, target)[..i]
      {
        iptables.AppendRuleV4(chain, Rule(TcpPort(fields[i]), target));
      }
    }

    method InsertSkipRules()
      modifies iptables
      ensures iptables.rules == old(iptables.rules) + SkipEntries(cfg)
    {
      iptables.AppendRuleV4(OutputChain, Rule(LoopbackByUser(cfg.proxyUID), Return));
      iptables.AppendRuleV4(OutputChain, Rule(ByGroup(cfg.proxyGID), Return));
    }

    method InsertInboundRules()
      modifies iptables
      ensures iptables.rules == old(iptables.rules) + InboundEntries(cfg)
    {
      if cfg.inboundPortsInclude == "" {
        return;
      }
      ghost var before := iptables.rules;
      iptables.AppendRuleV4(PreRoutingChain, PRE_ROUTING_JUMP);
      if cfg.inboundPortsInclude == "*" {
        AppendAllPorts();
        Associative(before, [Entry(PreRoutingChain, PRE_ROUTING_JUMP)], AllPortsEntries(cfg));
      } else {
        AppendPorts(InboundChain, cfg.inboundPortsInclude, Jump(InboundRedirectChain));
        Associative(before, [Entry(PreRoutingChain, PRE_ROUTING_JUMP)],
                    PortEntries(InboundChain, PortFields(cfg.inboundPortsInclude), Jump(InboundRedirectChain)));
      }
    }

    /** The "*" branch. */
    method AppendAllPorts()
      modifies iptables
      ensures iptables.rules == old(iptables.rules) + AllPortsEntries(cfg)
    {
      iptables.AppendRuleV4(InboundChain, Rule(TcpPort("22"), Return));
      if cfg.inboundPortsExclude != "" {
        AppendPorts(InboundChain, cfg.inboundPortsExclude, Return);
      }
      iptables.AppendRuleV4(InboundChain, Rule(Tcp, Jump(InboundRedirectChain)));
    }

    method InsertOutboundRules()
      modifies iptables
      ensures iptables.rules == old(iptables.rules) + OutboundEntries(cfg)
    {
      if cfg.outboundPortsInclude == "" {
        return;
      }
      if cfg.outboundPortsInclude == "*" {
        if cfg.outboundPortsExclude != "" {
          AppendPorts(OutputChain, cfg.outboundPortsExclude, Return);
        }
        iptables.AppendRuleV4(OutputChain, Rule(Tcp, Jump(RedirectChain)));
      } else {
        AppendPorts(OutputChain, cfg.outboundPortsInclude, Jump(RedirectChain));
      }
    }

    method ExecuteCommand() returns (ok: bool)
      modifies dep
      ensures RunAll(dep.read, old(dep.table), Build(iptables.rules)) == (dep.table, ok)
    {
      var commands := iptables.BuildV4();
      ok := true;
      for i := 0 to |commands|
        invariant ok && RunAll(dep.read, old(dep.table), commands[..i]) == (dep.table, true)
      {
        RunNext(dep.read, old(dep.table), commands, i);
        ok := dep.RunOrFail(commands[i]);
        if !ok {
          RunAllStops(dep.read, old(dep.table), commands, i + 1);
          return;
        }
      }
      assert commands[..|commands|] == commands;
    }

    method Run() returns (ok: bool)
      requires iptables.rules == []
      modifies iptables, dep
      ensures RunAll(dep.read, old(dep.table), Setup(cfg)) == (dep.table, ok)
    {
      iptables.AppendRuleV4(RedirectChain, Rule(Tcp, Redirect(cfg.proxyPort)));
      iptables.AppendRuleV4(InboundRedirectChain, Rule(Tcp, Redirect(cfg.inboundCapturePort)));
      InsertSkipRules();
      InsertInboundRules();
      InsertOutboundRules();
      assert iptables.rules == SetupEntries(cfg);
      ok := ExecuteCommand();
    }
  }

  lemma {:induction false} RunNext(read: PortReader, t: Table, cmds: seq<Command>, i: nat)
    requires i < |cmds| && RunAll(read, t, cmds[..i]).1
    ensures var before := RunAll(read, t, cmds[..i]).0;
      RunAll(read, t, cmds[..i + 1]) == (Quietly(read, before, cmds[i]), Exec(read, before, cmds[i]).Some?)
  {
    assert cmds[..i + 1][..i] == cmds[..i];
  }

  lemma {:induction false} RunAllStops(read: PortReader, t: Table, cmds: seq<Command>, k: nat)
    requires k <= |cmds| && !RunAll(read, t, cmds[..k]).1
    ensures RunAll(read, t, cmds) == RunAll(read, t, cmds[..k])
  {
    if k == |cmds| {
      assert cmds[..k] == cmds;
    } else {
      var front := cmds[..|cmds| - 1];
      assert front[..k] == cmds[..k];
      RunAllStops(read, t, front, k);
    }
  }

  method RemoveOldChains(ext: Dependencies)
    modifies ext
    ensures ext.table == RunQuietly(ext.read, old(ext.table), CLEANUP)
  {
    var jump, loop := DeleteRule(PreRoutingChain, PRE_ROUTING_JUMP), DeleteRule(OutputChain, Rule(Tcp, Jump(OutputChain)));
    ext.RunQuietlyAndIgnore(jump);
    ext.RunQuietlyAndIgnore(loop);
    RunQuietlyTwo(ext.read, old(ext.table), jump, loop);
    RunQuietlyAppend(ext.read, old(ext.table), [jump, loop], FlushAndDelete(OLD_CHAINS));
    FlushAndDeleteChains(ext, [InboundChain, OutputChain, RedirectChain, InboundRedirectChain]);
  }

  method FlushAndDeleteChains(ext: Dependencies, chains: seq<Chain>)
    modifies ext
    ensures ext.table == RunQuietly(ext.read, old(ext.table), FlushAndDelete(chains))
  {
    for i := 0 to |chains|
      invariant ext.table == RunQuietly(ext.read, old(ext.table), FlushAndDelete(chains[..i]))
    {
      assert chains[..i + 1][..i] == chains[..i];
      RunQuietlyAppend(ext.read, old(ext.table), FlushAndDelete(chains[..i]), [Flush(chains[i]), DeleteChain(chains[i])]);
      RunQuietlyTwo(ext.read, ext.table, Flush(chains[i]), DeleteChain(chains[i]));
      ext.RunQuietlyAndIgnore(Flush(chains[i]));
      ext.RunQuietlyAndIgnore(DeleteChain(chains[i]));
    }
    assert chains[..|chains|] == chains;
  }

  /** Setup followed by cleanup, both run as programs on one table. */
  method SetUpAndCleanUp(cfg: Config, dep: Dependencies) returns (ok: bool)
    requires Clean(dep.table)
    modifies dep
    ensures ok <==> OperandsRead(dep.read, cfg) && !OnlySeparators(cfg.inboundPortsInclude)
    ensures dep.table == old(dep.table)[OutputChain := []]
  {
    var ic := new IptablesConstructor(cfg, dep);
    ok := ic.Run();
    SetupSucceedsIff(dep.read, cfg, old(dep.table));
    CleanupUndoesSetup(dep.read, cfg, old(dep.table));
    RemoveOldChains(dep);
  }
}
