/** Properties of whole runs of the gRPC provisioner. */
module ProvisionerRuns {
  import opened Objects
  import opened Strings
  import opened StringSets
  import opened Diff
  import opened Manifests
  import opened Adaptor
  import opened ProvisionerModel
  import opened ResponseLaws

  /** A response, and the walk over the old upstreams that its handling happens to take. */
  datatype Input = Input(resp: Response, order: seq<string>)

  ghost predicate Leads(crc: string -> nat, p: Prov, i: Input, p': Prov) {
    Walks(i.order, p.upstreams.Keys) && p' == Step(crc, p, i.resp, i.order).p
  }

  ghost predicate Run(crc: string -> nat, states: seq<Prov>, inputs: seq<Input>) {
    && |states| == |inputs| + 1
    && forall i :: 0 <= i < |inputs| ==> Leads(crc, states[i], inputs[i], states[i + 1])
  }

  ghost predicate Accepts(crc: string -> nat, p: Prov, i: Input) {
    Walks(i.order, p.upstreams.Keys) && Step(crc, p, i.resp, i.order).ok
  }

  ghost function EventsAt(crc: string -> nat, p: Prov, i: Input): seq<Event> {
    if Walks(i.order, p.upstreams.Keys) then Step(crc, p, i.resp, i.order).events else []
  }

  /** The batches that the consumer receives, in order: one for every accepted response. */
  ghost function Batches(crc: string -> nat, states: seq<Prov>, inputs: seq<Input>): seq<seq<Event>>
    requires |states| == |inputs| + 1
  {
    if inputs == [] then []
    else
      var n := |inputs| - 1;
      Batches(crc, states[..n + 1], inputs[..n]) +
      if Accepts(crc, states[n], inputs[n]) then [EventsAt(crc, states[n], inputs[n])] else []
  }

  lemma {:induction false} RejectedSendsNothing(crc: string -> nat, p: Prov, resp: Response, order: seq<string>)
    requires Walks(order, p.upstreams.Keys) && !Step(crc, p, resp, order).ok
    ensures Step(crc, p, resp, order).events == []
  {
  }

  /** Over any run, of any mix of accepted and rejected responses, the cached stores equal the
      last-wins map of the current routes and the current upstreams under their ids, as long as
      no EDS response is torn. */
  lemma {:induction false} CacheFollowsProvisioner(crc: string -> nat, names: set<string>, states: seq<Prov>, inputs: seq<Input>)
    requires Run(crc, states, inputs) && states[0] == INITIAL_PROV
    requires Injective(crc, names) && forall i :: 0 <= i < |inputs| ==> ClusterNamesIn(inputs[i].resp, names)
    requires forall i :: 0 <= i < |inputs| ==> !Torn(states[i], inputs[i].resp)
    ensures Named(crc, names, states[|inputs|].upstreams)
    ensures Sync(states[|inputs|], ApplyAll(EMPTY_STORE, Flatten(Batches(crc, states, inputs))))
  {
    if inputs != [] {
      var n := |inputs| - 1;
      CacheFollowsProvisioner(crc, names, states[..n + 1], inputs[..n]);
      assert Leads(crc, states[n], inputs[n], states[n + 1]);
      var batches, evs := Batches(crc, states[..n + 1], inputs[..n]), EventsAt(crc, states[n], inputs[n]);
      var s := ApplyAll(EMPTY_STORE, Flatten(batches));
      SyncStep(crc, names, states[n], s, inputs[n].resp, inputs[n].order);
      if Accepts(crc, states[n], inputs[n]) {
        assert (batches + [evs])[..|batches|] == batches;
        ApplyAllAppend(EMPTY_STORE, Flatten(batches), evs);
      } else {
        RejectedSendsNothing(crc, states[n], inputs[n].resp, inputs[n].order);
        assert Batches(crc, states, inputs) == batches;
      }
    }
  }

  /** An EDS resource that is refused, whatever came before it. */
  predicate Unknown(r: XdsResource, upstreams: map<string, Upstream>) {
    !r.AssignmentRes? || r.la.clusterName !in upstreams
  }

  /** i is the last assignment of its cluster among the first n, and brings other nodes. */
  ghost predicate Moves(upstreams: map<string, Upstream>, rs: seq<XdsResource>, n: int, i: int) {
    && 0 <= i < n <= |rs| && !Unknown(rs[i], upstreams)
    && (forall j :: i < j < n && !Unknown(rs[j], upstreams) ==> rs[j].la.clusterName != rs[i].la.clusterName)
    && upstreams[rs[i].la.clusterName].nodes != Nodes(rs[i].la.localities)
  }

  ghost predicate FirstUnknown(upstreams: map<string, Upstream>, rs: seq<XdsResource>, n: int) {
    0 <= n < |rs| && Unknown(rs[n], upstreams) && forall j :: 0 <= j < n ==> !Unknown(rs[j], upstreams)
  }

  lemma {:induction false} EdsAccepts(upstreams: map<string, Upstream>, rs: seq<XdsResource>, n: nat)
    requires n <= |rs| && forall j :: 0 <= j < n ==> !Unknown(rs[j], upstreams)
    requires forall k :: k in upstreams ==> upstreams[k].name == k
    ensures var eds := EdsFold(upstreams, rs[..n]);
      && eds.ok && eds.upstreams.Keys == upstreams.Keys
      && forall k :: k in upstreams ==> eds.upstreams[k] == upstreams[k].(nodes := eds.upstreams[k].nodes)
  {
    if n > 0 {
      EdsAccepts(upstreams, rs, n - 1);
      assert rs[..n][..n - 1] == rs[..n - 1];
    }
  }

  /** What the first n assignments change: the clusters whose last nodes among them are new. */
  lemma {:induction false} EdsChanges(upstreams: map<string, Upstream>, rs: seq<XdsResource>, n: nat, k: string)
    requires n <= |rs| && forall j :: 0 <= j < n ==> !Unknown(rs[j], upstreams)
    requires forall k :: k in upstreams ==> upstreams[k].name == k
    requires k in upstreams
    ensures var eds := EdsFold(upstreams, rs[..n]);
      && k in eds.upstreams
      && (eds.upstreams[k] != upstreams[k] <==> exists i :: Moves(upstreams, rs, n, i) && rs[i].la.clusterName == k)
  {
    EdsAccepts(upstreams, rs, n);
    if n > 0 {
      EdsAccepts(upstreams, rs, n - 1);
      EdsChanges(upstreams, rs, n - 1, k);
      assert rs[..n][..n - 1] == rs[..n - 1];
      if rs[n - 1].la.clusterName == k {
        LastAssignment(upstreams, rs, n, k);
      } else {
        EarlierAssignment(upstreams, rs, n, k);
      }
    }
  }

  lemma {:induction false} LastAssignment(upstreams: map<string, Upstream>, rs: seq<XdsResource>, n: nat, k: string)
    requires 0 < n <= |rs| && !Unknown(rs[n - 1], upstreams) && rs[n - 1].la.clusterName == k
    ensures (exists i :: Moves(upstreams, rs, n, i) && rs[i].la.clusterName == k) <==>
      upstreams[k].nodes != Nodes(rs[n - 1].la.localities)
  {
    if upstreams[k].nodes != Nodes(rs[n - 1].la.localities) {
      assert Moves(upstreams, rs, n, n - 1);
    }
  }

  lemma {:induction false} EarlierAssignment(upstreams: map<string, Upstream>, rs: seq<XdsResource>, n: nat, k: string)
    requires 0 < n <= |rs| && !Unknown(rs[n - 1], upstreams) && rs[n - 1].la.clusterName != k
    ensures (exists i :: Moves(upstreams, rs, n, i) && rs[i].la.clusterName == k) <==>
      (exists i :: Moves(upstreams, rs, n - 1, i) && rs[i].la.clusterName == k)
  {
    forall i
      ensures Moves(upstreams, rs, n, i) && rs[i].la.clusterName == k <==>
        Moves(upstreams, rs, n - 1, i) && rs[i].la.clusterName == k
    {
    }
  }

  lemma {:induction false} EdsAfterUnknown(upstreams: map<string, Upstream>, rs: seq<XdsResource>, n: nat, m: nat)
    requires n < m <= |rs| && FirstUnknown(upstreams, rs, n)
    requires forall k :: k in upstreams ==> upstreams[k].name == k
    ensures !EdsFold(upstreams, rs[..m]).ok && EdsFold(upstreams, rs[..m]).upstreams == EdsFold(upstreams, rs[..n]).upstreams
  {
    assert rs[..m][..m - 1] == rs[..m - 1];
    if m == n + 1 {
      EdsAccepts(upstreams, rs, n);
    } else {
      EdsAfterUnknown(upstreams, rs, n, m - 1);
    }
  }

  lemma {:induction false} FirstUnknownOrNone(upstreams: map<string, Upstream>, rs: seq<XdsResource>, m: nat)
    requires m <= |rs|
    ensures (exists n :: n < m && FirstUnknown(upstreams, rs, n)) || forall j :: 0 <= j < m ==> !Unknown(rs[j], upstreams)
  {
    if m > 0 {
      FirstUnknownOrNone(upstreams, rs, m - 1);
      if (forall j :: 0 <= j < m - 1 ==> !Unknown(rs[j], upstreams)) && Unknown(rs[m - 1], upstreams) {
        assert FirstUnknown(upstreams, rs, m - 1);
      }
    }
  }

  /** When an EDS response tears cache and snapshot apart, said of the response: a resource is
      refused, and one before it brings its cluster, for good, nodes it does not have. */
  lemma {:induction false} TornExactly(crc: string -> nat, names: set<string>, p: Prov, resp: Response)
    requires Named(crc, names, p.upstreams)
    ensures Torn(p, resp) <==>
      && resp.url == AssignmentUrl
      && exists n, i :: FirstUnknown(p.upstreams, resp.resources, n) && Moves(p.upstreams, resp.resources, n, i)
  {
    var rs := resp.resources;
    assert rs[..|rs|] == rs;
    if n :| FirstUnknown(p.upstreams, rs, n) {
      EdsAccepts(p.upstreams, rs, n);
      EdsAfterUnknown(p.upstreams, rs, n, |rs|);
      var after := EdsFold(p.upstreams, rs).upstreams;
      if after != p.upstreams {
        var k := DifferentAt(p.upstreams, after);
        EdsChanges(p.upstreams, rs, n, k);
      }
      forall n2, i | FirstUnknown(p.upstreams, rs, n2) && Moves(p.upstreams, rs, n2, i)
        ensures after != p.upstreams
      {
        assert n2 == n;
        EdsChanges(p.upstreams, rs, n, rs[i].la.clusterName);
      }
    } else {
      FirstUnknownOrNone(p.upstreams, rs, |rs|);
      EdsAccepts(p.upstreams, rs, |rs|);
    }
  }

  function Acks(sent: seq<Request>): seq<Request> {
    if sent == [] then []
    else Acks(sent[..|sent| - 1]) + if sent[|sent| - 1].Ack? then [sent[|sent| - 1]] else []
  }

  lemma {:induction false} AcksAppend(a: seq<Request>, b: seq<Request>)
    ensures Acks(a + b) == Acks(a) + Acks(b)
  {
    if b == [] {
      assert a + b == a;
    } else {
      AcksAppend(a, b[..|b| - 1]);
      assert (a + b)[..|a + b| - 1] == a + b[..|b| - 1];
    }
  }

  /** The version of the latest accepted response, of whatever type. */
  ghost function LastAccepted(crc: string -> nat, states: seq<Prov>, inputs: seq<Input>): string
    requires |states| == |inputs| + 1
  {
    if inputs == [] then states[0].version
    else
      var n := |inputs| - 1;
      if Accepts(crc, states[n], inputs[n]) then inputs[n].resp.version
      else LastAccepted(crc, states[..n + 1], inputs[..n])
  }

  lemma {:induction false} VersionIsLastAccepted(crc: string -> nat, states: seq<Prov>, inputs: seq<Input>)
    requires Run(crc, states, inputs)
    ensures states[|inputs|].version == LastAccepted(crc, states, inputs)
  {
    if inputs != [] {
      var n := |inputs| - 1;
      VersionIsLastAccepted(crc, states[..n + 1], inputs[..n]);
      assert Leads(crc, states[n], inputs[n], states[n + 1]);
    }
  }

  /** The acknowledgement due for the last response of a run. */
  ghost function DueAck(crc: string -> nat, states: seq<Prov>, inputs: seq<Input>): Request
    requires |states| == |inputs| + 1 && inputs != []
  {
    var n := |inputs| - 1;
    var resp := inputs[n].resp;
    Ack(resp.url, AckNames(states[n], resp.url), resp.nonce, LastAccepted(crc, states, inputs), !Accepts(crc, states[n], inputs[n]))
  }

  lemma {:induction false} OneAckPerResponse(crc: string -> nat, p: Prov, i: Input, p': Prov)
    requires Leads(crc, p, i, p')
    ensures Acks(p'.sent) == Acks(p.sent) +
      [Ack(i.resp.url, AckNames(p, i.resp.url), i.resp.nonce, p'.version, !Accepts(crc, p, i))]
  {
    var sub := Subscriptions(crc, p, i.resp);
    var ack := Ack(i.resp.url, AckNames(p, i.resp.url), i.resp.nonce, p'.version, !Accepts(crc, p, i));
    SentStep(crc, p, i.resp, i.order);
    AcksAppend(p.sent + sub, [ack]);
    AcksAppend(p.sent, sub);
    NoAcksInSubscriptions(crc, p, i.resp);
    assert [ack][..0] == [];
  }

  lemma {:induction false} NoAcksInSubscriptions(crc: string -> nat, p: Prov, resp: Response)
    ensures Acks(Subscriptions(crc, p, resp)) == []
  {
    var sub := Subscriptions(crc, p, resp);
    if sub != [] {
      assert |sub| == 1 && sub[..0] == [] && sub[0].Subscribe?;
    }
  }

  /** The acknowledgements due over a run, one per response, in order. */
  ghost function DueAcks(crc: string -> nat, states: seq<Prov>, inputs: seq<Input>): (acks: seq<Request>)
    requires |states| == |inputs| + 1
    ensures |acks| == |inputs|
  {
    if inputs == [] then []
    else
      var n := |inputs| - 1;
      DueAcks(crc, states[..n + 1], inputs[..n]) + [DueAck(crc, states, inputs)]
  }

  /** The resource names an acknowledgement repeats hold before and after the translation. */
  ghost predicate NamesHold(states: seq<Prov>, inputs: seq<Input>, i: int)
    requires |states| == |inputs| + 1 && 0 <= i < |inputs|
  {
    AckNames(states[i + 1], inputs[i].resp.url) == AckNames(states[i], inputs[i].resp.url)
  }

  /** ACK trace: the acknowledgements sent over a run are, in order, exactly one per response,
      with its type and nonce, an error exactly when it was rejected, the version of the latest
      accepted response of any type, and the resource names that held before and after it. */
  lemma {:induction false} AckTrace(crc: string -> nat, states: seq<Prov>, inputs: seq<Input>)
    requires Run(crc, states, inputs)
    ensures Acks(states[|inputs|].sent) == Acks(states[0].sent) + DueAcks(crc, states, inputs)
    ensures forall i :: 0 <= i < |inputs| ==> NamesHold(states, inputs, i)
  {
    AckNamesHold(crc, states, inputs);
    if inputs != [] {
      var n := |inputs| - 1;
      AckTrace(crc, states[..n + 1], inputs[..n]);
      LastAck(crc, states, inputs);
      Associative(Acks(states[0].sent), DueAcks(crc, states[..n + 1], inputs[..n]), [DueAck(crc, states, inputs)]);
    }
  }

  lemma {:induction false} LastAck(crc: string -> nat, states: seq<Prov>, inputs: seq<Input>)
    requires Run(crc, states, inputs) && inputs != []
    ensures Acks(states[|inputs|].sent) == Acks(states[|inputs| - 1].sent) + [DueAck(crc, states, inputs)]
  {
    var n := |inputs| - 1;
    assert Leads(crc, states[n], inputs[n], states[n + 1]);
    OneAckPerResponse(crc, states[n], inputs[n], states[n + 1]);
    VersionIsLastAccepted(crc, states, inputs);
  }

  lemma {:induction false} AckNamesHold(crc: string -> nat, states: seq<Prov>, inputs: seq<Input>)
    requires Run(crc, states, inputs)
    ensures forall i :: 0 <= i < |inputs| ==> NamesHold(states, inputs, i)
  {
    forall i | 0 <= i < |inputs|
      ensures NamesHold(states, inputs, i)
    {
      assert Leads(crc, states[i], inputs[i], states[i + 1]);
    }
  }

  function LatestEds(sent: seq<Request>): Option<set<string>> {
    if sent == [] then None
    else if sent[|sent| - 1].url == AssignmentUrl then Some(sent[|sent| - 1].names)
    else LatestEds(sent[..|sent| - 1])
  }

  /** The clusters waiting for EDS are kept, and the latest EDS request names exactly them. */
  ghost predicate Subscribed(p: Prov) {
    && p.edsRequired <= p.upstreams.Keys
    && (p.edsRequired != {} ==> LatestEds(p.sent) == Some(p.edsRequired))
  }

  lemma {:induction false} LatestEdsSnoc(sent: seq<Request>, r: Request)
    ensures LatestEds(sent + [r]) == if r.url == AssignmentUrl then Some(r.names) else LatestEds(sent)
  {
    assert (sent + [r])[..|sent|] == sent;
  }

  /** When the subscription is right after a response, whatever it was before. A CDS response read
      in full makes it right exactly when it names no EDS cluster, differs from what is recorded
      as waiting, so that a request goes out, or names just those of the latest EDS request. A
      rejected one leaves what it had read as waiting, and no request. An EDS response is
      acknowledged with the waiting clusters. Any other changes nothing about it. */
  lemma {:induction false} SubscribedStep(crc: string -> nat, names: set<string>, p: Prov, i: Input, p': Prov)
    requires Leads(crc, p, i, p') && Named(crc, names, p.upstreams)
    ensures var cds := CdsFold(crc, i.resp.resources);
      Subscribed(p') <==>
        match i.resp.url
        case ClusterUrl =>
          if cds.ok then cds.eds == {} || cds.eds != p.edsRequired || LatestEds(p.sent) == Some(cds.eds)
          else cds.eds <= p.upstreams.Keys && (cds.eds == {} || LatestEds(p.sent) == Some(cds.eds))
        case AssignmentUrl => p.edsRequired <= p.upstreams.Keys
        case _ => Subscribed(p)
  {
    LatestAfter(crc, p, i, p');
    match i.resp.url
    case ClusterUrl => EdsRequiredAreKept(crc, i.resp.resources);
    case AssignmentUrl => KeysKept(crc, names, p.upstreams, i.resp.resources);
    case _ =>
  }

  lemma {:induction false} LatestAfter(crc: string -> nat, p: Prov, i: Input, p': Prov)
    requires Leads(crc, p, i, p')
    ensures var sub := Subscriptions(crc, p, i.resp);
      LatestEds(p'.sent) ==
        if i.resp.url == AssignmentUrl then Some(AckNames(p, i.resp.url))
        else if sub != [] && sub[0].url == AssignmentUrl then Some(sub[0].names)
        else LatestEds(p.sent)
  {
    SentStep(crc, p, i.resp, i.order);
    var sub := Subscriptions(crc, p, i.resp);
    LatestEdsSnoc(p.sent + sub, p'.sent[|p'.sent| - 1]);
    if sub != [] {
      LatestEdsSnoc(p.sent, sub[0]);
      assert sub == [sub[0]];
    } else {
      assert p.sent + sub == p.sent;
    }
  }

  lemma {:induction false} KeysKept(crc: string -> nat, names: set<string>, upstreams: map<string, Upstream>, rs: seq<XdsResource>)
    requires Named(crc, names, upstreams)
    ensures EdsFold(upstreams, rs).upstreams.Keys == upstreams.Keys
    ensures Named(crc, names, EdsFold(upstreams, rs).upstreams)
  {
    if rs != [] {
      KeysKept(crc, names, upstreams, rs[..|rs| - 1]);
    }
  }

  /** EDS subscription over the first connection, as long as no CDS response is rejected. */
  lemma {:induction false} EdsSubscription(crc: string -> nat, names: set<string>, states: seq<Prov>, inputs: seq<Input>)
    requires Run(crc, states, inputs) && states[0] == INITIAL_PROV
    requires forall i :: 0 <= i < |inputs| ==> ClusterNamesIn(inputs[i].resp, names)
    requires forall i :: 0 <= i < |inputs| && inputs[i].resp.url == ClusterUrl ==> CdsFold(crc, inputs[i].resp.resources).ok
    ensures Subscribed(states[|inputs|]) && Named(crc, names, states[|inputs|].upstreams)
  {
    if inputs != [] {
      var n := |inputs| - 1;
      EdsSubscription(crc, names, states[..n + 1], inputs[..n]);
      var p, i := states[n], inputs[n];
      assert Leads(crc, p, i, states[n + 1]);
      SubscribedStep(crc, names, p, i, states[n + 1]);
      if i.resp.url == ClusterUrl {
        CdsWellNamed(crc, names, i.resp.resources);
        NamedLastWins(crc, names, CdsFold(crc, i.resp.resources).ups);
      } else if i.resp.url == AssignmentUrl {
        KeysKept(crc, names, p.upstreams, i.resp.resources);
      }
    }
  }

  lemma {:induction false} NamedLastWins(crc: string -> nat, names: set<string>, us: seq<Upstream>)
    requires WellNamed(crc, names, us)
    ensures Named(crc, names, LastWins(UpstreamName, us))
  {
    if us != [] {
      assert us[|us| - 1] in us;
      NamedLastWins(crc, names, us[..|us| - 1]);
    }
  }

  /** A lost subscription: a rejected CDS response that named an EDS cluster makes the accepted
      one after it look unchanged, so the cluster waits for endpoints nobody asked for. */
  lemma {:induction false} RejectedCdsLosesSubscription(crc: string -> nat, name: string)
    ensures var c := ClusterRes(Cluster(name, RoundRobin, None, EdsDiscovery));
      var p1 := Step(crc, INITIAL_PROV, Response(ClusterUrl, [c, MalformedRes], "1", "a"), []).p;
      var p2 := Step(crc, p1, Response(ClusterUrl, [c], "2", "b"), []).p;
      p2.edsRequired == {name} && name in p2.upstreams && LatestEds(p2.sent) == None
  {
    var c := ClusterRes(Cluster(name, RoundRobin, None, EdsDiscovery));
    var u := BareUpstream(crc, c.cluster);
    assert [c, MalformedRes][..1] == [c] && [c][..0] == [];
    assert CdsFold(crc, [c]) == Cds([u], {name}, true);
    assert CdsFold(crc, [c, MalformedRes]) == Cds([u], {name}, false);
    var r1, r2 := Response(ClusterUrl, [c, MalformedRes], "1", "a"), Response(ClusterUrl, [c], "2", "b");
    var p1 := Step(crc, INITIAL_PROV, r1, []).p;
    var p2 := Step(crc, p1, r2, []).p;
    LatestEdsSnoc([], p1.sent[0]);
    assert p1.sent == [] + [p1.sent[0]];
    LatestEdsSnoc(p1.sent, p2.sent[1]);
    assert p2.sent == p1.sent + [p2.sent[1]];
    LastWinsSnoc(UpstreamName, [], u);
    assert [u] == [] + [u];
  }

  /** What the inline route configurations of the listeners translate to. */
  function Inline(crc: string -> nat, statics: seq<RouteConfiguration>, ownership: map<string, string>): seq<Route> {
    if statics == [] then []
    else Inline(crc, statics[..|statics| - 1], ownership) + Translate(crc, statics[|statics| - 1], ownership)
  }

  ghost predicate AcceptsRoutes(crc: string -> nat, p: Prov, i: Input) {
    Accepts(crc, p, i) && i.resp.url == RouteUrl
  }

  /** Response i is the last accepted RDS response of the run. */
  ghost predicate LastRoutes(crc: string -> nat, states: seq<Prov>, inputs: seq<Input>, i: int)
    requires |states| == |inputs| + 1
  {
    && 0 <= i < |inputs| && AcceptsRoutes(crc, states[i], inputs[i])
    && forall j :: i < j < |inputs| ==> !AcceptsRoutes(crc, states[j], inputs[j])
  }

  lemma {:induction false} RoutesKept(crc: string -> nat, states: seq<Prov>, inputs: seq<Input>, k: nat)
    requires Run(crc, states, inputs) && k <= |inputs|
    requires forall j :: k <= j < |inputs| ==> !AcceptsRoutes(crc, states[j], inputs[j])
    ensures states[|inputs|].routes == states[k].routes
    decreases |inputs| - k
  {
    if k < |inputs| {
      assert Leads(crc, states[k], inputs[k], states[k + 1]);
      assert !AcceptsRoutes(crc, states[k], inputs[k]);
      RoutesKept(crc, states, inputs, k + 1);
    }
  }

  /** Inline routes are never served. After the last accepted RDS response of a run, all of whose
      resources are route configurations, the routes held are the blocks of these, in order, and
      nothing else: they would be the ones that the listeners' inline configurations ask for as
      well exactly when those ask for none. Before any accepted RDS response no route is held. */
  lemma {:induction false} InlineRoutesNeverServed(crc: string -> nat, states: seq<Prov>, inputs: seq<Input>)
    requires Run(crc, states, inputs) && states[0] == INITIAL_PROV
    ensures forall i :: LastRoutes(crc, states, inputs, i) ==>
      var rs, held := inputs[i].resp.resources, states[|inputs|].routes;
      && (exists cuts :: Blocks(crc, rs, states[i].ownership, held, cuts))
      && forall own, cuts :: Blocks(crc, rs, states[i].ownership, own, cuts) ==>
           (held == own + Inline(crc, states[i].statics, states[i].ownership)
            <==> Inline(crc, states[i].statics, states[i].ownership) == [])
    ensures (forall i :: 0 <= i < |inputs| ==> !AcceptsRoutes(crc, states[i], inputs[i])) ==> states[|inputs|].routes == []
  {
    forall i | LastRoutes(crc, states, inputs, i)
      ensures exists cuts :: Blocks(crc, inputs[i].resp.resources, states[i].ownership, states[|inputs|].routes, cuts)
    {
      assert Leads(crc, states[i], inputs[i], states[i + 1]);
      RdsMeans(crc, states[i], inputs[i].resp, inputs[i].order);
      RoutesKept(crc, states, inputs, i + 1);
    }
    forall i, own, cuts | LastRoutes(crc, states, inputs, i) && Blocks(crc, inputs[i].resp.resources, states[i].ownership, own, cuts)
      ensures own == states[|inputs|].routes
    {
      var cuts' :| Blocks(crc, inputs[i].resp.resources, states[i].ownership, states[|inputs|].routes, cuts');
      BlocksUnique(crc, inputs[i].resp.resources, states[i].ownership, own, cuts, states[|inputs|].routes, cuts');
    }
    if forall i :: 0 <= i < |inputs| ==> !AcceptsRoutes(crc, states[i], inputs[i]) {
      RoutesKept(crc, states, inputs, 0);
    }
  }

  ghost predicate AcceptsListeners(crc: string -> nat, p: Prov, i: Input) {
    Accepts(crc, p, i) && i.resp.url == ListenerUrl
  }

  lemma {:induction false} OwnershipKept(crc: string -> nat, states: seq<Prov>, inputs: seq<Input>, k: nat)
    requires Run(crc, states, inputs) && k <= |inputs|
    requires forall j :: k <= j < |inputs| ==> !AcceptsListeners(crc, states[j], inputs[j])
    ensures states[|inputs|].ownership == states[k].ownership && states[|inputs|].statics == states[k].statics
    decreases |inputs| - k
  {
    if k < |inputs| {
      assert Leads(crc, states[k], inputs[k], states[k + 1]);
      assert !AcceptsListeners(crc, states[k], inputs[k]);
      OwnershipKept(crc, states, inputs, k + 1);
    }
  }

  /** The owned route configurations, which every RDS acknowledgement names, are those of the
      listeners of the last accepted LDS response, each under the address of the last bound
      listener that has it. */
  lemma {:induction false} OwnershipHeld(crc: string -> nat, states: seq<Prov>, inputs: seq<Input>, i: nat, name: string)
    requires Run(crc, states, inputs) && i < |inputs| && AcceptsListeners(crc, states[i], inputs[i])
    requires forall j :: i < j < |inputs| ==> !AcceptsListeners(crc, states[j], inputs[j])
    ensures OwnedAsSaid(inputs[i].resp.resources, states[|inputs|].ownership, name)
    ensures exists places :: AllInline(inputs[i].resp.resources, states[|inputs|].statics, places)
  {
    assert Leads(crc, states[i], inputs[i], states[i + 1]);
    LdsMeans(crc, states[i], inputs[i].resp, inputs[i].order, name);
    OwnershipKept(crc, states, inputs, i + 1);
  }

  const INLINE_ROUTE := XdsRoute("", None, Some("c"), ExactPath("/"), [], Some([]))
  const INLINE_CONFIG := RouteConfiguration("rc", [VirtualHost("v", [], [INLINE_ROUTE])])
  const INLINE_LISTENER := ListenerRes(Listener(Some(SockAddr("h", 80)), [InlineHcm(INLINE_CONFIG)]))

  /** A concrete loss: a listener with one inline route, then an RDS response. */
  lemma {:induction false} InlineRouteLost(crc: string -> nat)
    ensures var p1 := Step(crc, INITIAL_PROV, Response(ListenerUrl, [INLINE_LISTENER], "1", "a"), []).p;
      var o2 := Step(crc, p1, Response(RouteUrl, [], "2", "b"), []);
      o2.ok && o2.p.routes == [] && Inline(crc, p1.statics, p1.ownership) != []
  {
    var p1 := Step(crc, INITIAL_PROV, Response(ListenerUrl, [INLINE_LISTENER], "1", "a"), []).p;
    OneListener();
    var rc := INLINE_CONFIG;
    assert TranslateRoutes(crc, "rc", "v", Hosts([]), [INLINE_ROUTE]) ==
      TranslateRoutes(crc, "rc", "v", Hosts([]), []) + [TranslateRoute(crc, "rc", "v", Hosts([]), INLINE_ROUTE).value];
    assert |TranslateVhosts(crc, "rc", rc.vhosts)| == 1;
    assert |Translate(crc, rc, p1.ownership)| == 1;
    assert Inline(crc, [rc], p1.ownership) == Inline(crc, [], p1.ownership) + Translate(crc, rc, p1.ownership);
  }

  lemma {:induction false} OneListener()
    ensures var lds := LdsFold([INLINE_LISTENER]); lds.ok && lds.statics == [INLINE_CONFIG]
  {
    var hcms := [InlineHcm(INLINE_CONFIG)];
    assert [INLINE_LISTENER][..0] == [] && hcms[..0] == [];
    assert InlineConfigs(hcms) == InlineConfigs([]) + [INLINE_CONFIG];
  }

  /** The batches of the first k responses of a run. */
  ghost function CacheAfter(crc: string -> nat, states: seq<Prov>, inputs: seq<Input>, k: nat): Store
    requires |states| == |inputs| + 1 && k <= |inputs|
  {
    ApplyAll(EMPTY_STORE, Flatten(Batches(crc, states[..k + 1], inputs[..k])))
  }

  /** Cache and snapshot agree throughout a run if and only if no response of it is torn. */
  lemma {:induction false} AgreeThroughoutIff(crc: string -> nat, names: set<string>, states: seq<Prov>, inputs: seq<Input>)
    requires Run(crc, states, inputs) && states[0] == INITIAL_PROV
    requires Injective(crc, names) && forall i :: 0 <= i < |inputs| ==> ClusterNamesIn(inputs[i].resp, names)
    ensures (forall k :: 0 <= k <= |inputs| ==> Sync(states[k], CacheAfter(crc, states, inputs, k))) <==>
      forall i :: 0 <= i < |inputs| ==> !Torn(states[i], inputs[i].resp)
  {
    if forall i :: 0 <= i < |inputs| ==> !Torn(states[i], inputs[i].resp) {
      forall k | 0 <= k <= |inputs|
        ensures Sync(states[k], CacheAfter(crc, states, inputs, k))
      {
        CacheFollowsProvisioner(crc, names, states[..k + 1], inputs[..k]);
      }
    } else {
      var n := FirstTorn(states, inputs);
      TornApart(crc, names, states, inputs, n);
    }
  }

  /** The first torn response of a run sets cache and snapshot apart. */
  lemma {:induction false} TornApart(crc: string -> nat, names: set<string>, states: seq<Prov>, inputs: seq<Input>, n: nat)
    requires Run(crc, states, inputs) && states[0] == INITIAL_PROV
    requires Injective(crc, names) && forall i :: 0 <= i < |inputs| ==> ClusterNamesIn(inputs[i].resp, names)
    requires n < |inputs| && Torn(states[n], inputs[n].resp) && forall i :: 0 <= i < n ==> !Torn(states[i], inputs[i].resp)
    ensures !Sync(states[n + 1], CacheAfter(crc, states, inputs, n + 1))
  {
    CacheFollowsProvisioner(crc, names, states[..n + 1], inputs[..n]);
    assert Leads(crc, states[n], inputs[n], states[n + 1]);
    SyncStep(crc, names, states[n], CacheAfter(crc, states, inputs, n), inputs[n].resp, inputs[n].order);
    CacheStep(crc, states, inputs, n);
  }

  lemma {:induction false} CacheStep(crc: string -> nat, states: seq<Prov>, inputs: seq<Input>, n: nat)
    requires Run(crc, states, inputs) && n < |inputs|
    ensures CacheAfter(crc, states, inputs, n + 1) ==
      ApplyAll(CacheAfter(crc, states, inputs, n), EventsAt(crc, states[n], inputs[n]))
  {
    assert Leads(crc, states[n], inputs[n], states[n + 1]);
    assert states[..n + 2][..n + 1] == states[..n + 1] && inputs[..n + 1][..n] == inputs[..n];
    var batches, evs := Batches(crc, states[..n + 1], inputs[..n]), EventsAt(crc, states[n], inputs[n]);
    if Accepts(crc, states[n], inputs[n]) {
      assert (batches + [evs])[..|batches|] == batches;
      ApplyAllAppend(EMPTY_STORE, Flatten(batches), evs);
    } else {
      RejectedSendsNothing(crc, states[n], inputs[n].resp, inputs[n].order);
      assert batches + [] == batches;
    }
  }

  lemma {:induction false} FirstTorn(states: seq<Prov>, inputs: seq<Input>) returns (n: nat)
    requires |states| == |inputs| + 1 && exists i :: 0 <= i < |inputs| && Torn(states[i], inputs[i].resp)
    ensures n < |inputs| && Torn(states[n], inputs[n].resp)
    ensures forall i :: 0 <= i < n ==> !Torn(states[i], inputs[i].resp)
  {
    n := 0;
    while !Torn(states[n], inputs[n].resp)
      invariant n < |inputs| && forall i :: 0 <= i < n ==> !Torn(states[i], inputs[i].resp)
      decreases |inputs| - n
    {
      n := n + 1;
    }
  }

  const ENDPOINT := LbEndpoint(None, SocketAddress(true, "h", PortValue(80)))

  function EdsCluster(name: string): XdsResource {
    ClusterRes(Cluster(name, RoundRobin, None, EdsDiscovery))
  }

  function Waiting(crc: string -> nat, name: string): Upstream {
    BareUpstream(crc, EdsCluster(name).cluster)
  }

  lemma {:induction false} OneEdsCluster(crc: string -> nat, name: string)
    ensures var resp := Response(ClusterUrl, [EdsCluster(name)], "1", "a");
      Step(crc, INITIAL_PROV, resp, []).ok && Step(crc, INITIAL_PROV, resp, []).p.upstreams == map[name := Waiting(crc, name)]
  {
    var u := Waiting(crc, name);
    assert [EdsCluster(name)][..0] == [];
    assert CdsFold(crc, [EdsCluster(name)]) == Cds([u], {name}, true);
    LastWinsSnoc(UpstreamName, [], u);
    assert [] + [u] == [u];
  }

  /** A concrete tear: a cluster waits for EDS, and the EDS response gives it a node but goes on
      to a cluster that is not known. */
  lemma {:induction false} TornRun(crc: string -> nat, name: string, other: string)
      returns (states: seq<Prov>, inputs: seq<Input>)
    requires name != other
    ensures Run(crc, states, inputs) && states[0] == INITIAL_PROV && |inputs| == 2
    ensures inputs[0].resp == Response(ClusterUrl, [EdsCluster(name)], "1", "a") && Accepts(crc, states[0], inputs[0])
    ensures inputs[1].resp == Response(AssignmentUrl, [OneNode(name), OneNode(other)], "2", "b")
    ensures Torn(states[1], inputs[1].resp) && !Sync(states[2], CacheAfter(crc, states, inputs, 2))
  {
    states, inputs := TwoResponses(crc, name, Response(AssignmentUrl, [OneNode(name), OneNode(other)], "2", "b"));
    TearsAway(crc, states[1], name, other);
    TornSecond(crc, name, states, inputs);
  }

  lemma {:induction false} TornSecond(crc: string -> nat, name: string, states: seq<Prov>, inputs: seq<Input>)
    requires Run(crc, states, inputs) && states[0] == INITIAL_PROV && |inputs| == 2
    requires inputs[0].resp.url == ClusterUrl && inputs[0].resp.resources == [EdsCluster(name)]
    requires forall r :: r in inputs[1].resp.resources ==> r.AssignmentRes?
    requires Torn(states[1], inputs[1].resp)
    ensures !Sync(states[2], CacheAfter(crc, states, inputs, 2))
  {
    assert Injective(crc, {name});
    assert ClusterNamesIn(inputs[0].resp, {name}) && ClusterNamesIn(inputs[1].resp, {name});
    TornApart(crc, {name}, states, inputs, 1);
  }

  /** An accepted CDS response with one EDS cluster, and any response after it. */
  lemma {:induction false} TwoResponses(crc: string -> nat, name: string, resp: Response) returns (states: seq<Prov>, inputs: seq<Input>)
    ensures Run(crc, states, inputs) && states[0] == INITIAL_PROV && |inputs| == 2 && Accepts(crc, states[0], inputs[0])
    ensures inputs[0].resp == Response(ClusterUrl, [EdsCluster(name)], "1", "a") && inputs[1].resp == resp
    ensures states[1].upstreams == map[name := Waiting(crc, name)]
  {
    var cds := Response(ClusterUrl, [EdsCluster(name)], "1", "a");
    OneEdsCluster(crc, name);
    var p1 := Step(crc, INITIAL_PROV, cds, []).p;
    states, inputs := [INITIAL_PROV, p1, Step(crc, p1, resp, [name]).p], [Input(cds, []), Input(resp, [name])];
    assert Leads(crc, states[0], inputs[0], states[1]) && Leads(crc, states[1], inputs[1], states[2]);
  }

  function OneNode(name: string): XdsResource {
    AssignmentRes(Assignment(name, [Locality(None, [ENDPOINT])]))
  }

  lemma {:induction false} TearsAway(crc: string -> nat, p: Prov, name: string, other: string)
    requires name != other && p.upstreams == map[name := Waiting(crc, name)]
    ensures Torn(p, Response(AssignmentUrl, [OneNode(name), OneNode(other)], "2", "b"))
  {
    var rs, locality := [OneNode(name), OneNode(other)], Locality(None, [ENDPOINT]);
    NodesComeFromEndpoints([locality], NodeOf(locality, ENDPOINT));
    assert rs[..1] == [rs[0]] && [rs[0]][..0] == [];
    assert EdsFold(p.upstreams, [rs[0]]).ok && EdsFold(p.upstreams, [rs[0]]).upstreams[name].nodes == Nodes([locality]);
  }
}
