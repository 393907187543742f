/** The gRPC provisioner as a state machine over state-of-the-world responses:
    pkg/provisioner/xds/v3/grpc/types.go and delivery.go. */
module ProvisionerModel {
  import opened Objects
  import opened Strings
  import opened StringSets
  import opened Diff
  import opened Manifests
  import opened Adaptor

  /** The HTTP connection managers of a listener, in filter order. */
  datatype Hcm = RdsHcm(routeConfigName: string) | InlineHcm(rc: RouteConfiguration) | PlainHcm | BadHcm

  datatype SockAddr = SockAddr(host: string, port: nat)

  datatype Listener = Listener(address: Option<SockAddr>, hcms: seq<Hcm>)

  /** What a resource unmarshals to; a resource of another type than its response fails. */
  datatype XdsResource =
    | RouteRes(rc: RouteConfiguration)
    | ClusterRes(cluster: Cluster)
    | AssignmentRes(la: Assignment)
    | ListenerRes(listener: Listener)
    | MalformedRes

  datatype TypeUrl = RouteUrl | ClusterUrl | AssignmentUrl | ListenerUrl | OtherUrl

  datatype Response = Response(url: TypeUrl, resources: seq<XdsResource>, version: string, nonce: string)

  /** Requests on sendCh; a subscription has neither nonce nor version. */
  datatype Request =
    | Subscribe(url: TypeUrl, names: set<string>)
    | Ack(url: TypeUrl, names: set<string>, nonce: string, version: string, failed: bool)

  datatype Prov = Prov(
    routes: seq<Route>,
    upstreams: map<string, Upstream>,
    edsRequired: set<string>,
    ownership: map<string, string>,
    statics: seq<RouteConfiguration>,
    version: string,
    sent: seq<Request>)

  const INITIAL_PROV := Prov([], map[], {}, map[], [], "", [])

  function RdsFold(crc: string -> nat, ownership: map<string, string>, rs: seq<XdsResource>): Option<seq<Route>> {
    if rs == [] then Some([])
    else
      var front, last := RdsFold(crc, ownership, rs[..|rs| - 1]), rs[|rs| - 1];
      if front.None? || !last.RouteRes? then None
      else Some(front.value + Translate(crc, last.rc, ownership))
  }

  datatype Cds = Cds(ups: seq<Upstream>, eds: set<string>, ok: bool)

  /** The clusters up to the first one that does not unmarshal. */
  function CdsFold(crc: string -> nat, rs: seq<XdsResource>): Cds {
    if rs == [] then Cds([], {}, true)
    else
      var front, last := CdsFold(crc, rs[..|rs| - 1]), rs[|rs| - 1];
      if !front.ok then front
      else if !last.ClusterRes? then front.(ok := false)
      else match TranslateClusterSpec(crc, last.cluster)
        case Unsupported => front
        case Translated(u) => front.(ups := front.ups + [u])
        case NeedsEds(u) => front.(ups := front.ups + [u], eds := front.eds + {u.name})
  }

  datatype Eds = Eds(upstreams: map<string, Upstream>, ups: seq<Upstream>, ok: bool)

  /** The assignments up to the first one of an unknown cluster; upstreams change at once. */
  function EdsFold(upstreams: map<string, Upstream>, rs: seq<XdsResource>): Eds {
    if rs == [] then Eds(upstreams, [], true)
    else
      var front, last := EdsFold(upstreams, rs[..|rs| - 1]), rs[|rs| - 1];
      if !front.ok then front
      else if !last.AssignmentRes? || last.la.clusterName !in front.upstreams then front.(ok := false)
      else
        var name := last.la.clusterName;
        var u := front.upstreams[name].(nodes := Nodes(last.la.localities));
        Eds(front.upstreams[name := u][u.name := u], front.ups + [u], true)
  }

  datatype Lds = Lds(names: seq<string>, statics: seq<RouteConfiguration>, ownership: map<string, string>, ok: bool)

  function Own(ownership: map<string, string>, names: seq<string>, addr: string): map<string, string> {
    if names == [] then ownership else Own(ownership, names[..|names| - 1], addr)[names[|names| - 1] := addr]
  }

  function RdsNames(hcms: seq<Hcm>): seq<string> {
    if hcms == [] then []
    else RdsNames(hcms[..|hcms| - 1]) + if hcms[|hcms| - 1].RdsHcm? then [hcms[|hcms| - 1].routeConfigName] else []
  }

  function InlineConfigs(hcms: seq<Hcm>): seq<RouteConfiguration> {
    if hcms == [] then []
    else InlineConfigs(hcms[..|hcms| - 1]) + if hcms[|hcms| - 1].InlineHcm? then [hcms[|hcms| - 1].rc] else []
  }

  function ConfigNames(rcs: seq<RouteConfiguration>): seq<string> {
    seq(|rcs|, i requires 0 <= i < |rcs| => rcs[i].name)
  }

  function AddressOf(a: SockAddr): string {
    a.host + ":" + Decimal(a.port)
  }

  /** The owner recorded for a route configuration tells host and port of its listener, even for
      a host that contains colons. */
  lemma {:induction false} AddressDetermines(a: SockAddr, b: SockAddr)
    requires AddressOf(a) == AddressOf(b)
    ensures a == b
  {
    PortIsNoLonger(a, b);
    PortIsNoLonger(b, a);
    var s := AddressOf(a);
    assert Decimal(a.port) == s[|a.host| + 1..] && Decimal(b.port) == s[|b.host| + 1..];
    assert a.host == s[..|a.host|] && b.host == s[..|b.host|];
    DecimalInjective(a.port, b.port);
  }

  lemma {:induction false} PortIsNoLonger(a: SockAddr, b: SockAddr)
    requires AddressOf(a) == AddressOf(b)
    ensures |a.host| >= |b.host|
  {
    if |a.host| < |b.host| {
      var s, k := AddressOf(b), |b.host| - |a.host| - 1;
      assert s[|b.host|] == ':';
      assert Decimal(a.port)[k] == AddressOf(a)[|b.host|];
      DecimalHasDigits(a.port, ':');
      assert false;
    }
  }

  function LdsFold(rs: seq<XdsResource>): Lds {
    if rs == [] then Lds([], [], map[], true)
    else
      var front, last := LdsFold(rs[..|rs| - 1]), rs[|rs| - 1];
      if !front.ok then front
      else if !last.ListenerRes? then front.(ok := false)
      else if last.listener.address.None? || last.listener.address.value.port == 0 then front
      else if BadHcm in last.listener.hcms then front.(ok := false)
      else
        var a, hcms := last.listener.address.value, last.listener.hcms;
        var addr := AddressOf(a);
        var owned := Own(front.ownership, RdsNames(hcms), addr);
        Lds(front.names + RdsNames(hcms), front.statics + InlineConfigs(hcms),
            Own(owned, ConfigNames(InlineConfigs(hcms)), addr), true)
  }

  /** The order in which a map is walked, chosen afresh on every walk. */
  ghost predicate Walks(order: seq<string>, keys: set<string>)
    ensures Walks(order, keys) ==> forall n :: n in order ==> n in keys
  {
    && NoRepeats(order)
    && (forall n :: n in order ==> n in keys)
    && (forall n :: n in keys ==> n in order)
  }

  function Listed(upstreams: map<string, Upstream>, order: seq<string>): seq<Upstream>
    requires forall n :: n in order ==> n in upstreams
  {
    seq(|order|, i requires 0 <= i < |order| => upstreams[order[i]])
  }

  datatype Outcome = Outcome(p: Prov, ok: bool, events: seq<Event>)

  function Subscription(url: TypeUrl, names: set<string>): seq<Request> {
    if names == {} then [] else [Subscribe(url, names)]
  }

  /** translate: new state, acceptance, and the batch for the consumer. order is the walk over
      the old upstreams of a CDS response. */
  function TranslateStep(crc: string -> nat, p: Prov, resp: Response, order: seq<string>): Outcome
    requires forall n :: n in order ==> n in p.upstreams
  {
    match resp.url
    case RouteUrl =>
      var routes := RdsFold(crc, p.ownership, resp.resources);
      if routes.None? then Outcome(p, false, [])
      else
        Outcome(p.(routes := routes.value), true,
                DiffEvents(Some(Manifest(p.routes, [])), Some(Manifest(routes.value, []))))
    case ClusterUrl =>
      var cds := CdsFold(crc, resp.resources);
      if !cds.ok then Outcome(p.(edsRequired := cds.eds), false, [])
      else
        var sub := if cds.eds == p.edsRequired then [] else Subscription(AssignmentUrl, cds.eds);
        Outcome(p.(upstreams := LastWins(UpstreamName, cds.ups), edsRequired := cds.eds, sent := p.sent + sub), true,
                DiffEvents(Some(Manifest([], Listed(p.upstreams, order))), Some(Manifest([], cds.ups))))
    case AssignmentUrl =>
      var eds := EdsFold(p.upstreams, resp.resources);
      Outcome(p.(upstreams := eds.upstreams), eds.ok, if eds.ok then UpstreamEvents(Update, eds.ups) else [])
    case ListenerUrl =>
      var lds := LdsFold(resp.resources);
      if !lds.ok then Outcome(p, false, [])
      else
        Outcome(p.(statics := lds.statics, ownership := lds.ownership,
                   sent := p.sent + Subscription(RouteUrl, Elements(lds.names))), true,
                DiffEvents(Some(EMPTY_MANIFEST), Some(EMPTY_MANIFEST)))
    case OtherUrl => Outcome(p, false, [])
  }

  /** The resource names that an acknowledgement has to repeat. */
  function AckNames(p: Prov, url: TypeUrl): set<string> {
    match url
    case AssignmentUrl => p.edsRequired
    case RouteUrl => p.ownership.Keys
    case _ => {}
  }

  /** One round of translateLoop. */
  function Step(crc: string -> nat, p: Prov, resp: Response, order: seq<string>): Outcome
    requires forall n :: n in order ==> n in p.upstreams
  {
    var o := TranslateStep(crc, p, resp, order);
    var version := if o.ok then resp.version else p.version;
    Outcome(o.p.(version := version,
                 sent := o.p.sent + [Ack(resp.url, AckNames(p, resp.url), resp.nonce, version, !o.ok)]),
            o.ok, o.events)
  }

  /** Upstreams are kept under their names, with ids generated from them. */
  ghost predicate Named(crc: string -> nat, names: set<string>, upstreams: map<string, Upstream>) {
    forall n :: n in upstreams ==> n in names && upstreams[n].name == n && upstreams[n].id == GenId(crc, n)
  }

  /** What translate sends before the acknowledgement. */
  function Subscriptions(crc: string -> nat, p: Prov, resp: Response): seq<Request> {
    match resp.url
    case ClusterUrl =>
      var cds := CdsFold(crc, resp.resources);
      if cds.ok && cds.eds != p.edsRequired then Subscription(AssignmentUrl, cds.eds) else []
    case ListenerUrl =>
      var lds := LdsFold(resp.resources);
      if lds.ok then Subscription(RouteUrl, Elements(lds.names)) else []
    case _ => []
  }

  lemma {:induction false} SentStep(crc: string -> nat, p: Prov, resp: Response, order: seq<string>)
    requires forall n :: n in order ==> n in p.upstreams
    ensures var o := Step(crc, p, resp, order);
      o.p.sent == p.sent + Subscriptions(crc, p, resp) + [Ack(resp.url, AckNames(p, resp.url), resp.nonce, o.p.version, !o.ok)]
  {
  }

  /** GenId tells the names in use apart. */
  ghost predicate Injective(crc: string -> nat, names: set<string>) {
    forall a, b {:trigger GenId(crc, a), GenId(crc, b)} :: a in names && b in names && GenId(crc, a) == GenId(crc, b) ==> a == b
  }

  /** byId holds the upstreams of byName under their ids, and nothing else. */
  ghost predicate Rekeyed(byName: map<string, Upstream>, byId: map<string, Upstream>) {
    && (forall n :: n in byName ==> byName[n].id in byId && byId[byName[n].id] == byName[n])
    && (forall i :: i in byId ==> exists n :: n in byName && byName[n].id == i)
  }

  /** The cached stores hold the provisioner's last snapshot. */
  ghost predicate Sync(p: Prov, s: Store) {
    s.routes == LastWins(RouteId, p.routes) && Rekeyed(p.upstreams, s.upstreams)
  }

  ghost predicate ClusterNamesIn(resp: Response, names: set<string>) {
    forall r :: r in resp.resources && r.ClusterRes? ==> r.cluster.name in names
  }

  lemma {:induction false} RekeyedUnique(byName: map<string, Upstream>, a: map<string, Upstream>, b: map<string, Upstream>)
    requires Rekeyed(byName, a) && Rekeyed(byName, b)
    ensures a == b
  {
    forall i
      ensures i in a <==> i in b
      ensures i in a ==> a[i] == b[i]
    {
      if i in a {
        var n :| n in byName && byName[n].id == i;
      }
      if i in b {
        var n :| n in byName && byName[n].id == i;
      }
    }
  }

  lemma {:induction false} RekeyedPut(crc: string -> nat, names: set<string>, byName: map<string, Upstream>, byId: map<string, Upstream>, u: Upstream)
    requires Injective(crc, names) && Named(crc, names, byName) && Rekeyed(byName, byId)
    requires u.name in names && u.id == GenId(crc, u.name)
    ensures Rekeyed(byName[u.name := u], byId[u.id := u]) && Named(crc, names, byName[u.name := u])
  {
    forall n | n in byName && n != u.name
      ensures byName[n].id != u.id
    {
      assert byName[n].id == GenId(crc, n) && GenId(crc, n) != GenId(crc, u.name);
    }
    PutBoth(byName, byId, u);
  }

  lemma {:induction false} PutBoth(byName: map<string, Upstream>, byId: map<string, Upstream>, u: Upstream)
    requires Rekeyed(byName, byId)
    requires forall n :: n in byName && n != u.name ==> byName[n].id != u.id
    requires u.name in byName ==> byName[u.name].id == u.id
    ensures Rekeyed(byName[u.name := u], byId[u.id := u])
  {
    var byName', byId' := byName[u.name := u], byId[u.id := u];
    forall i | i in byId'
      ensures exists n :: n in byName' && byName'[n].id == i
    {
      if i == u.id {
        assert byName'[u.name].id == i;
      } else {
        var n :| n in byName && byName[n].id == i;
        assert byName'[n].id == i;
      }
    }
  }

  ghost predicate WellNamed(crc: string -> nat, names: set<string>, us: seq<Upstream>) {
    forall u :: u in us ==> u.name in names && u.id == GenId(crc, u.name)
  }

  lemma {:induction false} RekeyedLastWins(crc: string -> nat, names: set<string>, us: seq<Upstream>)
    requires Injective(crc, names) && WellNamed(crc, names, us)
    ensures Rekeyed(LastWins(UpstreamName, us), LastWins(UpstreamId, us))
    ensures Named(crc, names, LastWins(UpstreamName, us))
  {
    if us != [] {
      var front := us[..|us| - 1];
      RekeyedLastWins(crc, names, front);
      assert us[|us| - 1] in us;
      RekeyedPut(crc, names, LastWins(UpstreamName, front), LastWins(UpstreamId, front), us[|us| - 1]);
    }
  }

  /** Walking a map by name, in any order, lists it. */
  lemma {:induction false} ListedByName(crc: string -> nat, names: set<string>, upstreams: map<string, Upstream>, order: seq<string>)
    requires Named(crc, names, upstreams) && Walks(order, upstreams.Keys)
    ensures LastWins(UpstreamName, Listed(upstreams, order)) == upstreams
    ensures WellNamed(crc, names, Listed(upstreams, order))
  {
    var us := Listed(upstreams, order);
    assert forall u :: u in us ==> u.name in upstreams && upstreams[u.name] == u;
    forall n | n in upstreams
      ensures upstreams[n] in us
    {
      var i :| 0 <= i < |order| && order[i] == n;
      assert us[i] == upstreams[n];
    }
    LastWinsOfMap(us, upstreams);
  }

  lemma {:induction false} LastWinsOfMap(us: seq<Upstream>, byName: map<string, Upstream>)
    requires forall u :: u in us ==> UpstreamName(u) in byName && byName[UpstreamName(u)] == u
    requires forall n :: n in byName ==> byName[n] in us && UpstreamName(byName[n]) == n
    ensures LastWins(UpstreamName, us) == byName
  {
    LastWinsEntries(UpstreamName, us);
    var w := LastWins(UpstreamName, us);
    forall n | n in byName
      ensures n in w
    {
      assert UpstreamName(byName[n]) in Ids(UpstreamName, us);
    }
  }

  lemma {:induction false} PatchNothing<T>(id: T -> string, store: map<string, T>)
    ensures Patch(id, store, Compare(id, [], [])) == store
  {
    EmptySides(id, [], []);
    LastWinsAppend(id, [], []);
    assert Ids(id, []) == {};
  }

  lemma {:induction false} RdsEvents(s: Store, old1: seq<Route>, new1: seq<Route>)
    requires s.routes == LastWins(RouteId, old1)
    ensures ApplyAll(s, DiffEvents(Some(Manifest(old1, [])), Some(Manifest(new1, [])))) == s.(routes := LastWins(RouteId, new1))
  {
    DiffEventsPatch(s, Manifest(old1, []), Manifest(new1, []));
    SnapshotMoves(RouteId, old1, new1);
    PatchNothing(UpstreamId, s.upstreams);
  }

  lemma {:induction false} CdsEvents(s: Store, old1: seq<Upstream>, new1: seq<Upstream>)
    requires s.upstreams == LastWins(UpstreamId, old1)
    ensures ApplyAll(s, DiffEvents(Some(Manifest([], old1)), Some(Manifest([], new1)))) == s.(upstreams := LastWins(UpstreamId, new1))
  {
    DiffEventsPatch(s, Manifest([], old1), Manifest([], new1));
    SnapshotMoves(UpstreamId, old1, new1);
    PatchNothing(RouteId, s.routes);
  }

  lemma {:induction false} NoEvents(s: Store)
    ensures ApplyAll(s, DiffEvents(Some(EMPTY_MANIFEST), Some(EMPTY_MANIFEST))) == s
  {
    DiffEventsPatch(s, EMPTY_MANIFEST, EMPTY_MANIFEST);
    PatchNothing(RouteId, s.routes);
    PatchNothing(UpstreamId, s.upstreams);
  }

  lemma {:induction false} CdsWellNamed(crc: string -> nat, names: set<string>, rs: seq<XdsResource>)
    requires forall r :: r in rs && r.ClusterRes? ==> r.cluster.name in names
    ensures WellNamed(crc, names, CdsFold(crc, rs).ups)
  {
    if rs != [] {
      var last := rs[|rs| - 1];
      assert last in rs;
      CdsWellNamed(crc, names, rs[..|rs| - 1]);
    }
  }

  /** Every cluster that requires EDS is kept under its name. */
  lemma {:induction false} EdsRequiredAreKept(crc: string -> nat, rs: seq<XdsResource>)
    ensures CdsFold(crc, rs).eds <= LastWins(UpstreamName, CdsFold(crc, rs).ups).Keys
  {
    if rs != [] {
      var cds, last := CdsFold(crc, rs[..|rs| - 1]), rs[|rs| - 1];
      EdsRequiredAreKept(crc, rs[..|rs| - 1]);
      if cds.ok && last.ClusterRes? {
        match TranslateClusterSpec(crc, last.cluster)
        case Unsupported =>
        case Translated(u) => LastWinsSnoc(UpstreamName, cds.ups, u);
        case NeedsEds(u) => LastWinsSnoc(UpstreamName, cds.ups, u);
      }
    }
  }

  lemma {:induction false} EdsPut(crc: string -> nat, names: set<string>, front: Eds, byId: map<string, Upstream>, la: Assignment)
    requires Injective(crc, names) && Named(crc, names, front.upstreams)
    requires Rekeyed(front.upstreams, byId + LastWins(UpstreamId, front.ups)) && la.clusterName in front.upstreams
    ensures var name := la.clusterName;
      var u := front.upstreams[name].(nodes := Nodes(la.localities));
      && Named(crc, names, front.upstreams[name := u][u.name := u])
      && front.upstreams[name := u][u.name := u].Keys == front.upstreams.Keys
      && Rekeyed(front.upstreams[name := u][u.name := u], byId + LastWins(UpstreamId, front.ups + [u]))
  {
    var name := la.clusterName;
    var u := front.upstreams[name].(nodes := Nodes(la.localities));
    assert u.name == name;
    assert front.upstreams[name := u][u.name := u] == front.upstreams[u.name := u];
    RekeyedPut(crc, names, front.upstreams, byId + LastWins(UpstreamId, front.ups), u);
    LastWinsSnoc(UpstreamId, front.ups, u);
    UnionPut(byId, LastWins(UpstreamId, front.ups), u.id, u);
  }

  /** EDS moves the snapshot and its re-keyed form alike; keys never change. */
  lemma {:induction false} EdsMoves(crc: string -> nat, names: set<string>, upstreams: map<string, Upstream>, byId: map<string, Upstream>, rs: seq<XdsResource>)
    requires Injective(crc, names) && Named(crc, names, upstreams) && Rekeyed(upstreams, byId)
    ensures var eds := EdsFold(upstreams, rs);
      && Named(crc, names, eds.upstreams) && eds.upstreams.Keys == upstreams.Keys
      && Rekeyed(eds.upstreams, byId + LastWins(UpstreamId, eds.ups))
  {
    if rs != [] {
      var front, last := EdsFold(upstreams, rs[..|rs| - 1]), rs[|rs| - 1];
      EdsMoves(crc, names, upstreams, byId, rs[..|rs| - 1]);
      if front.ok && last.AssignmentRes? && last.la.clusterName in front.upstreams {
        EdsPut(crc, names, front, byId, last.la);
      }
    } else {
      assert byId + LastWins(UpstreamId, []) == byId;
    }
  }

  /** An EDS response that is rejected after it has changed the snapshot. */
  ghost predicate Torn(p: Prov, resp: Response) {
    resp.url == AssignmentUrl && !EdsFold(p.upstreams, resp.resources).ok && EdsFold(p.upstreams, resp.resources).upstreams != p.upstreams
  }

  lemma {:induction false} SyncCds(crc: string -> nat, names: set<string>, p: Prov, s: Store, rs: seq<XdsResource>, order: seq<string>)
    requires Injective(crc, names) && Named(crc, names, p.upstreams)
    requires forall r :: r in rs && r.ClusterRes? ==> r.cluster.name in names
    requires Walks(order, p.upstreams.Keys) && Rekeyed(p.upstreams, s.upstreams)
    ensures var ups := CdsFold(crc, rs).ups;
      var s' := ApplyAll(s, DiffEvents(Some(Manifest([], Listed(p.upstreams, order))), Some(Manifest([], ups))));
      && s'.routes == s.routes
      && Named(crc, names, LastWins(UpstreamName, ups)) && Rekeyed(LastWins(UpstreamName, ups), s'.upstreams)
  {
    var old1, ups := Listed(p.upstreams, order), CdsFold(crc, rs).ups;
    ListedByName(crc, names, p.upstreams, order);
    RekeyedLastWins(crc, names, old1);
    RekeyedUnique(p.upstreams, s.upstreams, LastWins(UpstreamId, old1));
    CdsEvents(s, old1, ups);
    CdsWellNamed(crc, names, rs);
    RekeyedLastWins(crc, names, ups);
  }

  lemma {:induction false} SyncEds(crc: string -> nat, names: set<string>, p: Prov, s: Store, rs: seq<XdsResource>)
    requires Injective(crc, names) && Named(crc, names, p.upstreams) && Rekeyed(p.upstreams, s.upstreams)
    ensures var eds := EdsFold(p.upstreams, rs);
      && Named(crc, names, eds.upstreams)
      && ApplyAll(s, UpstreamEvents(Update, eds.ups)).routes == s.routes
      && Rekeyed(eds.upstreams, ApplyAll(s, UpstreamEvents(Update, eds.ups)).upstreams)
      && (eds.upstreams != p.upstreams ==> !Rekeyed(eds.upstreams, s.upstreams))
  {
    var eds := EdsFold(p.upstreams, rs);
    EdsMoves(crc, names, p.upstreams, s.upstreams, rs);
    ApplyUpstreamPuts(s, Update, eds.ups);
    if eds.upstreams != p.upstreams {
      var n := DifferentAt(p.upstreams, eds.upstreams);
      assert eds.upstreams[n].id == GenId(crc, n) == p.upstreams[n].id;
    }
  }

  lemma {:induction false} DifferentAt(a: map<string, Upstream>, b: map<string, Upstream>) returns (n: string)
    requires a != b && a.Keys == b.Keys
    ensures n in a && n in b && a[n] != b[n]
  {
    n :| n in a && a[n] != b[n];
  }

  /** One response: the names stay in order, and cache and snapshot stay in step, whatever the
      response and however the old upstreams are walked, unless an EDS response tears them. */
  lemma {:induction false} SyncStep(crc: string -> nat, names: set<string>, p: Prov, s: Store, resp: Response, order: seq<string>)
    requires Injective(crc, names) && Named(crc, names, p.upstreams) && ClusterNamesIn(resp, names)
    requires Walks(order, p.upstreams.Keys) && Sync(p, s)
    ensures var o := Step(crc, p, resp, order);
      Named(crc, names, o.p.upstreams) && (Sync(o.p, ApplyAll(s, o.events)) <==> !Torn(p, resp))
  {
    match resp.url
    case RouteUrl =>
      var routes := RdsFold(crc, p.ownership, resp.resources);
      if routes.Some? {
        RdsEvents(s, p.routes, routes.value);
      }
    case ClusterUrl =>
      if CdsFold(crc, resp.resources).ok {
        SyncCds(crc, names, p, s, resp.resources, order);
      }
    case AssignmentUrl =>
      SyncEds(crc, names, p, s, resp.resources);
    case ListenerUrl =>
      NoEvents(s);
    case OtherUrl =>
  }

  lemma {:induction false} RdsFailsForGood(crc: string -> nat, ownership: map<string, string>, rs: seq<XdsResource>, n: nat)
    requires n <= |rs| && RdsFold(crc, ownership, rs[..n]).None?
    ensures RdsFold(crc, ownership, rs).None?
    decreases |rs| - n
  {
    if n < |rs| {
      assert rs[..n + 1][..n] == rs[..n];
      RdsFailsForGood(crc, ownership, rs, n + 1);
    } else {
      assert rs[..n] == rs;
    }
  }

  lemma {:induction false} CdsFailsForGood(crc: string -> nat, rs: seq<XdsResource>, n: nat)
    requires n <= |rs| && !CdsFold(crc, rs[..n]).ok
    ensures CdsFold(crc, rs) == CdsFold(crc, rs[..n])
    decreases |rs| - n
  {
    if n < |rs| {
      assert rs[..n + 1][..n] == rs[..n];
      CdsFailsForGood(crc, rs, n + 1);
    } else {
      assert rs[..n] == rs;
    }
  }

  lemma {:induction false} EdsFailsForGood(upstreams: map<string, Upstream>, rs: seq<XdsResource>, n: nat)
    requires n <= |rs| && !EdsFold(upstreams, rs[..n]).ok
    ensures EdsFold(upstreams, rs) == EdsFold(upstreams, rs[..n])
    decreases |rs| - n
  {
    if n < |rs| {
      assert rs[..n + 1][..n] == rs[..n];
      EdsFailsForGood(upstreams, rs, n + 1);
    } else {
      assert rs[..n] == rs;
    }
  }

  lemma {:induction false} LdsFailsForGood(rs: seq<XdsResource>, n: nat)
    requires n <= |rs| && !LdsFold(rs[..n]).ok
    ensures LdsFold(rs) == LdsFold(rs[..n])
    decreases |rs| - n
  {
    if n < |rs| {
      assert rs[..n + 1][..n] == rs[..n];
      LdsFailsForGood(rs, n + 1);
    } else {
      assert rs[..n] == rs;
    }
  }
}
