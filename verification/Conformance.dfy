/** Which range and watch requests are served, pkg/etcdv3/conformance.go, and how key paths
    are taken apart, pkg/etcdv3/kv.go. */
module Conformance {
  import opened Objects
  import opened Strings
  import opened EtcdModel

  datatype Verdict = Accepted | EmptyKey | KeyNotFound | NotCapable

  datatype RangeRequest = RangeRequest(
    key: string,
    rangeEnd: Option<string>,
    limit: int,
    sorted: bool,
    revision: int,
    minCreateRevision: int,
    maxCreateRevision: int,
    minModRevision: int,
    maxModRevision: int,
    keysOnly: bool)

  datatype CreateRequest = CreateRequest(
    key: string,
    rangeEnd: string,
    startRevision: int,
    watchId: int,
    prevKv: bool,
    progressNotify: bool,
    fragment: bool)

  datatype WatchRequest =
    | WatchCreate(create: Option<CreateRequest>)
    | WatchCancel(cancelId: Option<int>)
    | WatchProgress

  function CheckRange(prefix: string, r: RangeRequest): Verdict {
    if r.key == "" then EmptyKey
    else if !(
      || r.rangeEnd.None?
      || (r.key == prefix + "/routes" && r.rangeEnd.value == prefix + "/routet")
      || (r.key == prefix + "/upstreams" && r.rangeEnd.value == prefix + "/upstreamt"))
    then KeyNotFound
    else if r.limit != 0 then NotCapable
    else if r.sorted then NotCapable
    else if r.revision > 0 || r.minCreateRevision > 0 || r.maxCreateRevision > 0 || r.minModRevision > 0 || r.maxModRevision > 0 then NotCapable
    else Accepted
  }

  function CheckWatch(prefix: string, r: WatchRequest): Verdict {
    match r
    case WatchCancel(_) => Accepted
    case WatchCreate(None) => Accepted
    case WatchCreate(Some(c)) =>
      if c.key == "" then EmptyKey
      else if !(
        || (c.key == prefix + "/routes" && c.rangeEnd == prefix + "/routet")
        || (c.key == prefix + "/upstreams" && c.rangeEnd == prefix + "/upstreamt"))
      then KeyNotFound
      else if c.prevKv || c.progressNotify || c.fragment then NotCapable
      else Accepted
    case WatchProgress => NotCapable
  }

  /** The two key and range_end pairs that are served. */
  predicate ServedPair(prefix: string, key: string, rangeEnd: string) {
    || (key == prefix + "/routes" && rangeEnd == prefix + "/routet")
    || (key == prefix + "/upstreams" && rangeEnd == prefix + "/upstreamt")
  }

  /** What a range request may not ask for. */
  predicate AsksTooMuch(r: RangeRequest) {
    || r.limit != 0 || r.sorted || r.revision > 0 || r.minCreateRevision > 0 || r.maxCreateRevision > 0
    || r.minModRevision > 0 || r.maxModRevision > 0
  }

  /** A range request is served if and only if it has a key, no range_end but that of one of the
      two directories, and asks for no limit, order or bound on revisions; the other cases are
      told apart in that order. */
  lemma {:induction false} RangeVerdict(prefix: string, r: RangeRequest)
    ensures var known := r.rangeEnd.None? || ServedPair(prefix, r.key, r.rangeEnd.value);
      && (CheckRange(prefix, r) == EmptyKey <==> r.key == "")
      && (CheckRange(prefix, r) == KeyNotFound <==> r.key != "" && !known)
      && (CheckRange(prefix, r) == NotCapable <==> r.key != "" && known && AsksTooMuch(r))
      && (CheckRange(prefix, r) == Accepted <==> r.key != "" && known && !AsksTooMuch(r))
  {
  }

  /** The same for watch requests: a cancel and an empty create pass, a progress request does not. */
  lemma {:induction false} WatchVerdict(prefix: string, r: WatchRequest)
    ensures match r
      case WatchCancel(_) => CheckWatch(prefix, r) == Accepted
      case WatchProgress => CheckWatch(prefix, r) == NotCapable
      case WatchCreate(None) => CheckWatch(prefix, r) == Accepted
      case WatchCreate(Some(c)) =>
        var known := ServedPair(prefix, c.key, c.rangeEnd);
        && (CheckWatch(prefix, r) == EmptyKey <==> c.key == "")
        && (CheckWatch(prefix, r) == KeyNotFound <==> c.key != "" && !known)
        && (CheckWatch(prefix, r) == NotCapable <==> c.key != "" && known && (c.prevKv || c.progressNotify || c.fragment))
        && (CheckWatch(prefix, r) == Accepted <==> c.key != "" && known && !(c.prevKv || c.progressNotify || c.fragment))
  {
  }

  /** The resource that onWire derives from the key of an accepted create request. */
  function WatchedResource(prefix: string, key: string): Option<Resource> {
    if key == prefix + "/routes" then Some(RouteResource)
    else if key == prefix + "/upstreams" then Some(UpstreamResource)
    else None
  }

  /** A range that passes the check is the whole interval of one directory, so what it selects
      among the stored keys is what etcd's half-open interval selects. */
  lemma {:induction false} AcceptedRangeIsDirectory(prefix: string, r: RangeRequest, other: Resource, id: string)
    requires CheckRange(prefix, r) == Accepted && r.rangeEnd.Some?
    ensures exists res ::
      && r.key == Dir(prefix, res) && r.rangeEnd.value == DirEnd(prefix, res)
      && (InInterval(Name(prefix, other, id), r.key, r.rangeEnd.value) <==> other == res)
  {
    var res := if r.key == prefix + "/routes" then RouteResource else UpstreamResource;
    DirectoryIsInterval(prefix, res, other, id);
  }

  /** An accepted watch is registered for a resource, and the keys of that resource are exactly
      those in the interval the client asked for. */
  lemma {:induction false} AcceptedWatchIsDirectory(prefix: string, c: CreateRequest, other: Resource, id: string)
    requires CheckWatch(prefix, WatchCreate(Some(c))) == Accepted
    ensures WatchedResource(prefix, c.key).Some?
    ensures InInterval(Name(prefix, other, id), c.key, c.rangeEnd) <==> Some(other) == WatchedResource(prefix, c.key)
  {
    var res := if c.key == prefix + "/routes" then RouteResource else UpstreamResource;
    assert (prefix + "/routes")[|prefix| + 1] == 'r' && (prefix + "/upstreams")[|prefix| + 1] == 'u';
    DirectoryIsInterval(prefix, res, other, id);
  }

  function ResourceWord(res: Resource): string {
    if res == RouteResource then "routes" else "upstreams"
  }

  /** The path components of a key below the prefix. */
  function Parts(prefix: string, key: string): Option<seq<string>> {
    if HasPrefix(key, prefix) then Some(Split(TrimPrefix(key, prefix), '/')) else None
  }

  lemma {:induction false} JoinedParts(word: string, id: string)
    ensures Join(["", word], '/') == "/" + word
    ensures Join(["", word, id], '/') == "/" + word + "/" + id
  {
    assert ["", word][1..] == [word];
    assert ["", word, id][1..] == [word, id];
    assert [word, id][1..] == [id];
    assert Join([word, id], '/') == word + ['/'] + id;
    assert "/" + (word + "/" + id) == "/" + word + "/" + id;
  }

  lemma {:induction false} PathAssociates(prefix: string, dir: string, id: string)
    ensures prefix + dir + "/" + id == prefix + (dir + "/" + id)
  {
  }

  lemma {:induction false} DirectoryPath(prefix: string, res: Resource, id: string)
    ensures Dir(prefix, res) == prefix + ("/" + ResourceWord(res))
    ensures Name(prefix, res, id) == prefix + ("/" + ResourceWord(res) + "/" + id)
  {
    var dir := "/" + ResourceWord(res);
    assert dir == if res == RouteResource then "/routes" else "/upstreams";
    PathAssociates(prefix, dir, id);
  }

  /** Splitting a composed key recovers resource and id, and nothing else splits that way. */
  lemma {:induction false} ObjectKeyParts(prefix: string, key: string, res: Resource, id: string)
    ensures Parts(prefix, key) == Some(["", ResourceWord(res), id]) <==>
      key == Name(prefix, res, id) && '/' !in id
  {
    var parts := ["", ResourceWord(res), id];
    assert '/' !in ResourceWord(res);
    assert (forall p :: p in parts ==> '/' !in p) <==> '/' !in id by {
      assert parts[2] == id;
    }
    SplitExactly(TrimPrefix(key, prefix), '/', parts);
    JoinedParts(ResourceWord(res), id);
    PrefixThenRest(key, prefix, Join(parts, '/'));
    DirectoryPath(prefix, res, id);
  }

  lemma {:induction false} DirectoryKeyParts(prefix: string, key: string, res: Resource)
    ensures Parts(prefix, key) == Some(["", ResourceWord(res)]) <==> key == Dir(prefix, res)
  {
    var parts := ["", ResourceWord(res)];
    assert '/' !in ResourceWord(res);
    SplitExactly(TrimPrefix(key, prefix), '/', parts);
    JoinedParts(ResourceWord(res), "");
    PrefixThenRest(key, prefix, Join(parts, '/'));
    DirectoryPath(prefix, res, "");
  }

  /** The object that a point lookup finds, by the code's own path splitting. */
  function LookupPath(prefix: string, key: string, s: Store): Object {
    var parts := Parts(prefix, key);
    if parts.None? || |parts.value| != 3 || parts.value[0] != "" then NoObject
    else if parts.value[1] == "routes" then ObjectAt(s, RouteResource, parts.value[2])
    else if parts.value[1] == "upstreams" then ObjectAt(s, UpstreamResource, parts.value[2])
    else NoObject
  }

  ghost predicate SlashFreeKey(prefix: string, key: string) {
    exists res, id :: key == Name(prefix, res, id) && '/' !in id
  }

  lemma {:induction false} ListedAt(prefix: string, s: Store, metas: map<string, Meta>, rev: int, res: Resource, id: string)
    ensures var key := Name(prefix, res, id);
      && (key in FullListing(prefix, s, metas, rev) <==> ObjectAt(s, res, id) != NoObject)
      && (key in FullListing(prefix, s, metas, rev) ==>
            FullListing(prefix, s, metas, rev)[key] == Compose(key, MetaOr(metas, key, rev), ObjectAt(s, res, id)))
  {
    var key := Name(prefix, res, id);
    var other := if res == RouteResource then UpstreamResource else RouteResource;
    NamesHaveIds(prefix, res, s);
    NamesHaveIds(prefix, other, s);
    NameThenId(prefix, res, id);
    if key in Names(prefix, other, s) {
      NameInjective(prefix, res, id, other, IdOf(prefix, other, key));
    }
  }

  lemma {:induction false} LookupByParts(prefix: string, key: string, s: Store)
    ensures LookupPath(prefix, key, s) != NoObject ==> SlashFreeKey(prefix, key)
    ensures forall res, id :: key == Name(prefix, res, id) && '/' !in id ==>
      LookupPath(prefix, key, s) == ObjectAt(s, res, id)
  {
    var parts := Parts(prefix, key);
    if LookupPath(prefix, key, s) != NoObject {
      var res := if parts.value[1] == "routes" then RouteResource else UpstreamResource;
      assert parts.value == ["", ResourceWord(res), parts.value[2]];
      ObjectKeyParts(prefix, key, res, parts.value[2]);
    }
    forall res, id | key == Name(prefix, res, id) && '/' !in id
      ensures LookupPath(prefix, key, s) == ObjectAt(s, res, id)
    {
      ObjectKeyParts(prefix, key, res, id);
    }
  }

  /** A key is a stored object's with a slash-free id exactly when the lookup finds it; the
      object is the listed one. For an id with a slash the listing has a key that no lookup finds. */
  lemma {:induction false} PointLookupAgrees(prefix: string, key: string, s: Store, metas: map<string, Meta>, rev: int)
    ensures LookupPath(prefix, key, s) != NoObject <==> key in FullListing(prefix, s, metas, rev) && SlashFreeKey(prefix, key)
    ensures LookupPath(prefix, key, s) != NoObject ==>
      FullListing(prefix, s, metas, rev)[key] == Compose(key, MetaOr(metas, key, rev), LookupPath(prefix, key, s))
  {
    LookupByParts(prefix, key, s);
    if SlashFreeKey(prefix, key) {
      var res, id :| key == Name(prefix, res, id) && '/' !in id;
      ListedAt(prefix, s, metas, rev, res, id);
    }
  }
}
