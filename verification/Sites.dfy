/** The control plane over time, and the hub's table built from what it published. */
module Sites {
  import opened Wrappers
  import opened Pow2s
  import opened Addresses
  import opened Translators
  import opened Peers
  import opened Routing
  import opened Relay
  import opened RouteAllocation

  // ------------------------------------------------------- tunnel addresses

  const CLIENT_FIRST := 2
  const CLIENT_LAST := 99
  const AGENT_FIRST := 100
  const AGENT_LAST := 254

  /** `allocIP`: the lowest free host number of the range, reserved in the caller's set. */
  method AllocIP(inUse: set<nat>, first: nat, last: nat) returns (r: Option<nat>, reserved: set<nat>)
    ensures r.None? <==> forall i | first <= i <= last :: i in inUse
    ensures r.Some? ==> first <= r.value <= last && r.value !in inUse && forall i | first <= i < r.value :: i in inUse
    ensures reserved == if r.Some? then inUse + {r.value} else inUse
    ensures r == LowestFree(inUse, first, last)
  {
    var i := first;
    while i <= last
      invariant first <= i && (forall k | first <= k < i :: k in inUse)
      invariant LowestFree(inUse, first, last) == LowestFree(inUse, i, last)
    {
      if i !in inUse { return Some(i), inUse + {i}; }
      i := i + 1;
    }
    return None, inUse;
  }

  function LowestFree(inUse: set<nat>, first: nat, last: nat): (r: Option<nat>)
    ensures r.Some? ==> first <= r.value <= last && r.value !in inUse
    decreases last + 1 - first
  {
    if first > last then None
    else if first !in inUse then Some(first)
    else LowestFree(inUse, first + 1, last)
  }

  // --------------------------------------------------------------- the store

  type Key = string    // a machine's public key

  /** A device the hub is to admit while `listed`: switched on, its owner's second factor bound. */
  datatype Device = Device(
    name: string, user: string, host: nat, pub: Key, totpSecret: string, listed: bool, agents: seq<string>)

  /** A site; `pub` is `None` until a machine enrolls. */
  datatype Record = Record(
    agentId: string, name: string, host: nat, routes: seq<AgentRoute>,
    pub: Option<Key>, enabled: bool, totpSecret: string)

  datatype Store = Store(sites: seq<Record>, devices: seq<Device>)

  function SitesOf(s: seq<Record>): seq<Site> {
    seq(|s|, i requires 0 <= i < |s| => Site(s[i].agentId, s[i].routes))
  }

  function HostsInUse(st: Store): set<nat> {
    (set r | r in st.sites :: r.host) + (set d | d in st.devices :: d.host)
  }

  datatype Action =
    | CreateSite(id: string, name: string, lines: seq<Line>, mode: RouteMode)
    | EnrollSite(id: string, key: Key, lines: seq<Line>, mode: RouteMode)   // a site without routes reports them
    | DetachSite(id: string)                                                // a new install code
    | SwitchSite(id: string, enabled: bool)
    | RotateSecret(id: string, secret: string)
    | DeleteSite(id: string)
    | AddDevice(name: string, user: string, key: Key, secret: string, agents: seq<string>)
    | ListDevice(key: Key, listed: bool)
    | GrantDevice(key: Key, agents: seq<string>)                            // another choice of sites
    | RebindUser(user: string, secret: string)                              // a new second factor, not yet confirmed
    | DeleteDevice(key: Key)

  /** `validAgentID`. */
  predicate ValidId(id: string) {
    0 < |id| <= 32 && forall c <- id :: 'a' <= c <= 'z' || '0' <= c <= '9' || c == '-'
  }

  predicate HasId(s: seq<Record>, id: string) { exists r <- s :: r.agentId == id }

  predicate HasRoutes(s: seq<Record>, id: string) { exists r <- s :: r.agentId == id && r.routes != [] }

  predicate KeyTaken(s: seq<Record>, id: string, key: Key) { exists r <- s :: r.agentId != id && r.pub == Some(key) }

  /** What one request leaves in the database; a refused one leaves it alone. */
  function Apply(st: Store, a: Action): Store {
    match a
    case CreateSite(id, name, lines, mode) => Created(st, id, name, lines, mode)
    case EnrollSite(id, key, lines, mode) =>
      if !HasId(st.sites, id) then st
      else (match Routed(st.sites, id, lines, mode)
            case None => st
            case Some(s) => st.(sites := WithKey(s, id, key)))
    case DetachSite(id) => st.(sites := Detached(st.sites, id))
    case SwitchSite(id, enabled) => st.(sites := Switched(st.sites, id, enabled))
    case RotateSecret(id, secret) => st.(sites := Rotated(st.sites, id, secret))
    case DeleteSite(id) => st.(sites := Without(st.sites, id))
    case AddDevice(name, user, key, secret, agents) =>
      if name == "" || agents == [] || exists d <- st.devices :: d.pub == key then st
      else (match LowestFree(HostsInUse(st), CLIENT_FIRST, CLIENT_LAST)
            case None => st
            case Some(h) => st.(devices := st.devices + [Device(name, user, h, key, secret, true, agents)]))
    case ListDevice(key, listed) => st.(devices := Listed(st.devices, key, listed))
    case GrantDevice(key, agents) =>
      if Existing(st.sites, agents) == [] then st
      else st.(devices := Granted(st.devices, key, Existing(st.sites, agents)))
    case RebindUser(user, secret) => st.(devices := Rebound(st.devices, user, secret))
    case DeleteDevice(key) => st.(devices := WithoutDevice(st.devices, key))
  }

  function Created(st: Store, id: string, name: string, lines: seq<Line>, mode: RouteMode): Store {
    if !ValidId(id) || HasId(st.sites, id) || ParseLines(lines).None? then st
    else match Assign(mode, ParseLines(lines).value, OtherEffective(SitesOf(st.sites), None))
      case None => st
      case Some(routes) =>
        match LowestFree(HostsInUse(st), AGENT_FIRST, AGENT_LAST)
        case None => st
        case Some(h) =>
          var shown := if name != "" then name else id;
          st.(sites := st.sites + [Record(id, shown, h, routes, None, true, "")])
  }

  /** The enrolling site's routes: the ones it has, else the reported ones, assigned. */
  function Routed(s: seq<Record>, id: string, lines: seq<Line>, mode: RouteMode): Option<seq<Record>> {
    if HasRoutes(s, id) then Some(s)
    else if lines == [] || ParseLines(lines).None? then None
    else match Assign(mode, ParseLines(lines).value, OtherEffective(SitesOf(s), Some(id)))
      case None => None
      case Some(routes) => Some(WithRoutes(s, id, routes))
  }

  function WithRoutes(s: seq<Record>, id: string, routes: seq<AgentRoute>): (r: seq<Record>)
    ensures |r| == |s|
    ensures forall i | 0 <= i < |s| ::
      r[i] == if s[i].agentId == id && s[i].routes == [] then s[i].(routes := routes) else s[i]
  {
    seq(|s|, i requires 0 <= i < |s| =>
      if s[i].agentId == id && s[i].routes == [] then s[i].(routes := routes) else s[i])
  }

  /** Keys are unique in the database: binding one that another site has fails. */
  function WithKey(s: seq<Record>, id: string, key: Key): (r: seq<Record>)
    ensures |r| == |s|
    ensures forall i | 0 <= i < |s| ::
      r[i] == if s[i].agentId == id && !KeyTaken(s, id, key) then s[i].(pub := Some(key), totpSecret := "") else s[i]
  {
    seq(|s|, i requires 0 <= i < |s| =>
      if s[i].agentId == id && !KeyTaken(s, id, key) then s[i].(pub := Some(key), totpSecret := "") else s[i])
  }

  function Detached(s: seq<Record>, id: string): (r: seq<Record>)
    ensures |r| == |s| && forall i | 0 <= i < |s| :: r[i] == if s[i].agentId == id then s[i].(pub := None) else s[i]
  {
    seq(|s|, i requires 0 <= i < |s| => if s[i].agentId == id then s[i].(pub := None) else s[i])
  }

  function Switched(s: seq<Record>, id: string, enabled: bool): (r: seq<Record>)
    ensures |r| == |s|
    ensures forall i | 0 <= i < |s| :: r[i] == if s[i].agentId == id then s[i].(enabled := enabled) else s[i]
  {
    seq(|s|, i requires 0 <= i < |s| => if s[i].agentId == id then s[i].(enabled := enabled) else s[i])
  }

  function Rotated(s: seq<Record>, id: string, secret: string): (r: seq<Record>)
    ensures |r| == |s|
    ensures forall i | 0 <= i < |s| :: r[i] == if s[i].agentId == id then s[i].(totpSecret := secret) else s[i]
  {
    seq(|s|, i requires 0 <= i < |s| => if s[i].agentId == id then s[i].(totpSecret := secret) else s[i])
  }

  function Listed(d: seq<Device>, key: Key, listed: bool): (r: seq<Device>)
    ensures |r| == |d| && forall i | 0 <= i < |d| :: r[i] == if d[i].pub == key then d[i].(listed := listed) else d[i]
  {
    seq(|d|, i requires 0 <= i < |d| => if d[i].pub == key then d[i].(listed := listed) else d[i])
  }

  /** The chosen ids that name a site. */
  function Existing(s: seq<Record>, agents: seq<string>): (r: seq<string>)
    ensures forall a <- r :: a in agents && HasId(s, a)
  {
    if agents == [] then []
    else
      var last := agents[|agents| - 1];
      Existing(s, agents[..|agents| - 1]) + if HasId(s, last) then [last] else []
  }

  function Granted(d: seq<Device>, key: Key, agents: seq<string>): (r: seq<Device>)
    ensures |r| == |d| && forall i | 0 <= i < |d| :: r[i] == if d[i].pub == key then d[i].(agents := agents) else d[i]
  {
    seq(|d|, i requires 0 <= i < |d| => if d[i].pub == key then d[i].(agents := agents) else d[i])
  }

  function Rebound(d: seq<Device>, user: string, secret: string): (r: seq<Device>)
    ensures |r| == |d|
    ensures forall i | 0 <= i < |d| ::
      r[i] == if d[i].user == user then d[i].(totpSecret := secret, listed := false) else d[i]
  {
    seq(|d|, i requires 0 <= i < |d| =>
      if d[i].user == user then d[i].(totpSecret := secret, listed := false) else d[i])
  }

  function Without(s: seq<Record>, id: string): (r: seq<Record>)
    ensures forall x <- r :: x in s && x.agentId != id
  {
    if s == [] then []
    else if s[|s| - 1].agentId == id then Without(s[..|s| - 1], id)
    else Without(s[..|s| - 1], id) + [s[|s| - 1]]
  }

  function WithoutDevice(d: seq<Device>, key: Key): (r: seq<Device>)
    ensures forall x <- r :: x in d && x.pub != key
  {
    if d == [] then []
    else if d[|d| - 1].pub == key then WithoutDevice(d[..|d| - 1], key)
    else WithoutDevice(d[..|d| - 1], key) + [d[|d| - 1]]
  }

  function Run(actions: seq<Action>): Store {
    if actions == [] then Store([], []) else Apply(Run(actions[..|actions| - 1]), actions[|actions| - 1])
  }

  // ------------------------------------------------------ what a request does

  /** Site `id` changed by `f`, every other as it was. */
  ghost predicate Edited(s: seq<Record>, s2: seq<Record>, id: string, f: Record -> Record) {
    |s2| == |s| && forall i | 0 <= i < |s| :: s2[i] == if s[i].agentId == id then f(s[i]) else s[i]
  }

  /** The requests that change one site: a new install code takes its key, a switch and a secret are as asked,
      and deleting takes exactly it. */
  lemma SiteRequest(st: Store, id: string, on: bool, secret: string)
    ensures var s2 := Apply(st, DetachSite(id));
      s2.devices == st.devices && Edited(st.sites, s2.sites, id, (r: Record) => r.(pub := None))
    ensures var s2 := Apply(st, SwitchSite(id, on));
      s2.devices == st.devices && Edited(st.sites, s2.sites, id, (r: Record) => r.(enabled := on))
    ensures var s2 := Apply(st, RotateSecret(id, secret));
      s2.devices == st.devices && Edited(st.sites, s2.sites, id, (r: Record) => r.(totpSecret := secret))
    ensures var s2 := Apply(st, DeleteSite(id));
      s2.devices == st.devices && forall r :: r in s2.sites <==> r in st.sites && r.agentId != id
  {
    WithoutIs(st.sites, id);
  }

  lemma {:induction false} WithoutIs(s: seq<Record>, id: string)
    ensures forall r :: r in Without(s, id) <==> r in s && r.agentId != id
  {
    if s != [] {
      WithoutIs(s[..|s| - 1], id);
      assert s == s[..|s| - 1] + [s[|s| - 1]];
    }
  }

  /** The requests that change devices: listing and granting one key's, re-binding all of an owner's, deleting
      exactly that key's. A grant keeps the ids that name a site and is refused if none does. */
  lemma DeviceRequest(st: Store, key: Key, on: bool, agents: seq<string>, user: string, secret: string)
    ensures var s2 := Apply(st, ListDevice(key, on));
      && s2.sites == st.sites
      && EditedDevices(st.devices, s2.devices, (d: Device) => d.pub == key, (d: Device) => d.(listed := on))
    ensures var s2 := Apply(st, RebindUser(user, secret));
      && s2.sites == st.sites
      && EditedDevices(st.devices, s2.devices, (d: Device) => d.user == user,
                       (d: Device) => d.(totpSecret := secret, listed := false))
    ensures var s2 := Apply(st, DeleteDevice(key));
      s2.sites == st.sites && forall d :: d in s2.devices <==> d in st.devices && d.pub != key
    ensures var s2, kept := Apply(st, GrantDevice(key, agents)), Existing(st.sites, agents);
      && (forall a :: a in kept <==> a in agents && HasId(st.sites, a))
      && s2.sites == st.sites
      && if kept == [] then s2 == st
         else EditedDevices(st.devices, s2.devices, (d: Device) => d.pub == key, (d: Device) => d.(agents := kept))
  {
    WithoutDeviceIs(st.devices, key);
    ExistingIs(st.sites, agents);
  }

  ghost predicate EditedDevices(d: seq<Device>, d2: seq<Device>, which: Device -> bool, f: Device -> Device) {
    |d2| == |d| && forall i | 0 <= i < |d| :: d2[i] == if which(d[i]) then f(d[i]) else d[i]
  }

  lemma {:induction false} WithoutDeviceIs(d: seq<Device>, key: Key)
    ensures forall x :: x in WithoutDevice(d, key) <==> x in d && x.pub != key
  {
    if d != [] {
      WithoutDeviceIs(d[..|d| - 1], key);
      assert d == d[..|d| - 1] + [d[|d| - 1]];
    }
  }

  lemma {:induction false} ExistingIs(s: seq<Record>, agents: seq<string>)
    ensures forall a :: a in Existing(s, agents) <==> a in agents && HasId(s, a)
  {
    if agents != [] {
      ExistingIs(s, agents[..|agents| - 1]);
      assert agents == agents[..|agents| - 1] + [agents[|agents| - 1]];
    }
  }

  /** Host `h` is the lowest of the range that nobody has. */
  predicate FreeHost(st: Store, h: nat, first: nat, last: nat) {
    && first <= h <= last && !Taken(st, h) && forall i | first <= i < h :: Taken(st, i)
  }

  predicate Taken(st: Store, h: nat) { (exists r <- st.sites :: r.host == h) || exists d <- st.devices :: d.host == h }

  lemma {:induction false} LowestFreeIs(st: Store, first: nat, last: nat)
    ensures LowestFree(HostsInUse(st), first, last).None? <==> forall i | first <= i <= last :: Taken(st, i)
    ensures LowestFree(HostsInUse(st), first, last).Some? ==>
      FreeHost(st, LowestFree(HostsInUse(st), first, last).value, first, last)
    decreases last + 1 - first
  {
    assert forall i :: i in HostsInUse(st) <==> Taken(st, i);
    if first <= last && Taken(st, first) { LowestFreeIs(st, first + 1, last); }
  }

  /** A new site: refused for a bad or known id, an unreadable line, routes that cannot be assigned next to all the
      other sites', or without a free host from 100 to 254; else added, unenrolled, switched on. */
  lemma CreateRequest(st: Store, id: string, name: string, lines: seq<Line>, mode: RouteMode)
    ensures var s2, lans := Apply(st, CreateSite(id, name, lines, mode)), ParseLines(lines);
      var routes := if lans.Some? then Assign(mode, lans.value, OtherEffective(SitesOf(st.sites), None)) else None;
      if |id| == 0 || |id| > 32 || (exists c <- id :: !('a' <= c <= 'z' || '0' <= c <= '9' || c == '-'))
         || HasId(st.sites, id) || routes.None? || (forall i | 100 <= i <= 254 :: Taken(st, i)) then s2 == st
      else
        && s2.devices == st.devices
        && exists h: nat :: FreeHost(st, h, 100, 254)
             && s2.sites == st.sites + [Record(id, if name == "" then id else name, h, routes.value, None, true, "")]
  {
    LowestFreeIs(st, 100, 254);
  }

  /** A new device: refused without a name or sites, for a known key, or without a free host from 2 to 99. */
  lemma AddRequest(st: Store, name: string, user: string, key: Key, secret: string, agents: seq<string>)
    ensures var s2 := Apply(st, AddDevice(name, user, key, secret, agents));
      if name == "" || agents == [] || (exists d <- st.devices :: d.pub == key)
         || (forall i | 2 <= i <= 99 :: Taken(st, i)) then s2 == st
      else
        && s2.sites == st.sites
        && exists h: nat :: FreeHost(st, h, 2, 99)
             && s2.devices == st.devices + [Device(name, user, h, key, secret, true, agents)]
  {
    LowestFreeIs(st, 2, 99);
  }

  /** An enrollment: refused for an unknown id, or for a site without routes whose lines are missing, unreadable or
      cannot be assigned; else the site gets those routes if it had none, and the key without a secret
      unless another site has it. */
  lemma EnrollRequest(st: Store, id: string, key: Key, lines: seq<Line>, mode: RouteMode)
    ensures var s2, lans := Apply(st, EnrollSite(id, key, lines, mode)), ParseLines(lines);
      var routes := if lines == [] || lans.None? then None
                    else Assign(mode, lans.value, OtherEffective(SitesOf(st.sites), Some(id)));
      && s2.devices == st.devices
      && if !HasId(st.sites, id) || (!HasRoutes(st.sites, id) && routes.None?) then s2 == st
         else Enrolls(st.sites, s2.sites, id, key, routes)
  {
    var lans := ParseLines(lines);
    if HasId(st.sites, id) && Routed(st.sites, id, lines, mode).Some? {
      var routes := if lines == [] || lans.None? then None
                    else Assign(mode, lans.value, OtherEffective(SitesOf(st.sites), Some(id)));
      BindsKey(st.sites, Routed(st.sites, id, lines, mode).value, id, key, routes);
    }
  }

  lemma BindsKey(s: seq<Record>, s1: seq<Record>, id: string, key: Key, routes: Option<seq<AgentRoute>>)
    requires if HasRoutes(s, id) then s1 == s else routes.Some? && s1 == WithRoutes(s, id, routes.value)
    ensures Enrolls(s, WithKey(s1, id, key), id, key, routes)
  {
    SameTaken(s, s1, id, key);
    if !HasRoutes(s, id) {
      forall i | 0 <= i < |s| && s[i].agentId == id ensures s[i].routes == [] { assert s[i] in s; }
    }
  }

  lemma SameTaken(s: seq<Record>, s1: seq<Record>, id: string, key: Key)
    requires |s1| == |s| && forall i | 0 <= i < |s| && s[i].agentId != id :: s1[i] == s[i]
    requires forall i | 0 <= i < |s| && s[i].agentId == id :: s1[i].agentId == id
    ensures KeyTaken(s1, id, key) <==> exists r <- s :: r.agentId != id && r.pub == Some(key)
  {
    if r :| r in s && r.agentId != id && r.pub == Some(key) {
      var i :| 0 <= i < |s| && s[i] == r;
      assert s1[i] in s1 && s1[i] == r;
    }
    if r :| r in s1 && r.agentId != id && r.pub == Some(key) {
      var i :| 0 <= i < |s1| && s1[i] == r;
      assert s[i] in s && s[i] == r;
    }
  }

  ghost predicate Enrolls(s: seq<Record>, s2: seq<Record>, id: string, key: Key, routes: Option<seq<AgentRoute>>) {
    && |s2| == |s|
    && forall i | 0 <= i < |s| :: if s[i].agentId != id then s2[i] == s[i] else
         && s2[i].routes == (if HasRoutes(s, id) || routes.None? then s[i].routes
                             else if s[i].routes == [] then routes.value else s[i].routes)
         && s2[i] == s[i].(routes := s2[i].routes, pub := s2[i].pub, totpSecret := s2[i].totpSecret)
         && (if exists r <- s :: r.agentId != id && r.pub == Some(key)
             then s2[i].pub == s[i].pub && s2[i].totpSecret == s[i].totpSecret
             else s2[i].pub == Some(key) && s2[i].totpSecret == "")
  }

  // ------------------------------------------------------------- the invariant

  ghost predicate SiteDisjoint(r: Record) { PairwiseDisjoint(Effectives(r.routes)) }

  ghost predicate Apart(r: Record, q: Record) {
    forall x <- r.routes, y <- q.routes :: !x.Effective().Overlaps(y.Effective())
  }

  ghost predicate RecordOK(r: Record) {
    && SiteDisjoint(r) && AGENT_FIRST <= r.host <= AGENT_LAST && ValidId(r.agentId) && r.name != ""
    && forall x <- r.routes :: x.Formed() && !x.Effective().Overlaps(TUNNEL_NET)
  }

  ghost predicate Distinct(r: Record, q: Record) {
    && r.agentId != q.agentId && r.host != q.host && Apart(r, q) && Apart(q, r)
    && (r.pub.Some? ==> r.pub != q.pub)
  }

  /** Ids, keys and addresses identify sites, published prefixes are disjoint everywhere. */
  ghost predicate SitesOK(s: seq<Record>) {
    && (forall r <- s :: RecordOK(r))
    && (forall i, j | 0 <= i < j < |s| :: Distinct(s[i], s[j]))
  }

  ghost predicate DevicesOK(d: seq<Device>) {
    && (forall x <- d :: CLIENT_FIRST <= x.host <= CLIENT_LAST && x.name != "")
    && (forall i, j | 0 <= i < j < |d| :: d[i].host != d[j].host && d[i].pub != d[j].pub)
  }

  ghost predicate StoreOK(st: Store) { SitesOK(st.sites) && DevicesOK(st.devices) }

  /** New routes for `id` meet neither each other, nor the tunnel network, nor any other site. */
  lemma NewRoutesFit(mode: RouteMode, lans: seq<AgentRoute>, s: seq<Record>, self: Option<string>)
    requires Assign(mode, lans, OtherEffective(SitesOf(s), self)).Some?
    ensures var routes := Assign(mode, lans, OtherEffective(SitesOf(s), self)).value;
      && PairwiseDisjoint(Effectives(routes))
      && (forall x <- routes :: !x.Effective().Overlaps(TUNNEL_NET))
      && forall i, x, y | 0 <= i < |s| && self != Some(s[i].agentId) && x in routes && y in s[i].routes ::
           !x.Effective().Overlaps(y.Effective())
  {
    var used := OtherEffective(SitesOf(s), self);
    var routes := Assign(mode, lans, used).value;
    AssignDisjoint(mode, lans, used);
    forall i, x, y | 0 <= i < |s| && self != Some(s[i].agentId) && x in routes && y in s[i].routes
      ensures !x.Effective().Overlaps(y.Effective())
    {
      var site := SitesOf(s)[i];
      var j :| 0 <= j < |site.routes| && site.routes[j] == y;
      OtherEffectiveHolds(SitesOf(s), self, site, j);
      var k :| 0 <= k < |routes| && routes[k] == x;
    }
  }

  lemma ApartSymmetric(r: Record, q: Record)
    requires Apart(r, q)
    ensures Apart(q, r)
  {
    forall x, y | x in q.routes && y in r.routes ensures !x.Effective().Overlaps(y.Effective()) {
      OverlapsSymmetric(x.Effective(), y.Effective());
    }
  }

  lemma CreateOK(st: Store, id: string, name: string, lines: seq<Line>, mode: RouteMode)
    requires StoreOK(st)
    ensures StoreOK(Created(st, id, name, lines, mode))
  {
    var st2 := Created(st, id, name, lines, mode);
    if st2 != st {
      var lans := ParseLines(lines).value;
      LinesFormed(lines);
      AssignFormed(mode, lans, OtherEffective(SitesOf(st.sites), None));
      NewRoutesFit(mode, lans, st.sites, None);
      var r := st2.sites[|st.sites|];
      forall i | 0 <= i < |st.sites| ensures Distinct(st.sites[i], r) {
        assert st.sites[i] in st.sites;
        assert st.sites[i].host in HostsInUse(st);
        assert Apart(r, st.sites[i]);
        ApartSymmetric(r, st.sites[i]);
      }
    }
  }

  /** Records whose id, name, address and routes are as before. */
  ghost predicate SameSites(s: seq<Record>, s2: seq<Record>) {
    && |s2| == |s|
    && forall i | 0 <= i < |s| ::
         s2[i] == s[i].(pub := s2[i].pub, enabled := s2[i].enabled, totpSecret := s2[i].totpSecret)
  }

  lemma SameSitesOK(s: seq<Record>, s2: seq<Record>)
    requires SitesOK(s) && SameSites(s, s2)
    requires forall i, j | 0 <= i < j < |s2| && s2[i].pub.Some? :: s2[i].pub != s2[j].pub
    ensures SitesOK(s2)
  {
    forall i | 0 <= i < |s2| ensures RecordOK(s2[i]) { assert s[i] in s; }
    forall i, j | 0 <= i < j < |s2| ensures Distinct(s2[i], s2[j]) { assert Distinct(s[i], s[j]); }
  }

  lemma WithKeyOK(s: seq<Record>, id: string, key: Key)
    requires SitesOK(s)
    ensures SitesOK(WithKey(s, id, key))
  {
    var s2 := WithKey(s, id, key);
    forall i, j | 0 <= i < j < |s2| && s2[i].pub.Some? ensures s2[i].pub != s2[j].pub {
      assert Distinct(s[i], s[j]) && s[i] in s && s[j] in s;
    }
    SameSitesOK(s, s2);
  }

  lemma RoutedOK(s: seq<Record>, id: string, lines: seq<Line>, mode: RouteMode)
    requires SitesOK(s) && Routed(s, id, lines, mode).Some?
    ensures SitesOK(Routed(s, id, lines, mode).value)
  {
    var s2 := Routed(s, id, lines, mode).value;
    if !HasRoutes(s, id) {
      var lans := ParseLines(lines).value;
      LinesFormed(lines);
      AssignFormed(mode, lans, OtherEffective(SitesOf(s), Some(id)));
      NewRoutesFit(mode, lans, s, Some(id));
      forall i, j | 0 <= i < j < |s2| ensures Distinct(s2[i], s2[j]) {
        assert Distinct(s[i], s[j]);
        if s2[i] != s[i] {
          assert Apart(s2[i], s[j]);
          ApartSymmetric(s2[i], s[j]);
        } else if s2[j] != s[j] {
          assert Apart(s2[j], s[i]);
          ApartSymmetric(s2[j], s[i]);
        }
      }
      forall i | 0 <= i < |s2| ensures RecordOK(s2[i]) { assert s[i] in s; }
    }
  }

  lemma {:induction false} WithoutOK(s: seq<Record>, id: string)
    requires SitesOK(s)
    ensures SitesOK(Without(s, id))
  {
    if s != [] {
      var front, last := s[..|s| - 1], s[|s| - 1];
      assert s == front + [last];
      WithoutOK(front, id);
      var rest := Without(front, id);
      forall i | 0 <= i < |rest| ensures Distinct(rest[i], last) {
        assert rest[i] in rest;
        var k :| 0 <= k < |front| && front[k] == rest[i];
        assert s[k] == front[k];
      }
    }
  }

  lemma {:induction false} WithoutDeviceOK(d: seq<Device>, key: Key)
    requires DevicesOK(d)
    ensures DevicesOK(WithoutDevice(d, key))
  {
    if d != [] {
      var front, last := d[..|d| - 1], d[|d| - 1];
      assert d == front + [last];
      WithoutDeviceOK(front, key);
      var rest := WithoutDevice(front, key);
      forall i | 0 <= i < |rest| ensures rest[i].host != last.host && rest[i].pub != last.pub {
        assert rest[i] in rest;
        var k :| 0 <= k < |front| && front[k] == rest[i];
        assert d[k] == front[k];
      }
    }
  }

  /** Devices whose name, address and key are as before. */
  lemma SameDevicesOK(d: seq<Device>, d2: seq<Device>)
    requires DevicesOK(d) && |d2| == |d|
    requires forall i | 0 <= i < |d| :: d2[i].host == d[i].host && d2[i].pub == d[i].pub && d2[i].name == d[i].name
    ensures DevicesOK(d2)
  {
    forall x | x in d2 ensures CLIENT_FIRST <= x.host <= CLIENT_LAST && x.name != "" {
      var i :| 0 <= i < |d2| && d2[i] == x;
      assert d[i] in d;
    }
  }

  lemma AddDeviceOK(st: Store, name: string, user: string, key: Key, secret: string, agents: seq<string>)
    requires StoreOK(st)
    ensures StoreOK(Apply(st, AddDevice(name, user, key, secret, agents)))
  {
    var st2 := Apply(st, AddDevice(name, user, key, secret, agents));
    if st2 != st {
      forall i | 0 <= i < |st.devices| ensures st.devices[i].host != st2.devices[|st.devices|].host {
        assert st.devices[i] in st.devices;
        assert st.devices[i].host in HostsInUse(st);
      }
    }
  }

  lemma ApplyOK(st: Store, a: Action)
    requires StoreOK(st)
    ensures StoreOK(Apply(st, a))
  {
    match a
    case CreateSite(id, name, lines, mode) => CreateOK(st, id, name, lines, mode);
    case EnrollSite(id, key, lines, mode) =>
      if HasId(st.sites, id) && Routed(st.sites, id, lines, mode).Some? {
        RoutedOK(st.sites, id, lines, mode);
        WithKeyOK(Routed(st.sites, id, lines, mode).value, id, key);
      }
    case DetachSite(id) =>
      assert forall i, j | 0 <= i < j < |st.sites| :: Distinct(st.sites[i], st.sites[j]);
      SameSitesOK(st.sites, Detached(st.sites, id));
    case SwitchSite(id, enabled) =>
      assert forall i, j | 0 <= i < j < |st.sites| :: Distinct(st.sites[i], st.sites[j]);
      SameSitesOK(st.sites, Switched(st.sites, id, enabled));
    case RotateSecret(id, secret) =>
      assert forall i, j | 0 <= i < j < |st.sites| :: Distinct(st.sites[i], st.sites[j]);
      SameSitesOK(st.sites, Rotated(st.sites, id, secret));
    case DeleteSite(id) => WithoutOK(st.sites, id);
    case AddDevice(name, user, key, secret, agents) => AddDeviceOK(st, name, user, key, secret, agents);
    case ListDevice(key, listed) => SameDevicesOK(st.devices, Listed(st.devices, key, listed));
    case GrantDevice(key, agents) =>
      SameDevicesOK(st.devices, Granted(st.devices, key, Existing(st.sites, agents)));
    case RebindUser(user, secret) => SameDevicesOK(st.devices, Rebound(st.devices, user, secret));
    case DeleteDevice(key) => WithoutDeviceOK(st.devices, key);
  }

  /** Over any sequence of requests sites never collide, and keys, ids and addresses stay unique. */
  lemma {:induction false} RunOK(actions: seq<Action>)
    ensures StoreOK(Run(actions))
  {
    if actions != [] {
      RunOK(actions[..|actions| - 1]);
      ApplyOK(Run(actions[..|actions| - 1]), actions[|actions| - 1]);
    }
  }

  // ------------------------------------------------- what the hub makes of it

  const TUNNEL_BASE: nat := 172818432   // 10.77.0.0

  function TunnelAddr(host: nat): Addr { Addr(IPv4, TUNNEL_BASE + host) }

  /** Peer `r` runs site `s`: the registry carries the effective prefixes, masked. */
  predicate RunsSite(cfg: PeerConfig, s: Record) {
    && cfg.role == RoleAgent && cfg.id == s.agentId && s.agentId != "" && cfg.tunnelIP == Some(TunnelAddr(s.host))
    && |cfg.routes| == |s.routes|
    && forall i | 0 <= i < |s.routes| ::
         cfg.routes[i].lan == s.routes[i].lan.Masked() && cfg.routes[i].virt == s.routes[i].Effective().Masked()
  }

  predicate RunsDevice(cfg: PeerConfig, d: Device) {
    cfg.role == RoleClient && cfg.tunnelIP == Some(TunnelAddr(d.host))
  }

  /** The hub's peers are the published records: each peer one record, no record twice. */
  ghost predicate Published(st: Store, cfgs: Configs, site: map<Ref, nat>, device: map<Ref, nat>) {
    && (forall r <- cfgs :: if cfgs[r].role == RoleAgent
          then r in site && site[r] < |st.sites| && RunsSite(cfgs[r], st.sites[site[r]])
          else r in device && device[r] < |st.devices| && RunsDevice(cfgs[r], st.devices[device[r]]))
    && (forall r, q | r in site && q in site && r != q :: site[r] != site[q])
    && (forall r, q | r in device && q in device && r != q :: device[r] != device[q])
  }

  lemma RoutesApart(st: Store, a: nat, i: nat, b: nat, j: nat)
    requires SitesOK(st.sites) && a < |st.sites| && b < |st.sites|
    requires i < |st.sites[a].routes| && j < |st.sites[b].routes| && (a != b || i != j)
    ensures !st.sites[a].routes[i].Effective().Overlaps(st.sites[b].routes[j].Effective())
  {
    var x, y := st.sites[a].routes[i], st.sites[b].routes[j];
    assert x in st.sites[a].routes && y in st.sites[b].routes;
    OverlapsSymmetric(x.Effective(), y.Effective());
    if a < b {
      assert Apart(st.sites[a], st.sites[b]);
    } else if b < a {
      assert Apart(st.sites[b], st.sites[a]);
    } else {
      assert st.sites[a] in st.sites;
      var e := Effectives(st.sites[a].routes);
      if i < j { assert !e[i].Overlaps(e[j]); } else { assert !e[j].Overlaps(e[i]); }
    }
  }

  lemma DeclarationsApart(st: Store, cfgs: Configs, site: map<Ref, nat>, device: map<Ref, nat>,
                          r: Ref, i: nat, q: Ref, j: nat)
    requires StoreOK(st) && Published(st, cfgs, site, device)
    requires r in cfgs && q in cfgs && cfgs[r].role == cfgs[q].role == RoleAgent
    requires i < |cfgs[r].routes| && j < |cfgs[q].routes| && (r != q || i != j)
    ensures !cfgs[r].routes[i].virt.Overlaps(cfgs[q].routes[j].virt)
  {
    var a, b := site[r], site[q];
    var x, y := st.sites[a].routes[i].Effective(), st.sites[b].routes[j].Effective();
    RoutesApart(st, a, i, b, j);
    MaskedSameBlock(x);
    MaskedSameBlock(y);
    assert x.Masked().Overlaps(y.Masked()) == x.Overlaps(y.Masked());
    OverlapsSymmetric(x, y.Masked());
    OverlapsSymmetric(y, x);
  }

  /** The whole chain: after any sequence of requests, whatever peers the hub loads from the
      published records, its rebuild reports no conflict, no address matches two declared
      prefixes, and agent ids and tunnel addresses are unique. */
  lemma HubTableUnambiguous(actions: seq<Action>, cfgs: Configs, site: map<Ref, nat>, device: map<Ref, nat>)
    requires Published(Run(actions), cfgs, site, device)
    ensures !Clash(cfgs)
    ensures forall dst, r, q, p, p2: Prefix ::
      Declares(cfgs, r, p) && Declares(cfgs, q, p2) && p.Contains(dst) && p2.Contains(dst) ==> r == q && p == p2
    ensures DistinctIds(cfgs) && UniqueClientIPs(cfgs) && UniqueAgentIPs(cfgs)
  {
    var st := Run(actions);
    RunOK(actions);
    if Clash(cfgs) {
      var r, q, i, j :|
        && r in cfgs && q in cfgs && cfgs[r].role == cfgs[q].role == RoleAgent
        && 0 <= i < |cfgs[r].routes| && 0 <= j < |cfgs[q].routes| && (r != q || i != j)
        && cfgs[r].routes[i].virt == cfgs[q].routes[j].virt;
      DeclarationsApart(st, cfgs, site, device, r, i, q, j);
    }
    forall dst, r, q, p, p2: Prefix
      | Declares(cfgs, r, p) && Declares(cfgs, q, p2) && p.Contains(dst) && p2.Contains(dst)
      ensures r == q && p == p2
    {
      SharedMeansOverlaps(p, p2, dst);
      var i := RouteIndex(cfgs[r], p);
      var j := RouteIndex(cfgs[q], p2);
      if r != q || i != j { DeclarationsApart(st, cfgs, site, device, r, i, q, j); }
    }
    PublishedApart(st, cfgs, site, device);
  }

  lemma PublishedApart(st: Store, cfgs: Configs, site: map<Ref, nat>, device: map<Ref, nat>)
    requires StoreOK(st) && Published(st, cfgs, site, device)
    ensures DistinctIds(cfgs) && UniqueClientIPs(cfgs) && UniqueAgentIPs(cfgs)
  {
    forall r, q | r in cfgs && q in cfgs && r != q && cfgs[r].role == cfgs[q].role == RoleAgent
      ensures cfgs[r].Id() != cfgs[q].Id()
    {
      assert site[r] != site[q];
      if site[r] < site[q] { assert st.sites[site[r]].agentId != st.sites[site[q]].agentId; }
      else { assert st.sites[site[q]].agentId != st.sites[site[r]].agentId; }
    }
    forall r, q | r in cfgs && q in cfgs && r != q && cfgs[r].role == cfgs[q].role == RoleAgent
      ensures cfgs[r].tunnelIP != cfgs[q].tunnelIP
    {
      assert site[r] != site[q];
      if site[r] < site[q] { assert st.sites[site[r]].host != st.sites[site[q]].host; }
      else { assert st.sites[site[q]].host != st.sites[site[r]].host; }
    }
    forall r, q | r in cfgs && q in cfgs && r != q && cfgs[r].role == cfgs[q].role == RoleClient
      ensures cfgs[r].tunnelIP != cfgs[q].tunnelIP
    {
      assert device[r] != device[q];
      if device[r] < device[q] { assert st.devices[device[r]].host != st.devices[device[q]].host; }
      else { assert st.devices[device[q]].host != st.devices[device[r]].host; }
    }
  }

  lemma RouteIndex(cfg: PeerConfig, p: Prefix) returns (i: nat)
    requires cfg.Publishes(p)
    ensures i < |cfg.routes| && cfg.routes[i].virt == p
  {
    var m :| m in cfg.routes && m.virt == p;
    i :| 0 <= i < |cfg.routes| && cfg.routes[i] == m;
  }
}
