/** The property cache of a D-Bus client, the proxies that mirror it, and the collections of proxies. */
module DBusCaches {
  import opened Options

  type Props = map<string, string>

  /** A proxy keeps every property it has ever been given. */
  datatype Proxy = Proxy(path: string, iface: string, data: Props, valid: bool)

  /** A collection of the proxies of one interface, by path. */
  datatype Group = Group(iface: string, members: map<string, nat>)

  datatype Target = ProxyUpdate(proxy: nat) | GroupUpdate(group: nat)

  /** Without a path, a callback is for every path. */
  datatype Callback = Callback(path: Option<string>, iface: string, target: Target)

  datatype Kind = Added | Changed | Removed

  /** An event of a collection, with the proxy as listeners find it. */
  datatype Report = Report(kind: Kind, group: nat, path: string, proxy: Proxy)

  /** Proxies and collections are known by their place; `paths` lists the keys of `data`, oldest first. */
  datatype Cache = Cache(data: map<string, map<string, Props>>, paths: seq<string>, callbacks: seq<Callback>,
                         proxies: seq<Proxy>, groups: seq<Group>, reports: seq<Report>)

  const EMPTY := Cache(map[], [], [], [], [], [])

  function Lookup(data: map<string, map<string, Props>>, path: string, iface: string): Option<Props> {
    if path in data && iface in data[path] then Some(data[path][iface]) else None
  }

  function ProxyUpdated(c: Cache, i: nat, props: Option<Props>): Cache {
    if i >= |c.proxies| then c
    else
      var p := c.proxies[i];
      c.(proxies := c.proxies[i := if props.Some? then p.(data := p.data + props.value, valid := true)
                                   else p.(valid := false)])
  }

  /** A new proxy listens ahead of everyone else and looks itself up. */
  function WithProxy(c: Cache, iface: string, path: string): Cache {
    var i := |c.proxies|;
    var connected := c.(callbacks := [Callback(Some(path), iface, ProxyUpdate(i))] + c.callbacks,
                        proxies := c.proxies + [Proxy(path, iface, map[], false)]);
    ProxyUpdated(connected, i, Lookup(c.data, path, iface))
  }

  function Reported(c: Cache, kind: Kind, g: nat, path: string, i: nat): Cache {
    if i < |c.proxies| then c.(reports := c.reports + [Report(kind, g, path, c.proxies[i])]) else c
  }

  function WithMember(c: Cache, g: nat, path: string): Cache
    requires g < |c.groups|
  {
    var group := c.groups[g];
    var grown := WithProxy(c, group.iface, path).(groups := c.groups[g := group.(members := group.members[path := |c.proxies|])]);
    Reported(grown, Added, g, path, |c.proxies|)
  }

  function GroupUpdated(c: Cache, g: nat, props: Option<Props>, path: string): Cache {
    if g >= |c.groups| || path == "" then c
    else
      var group := c.groups[g];
      if props == None then
        if path !in group.members then c
        else
          var less := c.(groups := c.groups[g := group.(members := group.members - {path})]);
          Reported(less, Removed, g, path, group.members[path])
      else
        var more := if path in group.members then c else WithMember(c, g, path);
        Reported(more, Changed, g, path, if path in group.members then group.members[path] else |c.proxies|)
  }

  predicate Matches(cb: Callback, path: string, iface: string) {
    (cb.path == None || cb.path == Some(path)) && cb.iface == iface
  }

  function Deliver(c: Cache, cb: Callback, path: string, iface: string, props: Option<Props>): Cache {
    if !Matches(cb, path, iface) then c
    else
      match cb.target
      case ProxyUpdate(i) => ProxyUpdated(c, i, props)
      case GroupUpdate(g) => GroupUpdated(c, g, props, path)
  }

  /** The callbacks are those there were at the start, whatever the calls add. */
  function Emit(c: Cache, copy: seq<Callback>, path: string, iface: string, props: Option<Props>): Cache {
    if copy == [] then c
    else Deliver(Emit(c, copy[..|copy| - 1], path, iface, props), copy[|copy| - 1], path, iface, props)
  }

  function Put(c: Cache, path: string, iface: string, props: Props): Cache {
    var was := if path in c.data then c.data[path] else map[];
    c.(data := c.data[path := was[iface := props]], paths := if path in c.data then c.paths else c.paths + [path])
  }

  function Merged(before: Option<Props>, props: Props): Props {
    if before.Some? then before.value + props else props
  }

  function Update(c: Cache, path: string, iface: string, props: Props): Cache {
    var merged := Merged(Lookup(c.data, path, iface), props);
    Emit(Put(c, path, iface, merged), c.callbacks, path, iface, Some(merged))
  }

  function Without(c: Cache, path: string, iface: string): Cache
    requires path in c.data
  {
    c.(data := c.data[path := c.data[path] - {iface}])
  }

  function Remove(c: Cache, path: string, iface: string): Cache {
    if path in c.data then Emit(Without(c, path, iface), c.callbacks, path, iface, None) else c
  }

  /** What a notification says of one interface at one path: nothing for an interface that is gone. */
  datatype Notice = Notice(path: string, iface: string, props: Option<Props>)

  function Apply(c: Cache, n: Notice): Cache {
    if n.props.Some? then Update(c, n.path, n.iface, n.props.value) else Remove(c, n.path, n.iface)
  }

  function Notify(c: Cache, notices: seq<Notice>): Cache {
    if notices == [] then c else Apply(Notify(c, notices[..|notices| - 1]), notices[|notices| - 1])
  }

  /** A collection is told about each of the paths that has its interface. */
  function Each(c: Cache, g: nat, iface: string, paths: seq<string>): Cache {
    if paths == [] then c
    else
      var before, path := Each(c, g, iface, paths[..|paths| - 1]), paths[|paths| - 1];
      var props := Lookup(before.data, path, iface);
      if props.Some? then GroupUpdated(before, g, props, path) else before
  }

  function WithGroup(c: Cache, iface: string): Cache {
    var g := |c.groups|;
    var connected := c.(groups := c.groups + [Group(iface, map[])],
                        callbacks := c.callbacks + [Callback(None, iface, GroupUpdate(g))]);
    Each(connected, g, iface, c.paths)
  }

  // ----- The cache is the fold of the notices

  /** What a sequence of notices makes of one interface at one path. */
  function Latest(before: Option<Props>, notices: seq<Notice>, path: string, iface: string): Option<Props> {
    if notices == [] then before
    else
      var n, rest := notices[|notices| - 1], Latest(before, notices[..|notices| - 1], path, iface);
      if n.path != path || n.iface != iface then rest
      else if n.props == None then None
      else Some(Merged(rest, n.props.value))
  }

  lemma {:induction false} EmitKeepsData(c: Cache, copy: seq<Callback>, path: string, iface: string, props: Option<Props>)
    ensures Emit(c, copy, path, iface, props).data == c.data && Emit(c, copy, path, iface, props).paths == c.paths
  {
    if copy != [] {
      EmitKeepsData(c, copy[..|copy| - 1], path, iface, props);
    }
  }

  lemma {:induction false} CacheIsFold(c: Cache, notices: seq<Notice>, path: string, iface: string)
    ensures Lookup(Notify(c, notices).data, path, iface)
      == Latest(Lookup(c.data, path, iface), notices, path, iface)
  {
    hide Emit;
    if notices != [] {
      var n, less := notices[|notices| - 1], notices[..|notices| - 1];
      CacheIsFold(c, less, path, iface);
      var before := Notify(c, less);
      if n.props.Some? {
        var merged := Merged(Lookup(before.data, n.path, n.iface), n.props.value);
        EmitKeepsData(Put(before, n.path, n.iface, merged), before.callbacks, n.path, n.iface, Some(merged));
      } else if n.path in before.data {
        EmitKeepsData(Without(before, n.path, n.iface), before.callbacks, n.path, n.iface, None);
      }
    }
  }

  // ----- What proxies and collections mirror

  ghost predicate Agrees(data: Props, cached: Props) {
    forall k | k in cached :: k in data && data[k] == cached[k]
  }

  /** A proxy is valid if and only if its interface is cached, and then has every cached property. */
  ghost predicate ProxyGood(data: map<string, map<string, Props>>, p: Proxy) {
    var cached := Lookup(data, p.path, p.iface);
    p.valid == cached.Some? && (p.valid ==> Agrees(p.data, cached.value))
  }

  /** A collection has a proxy for a path if and only if its interface is cached there. */
  ghost predicate GroupGood(data: map<string, map<string, Props>>, group: Group, path: string) {
    path in group.members <==> path != "" && Lookup(data, path, group.iface).Some?
  }

  ghost predicate CallbackOk(c: Cache, cb: Callback) {
    match cb.target
    case ProxyUpdate(i) => i < |c.proxies| && cb == ProxyCallback(c.proxies[i], i)
    case GroupUpdate(g) => g < |c.groups| && cb == GroupCallback(c.groups[g], g)
  }

  function ProxyCallback(p: Proxy, i: nat): Callback {
    Callback(Some(p.path), p.iface, ProxyUpdate(i))
  }

  function GroupCallback(group: Group, g: nat): Callback {
    Callback(None, group.iface, GroupUpdate(g))
  }

  ghost predicate MembersOk(c: Cache, group: Group) {
    forall path | path in group.members ::
      var i := group.members[path];
      path != "" && i < |c.proxies| && c.proxies[i].path == path && c.proxies[i].iface == group.iface
  }

  /** Proxies are called before collections. */
  ghost predicate ProxiesFirst(callbacks: seq<Callback>) {
    forall a, b | 0 <= a < b < |callbacks| :: callbacks[b].target.ProxyUpdate? ==> callbacks[a].target.ProxyUpdate?
  }

  ghost predicate Linked(c: Cache) {
    && (forall cb | cb in c.callbacks :: CallbackOk(c, cb))
    && (forall i | 0 <= i < |c.proxies| :: ProxyCallback(c.proxies[i], i) in c.callbacks)
    && (forall g | 0 <= g < |c.groups| :: GroupCallback(c.groups[g], g) in c.callbacks)
    && (forall g | 0 <= g < |c.groups| :: MembersOk(c, c.groups[g]))
    && ProxiesFirst(c.callbacks)
    && (forall path | path in c.data :: path in c.paths)
  }

  /** Every proxy is good, except that those at one path with one interface may still be waiting for their call. */
  ghost predicate ProxiesGood(c: Cache, rest: seq<Callback>, path: string, iface: string) {
    forall i | 0 <= i < |c.proxies| ::
      || ProxyGood(c.data, c.proxies[i])
      || (c.proxies[i].path == path && c.proxies[i].iface == iface && ProxyCallback(c.proxies[i], i) in rest)
  }

  ghost predicate GroupsGood(c: Cache, rest: seq<Callback>, path: string, iface: string) {
    forall g, q | 0 <= g < |c.groups| ::
      || GroupGood(c.data, c.groups[g], q)
      || (q == path && c.groups[g].iface == iface && GroupCallback(c.groups[g], g) in rest)
  }

  ghost predicate Mirrors(c: Cache) {
    && Linked(c)
    && (forall i | 0 <= i < |c.proxies| :: ProxyGood(c.data, c.proxies[i]))
    && (forall g, q | 0 <= g < |c.groups| :: GroupGood(c.data, c.groups[g], q))
  }

  lemma ProxyUpdatedMirrors(c: Cache, i: nat, props: Option<Props>)
    requires Linked(c) && i < |c.proxies|
    requires props == Lookup(c.data, c.proxies[i].path, c.proxies[i].iface)
    ensures var n := ProxyUpdated(c, i, props);
      && Linked(n) && ProxyGood(n.data, n.proxies[i])
  {
    var n := ProxyUpdated(c, i, props);
    forall j | 0 <= j < |n.proxies|
      ensures ProxyCallback(n.proxies[j], j) in n.callbacks
    {
      assert ProxyCallback(c.proxies[j], j) in c.callbacks;
    }
    forall g | 0 <= g < |n.groups|
      ensures MembersOk(n, n.groups[g])
    {
      assert MembersOk(c, c.groups[g]);
    }
  }

  lemma WithProxyMirrors(c: Cache, iface: string, path: string)
    requires Linked(c)
    ensures var n := WithProxy(c, iface, path);
      && Linked(n) && |n.proxies| == |c.proxies| + 1 && n.proxies[..|c.proxies|] == c.proxies
      && n.proxies[|c.proxies|].path == path && n.proxies[|c.proxies|].iface == iface
      && ProxyGood(n.data, n.proxies[|c.proxies|])
  {
    var i := |c.proxies|;
    var connected := c.(callbacks := [Callback(Some(path), iface, ProxyUpdate(i))] + c.callbacks,
                        proxies := c.proxies + [Proxy(path, iface, map[], false)]);
    forall cb | cb in connected.callbacks
      ensures CallbackOk(connected, cb)
    {
      if cb in c.callbacks {
        assert CallbackOk(c, cb);
      }
    }
    forall j | 0 <= j < |connected.proxies|
      ensures ProxyCallback(connected.proxies[j], j) in connected.callbacks
    {
      if j < i {
        assert ProxyCallback(c.proxies[j], j) in c.callbacks;
      }
    }
    forall g | 0 <= g < |c.groups|
      ensures MembersOk(connected, c.groups[g])
    {
      assert MembersOk(c, c.groups[g]);
    }
    ProxyUpdatedMirrors(connected, i, Lookup(c.data, path, iface));
  }

  function WithMembers(c: Cache, g: nat, members: map<string, nat>): Cache
    requires g < |c.groups|
  {
    c.(groups := c.groups[g := c.groups[g].(members := members)])
  }

  lemma WithMembersMirrors(c: Cache, g: nat, members: map<string, nat>)
    requires Linked(c) && g < |c.groups| && MembersOk(c, c.groups[g].(members := members))
    ensures Linked(WithMembers(c, g, members))
  {
    var n := WithMembers(c, g, members);
    forall cb | cb in n.callbacks
      ensures CallbackOk(n, cb)
    {
      assert CallbackOk(c, cb);
    }
    forall j | 0 <= j < |n.groups|
      ensures MembersOk(n, n.groups[j]) && GroupCallback(n.groups[j], j) in n.callbacks
    {
      assert MembersOk(c, c.groups[j]) && GroupCallback(c.groups[j], j) in c.callbacks;
    }
  }

  /** Reports change nothing but the list of reports. */
  lemma ReportedLinks(c: Cache, kind: Kind, g: nat, path: string, i: nat)
    requires Linked(c)
    ensures var n := Reported(c, kind, g, path, i);
      Linked(n) && n.(reports := c.reports) == c
  {
    var n := Reported(c, kind, g, path, i);
    forall cb | cb in n.callbacks
      ensures CallbackOk(n, cb)
    {
      assert CallbackOk(c, cb);
    }
    forall j | 0 <= j < |n.groups|
      ensures MembersOk(n, n.groups[j])
    {
      assert MembersOk(c, c.groups[j]);
    }
  }

  /** What a call leaves as it was: the data, the proxies there were, the other collections and paths. */
  ghost predicate Grows(c: Cache, n: Cache, g: nat, path: string) {
    && n.data == c.data && n.paths == c.paths
    && |c.proxies| <= |n.proxies| && n.proxies[..|c.proxies|] == c.proxies
    && (forall i | |c.proxies| <= i < |n.proxies| :: ProxyGood(n.data, n.proxies[i]))
    && |n.groups| == |c.groups|
    && (forall j | 0 <= j < |c.groups| :: n.groups[j].iface == c.groups[j].iface && (j != g ==> n.groups[j] == c.groups[j]))
    && (g < |c.groups| ==> forall q | q != path :: q in n.groups[g].members <==> q in c.groups[g].members)
  }

  lemma WithMemberMirrors(c: Cache, g: nat, path: string)
    requires Linked(c) && g < |c.groups| && path != ""
    ensures var n := WithMember(c, g, path);
      Linked(n) && Grows(c, n, g, path) && path in n.groups[g].members && n.groups[g].members[path] == |c.proxies|
  {
    hide Linked, ProxyGood, WithProxy, Reported;
    var group := c.groups[g];
    var members := group.members[path := |c.proxies|];
    WithProxyMirrors(c, group.iface, path);
    var grown := WithProxy(c, group.iface, path);
    WithProxyKeeps(c, group.iface, path);
    MembersGrow(c, grown, g, path);
    WithMembersMirrors(grown, g, members);
    ReportedLinks(WithMembers(grown, g, members), Added, g, path, |c.proxies|);
  }

  lemma WithProxyKeeps(c: Cache, iface: string, path: string)
    ensures var n := WithProxy(c, iface, path);
      n.data == c.data && n.paths == c.paths && n.groups == c.groups && n.reports == c.reports
  {
  }

  lemma MembersGrow(c: Cache, grown: Cache, g: nat, path: string)
    requires Linked(c) && g < |c.groups| && |grown.proxies| == |c.proxies| + 1 && path != ""
    requires grown.proxies[..|c.proxies|] == c.proxies
    requires grown.proxies[|c.proxies|].path == path && grown.proxies[|c.proxies|].iface == c.groups[g].iface
    ensures MembersOk(grown, c.groups[g].(members := c.groups[g].members[path := |c.proxies|]))
  {
    assert MembersOk(c, c.groups[g]);
    var n := c.groups[g].(members := c.groups[g].members[path := |c.proxies|]);
    forall q | q in n.members
      ensures q != "" && n.members[q] < |grown.proxies| && grown.proxies[n.members[q]].path == q
      ensures grown.proxies[n.members[q]].iface == n.iface
    {
      if q != path {
        assert grown.proxies[..|c.proxies|][n.members[q]] == c.proxies[n.members[q]];
      }
    }
  }

  lemma GroupUpdatedMirrors(c: Cache, g: nat, path: string)
    requires Linked(c) && g < |c.groups|
    ensures var n := GroupUpdated(c, g, Lookup(c.data, path, c.groups[g].iface), path);
      Linked(n) && Grows(c, n, g, path) && GroupGood(c.data, n.groups[g], path)
  {
    hide Linked, ProxyGood, WithMember, Reported, Lookup;
    var group, props := c.groups[g], Lookup(c.data, path, c.groups[g].iface);
    assert c.proxies[..|c.proxies|] == c.proxies;
    LinkedMembers(c, g);
    if path == "" {
    } else if props == None {
      if path in group.members {
        var less := group.members - {path};
        WithMembersMirrors(c, g, less);
        ReportedLinks(WithMembers(c, g, less), Removed, g, path, group.members[path]);
      }
    } else {
      var more := if path in group.members then c else WithMember(c, g, path);
      if path !in group.members {
        WithMemberMirrors(c, g, path);
      }
      ReportedLinks(more, Changed, g, path, if path in group.members then group.members[path] else |c.proxies|);
    }
  }

  lemma LinkedMembers(c: Cache, g: nat)
    requires Linked(c) && g < |c.groups|
    ensures MembersOk(c, c.groups[g])
  {
  }

  // ----- Calling everyone

  ghost predicate Waiting(c: Cache, rest: seq<Callback>, path: string, iface: string) {
    Linked(c) && ProxiesGood(c, rest, path, iface) && GroupsGood(c, rest, path, iface)
  }

  /** One call makes its target good and spoils no other. */
  lemma DeliverMirrors(c: Cache, cb: Callback, rest: seq<Callback>, path: string, iface: string)
    requires Waiting(c, [cb] + rest, path, iface) && CallbackOk(c, cb)
    ensures Waiting(Deliver(c, cb, path, iface, Lookup(c.data, path, iface)), rest, path, iface)
  {
    hide Linked, ProxyGood, GroupGood, ProxyUpdated, GroupUpdated, Lookup;
    var n := Deliver(c, cb, path, iface, Lookup(c.data, path, iface));
    if !Matches(cb, path, iface) {
      SkipMirrors(c, cb, rest, path, iface);
    } else {
      match cb.target
      case ProxyUpdate(i) =>
        ProxyUpdatedMirrors(c, i, Lookup(c.data, path, iface));
        ProxyUpdatedKeeps(c, i, Lookup(c.data, path, iface));
      case GroupUpdate(g) =>
        GroupUpdatedMirrors(c, g, path);
        GroupsStillGood(c, n, cb, rest, path, iface, g);
        ProxiesStillGood(c, n, cb, rest, path, iface, g);
    }
  }

  lemma SkipMirrors(c: Cache, cb: Callback, rest: seq<Callback>, path: string, iface: string)
    requires Waiting(c, [cb] + rest, path, iface) && CallbackOk(c, cb) && !Matches(cb, path, iface)
    ensures Waiting(c, rest, path, iface)
  {
    hide Linked, ProxyGood, GroupGood;
  }

  lemma ProxyUpdatedKeeps(c: Cache, i: nat, props: Option<Props>)
    requires i < |c.proxies|
    ensures var n := ProxyUpdated(c, i, props);
      && n == c.(proxies := n.proxies) && |n.proxies| == |c.proxies|
      && (forall j | 0 <= j < |c.proxies| && j != i :: n.proxies[j] == c.proxies[j])
      && n.proxies[i].path == c.proxies[i].path && n.proxies[i].iface == c.proxies[i].iface
  {
  }

  lemma GroupsStillGood(c: Cache, n: Cache, cb: Callback, rest: seq<Callback>, path: string, iface: string, g: nat)
    requires GroupsGood(c, [cb] + rest, path, iface) && Grows(c, n, g, path) && g < |c.groups|
    requires cb == GroupCallback(c.groups[g], g) && c.groups[g].iface == iface && GroupGood(c.data, n.groups[g], path)
    ensures GroupsGood(n, rest, path, iface)
  {
    hide Lookup, ProxyGood;
    forall j, q | 0 <= j < |n.groups|
      ensures || GroupGood(n.data, n.groups[j], q)
              || (q == path && n.groups[j].iface == iface && GroupCallback(n.groups[j], j) in rest)
    {
      if j == g && q == path {
      } else {
        assert GroupGood(c.data, c.groups[j], q) || GroupCallback(c.groups[j], j) in rest;
      }
    }
  }

  lemma ProxiesStillGood(c: Cache, n: Cache, cb: Callback, rest: seq<Callback>, path: string, iface: string, g: nat)
    requires ProxiesGood(c, [cb] + rest, path, iface) && Grows(c, n, g, path) && cb.target.GroupUpdate?
    ensures ProxiesGood(n, rest, path, iface)
  {
    hide ProxyGood, GroupGood;
    forall i | 0 <= i < |n.proxies|
      ensures || ProxyGood(n.data, n.proxies[i])
              || (n.proxies[i].path == path && n.proxies[i].iface == iface && ProxyCallback(n.proxies[i], i) in rest)
    {
      if i < |c.proxies| {
        assert n.proxies[..|c.proxies|][i] == c.proxies[i];
      }
    }
  }

  lemma CallbacksStay(c: Cache, cb: Callback, path: string, iface: string, props: Option<Props>)
    ensures forall x | x in c.callbacks :: x in Deliver(c, cb, path, iface, props).callbacks
    ensures Deliver(c, cb, path, iface, props).data == c.data
  {
  }

  lemma {:induction false} EmitMirrors(c: Cache, copy: seq<Callback>, k: nat, path: string, iface: string)
    requires Waiting(c, copy, path, iface) && k <= |copy| && forall cb | cb in copy :: cb in c.callbacks
    ensures var n := Emit(c, copy[..k], path, iface, Lookup(c.data, path, iface));
      && Waiting(n, copy[k..], path, iface) && n.data == c.data
      && forall cb | cb in c.callbacks :: cb in n.callbacks
  {
    hide Deliver, Linked, ProxiesGood, GroupsGood, Lookup, CallbackOk;
    if k == 0 {
      assert copy[..0] == [] && copy[0..] == copy;
    } else {
      EmitMirrors(c, copy, k - 1, path, iface);
      var before, cb := Emit(c, copy[..k - 1], path, iface, Lookup(c.data, path, iface)), copy[k - 1];
      assert copy[..k][..k - 1] == copy[..k - 1] && copy[k - 1..] == [cb] + copy[k..];
      LinkedCallback(before, cb);
      DeliverMirrors(before, cb, copy[k..], path, iface);
      CallbacksStay(before, cb, path, iface, Lookup(c.data, path, iface));
    }
  }

  lemma LinkedCallback(c: Cache, cb: Callback)
    requires Linked(c) && cb in c.callbacks
    ensures CallbackOk(c, cb)
  {
  }

  /** Once everyone has been called, everything mirrors the data. */
  lemma EmittedMirrors(c: Cache, path: string, iface: string)
    requires Waiting(c, c.callbacks, path, iface)
    ensures Mirrors(Emit(c, c.callbacks, path, iface, Lookup(c.data, path, iface)))
  {
    hide Linked, ProxyGood, GroupGood, Lookup, Emit;
    EmitMirrors(c, c.callbacks, |c.callbacks|, path, iface);
    assert c.callbacks[..|c.callbacks|] == c.callbacks;
  }

  /** A change of one interface at one path leaves the others good. */
  lemma ChangedWaits(c: Cache, n: Cache, path: string, iface: string)
    requires Mirrors(c) && n == c.(data := n.data, paths := n.paths) && forall p | p in n.data :: p in n.paths
    requires forall p, i | p != path || i != iface :: Lookup(n.data, p, i) == Lookup(c.data, p, i)
    ensures Waiting(n, c.callbacks, path, iface)
  {
    ChangedLinks(c, n);
    hide Linked, Lookup;
    forall i | 0 <= i < |n.proxies|
      ensures || ProxyGood(n.data, n.proxies[i])
              || (n.proxies[i].path == path && n.proxies[i].iface == iface && ProxyCallback(n.proxies[i], i) in c.callbacks)
    {
      assert ProxyGood(c.data, c.proxies[i]);
    }
    forall g, q | 0 <= g < |n.groups|
      ensures || GroupGood(n.data, n.groups[g], q)
              || (q == path && n.groups[g].iface == iface && GroupCallback(n.groups[g], g) in c.callbacks)
    {
      assert GroupGood(c.data, c.groups[g], q);
    }
  }

  lemma ChangedLinks(c: Cache, n: Cache)
    requires Linked(c) && n == c.(data := n.data, paths := n.paths) && forall p | p in n.data :: p in n.paths
    ensures Linked(n)
    ensures forall i | 0 <= i < |c.proxies| :: ProxyCallback(c.proxies[i], i) in c.callbacks
    ensures forall g | 0 <= g < |c.groups| :: GroupCallback(c.groups[g], g) in c.callbacks
  {
    forall cb | cb in n.callbacks
      ensures CallbackOk(n, cb)
    {
      assert CallbackOk(c, cb);
    }
    forall g | 0 <= g < |n.groups|
      ensures MembersOk(n, n.groups[g])
    {
      assert MembersOk(c, c.groups[g]);
    }
  }

  lemma ApplyMirrors(c: Cache, notice: Notice)
    requires Mirrors(c)
    ensures Mirrors(Apply(c, notice))
  {
    hide Emit, ProxyGood, GroupGood, Linked;
    var path, iface := notice.path, notice.iface;
    DataHasPaths(c);
    if notice.props.Some? {
      var n := Put(c, path, iface, Merged(Lookup(c.data, path, iface), notice.props.value));
      ChangedWaits(c, n, path, iface);
      EmittedMirrors(n, path, iface);
    } else if path in c.data {
      var n := Without(c, path, iface);
      ChangedWaits(c, n, path, iface);
      EmittedMirrors(n, path, iface);
    }
  }

  lemma DataHasPaths(c: Cache)
    requires Linked(c)
    ensures forall p | p in c.data :: p in c.paths
  {
  }

  lemma {:induction false} NotifyMirrors(c: Cache, notices: seq<Notice>)
    requires Mirrors(c)
    ensures Mirrors(Notify(c, notices))
  {
    hide Mirrors, Apply;
    if notices != [] {
      NotifyMirrors(c, notices[..|notices| - 1]);
      ApplyMirrors(Notify(c, notices[..|notices| - 1]), notices[|notices| - 1]);
    }
  }

  lemma NewProxyMirrors(c: Cache, iface: string, path: string)
    requires Mirrors(c)
    ensures Mirrors(WithProxy(c, iface, path))
  {
    hide Linked, ProxyGood, GroupGood, WithProxy;
    var n := WithProxy(c, iface, path);
    WithProxyMirrors(c, iface, path);
    WithProxyKeeps(c, iface, path);
    assert forall i | 0 <= i < |c.proxies| :: n.proxies[i] == n.proxies[..|c.proxies|][i];
  }

  // ----- A new collection

  /** Everything is good but collection `g`, which so far has its proxies for these paths. */
  ghost predicate Collecting(c: Cache, g: nat, paths: seq<string>) {
    && Linked(c) && g < |c.groups|
    && (forall i | 0 <= i < |c.proxies| :: ProxyGood(c.data, c.proxies[i]))
    && (forall j, q | 0 <= j < |c.groups| && j != g :: GroupGood(c.data, c.groups[j], q))
    && (forall q | q in paths :: GroupGood(c.data, c.groups[g], q))
    && (forall q | q in c.groups[g].members :: q in paths)
  }

  lemma EachStep(c: Cache, g: nat, paths: seq<string>, path: string)
    requires Collecting(c, g, paths) && Lookup(c.data, path, c.groups[g].iface).Some?
    ensures var n := GroupUpdated(c, g, Lookup(c.data, path, c.groups[g].iface), path);
      Collecting(n, g, paths + [path]) && Grows(c, n, g, path)
  {
    hide Linked, ProxyGood, GroupGood, GroupUpdated, Lookup;
    GroupUpdatedMirrors(c, g, path);
    var n := GroupUpdated(c, g, Lookup(c.data, path, c.groups[g].iface), path);
    assert forall i | 0 <= i < |c.proxies| :: n.proxies[i] == n.proxies[..|c.proxies|][i];
    forall j, q | 0 <= j < |n.groups| && j != g
      ensures GroupGood(n.data, n.groups[j], q)
    {
      assert GroupGood(c.data, c.groups[j], q);
    }
    forall q | q in paths + [path]
      ensures GroupGood(n.data, n.groups[g], q)
    {
      if q != path {
        StillGood(c.data, c.groups[g], n.groups[g], q);
      }
    }
    forall q | q in n.groups[g].members
      ensures q in paths + [path]
    {
      assert q != path ==> q in c.groups[g].members;
    }
  }

  lemma EachSkips(c: Cache, g: nat, paths: seq<string>, path: string)
    requires Collecting(c, g, paths) && Lookup(c.data, path, c.groups[g].iface) == None
    ensures Collecting(c, g, paths + [path])
  {
    hide Linked, ProxyGood;
    forall q | q in paths + [path]
      ensures GroupGood(c.data, c.groups[g], q)
    {
    }
  }

  lemma StillGood(data: map<string, map<string, Props>>, was: Group, group: Group, q: string)
    requires was.iface == group.iface && (q in was.members <==> q in group.members) && GroupGood(data, was, q)
    ensures GroupGood(data, group, q)
  {
  }

  lemma {:induction false} EachMirrors(c: Cache, g: nat, iface: string, paths: seq<string>)
    requires g < |c.groups| && Collecting(c, g, []) && c.groups[g].iface == iface
    ensures var n := Each(c, g, iface, paths);
      Collecting(n, g, paths) && g < |n.groups| && n.groups[g].iface == iface && n.data == c.data && n.paths == c.paths
  {
    hide Linked, ProxyGood, GroupGood, Collecting, GroupUpdated;
    if paths == [] {
    } else {
      var less, path := paths[..|paths| - 1], paths[|paths| - 1];
      EachMirrors(c, g, iface, less);
      var before := Each(c, g, iface, less);
      assert paths == less + [path];
      if Lookup(before.data, path, iface).Some? {
        EachStep(before, g, less, path);
      } else {
        EachSkips(before, g, less, path);
      }
    }
  }

  lemma NewGroupMirrors(c: Cache, iface: string)
    requires Mirrors(c)
    ensures Mirrors(WithGroup(c, iface))
  {
    hide Each, ProxyGood;
    var g := |c.groups|;
    var n := c.(groups := c.groups + [Group(iface, map[])],
                callbacks := c.callbacks + [Callback(None, iface, GroupUpdate(g))]);
    forall cb | cb in n.callbacks
      ensures CallbackOk(n, cb)
    {
      if cb in c.callbacks {
        assert CallbackOk(c, cb);
      }
    }
    forall j | 0 <= j < |n.groups|
      ensures MembersOk(n, n.groups[j]) && GroupCallback(n.groups[j], j) in n.callbacks
    {
      if j < g {
        assert MembersOk(c, c.groups[j]) && GroupCallback(c.groups[j], j) in c.callbacks;
      }
    }
    forall i | 0 <= i < |n.proxies|
      ensures ProxyCallback(n.proxies[i], i) in n.callbacks
    {
      assert ProxyCallback(c.proxies[i], i) in c.callbacks;
    }
    forall j, q: string | 0 <= j < g
      ensures GroupGood(n.data, n.groups[j], q)
    {
      assert GroupGood(c.data, c.groups[j], q);
    }
    EachMirrors(n, g, iface, c.paths);
    AllCollected(Each(n, g, iface, c.paths), g);
  }

  lemma AllCollected(c: Cache, g: nat)
    requires Collecting(c, g, c.paths)
    ensures Mirrors(c)
  {
    hide ProxyGood;
    forall j, q | 0 <= j < |c.groups|
      ensures GroupGood(c.data, c.groups[j], q)
    {
      if j == g && q !in c.paths {
        assert q !in c.data;
      }
    }
  }

  // ----- Runs

  datatype Event = Notified(notices: seq<Notice>) | NewProxy(iface: string, path: string) | NewGroup(iface: string)

  function Next(c: Cache, e: Event): Cache {
    match e
    case Notified(notices) => Notify(c, notices)
    case NewProxy(iface, path) => WithProxy(c, iface, path)
    case NewGroup(iface) => WithGroup(c, iface)
  }

  function Run(events: seq<Event>): Cache {
    if events == [] then EMPTY else Next(Run(events[..|events| - 1]), events[|events| - 1])
  }

  /** All notices of a run, in order. */
  function Notices(events: seq<Event>): seq<Notice> {
    if events == [] then []
    else
      var last := events[|events| - 1];
      Notices(events[..|events| - 1]) + if last.Notified? then last.notices else []
  }

  lemma {:induction false} LatestInTurn(before: Option<Props>, a: seq<Notice>, b: seq<Notice>, path: string, iface: string)
    ensures Latest(before, a + b, path, iface) == Latest(Latest(before, a, path, iface), b, path, iface)
  {
    if b == [] {
      assert a + b == a;
    } else {
      assert (a + b)[..|a + b| - 1] == a + b[..|b| - 1];
      LatestInTurn(before, a, b[..|b| - 1], path, iface);
    }
  }

  /** After any run the cache is the fold of the notices, and every proxy and collection mirrors it. */
  lemma {:induction false} RunMirrors(events: seq<Event>, path: string, iface: string)
    ensures Mirrors(Run(events))
    ensures Lookup(Run(events).data, path, iface) == Latest(None, Notices(events), path, iface)
  {
    hide Mirrors, Notify, WithProxy, WithGroup, Latest;
    if events == [] {
      EmptyMirrors(path, iface);
    } else {
      var less, last := events[..|events| - 1], events[|events| - 1];
      RunMirrors(less, path, iface);
      LatestInTurn(None, Notices(less), if last.Notified? then last.notices else [], path, iface);
      match last
      case Notified(notices) =>
        NotifyMirrors(Run(less), notices);
        CacheIsFold(Run(less), notices, path, iface);
      case NewProxy(i, p) =>
        NewProxyMirrors(Run(less), i, p);
        WithProxyKeeps(Run(less), i, p);
        LatestOfNone(Latest(None, Notices(less), path, iface), path, iface);
      case NewGroup(i) =>
        NewGroupMirrors(Run(less), i);
        WithGroupKeeps(Run(less), i);
        LatestOfNone(Latest(None, Notices(less), path, iface), path, iface);
    }
  }

  lemma EmptyMirrors(path: string, iface: string)
    ensures Mirrors(EMPTY) && Lookup(EMPTY.data, path, iface) == Latest(None, [], path, iface)
  {
  }

  lemma LatestOfNone(before: Option<Props>, path: string, iface: string)
    ensures Latest(before, [], path, iface) == before
  {
  }

  lemma {:induction false} EachKeepsData(c: Cache, g: nat, iface: string, paths: seq<string>)
    ensures Each(c, g, iface, paths).data == c.data
  {
    if paths != [] {
      EachKeepsData(c, g, iface, paths[..|paths| - 1]);
    }
  }

  lemma WithGroupKeeps(c: Cache, iface: string)
    ensures WithGroup(c, iface).data == c.data
  {
    var connected := c.(groups := c.groups + [Group(iface, map[])],
                        callbacks := c.callbacks + [Callback(None, iface, GroupUpdate(|c.groups|))]);
    EachKeepsData(connected, |c.groups|, iface, c.paths);
  }

  // ----- What collections report

  /** Listeners find the proxy of a removed interface invalid, and any other one with all that is cached. */
  ghost predicate ReportTrue(c: Cache, r: Report) {
    && r.group < |c.groups| && r.proxy.path == r.path && r.proxy.iface == c.groups[r.group].iface
    && ProxyGood(c.data, r.proxy)
    && (r.kind == Removed <==> Lookup(c.data, r.path, r.proxy.iface) == None)
  }

  /** The reports made since there were `from` of them, all for one interface at one path. */
  ghost predicate NewReports(c: Cache, from: nat, path: string, iface: string) {
    forall k | from <= k < |c.reports| ::
      ReportTrue(c, c.reports[k]) && c.reports[k].path == path && c.reports[k].proxy.iface == iface
  }

  ghost predicate Reports(c: Cache, from: nat, kind: Kind, g: nat, path: string) {
    exists k | from <= k < |c.reports| :: c.reports[k].kind == kind && c.reports[k].group == g && c.reports[k].path == path
  }

  lemma GroupReports(c: Cache, g: nat, path: string)
    requires Linked(c) && g < |c.groups| && forall i | 0 <= i < |c.proxies| :: ProxyGood(c.data, c.proxies[i])
    ensures var props := Lookup(c.data, path, c.groups[g].iface);
      var n := GroupUpdated(c, g, props, path);
      && c.reports <= n.reports && NewReports(n, |c.reports|, path, c.groups[g].iface)
      && (path != "" && props.Some? ==> Reports(n, |c.reports|, Changed, g, path))
      && (props == None && path in c.groups[g].members ==> Reports(n, |c.reports|, Removed, g, path))
  {
    hide Linked, ProxyGood, WithProxy, Lookup;
    LinkedMembers(c, g);
    var group, props := c.groups[g], Lookup(c.data, path, c.groups[g].iface);
    var n := GroupUpdated(c, g, props, path);
    if path != "" && (props.Some? || path in group.members) {
      var last := |n.reports| - 1;
      if props.Some? && path !in group.members {
        WithProxyMirrors(c, group.iface, path);
        WithProxyKeeps(c, group.iface, path);
        assert n.reports == c.reports + [n.reports[last - 1], n.reports[last]];
      } else {
        assert n.reports == c.reports + [n.reports[last]];
      }
      assert n.reports[last].kind == (if props.Some? then Changed else Removed) && n.reports[last].path == path;
    }
  }

  /** Reports stay true while the data and the interfaces of the collections do. */
  lemma ReportsStay(c: Cache, n: Cache, from: nat, path: string, iface: string)
    requires NewReports(c, from, path, iface) && n.data == c.data && |n.groups| == |c.groups|
    requires forall g | 0 <= g < |c.groups| :: n.groups[g].iface == c.groups[g].iface
    requires c.reports <= n.reports && from <= |c.reports| && NewReports(n, |c.reports|, path, iface)
    ensures NewReports(n, from, path, iface)
  {
    hide ProxyGood, Lookup;
    forall k | from <= k < |n.reports|
      ensures ReportTrue(n, n.reports[k]) && n.reports[k].path == path && n.reports[k].proxy.iface == iface
    {
      if k < |c.reports| {
        assert n.reports[k] == c.reports[k] && ReportTrue(c, c.reports[k]);
      }
    }
  }

  /** What a collection has reported from `c` to `n`: once told of cached properties, a change; once told of
      none, the removal of a proxy it had. */
  ghost predicate Heard(c: Cache, n: Cache, g: nat, path: string, props: Option<Props>, told: bool)
    requires g < |c.groups| && g < |n.groups|
  {
    && (told && path != "" && props.Some? ==> Reports(n, |c.reports|, Changed, g, path))
    && (props == None && path in c.groups[g].members ==>
          Reports(n, |c.reports|, Removed, g, path) || (!told && path in n.groups[g].members))
  }

  ghost predicate SameGroups(c: Cache, n: Cache) {
    && n.data == c.data && |n.groups| == |c.groups| && c.reports <= n.reports
    && forall g | 0 <= g < |c.groups| :: n.groups[g].iface == c.groups[g].iface
  }

  ghost predicate AllHeard(c: Cache, n: Cache, copy: seq<Callback>, path: string, iface: string)
    requires SameGroups(c, n)
  {
    forall g | 0 <= g < |c.groups| && c.groups[g].iface == iface ::
      Heard(c, n, g, path, Lookup(c.data, path, iface), Callback(None, iface, GroupUpdate(g)) in copy)
  }

  /** One call to a collection. */
  lemma GroupHeard(c: Cache, m: Cache, copy: seq<Callback>, h: nat, path: string, iface: string)
    requires SameGroups(c, m) && AllHeard(c, m, copy, path, iface) && NewReports(m, |c.reports|, path, iface)
    requires Linked(m) && h < |m.groups| && m.groups[h].iface == iface
    requires forall i | 0 <= i < |m.proxies| :: ProxyGood(m.data, m.proxies[i])
    ensures var n := GroupUpdated(m, h, Lookup(m.data, path, iface), path);
      SameGroups(c, n) && NewReports(n, |c.reports|, path, iface)
      && AllHeard(c, n, copy + [GroupCallback(m.groups[h], h)], path, iface)
  {
    hide Linked, ProxyGood, GroupGood, GroupUpdated, Lookup;
    var n := GroupUpdated(m, h, Lookup(m.data, path, iface), path);
    GroupReports(m, h, path);
    GroupUpdatedMirrors(m, h, path);
    ReportsStay(m, n, |c.reports|, path, iface);
    forall g | 0 <= g < |c.groups| && c.groups[g].iface == iface
      ensures Heard(c, n, g, path, Lookup(c.data, path, iface),
                    Callback(None, iface, GroupUpdate(g)) in copy + [GroupCallback(m.groups[h], h)])
    {
      assert Heard(c, m, g, path, Lookup(c.data, path, iface), Callback(None, iface, GroupUpdate(g)) in copy);
      ReportsLast(m, n, |c.reports|, Changed, g, path);
      ReportsLast(m, n, |c.reports|, Removed, g, path);
    }
  }

  lemma ReportsLast(m: Cache, n: Cache, from: nat, kind: Kind, g: nat, path: string)
    requires m.reports <= n.reports && from <= |m.reports|
    ensures Reports(m, from, kind, g, path) ==> Reports(n, from, kind, g, path)
    ensures Reports(n, |m.reports|, kind, g, path) ==> Reports(n, from, kind, g, path)
  {
    if Reports(m, from, kind, g, path) {
      var k :| from <= k < |m.reports| && m.reports[k].kind == kind && m.reports[k].group == g && m.reports[k].path == path;
      assert n.reports[k] == m.reports[k];
    }
  }

  /** A call to a proxy, or to nobody. */
  lemma OtherHeard(c: Cache, m: Cache, copy: seq<Callback>, cb: Callback, path: string, iface: string)
    requires SameGroups(c, m) && AllHeard(c, m, copy, path, iface) && NewReports(m, |c.reports|, path, iface)
    requires CallbackOk(m, cb) && (!Matches(cb, path, iface) || cb.target.ProxyUpdate?)
    ensures var n := Deliver(m, cb, path, iface, Lookup(c.data, path, iface));
      SameGroups(c, n) && NewReports(n, |c.reports|, path, iface) && AllHeard(c, n, copy + [cb], path, iface)
  {
    hide Linked, ProxyGood, GroupGood, GroupUpdated, Lookup;
    var n := Deliver(m, cb, path, iface, Lookup(c.data, path, iface));
    assert n == m.(proxies := n.proxies);
    forall k | |c.reports| <= k < |n.reports|
      ensures ReportTrue(n, n.reports[k])
    {
      assert ReportTrue(m, m.reports[k]);
    }
    forall g | 0 <= g < |c.groups| && c.groups[g].iface == iface
      ensures Heard(c, n, g, path, Lookup(c.data, path, iface), Callback(None, iface, GroupUpdate(g)) in copy + [cb])
    {
      assert Heard(c, m, g, path, Lookup(c.data, path, iface), Callback(None, iface, GroupUpdate(g)) in copy);
      assert cb != Callback(None, iface, GroupUpdate(g));
      SameReports(m, n, |c.reports|, Changed, g, path);
      SameReports(m, n, |c.reports|, Removed, g, path);
    }
  }

  lemma SameReports(m: Cache, n: Cache, from: nat, kind: Kind, g: nat, path: string)
    requires m.reports == n.reports
    ensures Reports(m, from, kind, g, path) == Reports(n, from, kind, g, path)
  {
  }

  lemma NothingHeard(c: Cache, path: string, iface: string)
    ensures SameGroups(c, c) && AllHeard(c, c, [], path, iface) && NewReports(c, |c.reports|, path, iface)
  {
  }

  lemma {:induction false} EmitHeard(c: Cache, copy: seq<Callback>, k: nat, path: string, iface: string)
    requires Waiting(c, copy, path, iface) && ProxiesFirst(copy)
    requires k <= |copy| && forall cb | cb in copy :: cb in c.callbacks
    ensures var n := Emit(c, copy[..k], path, iface, Lookup(c.data, path, iface));
      SameGroups(c, n) && NewReports(n, |c.reports|, path, iface) && AllHeard(c, n, copy[..k], path, iface)
  {
    hide Deliver, Linked, ProxyGood, GroupsGood, Lookup, CallbackOk, AllHeard, SameGroups, NewReports;
    if k == 0 {
      assert copy[..0] == [];
      NothingHeard(c, path, iface);
    } else {
      EmitHeard(c, copy, k - 1, path, iface);
      EmitMirrors(c, copy, k - 1, path, iface);
      var m, cb := Emit(c, copy[..k - 1], path, iface, Lookup(c.data, path, iface)), copy[k - 1];
      assert copy[..k][..k - 1] == copy[..k - 1] && copy[..k] == copy[..k - 1] + [cb];
      LinkedCallback(m, cb);
      if !Matches(cb, path, iface) || cb.target.ProxyUpdate? {
        OtherHeard(c, m, copy[..k - 1], cb, path, iface);
      } else {
        ProxiesDone(m, copy, k - 1, path, iface);
        GroupDelivered(m, cb, path, iface);
        GroupHeard(c, m, copy[..k - 1], cb.target.group, path, iface);
      }
    }
  }

  lemma GroupDelivered(m: Cache, cb: Callback, path: string, iface: string)
    requires CallbackOk(m, cb) && Matches(cb, path, iface) && cb.target.GroupUpdate?
    ensures var g := cb.target.group;
      && g < |m.groups| && m.groups[g].iface == iface && cb == GroupCallback(m.groups[g], g)
      && Deliver(m, cb, path, iface, Lookup(m.data, path, iface)) == GroupUpdated(m, g, Lookup(m.data, path, iface), path)
  {
  }

  /** When the first collection is called, all proxies have been. */
  lemma ProxiesDone(m: Cache, copy: seq<Callback>, k: nat, path: string, iface: string)
    requires ProxiesFirst(copy) && k < |copy| && copy[k].target.GroupUpdate? && ProxiesGood(m, copy[k..], path, iface)
    ensures forall i | 0 <= i < |m.proxies| :: ProxyGood(m.data, m.proxies[i])
  {
    hide ProxyGood;
  }

  /** What the collections report about a notice: each report is of its interface at its path and finds the
      proxy as it should be, and no collection misses the change or the removal of a proxy it had. */
  lemma NoticeReported(c: Cache, notice: Notice)
    requires Mirrors(c)
    ensures var n, path, iface := Apply(c, notice), notice.path, notice.iface;
      && c.reports <= n.reports && |n.groups| == |c.groups| && NewReports(n, |c.reports|, path, iface)
      && forall g | 0 <= g < |c.groups| && c.groups[g].iface == iface ::
           && (notice.props.Some? && path != "" ==> Reports(n, |c.reports|, Changed, g, path))
           && (notice.props == None && path in c.groups[g].members ==> Reports(n, |c.reports|, Removed, g, path))
  {
    hide Emit, ProxyGood, GroupGood, Linked, NewReports, Reports;
    var path, iface := notice.path, notice.iface;
    DataHasPaths(c);
    if notice.props.Some? {
      var n := Put(c, path, iface, Merged(Lookup(c.data, path, iface), notice.props.value));
      ChangedWaits(c, n, path, iface);
      EmittedHeard(n, path, iface);
    } else if path in c.data {
      var n := Without(c, path, iface);
      ChangedWaits(c, n, path, iface);
      EmittedHeard(n, path, iface);
    } else {
      NothingHeard(c, path, iface);
      NotMembers(c, path);
    }
  }

  lemma NotMembers(c: Cache, path: string)
    requires Mirrors(c) && path !in c.data
    ensures forall g | 0 <= g < |c.groups| :: path !in c.groups[g].members
  {
    assert forall g | 0 <= g < |c.groups| :: GroupGood(c.data, c.groups[g], path);
  }

  lemma EmittedHeard(c: Cache, path: string, iface: string)
    requires Waiting(c, c.callbacks, path, iface)
    ensures var n := Emit(c, c.callbacks, path, iface, Lookup(c.data, path, iface));
      && c.reports <= n.reports && |n.groups| == |c.groups| && NewReports(n, |c.reports|, path, iface)
      && forall g | 0 <= g < |c.groups| && c.groups[g].iface == iface ::
           && (Lookup(c.data, path, iface).Some? && path != "" ==> Reports(n, |c.reports|, Changed, g, path))
           && (Lookup(c.data, path, iface) == None && path in c.groups[g].members ==> Reports(n, |c.reports|, Removed, g, path))
  {
    hide Emit, ProxyGood, GroupGood, NewReports, Reports;
    EmitHeard(c, c.callbacks, |c.callbacks|, path, iface);
    assert c.callbacks[..|c.callbacks|] == c.callbacks;
    var n := Emit(c, c.callbacks, path, iface, Lookup(c.data, path, iface));
    forall g | 0 <= g < |c.groups| && c.groups[g].iface == iface
      ensures Heard(c, n, g, path, Lookup(c.data, path, iface), true)
    {
      assert GroupCallback(c.groups[g], g) in c.callbacks;
    }
  }

  // ----- Properties a proxy keeps too long

  /** During the calls a proxy has its old properties or those and the new ones. */
  ghost predicate OldOrNew(was: Proxy, p: Proxy, props: Option<Props>) {
    && p.path == was.path && p.iface == was.iface
    && (p.data == was.data || (props.Some? && p.data == was.data + props.value))
  }

  lemma {:induction false} EmitProxyData(c: Cache, copy: seq<Callback>, path: string, iface: string, props: Option<Props>, i: nat)
    requires i < |c.proxies|
    ensures var n := Emit(c, copy, path, iface, props);
      i < |n.proxies| && OldOrNew(c.proxies[i], n.proxies[i], props)
  {
    hide Deliver;
    if copy != [] {
      EmitProxyData(c, copy[..|copy| - 1], path, iface, props, i);
      var m := Emit(c, copy[..|copy| - 1], path, iface, props);
      DeliverProxyData(m, copy[|copy| - 1], path, iface, props, i);
      if props.Some? {
        assert c.proxies[i].data + props.value + props.value == c.proxies[i].data + props.value;
      }
    }
  }

  lemma DeliverProxyData(c: Cache, cb: Callback, path: string, iface: string, props: Option<Props>, i: nat)
    requires i < |c.proxies|
    ensures var n := Deliver(c, cb, path, iface, props);
      i < |n.proxies| && OldOrNew(c.proxies[i], n.proxies[i], props)
  {
  }

  lemma ProxyDataApplied(c: Cache, i: nat, props: Props)
    requires Mirrors(c) && i < |c.proxies|
    ensures var (p, n) := (c.proxies[i], Apply(c, Notice(c.proxies[i].path, c.proxies[i].iface, Some(props))));
      var cached := Lookup(n.data, p.path, p.iface);
      && i < |n.proxies| && cached == Some(Merged(Lookup(c.data, p.path, p.iface), props))
      && n.proxies[i].path == p.path && n.proxies[i].iface == p.iface
      && n.proxies[i].data == p.data + cached.value
  {
    hide Emit, Linked, GroupGood;
    var p := c.proxies[i];
    var notice := Notice(p.path, p.iface, Some(props));
    ApplyMirrors(c, notice);
    var merged := Merged(Lookup(c.data, p.path, p.iface), props);
    var put := Put(c, p.path, p.iface, merged);
    EmitKeepsData(put, c.callbacks, p.path, p.iface, Some(merged));
    EmitProxyData(put, c.callbacks, p.path, p.iface, Some(merged), i);
    var n := Apply(c, notice);
    assert ProxyGood(n.data, n.proxies[i]);
  }

  /** After an update a proxy has exactly the cached properties if and only if it had none but those that were
      cached before or came with the update. */
  lemma ExactAfterUpdate(c: Cache, i: nat, props: Props)
    requires Mirrors(c) && i < |c.proxies|
    ensures var (p, n) := (c.proxies[i], Apply(c, Notice(c.proxies[i].path, c.proxies[i].iface, Some(props))));
      var merged := Merged(Lookup(c.data, p.path, p.iface), props);
      && i < |n.proxies| && Lookup(n.data, p.path, p.iface) == Some(merged)
      && (n.proxies[i].data == merged <==> p.data.Keys <= merged.Keys)
  {
    hide Apply, Mirrors, Merged, Lookup;
    ProxyDataApplied(c, i, props);
    var p := c.proxies[i];
    var merged := Merged(Lookup(c.data, p.path, p.iface), props);
    if p.data.Keys <= merged.Keys {
      assert p.data + merged == merged;
    } else {
      var k :| k in p.data.Keys && k !in merged.Keys;
      assert k in p.data + merged;
    }
  }

  /** The names of the properties that are cached for a proxy. */
  function NamesFor(c: Cache, i: nat): set<string> {
    if i >= |c.proxies| then {}
    else
      var cached := Lookup(c.data, c.proxies[i].path, c.proxies[i].iface);
      if cached.Some? then cached.value.Keys else {}
  }

  /** One step adds to each proxy the properties that are cached for it, and a new one has just these. */
  ghost predicate Collects(c: Cache, n: Cache) {
    && |c.proxies| <= |n.proxies|
    && (forall i | 0 <= i < |c.proxies| :: n.proxies[i].data.Keys == c.proxies[i].data.Keys + NamesFor(n, i))
    && (forall i | |c.proxies| <= i < |n.proxies| :: n.proxies[i].data.Keys == NamesFor(n, i))
  }

  /** Old proxies as they were but for the calls, and new ones with what is cached. */
  ghost predicate Delivering(c: Cache, n: Cache, path: string, iface: string, props: Option<Props>) {
    && n.data == c.data && |c.proxies| <= |n.proxies|
    && (forall i | 0 <= i < |c.proxies| ::
          && OldOrNew(c.proxies[i], n.proxies[i], props)
          && ((c.proxies[i].path == path && c.proxies[i].iface == iface) || n.proxies[i].data == c.proxies[i].data))
    && (forall i | |c.proxies| <= i < |n.proxies| :: n.proxies[i].data.Keys == NamesFor(n, i))
  }

  lemma DeliverMore(c: Cache, m: Cache, cb: Callback, path: string, iface: string, props: Option<Props>)
    requires Delivering(c, m, path, iface, props) && CallbackOk(c, cb)
    ensures Delivering(c, Deliver(m, cb, path, iface, props), path, iface, props)
  {
    hide Lookup, GroupUpdated;
    if Matches(cb, path, iface) {
      match cb.target
      case ProxyUpdate(i) =>
        DeliverProxy(c, m, i, path, iface, props);
      case GroupUpdate(g) =>
        MadeByGroup(m, g, props, path);
        MadeLater(c, m, GroupUpdated(m, g, props, path), path, iface, props);
    }
  }

  lemma DeliverProxy(c: Cache, m: Cache, i: nat, path: string, iface: string, props: Option<Props>)
    requires Delivering(c, m, path, iface, props)
    requires i < |c.proxies| && c.proxies[i].path == path && c.proxies[i].iface == iface
    ensures Delivering(c, ProxyUpdated(m, i, props), path, iface, props)
  {
    hide Lookup;
    if props.Some? {
      assert c.proxies[i].data + props.value + props.value == c.proxies[i].data + props.value;
    }
  }

  /** A collection changes no proxy, and the one that it may make has what is cached. */
  lemma MadeByGroup(m: Cache, g: nat, props: Option<Props>, path: string)
    ensures var n := GroupUpdated(m, g, props, path);
      && n.data == m.data && |m.proxies| <= |n.proxies| && n.proxies[..|m.proxies|] == m.proxies
      && forall i | |m.proxies| <= i < |n.proxies| :: n.proxies[i].data.Keys == NamesFor(n, i)
  {
    hide Lookup;
    if g < |m.groups| && path != "" && props.Some? && path !in m.groups[g].members {
      MadeAlone(m, m.groups[g].iface, path);
    }
  }

  lemma MadeAlone(m: Cache, iface: string, path: string)
    ensures var n := WithProxy(m, iface, path);
      && n.data == m.data && |n.proxies| == |m.proxies| + 1 && n.proxies[..|m.proxies|] == m.proxies
      && n.proxies[|m.proxies|].path == path && n.proxies[|m.proxies|].iface == iface
      && n.proxies[|m.proxies|].data.Keys == NamesFor(n, |m.proxies|)
  {
    hide Lookup;
    var cached := Lookup(m.data, path, iface);
    if cached.Some? {
      assert map[] + cached.value == cached.value;
    }
  }

  lemma MadeLater(c: Cache, m: Cache, n: Cache, path: string, iface: string, props: Option<Props>)
    requires Delivering(c, m, path, iface, props)
    requires n.data == m.data && |m.proxies| <= |n.proxies| && n.proxies[..|m.proxies|] == m.proxies
    requires forall i | |m.proxies| <= i < |n.proxies| :: n.proxies[i].data.Keys == NamesFor(n, i)
    ensures Delivering(c, n, path, iface, props)
  {
    hide Lookup;
    forall i | 0 <= i < |m.proxies|
      ensures n.proxies[i] == m.proxies[i]
    {
      assert n.proxies[..|m.proxies|][i] == m.proxies[i];
    }
  }

  lemma {:induction false} EmitCollects(c: Cache, copy: seq<Callback>, path: string, iface: string, props: Option<Props>)
    requires forall cb | cb in copy :: CallbackOk(c, cb)
    ensures Delivering(c, Emit(c, copy, path, iface, props), path, iface, props)
  {
    hide CallbackOk, Deliver, Delivering;
    if copy == [] {
      NothingDelivered(c, path, iface, props);
    } else {
      EmitCollects(c, copy[..|copy| - 1], path, iface, props);
      DeliverMore(c, Emit(c, copy[..|copy| - 1], path, iface, props), copy[|copy| - 1], path, iface, props);
    }
  }

  lemma NothingDelivered(c: Cache, path: string, iface: string, props: Option<Props>)
    ensures Delivering(c, c, path, iface, props)
  {
  }

  lemma ApplyCollects(c: Cache, notice: Notice)
    requires Mirrors(c)
    ensures Collects(c, Apply(c, notice))
  {
    hide Emit, GroupGood, Delivering, Collects;
    var path, iface := notice.path, notice.iface;
    ApplyMirrors(c, notice);
    var n := Apply(c, notice);
    if notice.props.Some? {
      var merged := Merged(Lookup(c.data, path, iface), notice.props.value);
      var put := Put(c, path, iface, merged);
      assert forall cb | cb in c.callbacks :: CallbackOk(c, cb) && CallbackOk(put, cb);
      EmitCollects(put, c.callbacks, path, iface, Some(merged));
      DeliveredCollects(c, put, n, path, iface, Some(merged));
    } else if path in c.data {
      var less := Without(c, path, iface);
      assert forall cb | cb in c.callbacks :: CallbackOk(c, cb) && CallbackOk(less, cb);
      EmitCollects(less, c.callbacks, path, iface, None);
      DeliveredCollects(c, less, n, path, iface, None);
    } else {
      NothingDelivered(c, path, iface, None);
      DeliveredCollects(c, c, n, path, iface, None);
    }
  }

  /** When all have been called. */
  lemma DeliveredCollects(c: Cache, put: Cache, n: Cache, path: string, iface: string, props: Option<Props>)
    requires Mirrors(c) && Mirrors(n) && put.proxies == c.proxies && Delivering(put, n, path, iface, props)
    requires Lookup(put.data, path, iface) == props
    requires forall p, f | p != path || f != iface :: Lookup(put.data, p, f) == Lookup(c.data, p, f)
    ensures Collects(c, n)
  {
    hide Lookup, Linked, GroupGood;
    forall i | 0 <= i < |c.proxies|
      ensures n.proxies[i].data.Keys == c.proxies[i].data.Keys + NamesFor(n, i)
    {
      assert ProxyGood(c.data, c.proxies[i]) && ProxyGood(n.data, n.proxies[i]);
      assert n.proxies[i].path == put.proxies[i].path && n.proxies[i].iface == put.proxies[i].iface;
    }
  }

  lemma {:induction false} EachCollects(c: Cache, g: nat, iface: string, paths: seq<string>)
    ensures var n := Each(c, g, iface, paths);
      && n.data == c.data && |c.proxies| <= |n.proxies| && n.proxies[..|c.proxies|] == c.proxies
      && forall i | |c.proxies| <= i < |n.proxies| :: n.proxies[i].data.Keys == NamesFor(n, i)
  {
    hide Lookup, GroupUpdated;
    if paths != [] {
      EachCollects(c, g, iface, paths[..|paths| - 1]);
      var m, path := Each(c, g, iface, paths[..|paths| - 1]), paths[|paths| - 1];
      MadeByGroup(m, g, Lookup(m.data, path, iface), path);
      var n := Each(c, g, iface, paths);
      assert forall i | 0 <= i < |m.proxies| && n != m :: n.proxies[i] == n.proxies[..|m.proxies|][i];
    }
  }

  lemma ConnectCollects(c: Cache, e: Event)
    requires Mirrors(c) && !e.Notified?
    ensures Collects(c, Next(c, e))
  {
    hide Each, Lookup, Linked, GroupGood;
    var n := Next(c, e);
    match e
    case NewProxy(iface, path) =>
      MadeAlone(c, iface, path);
    case NewGroup(iface) =>
      var connected := c.(groups := c.groups + [Group(iface, map[])],
                          callbacks := c.callbacks + [Callback(None, iface, GroupUpdate(|c.groups|))]);
      EachCollects(connected, |c.groups|, iface, c.paths);
    forall i | 0 <= i < |c.proxies|
      ensures n.proxies[i].data.Keys == c.proxies[i].data.Keys + NamesFor(n, i)
    {
      assert n.proxies[i] == n.proxies[..|c.proxies|][i];
      assert ProxyGood(c.data, c.proxies[i]);
    }
  }

  /** The names of all properties that were cached for a proxy after any of some notices. */
  function EverIn(c: Cache, notices: seq<Notice>, i: nat): set<string> {
    if notices == [] then {} else EverIn(c, notices[..|notices| - 1], i) + NamesFor(Notify(c, notices), i)
  }

  /** The names of all properties that were ever cached for a proxy since it was made. */
  function Ever(events: seq<Event>, i: nat): set<string> {
    if events == [] then {}
    else
      var less, last := events[..|events| - 1], events[|events| - 1];
      Ever(less, i) + if last.Notified? then EverIn(Run(less), last.notices, i) else NamesFor(Run(events), i)
  }

  /** What a proxy has, by its number, or nothing before it is made. */
  function Has(c: Cache, i: nat): set<string> {
    if i < |c.proxies| then c.proxies[i].data.Keys else {}
  }

  lemma CollectsHas(c: Cache, n: Cache, i: nat)
    requires Collects(c, n)
    ensures Has(n, i) == Has(c, i) + NamesFor(n, i)
  {
    hide Lookup;
  }

  lemma {:induction false} NotifyEver(c: Cache, notices: seq<Notice>, i: nat)
    requires Mirrors(c)
    ensures Has(Notify(c, notices), i) == Has(c, i) + EverIn(c, notices, i)
  {
    hide Mirrors, Apply, Collects, Has, NamesFor;
    if notices != [] {
      var less := notices[..|notices| - 1];
      NotifyMirrors(c, less);
      NotifyEver(c, less, i);
      ApplyCollects(Notify(c, less), notices[|notices| - 1]);
      CollectsHas(Notify(c, less), Notify(c, notices), i);
    }
  }

  /** After any run a proxy has just the properties that were ever cached for it since it was made. */
  lemma {:induction false} RunEver(events: seq<Event>, i: nat)
    ensures Has(Run(events), i) == Ever(events, i)
  {
    hide Mirrors, Notify, WithProxy, WithGroup, Collects, NamesFor, EverIn;
    if events != [] {
      var less, last := events[..|events| - 1], events[|events| - 1];
      RunEver(less, i);
      RunMirrors(less, "", "");
      if last.Notified? {
        NotifyEver(Run(less), last.notices, i);
      } else {
        ConnectCollects(Run(less), last);
        CollectsHas(Run(less), Run(events), i);
      }
    }
  }

  /** So a valid proxy has exactly the cached properties if and only if every property that was cached for it since
      it was made still is. */
  lemma ExactAfterRun(events: seq<Event>, i: nat)
    requires i < |Run(events).proxies| && Run(events).proxies[i].valid
    ensures var c := Run(events);
      var cached := Lookup(c.data, c.proxies[i].path, c.proxies[i].iface);
      cached.Some? && (c.proxies[i].data == cached.value <==> Ever(events, i) <= cached.value.Keys)
  {
    hide Run, Ever, Linked, GroupGood, Lookup;
    RunEver(events, i);
    RunMirrors(events, "", "");
    var c := Run(events);
    var p := c.proxies[i];
    assert ProxyGood(c.data, p);
    var cached := Lookup(c.data, p.path, p.iface).value;
    if p.data.Keys <= cached.Keys {
      assert p.data == cached;
    }
  }

  /** An interface that goes away and comes back with fewer properties leaves the others in the proxy. */
  lemma StaleProperty(c: Cache, i: nat, props: Props, k: string)
    requires Mirrors(c) && i < |c.proxies| && k in c.proxies[i].data && k !in props
    ensures var p := c.proxies[i];
      var n := Notify(c, [Notice(p.path, p.iface, None), Notice(p.path, p.iface, Some(props))]);
      && i < |n.proxies| && n.proxies[i].valid && k in n.proxies[i].data
      && Lookup(n.data, p.path, p.iface) == Some(props)
  {
    hide Emit, Linked, GroupGood, Mirrors, Lookup;
    var p := c.proxies[i];
    var gone, back := Notice(p.path, p.iface, None), Notice(p.path, p.iface, Some(props));
    var m, n := Apply(c, gone), Apply(Apply(c, gone), back);
    NotifyTwo(c, gone, back);
    ApplyMirrors(c, gone);
    ApplyMirrors(m, back);
    if p.path in c.data {
      EmitProxyData(Without(c, p.path, p.iface), c.callbacks, p.path, p.iface, None, i);
    }
    CacheIsFold(c, [gone], p.path, p.iface);
    NotifyOne(c, gone);
    LatestGone(Lookup(c.data, p.path, p.iface), gone);
    ProxyDataApplied(m, i, props);
    MirrorsAt(n, i);
  }

  lemma MirrorsAt(c: Cache, i: nat)
    requires Mirrors(c) && i < |c.proxies|
    ensures ProxyGood(c.data, c.proxies[i])
  {
  }

  lemma NotifyOne(c: Cache, a: Notice)
    ensures Notify(c, [a]) == Apply(c, a)
  {
    hide Apply;
    assert [a][..0] == [];
    assert Notify(c, []) == c;
  }

  lemma NotifyTwo(c: Cache, a: Notice, b: Notice)
    ensures Notify(c, [a, b]) == Apply(Apply(c, a), b)
  {
    hide Apply;
    NotifyOne(c, a);
    assert [a, b][..1] == [a];
  }

  lemma LatestGone(before: Option<Props>, gone: Notice)
    requires gone.props == None
    ensures Latest(before, [gone], gone.path, gone.iface) == None
  {
  }

  // ----- The cache as the program keeps it

  class DBusCache {
    var data: map<string, map<string, Props>>
    var paths: seq<string>
    var callbacks: seq<Callback>
    var proxies: seq<Proxy>
    var groups: seq<Group>
    ghost var reports: seq<Report>

    ghost function State(): Cache
      reads this
    {
      Cache(data, paths, callbacks, proxies, groups, reports)
    }

    constructor ()
      ensures State() == EMPTY && Mirrors(State())
    {
      data, paths, callbacks, proxies, groups, reports := map[], [], [], [], [], [];
    }

    method Connect(path: Option<string>, iface: string, target: Target, first: bool)
      modifies this`callbacks
      ensures var cb := Callback(path, iface, target);
        callbacks == if first then [cb] + old(callbacks) else old(callbacks) + [cb]
    {
      var cb := Callback(path, iface, target);
      if first {
        callbacks := [cb] + callbacks;
      } else {
        callbacks := callbacks + [cb];
      }
    }

    method FindProps(path: string, iface: string) returns (props: Option<Props>)
      ensures props == Lookup(data, path, iface)
    {
      if path in data && iface in data[path] {
        return Some(data[path][iface]);
      }
      return None;
    }

    method UpdateProxy(i: nat, props: Option<Props>)
      requires i < |proxies|
      modifies this`proxies
      ensures State() == ProxyUpdated(old(State()), i, props)
    {
      var p := proxies[i];
      if props.Some? {
        proxies := proxies[i := p.(data := p.data + props.value, valid := true)];
      } else {
        proxies := proxies[i := p.(valid := false)];
      }
    }

    method NewProxy(iface: string, path: string) returns (i: nat)
      modifies this
      ensures State() == WithProxy(old(State()), iface, path) && i == old(|proxies|)
      ensures old(Mirrors(State())) ==> Mirrors(State())
    {
      hide Mirrors;
      i := |proxies|;
      proxies := proxies + [Proxy(path, iface, map[], false)];
      Connect(Some(path), iface, ProxyUpdate(i), true);
      var props := FindProps(path, iface);
      UpdateProxy(i, props);
      if old(Mirrors(State())) {
        NewProxyMirrors(old(State()), iface, path);
      }
    }

    ghost method Dispatch(kind: Kind, g: nat, path: string, i: nat)
      modifies this`reports
      ensures State() == Reported(old(State()), kind, g, path, i)
    {
      if i < |proxies| {
        reports := reports + [Report(kind, g, path, proxies[i])];
      }
    }

    method UpdateGroup(g: nat, props: Option<Props>, path: string)
      requires g < |groups|
      modifies this
      ensures State() == GroupUpdated(old(State()), g, props, path)
    {
      hide Mirrors;
      var group := groups[g];
      if path != "" {
        if props == None {
          if path in group.members {
            groups := groups[g := group.(members := group.members - {path})];
            Dispatch(Removed, g, path, group.members[path]);
          }
        } else {
          var i: nat;
          if path in group.members {
            i := group.members[path];
          } else {
            i := NewProxy(group.iface, path);
            groups := groups[g := group.(members := group.members[path := i])];
            Dispatch(Added, g, path, i);
          }
          Dispatch(Changed, g, path, i);
        }
      }
    }

    method Call(cb: Callback, path: string, iface: string, props: Option<Props>)
      requires CallbackOk(State(), cb)
      modifies this
      ensures State() == Deliver(old(State()), cb, path, iface, props)
    {
      if (cb.path == None || cb.path == Some(path)) && cb.iface == iface {
        match cb.target
        case ProxyUpdate(i) => UpdateProxy(i, props);
        case GroupUpdate(g) => UpdateGroup(g, props, path);
      }
    }

    /** Call everyone who was connected at the start. */
    method EmitAll(path: string, iface: string)
      requires Waiting(State(), callbacks, path, iface)
      modifies this
      ensures State() == Emit(old(State()), old(callbacks), path, iface, Lookup(old(data), path, iface))
      ensures Mirrors(State())
    {
      hide Waiting, CallbackOk, Deliver, Lookup, Mirrors;
      ghost var was := State();
      var copy := callbacks;
      var props := FindProps(path, iface);
      var i := 0;
      assert copy[..0] == [];
      while i < |copy|
        invariant 0 <= i <= |copy|
        invariant State() == Emit(was, copy[..i], path, iface, props)
      {
        assert copy[..i + 1][..i] == copy[..i];
        EmitCallable(was, copy, i, path, iface);
        Call(copy[i], path, iface, props);
        i := i + 1;
      }
      assert copy[..|copy|] == copy;
      EmittedMirrors(was, path, iface);
    }

    method UpdateProps(path: string, iface: string, props: Props)
      requires Mirrors(State())
      modifies this
      ensures State() == Update(old(State()), path, iface, props) && Mirrors(State())
    {
      hide Mirrors, Emit, Waiting;
      ghost var was := State();
      WaitsForUpdate(was, path, iface, props);
      var before := FindProps(path, iface);
      if path !in data {
        data, paths := data[path := map[]], paths + [path];
      }
      data := data[path := data[path][iface := if before.Some? then before.value + props else props]];
      assert State() == Put(was, path, iface, Merged(before, props)) by {
        PutIs(was, path, iface, Merged(before, props));
      }
      EmitAll(path, iface);
    }

    method RemoveProps(path: string, iface: string)
      requires Mirrors(State())
      modifies this
      ensures State() == Remove(old(State()), path, iface) && Mirrors(State())
    {
      hide Mirrors, Emit, Waiting;
      if path in data {
        WaitsForRemove(State(), path, iface);
        data := data[path := data[path] - {iface}];
        EmitAll(path, iface);
      }
    }

    method OnNotify(notices: seq<Notice>)
      requires Mirrors(State())
      modifies this
      ensures State() == Notify(old(State()), notices) && Mirrors(State())
    {
      hide Mirrors, Update, Remove;
      ghost var was := State();
      var i := 0;
      assert notices[..0] == [];
      while i < |notices|
        invariant 0 <= i <= |notices|
        invariant State() == Notify(was, notices[..i]) && Mirrors(State())
      {
        assert notices[..i + 1][..i] == notices[..i];
        var n := notices[i];
        if n.props.Some? {
          UpdateProps(n.path, n.iface, n.props.value);
        } else {
          RemoveProps(n.path, n.iface);
        }
        i := i + 1;
      }
      assert notices[..|notices|] == notices;
    }

    method NewGroup(iface: string) returns (g: nat)
      requires Mirrors(State())
      modifies this
      ensures g == old(|groups|) && State() == WithGroup(old(State()), iface) && Mirrors(State())
    {
      hide Mirrors, Each;
      ghost var was := State();
      g := |groups|;
      groups := groups + [Group(iface, map[])];
      Connect(None, iface, GroupUpdate(g), false);
      TellGroup(g, iface);
      NewGroupMirrors(was, iface);
    }

    /** Go through all paths that have the interface. */
    method TellGroup(g: nat, iface: string)
      requires g < |groups|
      modifies this
      ensures State() == Each(old(State()), g, iface, old(paths))
    {
      hide GroupUpdated, Lookup;
      ghost var was := State();
      var all := paths;
      var i := 0;
      assert all[..0] == [];
      while i < |all|
        invariant 0 <= i <= |all|
        invariant State() == Each(was, g, iface, all[..i]) && g < |groups|
      {
        assert all[..i + 1][..i] == all[..i];
        var props := FindProps(all[i], iface);
        if props.Some? {
          GroupsCount(State(), g, props, all[i]);
          UpdateGroup(g, props, all[i]);
        }
        i := i + 1;
      }
      assert all[..|all|] == all;
    }
  }

  lemma GroupsCount(c: Cache, g: nat, props: Option<Props>, path: string)
    ensures |GroupUpdated(c, g, props, path).groups| == |c.groups|
  {
  }

  lemma PutIs(c: Cache, path: string, iface: string, props: Props)
    ensures var data := if path in c.data then c.data else c.data[path := map[]];
      Put(c, path, iface, props).data == data[path := data[path][iface := props]]
  {
  }

  lemma EmitCallable(c: Cache, copy: seq<Callback>, i: nat, path: string, iface: string)
    requires Waiting(c, copy, path, iface) && i < |copy| && copy == c.callbacks
    ensures CallbackOk(Emit(c, copy[..i], path, iface, Lookup(c.data, path, iface)), copy[i])
  {
    hide Emit, Linked, ProxiesGood, GroupsGood, CallbackOk;
    EmitMirrors(c, copy, i, path, iface);
    LinkedCallback(Emit(c, copy[..i], path, iface, Lookup(c.data, path, iface)), copy[i]);
  }

  lemma WaitsForUpdate(c: Cache, path: string, iface: string, props: Props)
    requires Mirrors(c)
    ensures var merged := Merged(Lookup(c.data, path, iface), props);
      var n := Put(c, path, iface, merged);
      Waiting(n, c.callbacks, path, iface) && Lookup(n.data, path, iface) == Some(merged)
  {
    hide ProxyGood, GroupGood, Linked;
    DataHasPaths(c);
    ChangedWaits(c, Put(c, path, iface, Merged(Lookup(c.data, path, iface), props)), path, iface);
  }

  lemma WaitsForRemove(c: Cache, path: string, iface: string)
    requires Mirrors(c) && path in c.data
    ensures Waiting(Without(c, path, iface), c.callbacks, path, iface)
    ensures Lookup(Without(c, path, iface).data, path, iface) == None
  {
    hide ProxyGood, GroupGood, Linked;
    DataHasPaths(c);
    ChangedWaits(c, Without(c, path, iface), path, iface);
  }
}
