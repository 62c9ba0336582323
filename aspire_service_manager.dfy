/** The IDE's registry of Aspire hosts: hosts by project path, each with a
    table of its resources; hosts are added if absent and removed together
    with their table, and a host's resource listing leaves out Unknown and
    Hidden resources and orders the rest by type. */
module AspireServiceManager {
  import opened Common
  import opened AspireHost

  /** The protocol's resource types, in declaration order. */
  datatype ResourceType = Project | Container | Executable | Unknown

  /** The position of a type in its enum, the order `sortedBy` uses. */
  function Ordinal(t: ResourceType): nat
  {
    match t
    case Project => 0
    case Container => 1
    case Executable => 2
    case Unknown => 3
  }

  /** A resource state: Hidden, or any other state of the protocol enum. */
  datatype ResourceState = Hidden | Visible(name: string)

  /** A resource of a host as listed in the service view. */
  datatype AspireResource = AspireResource(resourceId: string, resourceType: ResourceType, state: ResourceState)

  /** The resources that are listed at all. */
  function Shown(rs: seq<AspireResource>): seq<AspireResource>
  {
    if rs == [] then []
    else
      var last := rs[|rs| - 1];
      Shown(rs[..|rs| - 1]) + (if last.resourceType != Unknown && last.state != Hidden then [last] else [])
  }

  /** The resources of one type, in order. */
  function OfType(rs: seq<AspireResource>, t: ResourceType): seq<AspireResource>
  {
    if rs == [] then []
    else
      var last := rs[|rs| - 1];
      OfType(rs[..|rs| - 1], t) + (if last.resourceType == t then [last] else [])
  }

  /** `sortedBy { it.type }`: a stable sort on a key with four values, that
      is, the resources of each type in their original order, types in
      enum order. */
  function SortedByType(rs: seq<AspireResource>): seq<AspireResource>
  {
    OfType(rs, Project) + OfType(rs, Container) + OfType(rs, Executable) + OfType(rs, Unknown)
  }

  /** The listing of a host's resources, in table order. */
  function ListResources(rs: seq<AspireResource>): seq<AspireResource>
  {
    SortedByType(Shown(rs))
  }

  predicate SortedByOrdinal(rs: seq<AspireResource>)
  {
    forall i, j :: 0 <= i < j < |rs| ==> Ordinal(rs[i].resourceType) <= Ordinal(rs[j].resourceType)
  }

  /** Every resource of `OfType(rs, t)` is of type `t` and in `rs`, and the
      resources of type `t` partition the multiset of `rs`. */
  lemma {:induction false} OfTypeElements(rs: seq<AspireResource>, t: ResourceType)
    ensures forall i :: 0 <= i < |OfType(rs, t)| ==> OfType(rs, t)[i].resourceType == t
    ensures |OfType(rs, t)| <= |rs|
  {
    if rs != [] {
      OfTypeElements(rs[..|rs| - 1], t);
    }
  }

  /** A resource occurs in `OfType(rs, t)` as often as in `rs` when it is of
      type `t`, and not at all otherwise. */
  lemma {:induction false} OfTypeCount(rs: seq<AspireResource>, t: ResourceType, r: AspireResource)
    ensures multiset(OfType(rs, t))[r] == if r.resourceType == t then multiset(rs)[r] else 0
  {
    if rs != [] {
      var n := |rs| - 1;
      OfTypeCount(rs[..n], t, r);
      assert rs == rs[..n] + [rs[n]];
    }
  }

  /** Splitting by type loses and adds nothing. */
  lemma OfTypePartition(rs: seq<AspireResource>)
    ensures multiset(SortedByType(rs)) == multiset(rs)
  {
    forall r | true
      ensures multiset(SortedByType(rs))[r] == multiset(rs)[r]
    {
      OfTypeCount(rs, Project, r);
      OfTypeCount(rs, Container, r);
      OfTypeCount(rs, Executable, r);
      OfTypeCount(rs, Unknown, r);
    }
  }

  /** Filtering by type distributes over concatenation. */
  lemma {:induction false} OfTypeAppend(a: seq<AspireResource>, b: seq<AspireResource>, t: ResourceType)
    ensures OfType(a + b, t) == OfType(a, t) + OfType(b, t)
    decreases |b|
  {
    if b == [] {
      assert a + b == a;
    } else {
      var n := |b| - 1;
      assert (a + b)[..|a + b| - 1] == a + b[..n];
      assert (a + b)[|a + b| - 1] == b[n];
      OfTypeAppend(a, b[..n], t);
      var last := if b[n].resourceType == t then [b[n]] else [];
      assert OfType(a, t) + OfType(b[..n], t) + last == OfType(a, t) + (OfType(b[..n], t) + last);
    }
  }

  /** Filtering twice by the same type is filtering once; by two different
      types, nothing is left. */
  lemma {:induction false} OfTypeOfType(rs: seq<AspireResource>, t: ResourceType, u: ResourceType)
    ensures OfType(OfType(rs, t), u) == if t == u then OfType(rs, t) else []
  {
    if rs != [] {
      var n := |rs| - 1;
      OfTypeOfType(rs[..n], t, u);
      var last := if rs[n].resourceType == t then [rs[n]] else [];
      OfTypeAppend(OfType(rs[..n], t), last, u);
    }
  }

  /** A sequence of one type is sorted. */
  lemma OfTypeSorted(rs: seq<AspireResource>, t: ResourceType)
    ensures SortedByOrdinal(OfType(rs, t))
  {
    OfTypeElements(rs, t);
  }

  lemma ConcatSorted(a: seq<AspireResource>, b: seq<AspireResource>, m: nat)
    requires SortedByOrdinal(a) && SortedByOrdinal(b)
    requires forall i :: 0 <= i < |a| ==> Ordinal(a[i].resourceType) <= m
    requires forall j :: 0 <= j < |b| ==> m <= Ordinal(b[j].resourceType)
    ensures SortedByOrdinal(a + b)
  {
    forall i, j | 0 <= i < j < |a + b|
      ensures Ordinal((a + b)[i].resourceType) <= Ordinal((a + b)[j].resourceType)
    {
      if j < |a| {
      } else if i >= |a| {
        assert (a + b)[i] == b[i - |a|] && (a + b)[j] == b[j - |a|];
      }
    }
  }

  /** The sort orders by type ordinal. */
  lemma SortedByTypeSorted(rs: seq<AspireResource>)
    ensures SortedByOrdinal(SortedByType(rs))
  {
    var p, c, e, u := OfType(rs, Project), OfType(rs, Container), OfType(rs, Executable), OfType(rs, Unknown);
    OfTypeElements(rs, Project);
    OfTypeElements(rs, Container);
    OfTypeElements(rs, Executable);
    OfTypeElements(rs, Unknown);
    OfTypeSorted(rs, Project);
    OfTypeSorted(rs, Container);
    OfTypeSorted(rs, Executable);
    OfTypeSorted(rs, Unknown);
    ConcatSorted(p, c, 0);
    assert forall i :: 0 <= i < |p + c| ==> Ordinal((p + c)[i].resourceType) <= 1;
    ConcatSorted(p + c, e, 1);
    assert forall i :: 0 <= i < |p + c + e| ==> Ordinal((p + c + e)[i].resourceType) <= 2;
    ConcatSorted(p + c + e, u, 2);
  }

  /** The sort is stable: the resources of each type keep their relative
      order. */
  lemma SortedByTypeStable(rs: seq<AspireResource>, t: ResourceType)
    ensures OfType(SortedByType(rs), t) == OfType(rs, t)
  {
    var p, c, e, u := OfType(rs, Project), OfType(rs, Container), OfType(rs, Executable), OfType(rs, Unknown);
    OfTypeAppend(p + c + e, u, t);
    OfTypeAppend(p + c, e, t);
    OfTypeAppend(p, c, t);
    var pt, ct, et, ut := OfType(p, t), OfType(c, t), OfType(e, t), OfType(u, t);
    assert OfType(SortedByType(rs), t) == pt + ct + et + ut;
    OfTypeOfType(rs, Project, t);
    OfTypeOfType(rs, Container, t);
    OfTypeOfType(rs, Executable, t);
    OfTypeOfType(rs, Unknown, t);
    match t
    case Project =>
      assert ct == [] && et == [] && ut == [];
      assert pt + ct + et + ut == pt;
    case Container =>
      assert pt == [] && et == [] && ut == [];
      assert pt + ct + et + ut == ct;
    case Executable =>
      assert pt == [] && ct == [] && ut == [];
      assert pt + ct + et + ut == et;
    case Unknown =>
      assert pt == [] && ct == [] && et == [];
      assert pt + ct + et + ut == ut;
  }

  /** A resource is listed iff it is in the table, its type is not Unknown
      and its state is not Hidden. */
  lemma {:induction false} ShownMembers(rs: seq<AspireResource>, r: AspireResource)
    ensures r in Shown(rs) <==> r in rs && r.resourceType != Unknown && r.state != Hidden
  {
    if rs != [] {
      var n := |rs| - 1;
      ShownMembers(rs[..n], r);
      assert rs == rs[..n] + [rs[n]];
    }
  }

  /** The listing holds exactly the shown resources, as a permutation of
      the filtered table, ordered by type and stable within a type. */
  lemma ListResourcesSpec(rs: seq<AspireResource>, r: AspireResource)
    ensures r in ListResources(rs) <==> r in rs && r.resourceType != Unknown && r.state != Hidden
    ensures multiset(ListResources(rs)) == multiset(Shown(rs))
    ensures SortedByOrdinal(ListResources(rs))
  {
    OfTypePartition(Shown(rs));
    ShownMembers(rs, r);
    assert r in ListResources(rs) <==> r in multiset(ListResources(rs));
    assert r in Shown(rs) <==> r in multiset(Shown(rs));
    SortedByTypeSorted(Shown(rs));
  }

  predicate UniqueIds(rs: seq<AspireResource>)
  {
    forall i, j :: 0 <= i < j < |rs| ==> rs[i].resourceId != rs[j].resourceId
  }

  /** The ids of a table. */
  function IdsOf(rs: seq<AspireResource>): set<string>
  {
    if rs == [] then {} else IdsOf(rs[..|rs| - 1]) + {rs[|rs| - 1].resourceId}
  }

  lemma {:induction false} IdsOfIndex(rs: seq<AspireResource>, resourceId: string)
    ensures resourceId in IdsOf(rs) <==> exists i :: 0 <= i < |rs| && rs[i].resourceId == resourceId
  {
    if rs != [] {
      var n := |rs| - 1;
      IdsOfIndex(rs[..n], resourceId);
      if resourceId in IdsOf(rs[..n]) {
        var i :| 0 <= i < n && rs[..n][i].resourceId == resourceId;
        assert rs[i].resourceId == resourceId;
      }
      if exists i :: 0 <= i < |rs| && rs[i].resourceId == resourceId {
        var i :| 0 <= i < |rs| && rs[i].resourceId == resourceId;
        if i < n {
          assert rs[..n][i].resourceId == resourceId;
        }
      }
    }
  }

  /** The table without the entry under `resourceId`. */
  function RemoveId(rs: seq<AspireResource>, resourceId: string): (r: seq<AspireResource>)
    ensures |r| <= |rs|
  {
    if rs == [] then []
    else
      var last := rs[|rs| - 1];
      RemoveId(rs[..|rs| - 1], resourceId) + (if last.resourceId == resourceId then [] else [last])
  }

  /** Removal keeps every other entry and drops every entry under the id. */
  lemma {:induction false} RemoveIdMembers(rs: seq<AspireResource>, resourceId: string, r: AspireResource)
    ensures r in RemoveId(rs, resourceId) <==> r in rs && r.resourceId != resourceId
  {
    if rs != [] {
      var n := |rs| - 1;
      RemoveIdMembers(rs[..n], resourceId, r);
      assert rs == rs[..n] + [rs[n]];
    }
  }

  lemma IdsOfSnoc(rs: seq<AspireResource>, r: AspireResource)
    ensures IdsOf(rs + [r]) == IdsOf(rs) + {r.resourceId}
  {
    assert (rs + [r])[..|rs|] == rs;
  }

  /** The ids of the table after a removal: the old ones without the
      removed id. */
  lemma {:induction false} RemoveIdIds(rs: seq<AspireResource>, resourceId: string)
    ensures IdsOf(RemoveId(rs, resourceId)) == IdsOf(rs) - {resourceId}
  {
    if rs != [] {
      var n := |rs| - 1;
      RemoveIdIds(rs[..n], resourceId);
      if rs[n].resourceId != resourceId {
        IdsOfSnoc(RemoveId(rs[..n], resourceId), rs[n]);
      } else {
        var rest := RemoveId(rs[..n], resourceId);
        assert RemoveId(rs, resourceId) == rest + [];
        assert rest + [] == rest;
      }
    }
  }

  /** Removal keeps ids unique. */
  lemma {:induction false} RemoveIdUnique(rs: seq<AspireResource>, resourceId: string)
    requires UniqueIds(rs)
    ensures UniqueIds(RemoveId(rs, resourceId))
  {
    if rs != [] {
      var n := |rs| - 1;
      var prefix, last := rs[..n], rs[n];
      assert UniqueIds(prefix);
      RemoveIdUnique(prefix, resourceId);
      var rest := RemoveId(prefix, resourceId);
      if last.resourceId != resourceId {
        IdsOfIndex(prefix, last.resourceId);
        RemoveIdIds(prefix, resourceId);
        IdsOfIndex(rest, last.resourceId);
        assert RemoveId(rs, resourceId) == rest + [last];
      } else {
        assert RemoveId(rs, resourceId) == rest + [];
      }
    }
  }

  /** One host's resource table (an insertion-ordered mutable map from
      resource id to resource). */
  class ResourceTable {
    var entries: seq<AspireResource>

    ghost predicate Valid()
      reads this
    {
      UniqueIds(entries)
    }

    constructor ()
      ensures Valid() && entries == []
    {
      entries := [];
    }

    /** Puts a resource under a free id at the end; an id already present is
        rejected and nothing changes. */
    method AddUnique(resource: AspireResource) returns (added: bool)
      requires Valid()
      modifies this
      ensures Valid()
      ensures added <==> resource.resourceId !in IdsOf(old(entries))
      ensures added ==> entries == old(entries) + [resource]
      ensures !added ==> entries == old(entries)
    {
      var i := 0;
      while i < |entries|
        invariant 0 <= i <= |entries|
        invariant forall k :: 0 <= k < i ==> entries[k].resourceId != resource.resourceId
      {
        if entries[i].resourceId == resource.resourceId {
          IdsOfIndex(entries, resource.resourceId);
          return false;
        }
        i := i + 1;
      }
      IdsOfIndex(entries, resource.resourceId);
      entries := entries + [resource];
      added := true;
    }

    /** Removes the entry under `resourceId`, if any. */
    method Remove(resourceId: string)
      requires Valid()
      modifies this
      ensures Valid()
      ensures entries == RemoveId(old(entries), resourceId)
      ensures IdsOf(entries) == IdsOf(old(entries)) - {resourceId}
    {
      RemoveIdIds(entries, resourceId);
      RemoveIdUnique(entries, resourceId);
      entries := RemoveId(entries, resourceId);
    }
  }

  /** A notification published on the service-view topic. */
  datatype ServiceEvent =
    | ServiceAdded(hostPath: string)
    | ServiceRemoved(hostPath: string)
    | ServiceChanged(hostPath: string)
    | ServiceStructureChanged(hostPath: string)

  class AspireServiceManager {
    var hosts: map<string, AspireHost>
    var resources: map<string, ResourceTable>
    /** The events published, in order. */
    var published: seq<ServiceEvent>

    /** Hosts and tables are added and removed together, and every host is
        stored under its own path. */
    ghost predicate Valid()
      reads this, hosts.Values
    {
      hosts.Keys == resources.Keys &&
      forall p :: p in hosts ==> hosts[p].projectPathString == p
    }

    constructor ()
      ensures Valid() && hosts == map[] && resources == map[] && published == []
    {
      hosts := map[];
      resources := map[];
      published := [];
    }

    /** The listing of a host's resources; empty for an unknown host. */
    function GetResources(hostPath: string): (r: seq<AspireResource>)
      reads this, resources.Values
      ensures hostPath !in resources ==> r == []
      ensures hostPath in resources ==> r == ListResources(resources[hostPath].entries)
    {
      if hostPath in resources then ListResources(resources[hostPath].entries) else []
    }

    /** Registers a host with an empty resource table and announces it,
        unless a host with the same path is already registered. */
    method AddAspireHost(host: AspireHost)
      requires Valid()
      modifies this
      ensures Valid()
      ensures host.projectPathString in old(hosts) ==>
        hosts == old(hosts) && resources == old(resources) && published == old(published)
      ensures host.projectPathString !in old(hosts) ==>
        hosts == old(hosts)[host.projectPathString := host] &&
        host.projectPathString in resources && fresh(resources[host.projectPathString]) &&
        resources[host.projectPathString].entries == [] &&
        resources == old(resources)[host.projectPathString := resources[host.projectPathString]] &&
        published == old(published) + [ServiceAdded(host.projectPathString)]
    {
      if host.projectPathString in hosts {
        return;
      }
      var path := host.projectPathString;
      hosts := hosts[path := host];
      var table := new ResourceTable();
      resources := resources[path := table];
      published := published + [ServiceAdded(path)];
    }

    /** Drops the host and its table; announces the removal only when a host
        was registered. */
    method RemoveAspireHost(hostPath: string)
      requires Valid()
      modifies this
      ensures Valid()
      ensures hosts == old(hosts) - {hostPath} && resources == old(resources) - {hostPath}
      ensures hostPath in old(hosts) ==> published == old(published) + [ServiceRemoved(hostPath)]
      ensures hostPath !in old(hosts) ==> published == old(published)
    {
      var wasPresent := hostPath in hosts;
      hosts := hosts - {hostPath};
      resources := resources - {hostPath};
      if !wasPresent {
        return;
      }
      published := published + [ServiceRemoved(hostPath)];
    }

    /** Renames the host under `hostPath`; nothing happens for an unknown
        path. Only display names may change, so the host's run state and
        console are kept. */
    method UpdateAspireHostName(hostPath: string, name: string)
      requires Valid()
      requires forall h :: h in hosts.Values ==> h.Valid()
      modifies this`published, hosts.Values`displayName
      ensures Valid()
      ensures forall h :: h in hosts.Values ==> h.Valid()
      ensures hostPath !in hosts ==> published == old(published) && forall h :: h in hosts.Values ==> unchanged(h)
      ensures hostPath in hosts ==>
        hosts[hostPath].displayName == name && published == old(published) + [ServiceChanged(hostPath)]
      ensures forall h :: h in hosts.Values && (hostPath !in hosts || h != hosts[hostPath]) ==> unchanged(h)
    {
      if hostPath !in hosts {
        return;
      }
      var host := hosts[hostPath];
      host.UpdateName(name);
      published := published + [ServiceChanged(hostPath)];
    }

    /** Attaches a run's console to the host under `hostPath`; nothing
        happens for an unknown path. Only consoles may change, so the host's
        name and run state are kept. */
    method UpdateAspireHostConsole(hostPath: string, console: ConsoleHandle)
      requires Valid()
      requires forall h :: h in hosts.Values ==> h.Valid()
      modifies this`published, hosts.Values`consoleView
      ensures Valid()
      ensures forall h :: h in hosts.Values ==> h.Valid()
      ensures hostPath !in hosts ==> published == old(published) && forall h :: h in hosts.Values ==> unchanged(h)
      ensures hostPath in hosts ==>
        hosts[hostPath].consoleView == Some(console) && published == old(published) + [ServiceChanged(hostPath)]
      ensures forall h :: h in hosts.Values && (hostPath !in hosts || h != hosts[hostPath]) ==> unchanged(h)
    {
      if hostPath !in hosts {
        return;
      }
      var host := hosts[hostPath];
      host.UpdateConsole(console);
      published := published + [ServiceChanged(hostPath)];
    }

    /** Adds a resource reported by the session host to its host's table
        and announces the structure change; nothing happens when the host
        has no table, and an id already in the table is rejected. Returns
        the table, whose entry the resource's lifetime later removes. */
    method ViewResource(resource: AspireResource, hostService: AspireHost) returns (table: Option<ResourceTable>)
      requires Valid()
      requires forall p :: p in resources ==> resources[p].Valid()
      modifies this`published, resources.Values
      ensures Valid()
      ensures forall p :: p in resources ==> resources[p].Valid()
      ensures table.Some? <==> hostService.projectPathString in resources
      ensures table.None? ==> published == old(published) && forall t :: t in resources.Values ==> unchanged(t)
      ensures table.Some? ==> table.value == resources[hostService.projectPathString]
      ensures table.Some? && resource.resourceId !in IdsOf(old(table.value.entries)) ==>
        table.value.entries == old(table.value.entries) + [resource] &&
        published == old(published) + [ServiceStructureChanged(hostService.projectPathString)]
      ensures table.Some? && resource.resourceId in IdsOf(old(table.value.entries)) ==>
        table.value.entries == old(table.value.entries) && published == old(published)
      ensures forall t :: t in resources.Values && (table.None? || t != table.value) ==> unchanged(t)
    {
      var path := hostService.projectPathString;
      if path !in resources {
        return None;
      }
      var resourcesByHost := resources[path];
      var added := resourcesByHost.AddUnique(resource);
      table := Some(resourcesByHost);
      if added {
        published := published + [ServiceStructureChanged(path)];
      }
    }
  }
}
