/** The session host's registry of resources, keyed by
    `serviceId ?? serviceName` and filled by get-or-add. */
module OTelResourceManager {
  import opened Common
  import opened OTelResource

  /** `serviceId ?? serviceName`. */
  function ResourceKey(serviceName: string, serviceId: Option<string>): string
  {
    serviceId.GetOr(serviceName)
  }

  /** With a service id, the service name has no effect on the key; without
      one, the key is the name. */
  lemma ResourceKeyChoice(name1: string, name2: string, serviceId: Option<string>)
    ensures serviceId.Some? ==> ResourceKey(name1, serviceId) == ResourceKey(name2, serviceId) == serviceId.value
    ensures serviceId.None? ==> ResourceKey(name1, serviceId) == name1
  {
  }

  class OTelResourceManager {
    var resources: map<string, OTelResource>

    /** Every resource is stored under its own id, so distinct keys hold
        distinct resources. */
    ghost predicate Valid()
      reads this
    {
      forall k :: k in resources ==> resources[k].id == k
    }

    /** The registry holds exactly `store`: the same keys, and each key's
        resource holds that key's dictionary. */
    ghost predicate Holds(store: map<string, map<ResourceMetricId, OTelMetric>>)
      reads this, resources.Values
    {
      resources.Keys == store.Keys && forall k :: k in resources ==> resources[k].metrics == store[k]
    }

    constructor ()
      ensures Valid() && resources == map[] && Holds(map[])
    {
      resources := map[];
    }

    /** Returns the resource stored under `serviceId ?? serviceName`, creating
        and storing an empty one the first time; other keys are untouched. */
    method GetOrAddResource(serviceName: string, serviceId: Option<string>) returns (resource: OTelResource)
      requires Valid()
      modifies this
      ensures Valid()
      ensures resource.id == ResourceKey(serviceName, serviceId)
      ensures ResourceKey(serviceName, serviceId) in old(resources) ==>
        resource == old(resources)[ResourceKey(serviceName, serviceId)] && resources == old(resources)
      ensures ResourceKey(serviceName, serviceId) !in old(resources) ==>
        fresh(resource) && resource.metrics == map[] &&
        resources == old(resources)[ResourceKey(serviceName, serviceId) := resource]
    ensures forall o :: o in resources.Values ==> o in old(resources.Values) || fresh(o)
    {
      var resourceId := ResourceKey(serviceName, serviceId);
      if resourceId in resources {
        resource := resources[resourceId];
      } else {
        resource := new OTelResource(resourceId);
        resources := resources[resourceId := resource];
      }
    }
  }
}
