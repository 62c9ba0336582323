/** The registry of protocol-side resources, keyed like the session host's
    own registry by `serviceId ?? serviceName` and filled by get-or-add. */
module RdResourceManager {
  import opened Common
  import opened OTelResourceManager
  import opened RdResource

  class RdResourceManager {
    var resources: map<string, RdResource>

    /** Every resource is stored under its own id. */
    ghost predicate Valid()
      reads this
    {
      forall k :: k in resources ==> resources[k].id == k
    }

    constructor ()
      ensures Valid() && resources == map[]
    {
      resources := map[];
    }

    /** Returns the resource stored under `serviceId ?? serviceName`, creating
        and storing an empty one the first time; entries are never removed or
        replaced. */
    method GetOrAddResource(serviceName: string, serviceId: Option<string>) returns (resource: RdResource)
      requires Valid()
      modifies this
      ensures Valid()
      ensures resource.id == ResourceKey(serviceName, serviceId)
      ensures ResourceKey(serviceName, serviceId) in old(resources) ==>
        resource == old(resources)[ResourceKey(serviceName, serviceId)] && resources == old(resources)
      ensures ResourceKey(serviceName, serviceId) !in old(resources) ==>
        fresh(resource) && resource.metrics == map[] &&
        resources == old(resources)[ResourceKey(serviceName, serviceId) := resource]
    {
      var resourceId := ResourceKey(serviceName, serviceId);
      if resourceId in resources {
        resource := resources[resourceId];
      } else {
        resource := new RdResource(resourceId);
        resources := resources[resourceId := resource];
      }
    }
  }
}
