/** The cached complete view of a service: who may read it, and what comes out of the cache. */
module ServiceView {
  import opened Wrappers
  import opened CacheCodec
  import Framing

  datatype Error = NotFound | Failed

  function Key(org: string, serviceId: string): string {
    "unified:service:" + (org + (":" + serviceId))
  }

  /** Organization ids are UUIDs, so the first colon after the prefix ends the organization. */
  lemma KeyIsInjective(org: string, serviceId: string, otherOrg: string, otherId: string)
    requires ':' !in org && ':' !in otherOrg && Key(org, serviceId) == Key(otherOrg, otherId)
    ensures org == otherOrg && serviceId == otherId
  {
    assert org + (":" + serviceId) == Key(org, serviceId)[16..];
    assert otherOrg + (":" + otherId) == Key(otherOrg, otherId)[16..];
    Framing.CutAtColon(org, serviceId, otherOrg, otherId);
  }

  datatype Origin = Origin(org: string, serviceId: string, view: Js)

  /** The answer of a cache hit: the revived view, which is the fetched view itself when that was clean. */
  ghost predicate Hit(o: Origin, org: string, serviceId: string, r: Result<Js, Error>) {
    && o.org == org && o.serviceId == serviceId
    && r == (if Cached(o.view).Some? then Ok(Cached(o.view).value) else Err(Failed))
    && (WellFormed(o.view) && Clean(o.view) ==> r == Ok(o.view))
  }

  class ViewService {
    /** The JSON values under each key. */
    var redis: map<string, Js>
    /** For each key, the call that wrote it and the view it had fetched. */
    ghost var origin: map<string, Origin>

    ghost predicate Valid()
      reads this
    {
      && origin.Keys == redis.Keys
      && forall k :: k in redis ==>
           && ':' !in origin[k].org && k == Key(origin[k].org, origin[k].serviceId)
           && redis[k] == Json(Prepare(origin[k].view))
    }

    constructor ()
      ensures Valid() && redis == map[]
    {
      redis, origin := map[], map[];
    }

    /**
     `fetched` is the view assembled from the three frameworks, absent when one of them fails or knows no such
     service; `redisFails` says whether Redis rejects in this call.
     */
    method GetCompleteServiceView(org: string, owned: set<string>, serviceId: string, useCache: bool,
                                  fetched: Option<Js>, redisFails: bool) returns (r: Result<Js, Error>)
      requires Valid() && ':' !in org
      modifies this
      ensures Valid()
      // Ownership comes first: a foreign id is refused whatever the cache holds.
      ensures serviceId !in owned ==> r == Err(NotFound) && redis == old(redis)
      // A hit is the revived view that was fetched for this organization and this service.
      ensures serviceId in owned && useCache && !redisFails && Key(org, serviceId) in old(redis) ==>
                redis == old(redis) && Hit(old(origin)[Key(org, serviceId)], org, serviceId, r)
      // A miss answers the fetched view and stores it under its own key only.
      ensures serviceId in owned && !redisFails && (!useCache || Key(org, serviceId) !in old(redis)) ==>
                if fetched.Some? then
                  r == Ok(fetched.value) && redis == old(redis)[Key(org, serviceId) := Json(Prepare(fetched.value))]
                else r == Err(Failed) && redis == old(redis)
      ensures serviceId in owned && redisFails ==> r == Err(Failed) && redis == old(redis)
    {
      if serviceId !in owned {
        return Err(NotFound);
      }
      var key := Key(org, serviceId);
      if redisFails {
        return Err(Failed);
      }
      if useCache && key in redis {
        ghost var o := origin[key];
        KeyIsInjective(org, serviceId, o.org, o.serviceId);
        if WellFormed(o.view) {
          RoundTripIffClean(o.view);
        }
        var revived := Revive(redis[key]);
        return if revived.Some? then Ok(revived.value) else Err(Failed);
      }
      if fetched.None? {
        return Err(Failed);
      }
      redis := redis[key := Json(Prepare(fetched.value))];
      origin := origin[key := Origin(org, serviceId, fetched.value)];
      r := Ok(fetched.value);
    }
  }
}
