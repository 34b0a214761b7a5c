/** What it means that a port window holds some services: their endpoints can be
    given ports between its two ends, no two the same one. */
module Hosting {
  import opened Graphs
  import opened Ids
  import opened Programs
  import opened Ports

  type Endpoint = (ServiceId, EndpointId)

  /** The endpoints of these services, each named with its service. */
  ghost function EndpointsOf(p: Program, services: set<ServiceId>): set<Endpoint> {
    set s, e | s in services && s in p.services && e in p.services[s].endpoints :: (s, e)
  }

  /** Every endpoint has a port of its own between the two ends. */
  ghost predicate Assigns(ports: map<Endpoint, int>, endpoints: set<Endpoint>, first: int, last: int) {
    && endpoints <= ports.Keys
    && (forall e :: e in endpoints ==> first <= ports[e] <= last)
    && forall d, e :: d in endpoints && e in endpoints && ports[d] == ports[e] ==> d == e
  }

  ghost predicate Hostable(endpoints: set<Endpoint>, first: int, last: int) {
    exists ports :: Assigns(ports, endpoints, first, last)
  }

  /** No more endpoints than ports. */
  lemma {:induction false} Pigeonhole(ports: map<Endpoint, int>, endpoints: set<Endpoint>, first: int, last: int)
    requires Assigns(ports, endpoints, first, last)
    ensures endpoints == {} || |endpoints| <= last - first + 1
    decreases last - first + 1
  {
    if first <= last && endpoints != {} {
      var fewer := set e | e in endpoints && ports[e] != last;
      Pigeonhole(ports, fewer, first, last - 1);
      if top :| top in endpoints && ports[top] == last {
        assert endpoints == fewer + {top};
      } else {
        assert endpoints == fewer;
      }
    } else if e :| e in endpoints {
      assert first <= ports[e] <= last;
    }
  }

  /** As many ports as endpoints are enough. */
  lemma {:induction false} EnoughPorts(endpoints: set<Endpoint>, first: int, last: int)
    returns (ports: map<Endpoint, int>)
    requires endpoints == {} || |endpoints| <= last - first + 1
    ensures Assigns(ports, endpoints, first, last)
    decreases |endpoints|
  {
    ports := map[];
    if e :| e in endpoints {
      var others := EnoughPorts(endpoints - {e}, first, last - 1);
      ports := others[e := last];
    }
  }

  lemma {:induction false} OneServiceEndpoints(s: ServiceId, endpoints: seq<EndpointId>)
    requires forall i, j :: 0 <= i < j < |endpoints| ==> endpoints[i] != endpoints[j]
    ensures |set e | e in endpoints :: (s, e)| == |endpoints|
    decreases |endpoints|
  {
    if endpoints != [] {
      var rest, e := endpoints[..|endpoints| - 1], endpoints[|endpoints| - 1];
      OneServiceEndpoints(s, rest);
      assert endpoints == rest + [e] && e !in rest;
      assert (set d | d in endpoints :: (s, d)) == (set d | d in rest :: (s, d)) + {(s, e)};
    }
  }

  lemma {:induction false} OneMoreService(p: Program, services: set<ServiceId>, s: ServiceId)
    requires Validated(p) && s in p.services && s !in services
    ensures |EndpointsOf(p, services + {s})| == |EndpointsOf(p, services)| + |p.services[s].endpoints|
  {
    var own := set e | e in p.services[s].endpoints :: (s, e);
    OneServiceEndpoints(s, p.services[s].endpoints);
    assert EndpointsOf(p, services + {s}) == EndpointsOf(p, services) + own;
    assert EndpointsOf(p, services) !! own;
  }

  /** The total counts every endpoint once. */
  lemma {:induction false} TotalCounts(p: Program, ids: seq<ServiceId>)
    requires Validated(p) && KnownServices(p, ids) && forall i, j :: 0 <= i < j < |ids| ==> ids[i] != ids[j]
    ensures |EndpointsOf(p, Elements(ids))| == EndpointTotal(p, ids)
    decreases |ids|
  {
    if ids != [] {
      var rest, s := ids[..|ids| - 1], ids[|ids| - 1];
      TotalCounts(p, rest);
      assert ids == rest + [s] && s !in rest;
      assert Elements(ids) == Elements(rest) + {s};
      OneMoreService(p, Elements(rest), s);
    } else {
      assert EndpointsOf(p, Elements(ids)) == {};
    }
  }

  /** A window holds the services exactly when its capacity covers their endpoints. */
  lemma {:induction false} CapacityHosts(p: Program, ids: seq<ServiceId>, window: PortWindow)
    requires Validated(p) && KnownServices(p, ids) && forall i, j :: 0 <= i < j < |ids| ==> ids[i] != ids[j]
    requires window.Valid()
    ensures EndpointTotal(p, ids) <= window.Capacity() <==>
      Hostable(EndpointsOf(p, Elements(ids)), window.start, window.end)
  {
    var endpoints := EndpointsOf(p, Elements(ids));
    TotalCounts(p, ids);
    if EndpointTotal(p, ids) <= window.Capacity() {
      var ports := EnoughPorts(endpoints, window.start, window.end);
    }
    if ports :| Assigns(ports, endpoints, window.start, window.end) {
      Pigeonhole(ports, endpoints, window.start, window.end);
    }
  }
}
