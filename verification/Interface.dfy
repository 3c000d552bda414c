/** What a DHCP client holds on an interface, and the commands that change it. */
module Interfaces {
  import opened Wrappers
  import opened Bytes
  import opened Leases

  datatype Route = Route(via: seq<byte>, src: seq<byte>)

  /** The addresses, the one default route with the DHCP metric, the routers that have a host route, and the
      contribution to the resolver. A forward command may fail, and a command that failed may have taken effect all the
      same; only the resolver reports faithfully. An undo command succeeds. */
  class Interface {
    var addrs: set<Cidr>
    var route: Option<Route>
    var hosts: set<seq<byte>>
    var dns: seq<seq<byte>>
    var up: bool

    /** How many forward commands have failed. */
    ghost var failures: nat

    constructor ()
      ensures addrs == {} && route == None && hosts == {} && dns == [] && failures == 0
    {
      addrs, route, hosts, dns, up := {}, None, {}, [], false;
      failures := 0;
    }

    /** ip addr replace. */
    method AddrReplace(c: Cidr) returns (ok: bool)
      modifies this`addrs, this`failures
      ensures failures == old(failures) + if ok then 0 else 1
      ensures addrs == old(addrs) || addrs == old(addrs) + {c}
      ensures ok ==> addrs == old(addrs) + {c}
    {
      var done: bool := *;
      ok := *;
      if ok || done {
        addrs := addrs + {c};
      }
      failures := failures + if ok then 0 else 1;
    }

    /** ip link set up. */
    method LinkUp() returns (ok: bool)
      modifies this`up, this`failures
      ensures failures == old(failures) + if ok then 0 else 1
      ensures (ok ==> up) && (old(up) ==> up)
    {
      var done: bool := *;
      ok := *;
      if ok || done {
        up := true;
      }
      failures := failures + if ok then 0 else 1;
    }

    /** ip route replace default, which takes the place of whatever default route has the same metric. */
    method RouteReplace(r: Route) returns (ok: bool)
      modifies this`route, this`failures
      ensures failures == old(failures) + if ok then 0 else 1
      ensures route == old(route) || route == Some(r)
      ensures ok ==> route == Some(r)
    {
      var done: bool := *;
      ok := *;
      if ok || done {
        route := Some(r);
      }
      failures := failures + if ok then 0 else 1;
    }

    /** ip route replace to the router itself. */
    method HostReplace(router: seq<byte>) returns (ok: bool)
      modifies this`hosts, this`failures
      ensures failures == old(failures) + if ok then 0 else 1
      ensures hosts == old(hosts) || hosts == old(hosts) + {router}
      ensures ok ==> hosts == old(hosts) + {router}
    {
      var done: bool := *;
      ok := *;
      if ok || done {
        hosts := hosts + {router};
      }
      failures := failures + if ok then 0 else 1;
    }

    /** dns.SetLeaseNameservers. */
    method SetNameservers(servers: seq<seq<byte>>) returns (ok: bool)
      modifies this`dns, this`failures
      ensures failures == old(failures) + if ok then 0 else 1
      ensures dns == if ok then servers else old(dns)
    {
      ok := *;
      if ok {
        dns := servers;
      }
      failures := failures + if ok then 0 else 1;
    }

    /** ip addr del. */
    method AddrDel(c: Cidr)
      modifies this`addrs
      ensures addrs == old(addrs) - {c}
    {
      addrs := addrs - {c};
    }

    /** ip route del default via, which leaves a default route via any other router alone. */
    method RouteDel(via: seq<byte>)
      modifies this`route
      ensures route == if old(route).Some? && old(route).value.via == via then None else old(route)
    {
      if route.Some? && route.value.via == via {
        route := None;
      }
    }

    method HostDel(router: seq<byte>)
      modifies this`hosts
      ensures hosts == old(hosts) - {router}
    {
      hosts := hosts - {router};
    }

    /** ip route replace to the router while undoing. */
    method HostRestore(router: seq<byte>)
      modifies this`hosts
      ensures hosts == old(hosts) + {router}
    {
      hosts := hosts + {router};
    }

    /** ip route replace default while undoing. */
    method RouteRestore(r: Route)
      modifies this`route
      ensures route == Some(r)
    {
      route := Some(r);
    }

    /** dns.RemoveLeaseNameservers. */
    method RemoveNameservers()
      modifies this`dns
      ensures dns == []
    {
      dns := [];
    }
  }
}
