/**
 * Route tables of a VPC: validation of the route list, the add-routes merge, the del-routes
 * splice, the default name of a table imported from a cloud, the route mapping of an imported
 * table, and the bookkeeping of one synchronisation pass against the cloud.
 */
module RouteTables {
  import opened Wrappers
  import opened Strings
  import opened Ipv4
  import opened Seqs

  /** One route of a route table. */
  datatype Route = Route(typ: string, cidr: string, nextHopType: string, nextHopId: string)

  /** Why a route list was refused; each carries the CIDR text it was refused for. */
  datatype RouteError =
    | ParseCidrError(cidr: string)
    | InvalidAddr(cidr: string)
    | DuplicateCidr(cidr: string)
    | UnmarshalCidrs
    | UnmarshalRoutes

  /** The route type that del-routes never removes. */
  const SystemType := "system"

  // ----- validation -----

  /**
   * A single route's check. A CIDR with a '/' after its first character must parse as a network
   * and is replaced by the network's canonical text (192.168.1.3/24 becomes 192.168.1.0/24);
   * anything else must be a plain IPv4 address and is kept as it is.
   */
  function ValidateRoute(r: Route): (res: Result<Route, RouteError>)
    ensures res.Ok? ==> res.value == r.(cidr := res.value.cidr)
  {
    if IndexOf(r.cidr, "/") > 0 then
      match NormalizeCidr(r.cidr)
      case None => Err(ParseCidrError(r.cidr))
      case Some(c) => Ok(r.(cidr := c))
    else if ParseIPv4(r.cidr).None? then Err(InvalidAddr(r.cidr))
    else Ok(r)
  }

  /**
   * A route is accepted exactly when its CIDR parses: as a network when it has a '/' past its
   * first character, which the check then rewrites to the network's own text, and as a plain
   * address otherwise, which the check leaves alone.
   */
  lemma {:induction false} ValidateRouteCases(r: Route)
    ensures IndexByte(r.cidr, '/') > 0 ==>
      (ValidateRoute(r).Ok? <==> ParseCidr(r.cidr).Some?) &&
      (ValidateRoute(r).Ok? ==> ValidateRoute(r).value.cidr == CidrString(ParseCidr(r.cidr).value))
    ensures IndexByte(r.cidr, '/') <= 0 ==>
      (ValidateRoute(r).Ok? <==> ParseIPv4(r.cidr).Some?) &&
      (ValidateRoute(r).Ok? ==> ValidateRoute(r).value == r)
  {
    IndexOfOneChar(r.cidr, '/');
  }

  /** A route that passed validation passes again and is left as it is. */
  lemma {:induction false} ValidateRouteIdempotent(r: Route)
    requires ValidateRoute(r).Ok?
    ensures ValidateRoute(ValidateRoute(r).value) == ValidateRoute(r)
  {
    var v := ValidateRoute(r).value;
    IndexOfOneChar(r.cidr, '/');
    if IndexOf(r.cidr, "/") > 0 {
      NormalizeIdempotent(r.cidr);
      IndexOfOneChar(v.cidr, '/');
    } else {
      assert v == r;
    }
  }

  /** A check of one route: the route, possibly rewritten, or why it was refused. */
  type RouteCheck = Route -> Result<Route, RouteError>

  /** Every route of the list passes the check. */
  predicate AllValid(routes: seq<Route>, check: RouteCheck) {
    forall i :: 0 <= i < |routes| ==> check(routes[i]).Ok?
  }

  /** The list with every route replaced by what the check made of it. */
  function Normalized(routes: seq<Route>, check: RouteCheck): (r: seq<Route>)
    requires AllValid(routes, check)
    ensures |r| == |routes|
    ensures forall i :: 0 <= i < |r| ==> check(routes[i]) == Ok(r[i])
  {
    seq(|routes|, i requires 0 <= i < |routes| => check(routes[i]).value)
  }

  /** No two routes share a CIDR. */
  predicate DistinctCidrs(routes: seq<Route>) {
    forall i, j :: 0 <= i < j < |routes| ==> routes[i].cidr != routes[j].cidr
  }

  /** Some route of the list has CIDR `c`. */
  predicate HasCidr(routes: seq<Route>, c: string) {
    exists k :: 0 <= k < |routes| && routes[k].cidr == c
  }

  lemma AllValidSnoc(init: seq<Route>, last: Route, check: RouteCheck)
    ensures AllValid(init + [last], check) <==> AllValid(init, check) && check(last).Ok?
  {
    var s := init + [last];
    assert forall i :: 0 <= i < |init| ==> s[i] == init[i];
    assert s[|init|] == last;
  }

  lemma DistinctSnoc(done: seq<Route>, v: Route)
    ensures DistinctCidrs(done + [v]) <==> DistinctCidrs(done) && !HasCidr(done, v.cidr)
  {
    var s := done + [v];
    assert forall i :: 0 <= i < |done| ==> s[i] == done[i];
    assert s[|done|] == v;
  }

  /**
   * What validating a whole list yields: the routes are checked in order; the first route that
   * fails, or the first whose checked CIDR was already seen, stops the check with an error.
   * The list is accepted exactly when every route passes and the checked CIDRs are pairwise
   * distinct, and then the checked routes are returned.
   */
  function ValidateAll(routes: seq<Route>, check: RouteCheck): (r: Result<seq<Route>, RouteError>)
    ensures r.Ok? <==> AllValid(routes, check) && DistinctCidrs(Normalized(routes, check))
    ensures r.Ok? ==> r.value == Normalized(routes, check)
  {
    if routes == [] then Ok([])
    else
      var init := routes[..|routes| - 1];
      var last := routes[|routes| - 1];
      AllValidSnoc(init, last, check);
      assert routes == init + [last];
      match ValidateAll(init, check)
      case Err(e) => Err(e)
      case Ok(done) =>
        match check(last)
        case Err(e) => Err(e)
        case Ok(v) =>
          assert Normalized(routes, check) == done + [v];
          DistinctSnoc(done, v);
          if HasCidr(done, v.cidr) then Err(DuplicateCidr(v.cidr)) else Ok(done + [v])
  }

  /** Validating one more route of the list: its error, a duplicate, or the longer list. */
  lemma ValidateSnoc(routes: seq<Route>, i: nat, check: RouteCheck)
    requires i < |routes|
    ensures var p := ValidateAll(routes[..i], check);
      var v := check(routes[i]);
      ValidateAll(routes[..i + 1], check) ==
        if p.Err? then p
        else if v.Err? then Err(v.error)
        else if HasCidr(p.value, v.value.cidr) then Err(DuplicateCidr(v.value.cidr))
        else Ok(p.value + [v.value])
  {
    assert routes[..i + 1][..i] == routes[..i];
    assert routes[..i + 1][i] == routes[i];
  }

  /** Once a prefix of the list fails, the whole list fails with the same error. */
  lemma {:induction false} ValidateErrStays(routes: seq<Route>, n: nat, check: RouteCheck)
    requires n <= |routes| && ValidateAll(routes[..n], check).Err?
    ensures ValidateAll(routes, check) == ValidateAll(routes[..n], check)
    decreases |routes| - n
  {
    if n < |routes| {
      assert routes[..n + 1][..n] == routes[..n];
      assert ValidateAll(routes[..n + 1], check) == ValidateAll(routes[..n], check);
      ValidateErrStays(routes, n + 1, check);
    } else {
      assert routes[..n] == routes;
    }
  }

  /**
   * The route list's own check, as a loop that remembers the CIDRs seen so far; the system
   * passes `ValidateRoute` as `check`. The in-place rewrite of each route's CIDR is returned as
   * the normalised list.
   */
  method ValidateRoutes(routes: seq<Route>, check: RouteCheck) returns (r: Result<seq<Route>, RouteError>)
    ensures r == ValidateAll(routes, check)
  {
    var found: set<string> := {};
    var done: seq<Route> := [];
    var i := 0;
    while i < |routes|
      invariant 0 <= i <= |routes|
      invariant ValidateAll(routes[..i], check) == Ok(done)
      invariant forall c :: c in found <==> HasCidr(done, c)
    {
      ValidateSnoc(routes, i, check);
      var v := check(routes[i]);
      if v.Err? {
        ValidateErrStays(routes, i + 1, check);
        return Err(v.error);
      }
      var c := v.value.cidr;
      if c in found {
        ValidateErrStays(routes, i + 1, check);
        return Err(DuplicateCidr(c));
      }
      assert forall k :: 0 <= k < |done| ==> (done + [v.value])[k] == done[k];
      assert (done + [v.value])[|done|] == v.value;
      done := done + [v.value];
      found := found + {c};
      i := i + 1;
    }
    assert routes[..i] == routes;
    return Ok(done);
  }

  // ----- add-routes -----

  /**
   * The add-routes merge: each added route, in order, is appended unless a route with the same
   * CIDR is already in the list, counting the routes this merge appended before it.
   */
  function Merged(routes: seq<Route>, adds: seq<Route>): (r: seq<Route>)
    ensures routes <= r
    ensures |r| <= |routes| + |adds|
    ensures forall a :: a in adds ==> HasCidr(r, a.cidr)
    ensures forall k :: |routes| <= k < |r| ==> r[k] in adds
    ensures DistinctCidrs(routes) ==> DistinctCidrs(r)
    decreases |adds|
  {
    if adds == [] then routes
    else
      var init := adds[..|adds| - 1];
      var a := adds[|adds| - 1];
      var m := Merged(routes, init);
      assert forall x :: x in adds ==> x in init || x == a;
      assert forall x :: x in init ==> x in adds;
      if HasCidr(m, a.cidr) then m
      else
        var r := m + [a];
        assert forall k :: 0 <= k < |m| ==> r[k] == m[k];
        assert r[|m|] == a;
        DistinctSnoc(m, a);
        r
  }

  /** Adding routes whose CIDRs are all present already changes nothing. */
  lemma {:induction false} MergedAllPresent(routes: seq<Route>, adds: seq<Route>)
    requires forall a :: a in adds ==> HasCidr(routes, a.cidr)
    ensures Merged(routes, adds) == routes
    decreases |adds|
  {
    if adds != [] {
      var init := adds[..|adds| - 1];
      assert forall x :: x in init ==> x in adds;
      MergedAllPresent(routes, init);
    }
  }

  /** Adding the same routes twice is the same as adding them once. */
  lemma MergedIdempotent(routes: seq<Route>, adds: seq<Route>)
    ensures Merged(Merged(routes, adds), adds) == Merged(routes, adds)
  {
    MergedAllPresent(Merged(routes, adds), adds);
  }

  lemma MergedStep(routes: seq<Route>, adds: seq<Route>, i: nat)
    requires i < |adds|
    ensures var m := Merged(routes, adds[..i]);
      Merged(routes, adds[..i + 1]) == if HasCidr(m, adds[i].cidr) then m else m + [adds[i]]
  {
    assert adds[..i + 1][..i] == adds[..i];
  }

  /** The inner search of the add-routes merge: is there a route with CIDR `c`? */
  method FindCidr(routes: seq<Route>, c: string) returns (found: bool)
    ensures found <==> HasCidr(routes, c)
  {
    found := false;
    var j := 0;
    while j < |routes|
      invariant 0 <= j <= |routes|
      invariant forall k :: 0 <= k < j ==> routes[k].cidr != c
    {
      if routes[j].cidr == c {
        found := true;
        break;
      }
      j := j + 1;
    }
  }

  /** The merge loop of add-routes. */
  method MergeRoutes(routes: seq<Route>, adds: seq<Route>) returns (r: seq<Route>)
    ensures r == Merged(routes, adds)
  {
    r := routes;
    for i := 0 to |adds|
      invariant r == Merged(routes, adds[..i])
    {
      MergedStep(routes, adds, i);
      var found := FindCidr(r, adds[i].cidr);
      if !found {
        r := r + [adds[i]];
      }
    }
    assert adds[..|adds|] == adds;
  }

  // ----- del-routes -----

  /** Del-routes may remove `r` for `cidr`: a route of that CIDR that is not a system route. */
  predicate Deletable(r: Route, cidr: string) {
    r.typ != SystemType && r.cidr == cidr
  }

  /** The last index below `n` that del-routes may remove for `cidr`, or -1 if there is none. */
  function LastDeletable(routes: seq<Route>, cidr: string, n: nat): (i: int)
    requires n <= |routes|
    ensures -1 <= i < n
    ensures i >= 0 ==> Deletable(routes[i], cidr)
    ensures forall k :: i < k < n ==> !Deletable(routes[k], cidr)
  {
    if n == 0 then -1
    else if Deletable(routes[n - 1], cidr) then n - 1
    else LastDeletable(routes, cidr, n - 1)
  }

  /**
   * What one requested CIDR does to the list: the last non-system route with that CIDR is
   * removed; if there is none, nothing changes.
   */
  function DeleteOne(routes: seq<Route>, cidr: string): (r: seq<Route>)
    ensures (forall k :: 0 <= k < |routes| ==> !Deletable(routes[k], cidr)) ==> r == routes
    ensures (exists k :: 0 <= k < |routes| && Deletable(routes[k], cidr)) ==>
      exists i :: 0 <= i < |routes| && Deletable(routes[i], cidr) &&
        (forall k :: i < k < |routes| ==> !Deletable(routes[k], cidr)) &&
        r == routes[..i] + routes[i + 1..]
  {
    var i := LastDeletable(routes, cidr, |routes|);
    if i < 0 then routes else routes[..i] + routes[i + 1..]
  }

  /** The requested CIDRs, applied one after the other. */
  function Deleted(routes: seq<Route>, cidrs: seq<string>): (r: seq<Route>)
    ensures |routes| - |cidrs| <= |r| <= |routes|
    decreases |cidrs|
  {
    if cidrs == [] then routes
    else DeleteOne(Deleted(routes, cidrs[..|cidrs| - 1]), cidrs[|cidrs| - 1])
  }

  lemma DeletedStep(routes: seq<Route>, cidrs: seq<string>, n: nat)
    requires n < |cidrs|
    ensures Deleted(routes, cidrs[..n + 1]) == DeleteOne(Deleted(routes, cidrs[..n]), cidrs[n])
  {
    assert cidrs[..n + 1][..n] == cidrs[..n];
  }

  /** One CIDR of del-routes: scan from the end and cut out the first non-system route with it. */
  method SpliceOne(routes: seq<Route>, cidr: string) returns (r: seq<Route>)
    ensures r == DeleteOne(routes, cidr)
  {
    r := routes;
    var i := |r| - 1;
    while i >= 0
      invariant -1 <= i < |routes|
      invariant r == routes
      invariant forall k :: i < k < |routes| ==> !Deletable(routes[k], cidr)
    {
      if r[i].typ == SystemType {
        i := i - 1;
        continue;
      }
      if r[i].cidr == cidr {
        LastDeletableIs(routes, cidr, i);
        r := r[..i] + r[i + 1..];
        return;
      }
      i := i - 1;
    }
    LastDeletableNone(routes, cidr);
  }

  lemma LastDeletableIs(routes: seq<Route>, cidr: string, i: nat)
    requires i < |routes| && Deletable(routes[i], cidr)
    requires forall k :: i < k < |routes| ==> !Deletable(routes[k], cidr)
    ensures LastDeletable(routes, cidr, |routes|) == i
  {
  }

  lemma LastDeletableNone(routes: seq<Route>, cidr: string)
    requires forall k :: 0 <= k < |routes| ==> !Deletable(routes[k], cidr)
    ensures LastDeletable(routes, cidr, |routes|) == -1
  {
  }

  /** The splice loop of del-routes, one requested CIDR after the other. */
  method SpliceRoutes(routes: seq<Route>, cidrs: seq<string>) returns (r: seq<Route>)
    ensures r == Deleted(routes, cidrs)
  {
    r := routes;
    for n := 0 to |cidrs|
      invariant r == Deleted(routes, cidrs[..n])
    {
      DeletedStep(routes, cidrs, n);
      r := SpliceOne(r, cidrs[n]);
    }
    assert cidrs[..|cidrs|] == cidrs;
  }

  /** The system routes of a list, in order. */
  function Systems(routes: seq<Route>): seq<Route> {
    if routes == [] then []
    else (if routes[0].typ == SystemType then [routes[0]] else []) + Systems(routes[1..])
  }

  lemma {:induction false} SystemsConcat(a: seq<Route>, b: seq<Route>)
    ensures Systems(a + b) == Systems(a) + Systems(b)
  {
    if a != [] {
      assert (a + b)[1..] == a[1..] + b;
      SystemsConcat(a[1..], b);
    } else {
      assert a + b == b;
    }
  }

  /** Cutting out one non-system route leaves the system routes as they were. */
  lemma {:induction false} SystemsRemoveAt(m: seq<Route>, i: nat)
    requires i < |m| && m[i].typ != SystemType
    ensures Systems(m[..i] + m[i + 1..]) == Systems(m)
  {
    var a := m[..i];
    var x := [m[i]];
    var c := m[i + 1..];
    assert m == (a + x) + c;
    SystemsConcat(a + x, c);
    SystemsConcat(a, x);
    SystemsConcat(a, c);
    assert x[1..] == [];
    assert Systems(x) == [] + Systems(x[1..]);
  }

  /** Del-routes never removes a system route: the system routes stay, in the same order. */
  lemma {:induction false} DeletedKeepsSystem(routes: seq<Route>, cidrs: seq<string>)
    ensures Systems(Deleted(routes, cidrs)) == Systems(routes)
    decreases |cidrs|
  {
    if cidrs != [] {
      var m := Deleted(routes, cidrs[..|cidrs| - 1]);
      DeletedKeepsSystem(routes, cidrs[..|cidrs| - 1]);
      var i := LastDeletable(m, cidrs[|cidrs| - 1], |m|);
      if i >= 0 {
        SystemsRemoveAt(m, i);
      }
    }
  }

  /** The routes del-routes keeps stay in their original relative order. */
  lemma {:induction false} DeletedIsSubseq(routes: seq<Route>, cidrs: seq<string>)
    ensures IsSubseq(Deleted(routes, cidrs), routes)
    decreases |cidrs|
  {
    if cidrs == [] {
      SubseqRefl(routes);
    } else {
      var m := Deleted(routes, cidrs[..|cidrs| - 1]);
      DeletedIsSubseq(routes, cidrs[..|cidrs| - 1]);
      var i := LastDeletable(m, cidrs[|cidrs| - 1], |m|);
      if i >= 0 {
        SubseqRemoveAt(m, i);
        SubseqTrans(Deleted(routes, cidrs), m, routes);
      }
    }
  }

  // ----- the route table -----

  /** A route table record; add-routes and del-routes replace its route list. */
  class RouteTable {
    var name: string
    var typ: string
    var vpcId: string
    var externalId: string
    var description: string
    var projectId: string
    var domainId: string
    var routes: seq<Route>

    constructor(name: string, typ: string, vpcId: string, externalId: string, description: string,
                projectId: string, domainId: string, routes: seq<Route>)
      ensures this.name == name && this.typ == typ && this.vpcId == vpcId
      ensures this.externalId == externalId && this.description == description
      ensures this.projectId == projectId && this.domainId == domainId && this.routes == routes
    {
      this.name := name;
      this.typ := typ;
      this.vpcId := vpcId;
      this.externalId := externalId;
      this.description := description;
      this.projectId := projectId;
      this.domainId := domainId;
      this.routes := routes;
    }

    /**
     * add-routes: `adds` is None when the request's "routes" value could not be decoded (an
     * absent value decodes to no routes), which is refused and leaves the table alone. The
     * decoded routes are validated as a list; a refused list leaves the table alone, otherwise
     * they are merged into the table's routes.
     */
    method PerformAddRoutes(adds: Option<seq<Route>>) returns (err: Option<RouteError>)
      modifies this`routes
      ensures adds.None? ==> err == Some(UnmarshalRoutes) && routes == old(routes)
      ensures adds.Some? ==> (err.Some? <==> ValidateAll(adds.value, ValidateRoute).Err?)
      ensures adds.Some? && err.Some? ==> err.value == ValidateAll(adds.value, ValidateRoute).error && routes == old(routes)
      ensures adds.Some? && err.None? ==> routes == Merged(old(routes), ValidateAll(adds.value, ValidateRoute).value)
    {
      if adds.None? {
        return Some(UnmarshalRoutes);
      }
      var checked := ValidateRoutes(adds.value, ValidateRoute);
      if checked.Err? {
        return Some(checked.error);
      }
      routes := MergeRoutes(routes, checked.value);
      return None;
    }

    /**
     * del-routes: `cidrs` is None when the request's CIDR list could not be read, which is
     * refused and leaves the table alone.
     */
    method PerformDelRoutes(cidrs: Option<seq<string>>) returns (err: Option<RouteError>)
      modifies this`routes
      ensures err.Some? <==> cidrs.None?
      ensures cidrs.None? ==> routes == old(routes)
      ensures cidrs.Some? ==> routes == Deleted(old(routes), cidrs.value)
    {
      if cidrs.None? {
        return Some(UnmarshalCidrs);
      }
      routes := SpliceRoutes(routes, cidrs.value);
      return None;
    }
  }

  // ----- tables imported from a cloud -----

  /** The name a table imported from a cloud is based on: its own, else one from its VPC. */
  function RouteTableBasename(name: string, vpcName: string): (r: string)
    ensures r != []
    ensures name != [] ==> r == name
    ensures name == [] ==> "rtbl" <= r
    ensures name == [] && vpcName != [] ==> r == "rtbl-" + vpcName
    ensures name == [] && vpcName == [] ==> r == "rtbl"
  {
    if name != [] then name
    else if vpcName != [] then "rtbl-" + vpcName
    else "rtbl"
  }

  /** One route as a cloud reports it. */
  datatype CloudRoute = CloudRoute(typ: string, cidr: string, nextHopType: string, nextHop: string)

  /** A route table as a cloud reports it; `routes` is None when listing its routes failed. */
  datatype CloudRouteTable = CloudRouteTable(
    typ: string, name: string, globalId: string, description: string, routes: Option<seq<CloudRoute>>)

  /** The local routes of an imported table: one per cloud route, in the same order. */
  method RoutesFromCloud(cloudRoutes: seq<CloudRoute>) returns (routes: seq<Route>)
    ensures |routes| == |cloudRoutes|
    ensures forall i :: 0 <= i < |routes| ==>
      routes[i].typ == cloudRoutes[i].typ && routes[i].cidr == cloudRoutes[i].cidr &&
      routes[i].nextHopType == cloudRoutes[i].nextHopType && routes[i].nextHopId == cloudRoutes[i].nextHop
  {
    routes := [];
    for i := 0 to |cloudRoutes|
      invariant |routes| == i
      invariant forall k :: 0 <= k < i ==>
        routes[k].typ == cloudRoutes[k].typ && routes[k].cidr == cloudRoutes[k].cidr &&
        routes[k].nextHopType == cloudRoutes[k].nextHopType && routes[k].nextHopId == cloudRoutes[k].nextHop
    {
      var c := cloudRoutes[i];
      routes := routes + [Route(c.typ, c.cidr, c.nextHopType, c.nextHop)];
    }
  }

  /**
   * A new local record for a cloud table. It fails when the cloud's routes cannot be listed or
   * no free name can be generated; `generateName` stands for the database's unique-name search.
   */
  method NewRouteTableFromCloud(
    cloud: CloudRouteTable, vpcId: string, vpcName: string, projectId: string, domainId: string,
    generateName: string -> Option<string>)
    returns (rt: Option<RouteTable>)
    ensures rt.Some? <==> cloud.routes.Some? && generateName(RouteTableBasename(cloud.name, vpcName)).Some?
    ensures rt.Some? ==> fresh(rt.value)
    ensures rt.Some? ==>
      var t := rt.value;
      t.name == generateName(RouteTableBasename(cloud.name, vpcName)).value &&
      t.typ == cloud.typ && t.vpcId == vpcId && t.externalId == cloud.globalId &&
      t.description == cloud.description && t.projectId == projectId && t.domainId == domainId &&
      |t.routes| == |cloud.routes.value| &&
      forall i :: 0 <= i < |t.routes| ==>
        t.routes[i].typ == cloud.routes.value[i].typ && t.routes[i].cidr == cloud.routes.value[i].cidr &&
        t.routes[i].nextHopType == cloud.routes.value[i].nextHopType &&
        t.routes[i].nextHopId == cloud.routes.value[i].nextHop
  {
    if cloud.routes.None? {
      return None;
    }
    var routes := RoutesFromCloud(cloud.routes.value);
    var name := generateName(RouteTableBasename(cloud.name, vpcName));
    if name.None? {
      return None;
    }
    var t := new RouteTable(name.value, cloud.typ, vpcId, cloud.globalId, cloud.description,
                            projectId, domainId, routes);
    return Some(t);
  }

  // ----- one synchronisation pass -----

  /**
   * The comparison of local and cloud tables: local tables gone from the cloud, matched pairs
   * (index-aligned), and cloud tables not yet known locally.
   */
  datatype Partition<L, R> = Partition(removed: seq<L>, commonLocal: seq<L>, commonRemote: seq<R>, added: seq<R>)

  /** The counters of a pass; `failed` is set when the pass stopped before touching any table. */
  datatype SyncResult = SyncResult(
    deleted: nat, deleteErrors: nat, updated: nat, updateErrors: nat, added: nat, addErrors: nat, failed: bool)

  const NoChanges := SyncResult(0, 0, 0, 0, 0, 0, false)

  /** One item handled by a pass: which list, which index, and whether it succeeded. */
  datatype Step = DeleteStep(index: nat, ok: bool) | UpdateStep(index: nat, ok: bool) | AddStep(index: nat, ok: bool)

  /** How many of the outcomes succeeded. */
  function CountTrue(oks: seq<bool>): (n: nat)
    ensures n <= |oks|
    ensures n == |oks| <==> forall i :: 0 <= i < |oks| ==> oks[i]
  {
    if oks == [] then 0
    else
      var n := CountTrue(oks[..|oks| - 1]);
      assert forall i :: 0 <= i < |oks| - 1 ==> oks[..|oks| - 1][i] == oks[i];
      n + if oks[|oks| - 1] then 1 else 0
  }

  /** How many of the outcomes failed. */
  function Failures<B>(out: seq<Option<B>>): (n: nat)
    ensures n <= |out|
    ensures n == 0 <==> forall i :: 0 <= i < |out| ==> out[i].Some?
  {
    if out == [] then 0
    else
      var n := Failures(out[..|out| - 1]);
      assert forall i :: 0 <= i < |out| - 1 ==> out[..|out| - 1][i] == out[i];
      n + if out[|out| - 1].None? then 1 else 0
  }

  /** The successful outcomes, in order. */
  function Values<B>(out: seq<Option<B>>): (r: seq<B>)
    ensures |r| + Failures(out) == |out|
  {
    if out == [] then []
    else
      var n := |out| - 1;
      var p := Values(out[..n]);
      if out[n].None? then p else p + [out[n].value]
  }

  /** The items whose outcome succeeded, in order. */
  function Chosen<A, B>(xs: seq<A>, out: seq<Option<B>>): (r: seq<A>)
    requires |xs| == |out|
    ensures |r| == |Values(out)|
  {
    if xs == [] then []
    else
      var n := |xs| - 1;
      var p := Chosen(xs[..n], out[..n]);
      if out[n].None? then p else p + [xs[n]]
  }

  /**
   * The two lists stay aligned: the k-th successful outcome is the outcome of the k-th chosen
   * item.
   */
  lemma {:induction false} ChosenAligned<A, B>(xs: seq<A>, out: seq<Option<B>>)
    requires |xs| == |out|
    ensures forall k :: 0 <= k < |Values(out)| ==>
      exists j :: 0 <= j < |xs| && out[j] == Some(Values(out)[k]) && xs[j] == Chosen(xs, out)[k]
  {
    if xs == [] {
      assert |Values(out)| == 0;
    } else {
      var n := |xs| - 1;
      ChosenAligned(xs[..n], out[..n]);
      var v, c := Values(out), Chosen(xs, out);
      var pv, pc := Values(out[..n]), Chosen(xs[..n], out[..n]);
      assert v == if out[n].None? then pv else pv + [out[n].value];
      assert c == if out[n].None? then pc else pc + [xs[n]];
      forall k | 0 <= k < |v|
        ensures exists j :: 0 <= j < |xs| && out[j] == Some(v[k]) && xs[j] == c[k]
      {
        if k < |pv| {
          var j :| 0 <= j < n && out[..n][j] == Some(pv[k]) && xs[..n][j] == pc[k];
          assert out[j] == Some(v[k]) && xs[j] == c[k];
        } else {
          assert out[n] == Some(v[k]) && xs[n] == c[k];
        }
      }
    }
  }

  lemma ValuesStep<B>(out: seq<Option<B>>, i: nat)
    requires i < |out|
    ensures Values(out[..i + 1]) == if out[i].None? then Values(out[..i]) else Values(out[..i]) + [out[i].value]
    ensures Failures(out[..i + 1]) == Failures(out[..i]) + if out[i].None? then 1 else 0
  {
    assert out[..i + 1][..i] == out[..i];
  }

  lemma ChosenStep<A, B>(xs: seq<A>, out: seq<Option<B>>, i: nat)
    requires |xs| == |out| && i < |xs|
    ensures Chosen(xs[..i + 1], out[..i + 1]) == if out[i].None? then Chosen(xs[..i], out[..i]) else Chosen(xs[..i], out[..i]) + [xs[i]]
  {
    assert xs[..i + 1][..i] == xs[..i];
    assert out[..i + 1][..i] == out[..i];
  }

  /** The outcome of updating each matched pair; None is a failed update. */
  function UpdateOutcomes<L, R>(p: Partition<L, R>, update: (L, R) -> Option<L>): (out: seq<Option<L>>)
    requires |p.commonLocal| == |p.commonRemote|
    ensures |out| == |p.commonRemote|
  {
    seq(|p.commonLocal|, i requires 0 <= i < |p.commonLocal| => update(p.commonLocal[i], p.commonRemote[i]))
  }

  /** The outcome of handling each item of a list, in order: `f` applied to every item. */
  function Outcomes<A, B>(xs: seq<A>, f: A -> B): (out: seq<B>)
    ensures |out| == |xs|
    ensures forall i :: 0 <= i < |xs| ==> out[i] == f(xs[i])
  {
    seq(|xs|, i requires 0 <= i < |xs| => f(xs[i]))
  }

  /** Which step a kind of item belongs to: deletes, then updates, then adds. */
  function Phase(s: Step): nat {
    match s
    case DeleteStep(_, _) => 0
    case UpdateStep(_, _) => 1
    case AddStep(_, _) => 2
  }

  function DeleteSteps(oks: seq<bool>): seq<Step> {
    seq(|oks|, i requires 0 <= i < |oks| => DeleteStep(i, oks[i]))
  }

  function UpdateSteps<B>(out: seq<Option<B>>): seq<Step> {
    seq(|out|, i requires 0 <= i < |out| => UpdateStep(i, out[i].Some?))
  }

  function AddSteps<B>(out: seq<Option<B>>): seq<Step> {
    seq(|out|, i requires 0 <= i < |out| => AddStep(i, out[i].Some?))
  }

  lemma DeleteStepsSnoc(oks: seq<bool>, i: nat)
    requires i < |oks|
    ensures DeleteSteps(oks[..i + 1]) == DeleteSteps(oks[..i]) + [DeleteStep(i, oks[i])]
    ensures CountTrue(oks[..i + 1]) == CountTrue(oks[..i]) + if oks[i] then 1 else 0
  {
    assert oks[..i + 1][..i] == oks[..i];
  }

  lemma UpdateStepsSnoc<B>(out: seq<Option<B>>, i: nat)
    requires i < |out|
    ensures UpdateSteps(out[..i + 1]) == UpdateSteps(out[..i]) + [UpdateStep(i, out[i].Some?)]
  {
    assert out[..i + 1][i] == out[i];
  }

  lemma AddStepsSnoc<B>(out: seq<Option<B>>, i: nat)
    requires i < |out|
    ensures AddSteps(out[..i + 1]) == AddSteps(out[..i]) + [AddStep(i, out[i].Some?)]
  {
    assert out[..i + 1][i] == out[i];
  }

  /** The delete loop of a pass: every local table gone from the cloud counts once, as a delete or an error. */
  method DeletePhase<L>(removed: seq<L>, remove: L -> bool) returns (deleted: nat, errors: nat, steps: seq<Step>)
    ensures deleted == CountTrue(Outcomes(removed, remove)) && deleted + errors == |removed|
    ensures steps == DeleteSteps(Outcomes(removed, remove))
  {
    ghost var oks := Outcomes(removed, remove);
    deleted, errors, steps := 0, 0, [];
    for i := 0 to |removed|
      invariant deleted == CountTrue(oks[..i]) && deleted + errors == i
      invariant steps == DeleteSteps(oks[..i])
    {
      DeleteStepsSnoc(oks, i);
      var ok := remove(removed[i]);
      if ok {
        deleted := deleted + 1;
      } else {
        errors := errors + 1;
      }
      steps := steps + [DeleteStep(i, ok)];
    }
    assert oks[..|removed|] == oks;
  }

  /**
   * The update loop of a pass: every matched pair counts once, as an update or an error, and
   * the updated pairs are collected in order as two index-aligned lists.
   */
  method UpdatePhase<L, R>(p: Partition<L, R>, update: (L, R) -> Option<L>)
    returns (local: seq<L>, remote: seq<R>, updated: nat, errors: nat, steps: seq<Step>)
    requires |p.commonLocal| == |p.commonRemote|
    ensures local == Values(UpdateOutcomes(p, update))
    ensures remote == Chosen(p.commonRemote, UpdateOutcomes(p, update))
    ensures updated == |local| && errors == Failures(UpdateOutcomes(p, update))
    ensures steps == UpdateSteps(UpdateOutcomes(p, update))
  {
    ghost var out := UpdateOutcomes(p, update);
    local, remote, updated, errors, steps := [], [], 0, 0, [];
    for i := 0 to |p.commonLocal|
      invariant local == Values(out[..i]) && remote == Chosen(p.commonRemote[..i], out[..i])
      invariant updated == |local| && errors == Failures(out[..i])
      invariant steps == UpdateSteps(out[..i])
    {
      ValuesStep(out, i);
      ChosenStep(p.commonRemote, out, i);
      UpdateStepsSnoc(out, i);
      var o := update(p.commonLocal[i], p.commonRemote[i]);
      assert o == out[i];
      if o.None? {
        errors := errors + 1;
        steps := steps + [UpdateStep(i, false)];
        continue;
      }
      local := local + [o.value];
      remote := remote + [p.commonRemote[i]];
      updated := updated + 1;
      steps := steps + [UpdateStep(i, true)];
    }
    assert p.commonRemote[..|p.commonLocal|] == p.commonRemote;
    assert out[..|p.commonLocal|] == out;
  }

  /**
   * The add loop of a pass: every new cloud table counts once, as an add or an error, and the
   * imported tables are collected in order, each beside its cloud table.
   */
  method AddPhase<L, R>(added: seq<R>, insert: R -> Option<L>)
    returns (local: seq<L>, remote: seq<R>, count: nat, errors: nat, steps: seq<Step>)
    ensures local == Values(Outcomes(added, insert))
    ensures remote == Chosen(added, Outcomes(added, insert))
    ensures count == |local| && errors == Failures(Outcomes(added, insert))
    ensures steps == AddSteps(Outcomes(added, insert))
  {
    ghost var out := Outcomes(added, insert);
    local, remote, count, errors, steps := [], [], 0, 0, [];
    for i := 0 to |added|
      invariant local == Values(out[..i]) && remote == Chosen(added[..i], out[..i])
      invariant count == |local| && errors == Failures(out[..i])
      invariant steps == AddSteps(out[..i])
    {
      ValuesStep(out, i);
      ChosenStep(added, out, i);
      AddStepsSnoc(out, i);
      var o := insert(added[i]);
      assert o == out[i];
      if o.None? {
        errors := errors + 1;
        steps := steps + [AddStep(i, false)];
        continue;
      }
      local := local + [o.value];
      remote := remote + [added[i]];
      count := count + 1;
      steps := steps + [AddStep(i, true)];
    }
    assert added[..|added|] == added;
    assert out[..|added|] == out;
  }

  /**
   * The bookkeeping of one synchronisation pass. `fetchOk` says whether the local tables could
   * be read, `compared` is the comparison (None when it failed), and `remove`, `update` and
   * `insert` stand for the per-table database work (an update or an import yields the stored
   * local record). `trace` records the order in which the items are handled.
   */
  method SyncRouteTables<L, R>(
    fetchOk: bool, compared: Option<Partition<L, R>>,
    remove: L -> bool, update: (L, R) -> Option<L>, insert: R -> Option<L>)
    returns (local: seq<L>, remote: seq<R>, result: SyncResult, trace: seq<Step>)
    requires compared.Some? ==> |compared.value.commonLocal| == |compared.value.commonRemote|
    ensures !fetchOk || compared.None? ==>
      local == [] && remote == [] && result == NoChanges.(failed := true) && trace == []
    ensures fetchOk && compared.Some? ==>
      var p := compared.value;
      var ups := UpdateOutcomes(p, update);
      var ins := Outcomes(p.added, insert);
      !result.failed &&
      result.deleted == CountTrue(Outcomes(p.removed, remove)) &&
      result.deleted + result.deleteErrors == |p.removed| &&
      result.updated + result.updateErrors == |p.commonLocal| && result.updateErrors == Failures(ups) &&
      result.added + result.addErrors == |p.added| && result.addErrors == Failures(ins) &&
      local == Values(ups) + Values(ins) &&
      remote == Chosen(p.commonRemote, ups) + Chosen(p.added, ins) &&
      trace == DeleteSteps(Outcomes(p.removed, remove)) + UpdateSteps(ups) + AddSteps(ins)
  {
    if !fetchOk || compared.None? {
      return [], [], NoChanges.(failed := true), [];
    }
    var p := compared.value;
    var deleted, deleteErrors, dsteps := DeletePhase(p.removed, remove);
    var ul, ur, updated, updateErrors, usteps := UpdatePhase(p, update);
    var al, ar, added, addErrors, asteps := AddPhase(p.added, insert);
    local, remote := ul + al, ur + ar;
    result := SyncResult(deleted, deleteErrors, updated, updateErrors, added, addErrors, false);
    trace := dsteps + usteps + asteps;
  }

  /**
   * The two lists a pass returns have the same length and are index-aligned: each local record
   * stands beside the cloud table it was updated from or imported from.
   */
  lemma {:induction false} SyncListsAligned<L, R>(p: Partition<L, R>, update: (L, R) -> Option<L>, insert: R -> Option<L>)
    requires |p.commonLocal| == |p.commonRemote|
    ensures var ups := UpdateOutcomes(p, update);
      var ins := Outcomes(p.added, insert);
      var local := Values(ups) + Values(ins);
      var remote := Chosen(p.commonRemote, ups) + Chosen(p.added, ins);
      |local| == |remote| &&
      (forall k :: 0 <= k < |Values(ups)| ==>
        exists j :: 0 <= j < |p.commonLocal| && update(p.commonLocal[j], p.commonRemote[j]) == Some(local[k]) && p.commonRemote[j] == remote[k]) &&
      (forall k :: |Values(ups)| <= k < |local| ==>
        exists j :: 0 <= j < |p.added| && insert(p.added[j]) == Some(local[k]) && p.added[j] == remote[k])
  {
    var ups := UpdateOutcomes(p, update);
    var ins := Outcomes(p.added, insert);
    ChosenAligned(p.commonRemote, ups);
    ChosenAligned(p.added, ins);
    var local := Values(ups) + Values(ins);
    var remote := Chosen(p.commonRemote, ups) + Chosen(p.added, ins);
    var u := |Values(ups)|;
    forall k | u <= k < |local|
      ensures exists j :: 0 <= j < |p.added| && insert(p.added[j]) == Some(local[k]) && p.added[j] == remote[k]
    {
      assert local[k] == Values(ins)[k - u] && remote[k] == Chosen(p.added, ins)[k - u];
      var j :| 0 <= j < |p.added| && ins[j] == Some(Values(ins)[k - u]) && p.added[j] == Chosen(p.added, ins)[k - u];
    }
    forall k | 0 <= k < u
      ensures exists j :: 0 <= j < |p.commonLocal| && update(p.commonLocal[j], p.commonRemote[j]) == Some(local[k]) && p.commonRemote[j] == remote[k]
    {
      assert local[k] == Values(ups)[k] && remote[k] == Chosen(p.commonRemote, ups)[k];
      var j :| 0 <= j < |p.commonRemote| && ups[j] == Some(Values(ups)[k]) && p.commonRemote[j] == Chosen(p.commonRemote, ups)[k];
    }
  }

  /**
   * The items of a pass are handled phase by phase: every delete before every update, every
   * update before every add.
   */
  lemma SyncPhasesOrdered(dels: seq<bool>, ups: seq<Option<bool>>, ins: seq<Option<bool>>)
    ensures var trace := DeleteSteps(dels) + UpdateSteps(ups) + AddSteps(ins);
      forall i, j :: 0 <= i < j < |trace| ==> Phase(trace[i]) <= Phase(trace[j])
  {
  }
}
