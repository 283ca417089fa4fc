/** What the list- and table-building functions of `ParkingSpec` contain. */
module ParkingTables {
  import opened ParkingLayout
  import opened ParkingSpec

  /** The reservations of a node; none for a node outside the table. */
  function At(table: Table, n: Node): seq<Res> {
    if n in table then table[n] else []
  }

  lemma {:induction false} WithoutMember(rs: seq<Res>, id: nat, r: Res)
    ensures r in Without(rs, id) <==> r in rs && r.vehicle != id
  {
    if |rs| > 0 {
      WithoutMember(rs[..|rs| - 1], id, r);
      assert rs == rs[..|rs| - 1] + [rs[|rs| - 1]];
    }
  }

  /** Removing a vehicle removes its reservations from every node and nobody else's. */
  lemma RemoveVehicleMember(table: Table, id: nat, n: Node, r: Res)
    ensures r in At(RemoveVehicle(table, id), n) <==> r in At(table, n) && r.vehicle != id
    ensures RemoveVehicle(table, id).Keys == table.Keys
  {
    WithoutMember(At(table, n), id, r);
  }

  lemma AppendMember(table: Table, m: Node, x: Res, n: Node, r: Res)
    requires m in table
    ensures r in At(Append(table, m, x), n) <==> r in At(table, n) || (n == m && r == x)
    ensures Append(table, m, x).Keys == table.Keys
  {
  }

  /** Registering a route adds exactly the bookings of that route. */
  lemma {:induction false} RegisterMember(table: Table, route: seq<Node>, spans: seq<Span>, id: nat, kind: Kind,
                                          n: Node, r: Res)
    requires |route| == |spans|
    requires forall i :: 0 <= i < |route| ==> route[i] in table
    ensures r in At(Register(table, route, spans, id, kind), n) <==>
      r in At(table, n) || Booking(n, r) in RouteBookings(route, spans, id, kind)
    ensures Register(table, route, spans, id, kind).Keys == table.Keys
    decreases |route|
  {
    if |route| > 0 {
      var k := |route| - 1;
      RegisterMember(table, route[..k], spans[..k], id, kind, n, r);
      RouteBookingsSnoc(route, spans, id, kind);
      AppendMember(Register(table, route[..k], spans[..k], id, kind),
                   route[k], Res(id, kind, spans[k].from, spans[k].to), n, r);
    }
  }

  lemma RouteBookingsSnoc(route: seq<Node>, spans: seq<Span>, id: nat, kind: Kind)
    requires |route| == |spans| > 0
    ensures var k := |route| - 1;
      RouteBookings(route, spans, id, kind) ==
      RouteBookings(route[..k], spans[..k], id, kind) + {Booking(route[k], Res(id, kind, spans[k].from, spans[k].to))}
  {
    var k := |route| - 1;
    var front := RouteBookings(route[..k], spans[..k], id, kind);
    forall b | b in RouteBookings(route, spans, id, kind)
      ensures b in front + {Booking(route[k], Res(id, kind, spans[k].from, spans[k].to))}
    {
      var i :| 0 <= i < |route| && b == Booking(route[i], Res(id, kind, spans[i].from, spans[i].to));
      if i < k {
        assert route[..k][i] == route[i] && spans[..k][i] == spans[i];
      }
    }
    forall b | b in front
      ensures b in RouteBookings(route, spans, id, kind)
    {
      var i :| 0 <= i < k && b == Booking(route[..k][i], Res(id, kind, spans[..k][i].from, spans[..k][i].to));
      assert route[..k][i] == route[i] && spans[..k][i] == spans[i];
    }
  }

  ghost predicate Finished(v: Vehicle, t: real) {
    v.exiting && t >= End(v)
  }

  /** No vehicle of the list finishes its exit by t under this id. */
  ghost predicate NoneFinished(vs: seq<Vehicle>, id: nat, t: real) {
    forall v :: v in vs && v.id == id ==> !Finished(v, t)
  }

  lemma NoneFinishedMore(front: seq<Vehicle>, last: Vehicle, id: nat, t: real)
    ensures NoneFinished(front + [last], id, t) <==>
      NoneFinished(front, id, t) && (last.id == id ==> !Finished(last, t))
  {
    hide Finished;
    if NoneFinished(front + [last], id, t) {
      assert last in front + [last];
      assert forall v :: v in front ==> v in front + [last];
    }
  }

  lemma {:induction false} PurgeExitedMember(table: Table, vs: seq<Vehicle>, t: real, n: Node, r: Res)
    ensures r in At(PurgeExited(table, vs, t), n) <==> r in At(table, n) && NoneFinished(vs, r.vehicle, t)
    ensures PurgeExited(table, vs, t).Keys == table.Keys
    decreases |vs|
  {
    if |vs| > 0 {
      var front, last := vs[..|vs| - 1], vs[|vs| - 1];
      assert vs == front + [last];
      PurgeExitedMember(table, front, t, n, r);
      RemoveVehicleMember(PurgeExited(table, front, t), last.id, n, r);
      NoneFinishedMore(front, last, r.vehicle, t);
      hide At, NoneFinished, RemoveVehicle;
    }
  }

  /** The vehicles still moving are the unfinished ones, moved to the new time. */
  lemma {:induction false} StillMovingHas(vs: seq<Vehicle>, t: real, v: Vehicle)
    requires v in vs && t < End(v)
    ensures Moved(v, t) in StillMoving(vs, t)
    decreases |vs|
  {
    if v != vs[|vs| - 1] {
      StillMovingHas(vs[..|vs| - 1], t, v);
    }
  }

  lemma {:induction false} StillMovingFrom(vs: seq<Vehicle>, t: real, w: Vehicle) returns (v: Vehicle)
    requires w in StillMoving(vs, t)
    ensures v in vs && t < End(v) && w == Moved(v, t)
    decreases |vs|
  {
    v := vs[|vs| - 1];
    if !(t < End(v) && w == Moved(v, t)) {
      v := StillMovingFrom(vs[..|vs| - 1], t, w);
    }
  }

  ghost predicate DistinctVehicles(vs: seq<Vehicle>) {
    forall i, j :: 0 <= i < j < |vs| ==> vs[i].id != vs[j].id
  }

  lemma OneVehiclePerId(vs: seq<Vehicle>, v: Vehicle, w: Vehicle)
    requires DistinctVehicles(vs) && v in vs && w in vs && v.id == w.id
    ensures v == w
  {
  }

  lemma {:induction false} StillMovingDistinct(vs: seq<Vehicle>, t: real)
    requires DistinctVehicles(vs)
    ensures DistinctVehicles(StillMoving(vs, t))
    decreases |vs|
  {
    if |vs| > 0 {
      var front := vs[..|vs| - 1];
      StillMovingDistinct(front, t);
      forall w | w in StillMoving(front, t)
        ensures w.id != vs[|vs| - 1].id
      {
        var v := StillMovingFrom(front, t, w);
      }
    }
  }

  /** Seeking along consecutive one-second intervals stops at the one that contains t. */
  lemma {:induction false} SeekFinds(n: nat, start: real, i: nat, t: real)
    requires i < n
    requires Spans(n, start)[i].from <= t < Spans(n, start)[n - 1].to
    ensures var s := Spans(n, start)[Seek(Spans(n, start), i, t)]; s.from <= t < s.to
    decreases n - i
  {
    var spans := Spans(n, start);
    if i < n - 1 && t >= spans[i].to {
      assert spans[i + 1].from == spans[i].to;
      SeekFinds(n, start, i + 1, t);
    }
  }
}
