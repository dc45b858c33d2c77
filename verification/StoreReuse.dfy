/**
 Re-planning: in a reachable store no two active reservations can derive the same space, so
 a design whose reservation was verifiably released can always be reserved again, and gets
 the same space back.
 */
module StoreReuse {
  import opened Basics
  import opened Ordering
  import opened Addressing
  import opened Allocator
  import opened AllocatorProofs
  import opened AllocatorOrder
  import opened Store
  import opened StoreMachine
  import opened StoreLedger

  /** The reservation's claims are rows of the ledger, in its state; there is at least one. */
  ghost predicate BodyHeld(nets: seq<NetRow>, id: Id, r: ReservationRow) {
    && r.body.nets != []
    && forall c :: c in r.body.nets ==> NetRow(id, r.body.domain, c.pool, c.prefix, r.state) in nets
  }

  ghost predicate BodiesHeld(db: Db) {
    forall id :: id in db.reservations ==> BodyHeld(db.nets, id, db.reservations[id])
  }

  // ----- Every design claims something -----

  lemma {:induction false} DevicesAreAdded(pol: Policy, d: Draft, reqs: seq<DeviceReq>)
    requires AddDevices(pol, d, reqs).Ok?
    ensures |AddDevices(pol, d, reqs).value.devices| == |d.devices| + |reqs|
    decreases |reqs|
  {
    if reqs != [] { DevicesAreAdded(pol, AddDevice(pol, d, reqs[0]).value, reqs[1..]); }
  }

  lemma {:induction false} LinksKeepDevices(pol: Policy, d: Draft, reqs: seq<LinkReq>)
    requires AddLinks(pol, d, reqs).Ok?
    ensures AddLinks(pol, d, reqs).value.devices == d.devices
    decreases |reqs|
  {
    if reqs != [] { LinksKeepDevices(pol, AddLink(pol, d, reqs[0]).value, reqs[1..]); }
  }

  lemma {:induction false} PoolsKeepDevices(pol: Policy, d: Draft, vn: Id, sites: seq<SiteReq>)
    requires AddPools(pol, d, vn, sites).Ok?
    ensures AddPools(pol, d, vn, sites).value.devices == d.devices
    decreases |sites|
  {
    if sites != [] { PoolsKeepDevices(pol, AddPool(pol, d, vn, sites[0]).value, vn, sites[1..]); }
  }

  lemma {:induction false} VnsKeepDevices(pol: Policy, d: Draft, reqs: seq<VnReq>)
    requires AddVns(pol, d, reqs).Ok?
    ensures AddVns(pol, d, reqs).value.devices == d.devices
    decreases |reqs|
  {
    if reqs != [] {
      var open := OpenVn(d, reqs[0], ReserveScalar(d.book, L3Instance, pol.l3.min, pol.l3.max).value);
      PoolsKeepDevices(pol, open, reqs[0].name, Sort(reqs[0].sites, SiteLe));
      VnsKeepDevices(pol, AddVn(pol, d, reqs[0]).value, reqs[1..]);
    }
  }

  lemma {:induction false} PeersKeepDevices(pol: Policy, d: Draft, reqs: seq<PeerReq>)
    requires AddPeers(pol, d, reqs).Ok?
    ensures AddPeers(pol, d, reqs).value.devices == d.devices
    decreases |reqs|
  {
    if reqs != [] { PeersKeepDevices(pol, AddPeer(pol, d, reqs[0]).value, reqs[1..]); }
  }

  lemma FillAddsDevices(req: Requirements, pol: Policy, d: Draft)
    requires Fill(req, pol, d).Ok?
    ensures |Fill(req, pol, d).value.devices| == |d.devices| + |req.devices|
  {
    SortIsPermutation(req.devices, DeviceLe);
    DevicesAreAdded(pol, d, Sort(req.devices, DeviceLe));
    var d1 := AddDevices(pol, d, Sort(req.devices, DeviceLe)).value;
    LinksKeepDevices(pol, d1, Sort(req.links, LinkLe));
    var d2 := AddLinks(pol, d1, Sort(req.links, LinkLe)).value;
    var d3 := AddAsn(pol, d2, req.needsAsn).value;
    VnsKeepDevices(pol, d3, Sort(req.vns, VnLe));
    var d4 := AddVns(pol, d3, Sort(req.vns, VnLe)).value;
    if req.handoff.Some? { PeersKeepDevices(pol, d4, Sort(req.handoff.value, PeerLe)); }
  }

  lemma EveryDesignClaims(req: Requirements, pol: Policy, nets: seq<NetRow>, scalars: seq<ScalarRow>)
    requires Derive(req, pol, nets, scalars).Ok?
    ensures Derive(req, pol, nets, scalars).value.book.netClaims != []
  {
    var opening, d := Opening(pol, req.domain, nets, scalars), Derive(req, pol, nets, scalars).value;
    FillAddsDevices(req, pol, Blank(opening));
    DeriveIsGood(req, pol, nets, scalars);
    assert |PrefixesOf(d.book.netClaims, Loopbacks)| == |LoopbacksOf(d.devices)| >= 2;
  }

  // ----- The uniqueness constraint on active reservations never strikes -----

  /** What the ledger leaves free is not what an active reservation holds. */
  lemma NoActiveTwin(db: Db, req: Requirements, pol: Policy)
    requires BodiesHeld(db) && Derive(req, pol, db.nets, db.scalars).Ok?
    ensures ActiveWithBody(db, BodyOf(req, Derive(req, pol, db.nets, db.scalars).value)) == {}
  {
    var opening, d := Opening(pol, req.domain, db.nets, db.scalars), Derive(req, pol, db.nets, db.scalars).value;
    EveryDesignClaims(req, pol, db.nets, db.scalars);
    DeriveIsGood(req, pol, db.nets, db.scalars);
    var c := d.book.netClaims[0];
    assert NewNet(pol, opening, d.book, c);
    forall id | id in db.reservations && Active(db.reservations[id].state) ensures db.reservations[id].body != BodyOf(req, d) {
      if db.reservations[id].body == BodyOf(req, d) {
        assert BodyHeld(db.nets, id, db.reservations[id]);
        var row := NetRow(id, req.domain, c.pool, c.prefix, db.reservations[id].state);
        ActiveRowIsListed(db.nets, row);
        assert c.prefix in NetsOf(opening, c.pool) && Overlaps(c.prefix, c.prefix);
        assert false;
      }
    }
  }

  // ----- In every reachable store -----

  lemma NewRowsHold(nets: seq<NetRow>, id: Id, domain: Id, claims: seq<NetClaim>, c: NetClaim)
    requires c in claims
    ensures NetRow(id, domain, c.pool, c.prefix, Reserved) in nets + NetRows(id, domain, claims)
  {
    var i :| 0 <= i < |claims| && claims[i] == c;
    assert NetRows(id, domain, claims)[i] == NetRow(id, domain, c.pool, c.prefix, Reserved);
  }

  lemma ReserveKeepsBodies(db: Db, id: Id, req: Requirements, pol: Policy, key: string, actor: Id, event: Id)
    requires BodiesHeld(db) && ReserveDesign(db, id, req, pol, key, actor, event).Ok?
    ensures BodiesHeld(ReserveDesign(db, id, req, pol, key, actor, event).value.0)
  {
    if AnyOf(ActiveWithKey(db, key)) == None {
      var d := Derive(req, pol, db.nets, db.scalars).value;
      var later := InsertReservation(db, id, req, pol, key, d, actor, event);
      EveryDesignClaims(req, pol, db.nets, db.scalars);
      forall i | i in later.reservations ensures BodyHeld(later.nets, i, later.reservations[i]) {
        if i == id {
          forall c | c in d.book.netClaims ensures NetRow(id, req.domain, c.pool, c.prefix, Reserved) in later.nets {
            NewRowsHold(db.nets, id, req.domain, d.book.netClaims, c);
          }
        } else {
          assert BodyHeld(db.nets, i, db.reservations[i]);
        }
      }
    }
  }

  lemma MoveKeepsBodies(db: Db, id: Id, to: State, actor: Id, verified: bool, event: Id)
    requires BodiesHeld(db) && TransitionReservation(db, id, to, actor, verified, event).Ok?
    ensures BodiesHeld(TransitionReservation(db, id, to, actor, verified, event).value)
  {
    var later := TransitionReservation(db, id, to, actor, verified, event).value;
    forall i | i in later.reservations ensures BodyHeld(later.nets, i, later.reservations[i]) {
      var was := db.reservations[i];
      assert BodyHeld(db.nets, i, was);
      forall c | c in was.body.nets ensures NetRow(i, was.body.domain, c.pool, c.prefix, later.reservations[i].state) in later.nets {
        MoveNetsExact(db.nets, id, to, NetRow(i, was.body.domain, c.pool, c.prefix, was.state));
      }
    }
  }

  lemma StepKeepsBodies(db: Db, op: Op)
    requires BodiesHeld(db)
    ensures BodiesHeld(Next(db, op))
  {
    if op.OpReserve? {
      if ReserveDesign(db, op.id, op.req, op.policy, op.key, op.actor, op.event).Ok? {
        ReserveKeepsBodies(db, op.id, op.req, op.policy, op.key, op.actor, op.event);
      }
    } else if op.OpMoveReservation? {
      if TransitionReservation(db, op.id, op.to, op.actor, op.verified, op.event).Ok? {
        MoveKeepsBodies(db, op.id, op.to, op.actor, op.verified, op.event);
      }
    }
  }

  /** In every reachable store each reservation's claims are ledger rows in its own state. */
  lemma {:induction false} BodiesAreHeld(ops: seq<Op>)
    ensures BodiesHeld(After(EmptyDb(), ops))
    decreases |ops|
  {
    if ops != [] {
      BodiesAreHeld(ops[..|ops| - 1]);
      StepKeepsBodies(After(EmptyDb(), ops[..|ops| - 1]), ops[|ops| - 1]);
    }
  }

  // ----- Reserve, release, reserve again -----

  lemma {:induction false} MovesKeepBodies(db: Db, id: Id, path: seq<(State, bool, Id)>, actor: Id)
    requires BodiesHeld(db) && Moves(db, id, path, actor).Ok?
    ensures BodiesHeld(Moves(db, id, path, actor).value)
    decreases |path|
  {
    if path != [] {
      MoveKeepsBodies(db, id, path[0].0, actor, path[0].1, path[0].2);
      MovesKeepBodies(TransitionReservation(db, id, path[0].0, actor, path[0].1, path[0].2).value, id, path[1..], actor);
    }
  }

  lemma {:induction false} MovesChangeOnlyTheState(db: Db, id: Id, path: seq<(State, bool, Id)>, actor: Id)
    requires id in db.reservations && Moves(db, id, path, actor).Ok?
    ensures var later := Moves(db, id, path, actor).value.reservations;
            && id in later && later == db.reservations[id := db.reservations[id].(state := later[id].state)]
    decreases |path|
  {
    if path != [] {
      MovesChangeOnlyTheState(TransitionReservation(db, id, path[0].0, actor, path[0].1, path[0].2).value, id, path[1..], actor);
    }
  }

  /** After the release the idempotency key itself is free again. */
  lemma KeyIsFreedByRelease(db: Db, id: Id, req: Requirements, pol: Policy, key: string, actor: Id, event: Id, reserved: Db,
                            path: seq<(State, bool, Id)>, later: Db)
    requires ReserveDesign(db, id, req, pol, key, actor, event) == Ok((reserved, id, true))
    requires Moves(reserved, id, path, actor) == Ok(later)
    requires id in later.reservations && later.reservations[id].state == Released
    ensures ActiveWithKey(later, key) == {}
  {
    MovesChangeOnlyTheState(reserved, id, path, actor);
    assert AnyOf(ActiveWithKey(db, key)) == None;
    forall i | i in later.reservations && later.reservations[i].key == key ensures !Active(later.reservations[i].state) {
      if i != id { assert i !in ActiveWithKey(db, key); }
    }
  }

  /**
   Re-planning succeeds: reserve a design, move the reservation through any lifecycle that
   ends in a verified release, and reserve the design again, listed in any order, under any
   free key.  A new reservation is made, and it holds exactly what the first one held.
   */
  lemma ReplanSucceeds(db: Db, id: Id, req: Requirements, pol: Policy, key: string, actor: Id, event: Id, reserved: Db,
                       path: seq<(State, bool, Id)>, later: Db, again: Requirements, links: seq<LinkReq>, vns: seq<VnReq>,
                       id': Id, key': string, event': Id)
    requires LedgerSafe(db) && BodiesHeld(db) && Reordered(req, again, links, vns)
    requires ReserveDesign(db, id, req, pol, key, actor, event) == Ok((reserved, id, true))
    requires Moves(reserved, id, path, actor) == Ok(later)
    requires id in later.reservations && later.reservations[id].state == Released
    requires KeyAccepted(key') && ActiveWithKey(later, key') == {}
    requires id' !in later.reservations && FreshEvent(later.audit, event')
    ensures var second := ReserveDesign(later, id', again, pol, key', actor, event');
            && second.Ok? && second.value.1 == id' && second.value.2
            && id' in second.value.0.reservations
            && second.value.0.reservations[id'].body == reserved.reservations[id].body
            && second.value.0.reservations[id'].document == reserved.reservations[id].document
  {
    var d := Derive(req, pol, db.nets, db.scalars).value;
    ReserveInserted(db, id, req, pol, key, actor, event, reserved);
    ReleaseGivesBack(db, id, req, pol, key, actor, event, reserved, path, later, again, links, vns);
    ReserveKeepsBodies(db, id, req, pol, key, actor, event);
    MovesKeepBodies(reserved, id, path, actor);
    NoActiveTwin(later, again, pol);
    ReserveInserts(later, id', again, pol, key', actor, event', d);
  }
}
