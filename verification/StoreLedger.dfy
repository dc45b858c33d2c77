/** Ledger safety in every reachable store, and what a release gives back. */
module StoreLedger {
  import opened Basics
  import opened Ordering
  import opened Addressing
  import opened Allocator
  import opened AllocatorProofs
  import opened AllocatorOrder
  import opened Store
  import opened StoreMachine

  type Reservations = map<Id, ReservationRow>

  /** Every row carries its reservation's state and domain. */
  ghost predicate RowsFollow(rs: Reservations, nets: seq<NetRow>, scalars: seq<ScalarRow>) {
    && (forall r :: r in nets ==> r.reservation in rs && r.state == rs[r.reservation].state)
    && (forall r :: r in scalars ==> r.reservation in rs && r.state == rs[r.reservation].state)
  }

  ghost predicate NetsApart(nets: seq<NetRow>) {
    forall i, j :: 0 <= i < |nets| && 0 <= j < |nets| && i != j && Active(nets[i].state) && Active(nets[j].state)
      && nets[i].domain == nets[j].domain && nets[i].pool == nets[j].pool
      ==> !Overlaps(nets[i].prefix, nets[j].prefix)
  }

  ghost predicate ScalarsApart(scalars: seq<ScalarRow>) {
    forall i, j :: 0 <= i < |scalars| && 0 <= j < |scalars| && i != j && Active(scalars[i].state) && Active(scalars[j].state)
      && scalars[i].domain == scalars[j].domain && scalars[i].kind == scalars[j].kind
      ==> scalars[i].value != scalars[j].value
  }

  /**
   Active prefixes of one domain and pool are pairwise disjoint, active scalars of
   one domain and kind are distinct, and every row's state is its reservation's.
   */
  ghost predicate LedgerSafe(db: Db) {
    RowsFollow(db.reservations, db.nets, db.scalars) && NetsApart(db.nets) && ScalarsApart(db.scalars)
  }

  // ----- Reserving -----

  lemma ActiveRowIsListed(nets: seq<NetRow>, r: NetRow)
    requires r in nets && Active(r.state)
    ensures r.prefix in ActiveNetworks(nets, r.domain, r.pool)
  {
  }

  lemma NewRowsAvoidOld(pol: Policy, nets: seq<NetRow>, scalars: seq<ScalarRow>, domain: Id, d: Draft, c: NetClaim, r: NetRow)
    requires Good(pol, Opening(pol, domain, nets, scalars), d) && c in d.book.netClaims
    requires r in nets && Active(r.state) && r.domain == domain && r.pool == c.pool
    ensures !Overlaps(c.prefix, r.prefix) && !Overlaps(r.prefix, c.prefix)
  {
    var opening := Opening(pol, domain, nets, scalars);
    ActiveRowIsListed(nets, r);
    assert NewNet(pol, opening, d.book, c);
    assert r.prefix in NetsOf(opening, c.pool);
  }

  lemma NewScalarsAvoidOld(pol: Policy, nets: seq<NetRow>, scalars: seq<ScalarRow>, domain: Id, d: Draft, c: ScalarClaim, r: ScalarRow)
    requires Good(pol, Opening(pol, domain, nets, scalars), d) && c in d.book.scalarClaims
    requires r in scalars && Active(r.state) && r.domain == domain && r.kind == c.kind
    ensures c.value != r.value
  {
    var opening := Opening(pol, domain, nets, scalars);
    assert r.value in ActiveScalars(scalars, domain, c.kind);
    assert NewScalar(opening, d.book, c);
    assert r.value in ScalarsOf(opening, c.kind);
  }

  lemma InsertedNetsApart(id: Id, pol: Policy, nets: seq<NetRow>, scalars: seq<ScalarRow>, domain: Id, d: Draft)
    requires NetsApart(nets) && Good(pol, Opening(pol, domain, nets, scalars), d)
    ensures NetsApart(nets + NetRows(id, domain, d.book.netClaims))
  {
    var added := NetRows(id, domain, d.book.netClaims);
    var all := nets + added;
    forall i, j | 0 <= i < |all| && 0 <= j < |all| && i != j && Active(all[i].state) && Active(all[j].state)
      && all[i].domain == all[j].domain && all[i].pool == all[j].pool
      ensures !Overlaps(all[i].prefix, all[j].prefix)
    {
      var n := |nets|;
      if i < n <= j {
        NewRowsAvoidOld(pol, nets, scalars, domain, d, d.book.netClaims[j - n], nets[i]);
      } else if j < n <= i {
        NewRowsAvoidOld(pol, nets, scalars, domain, d, d.book.netClaims[i - n], nets[j]);
      } else if n <= i && n <= j {
        var a, b := if i < j then i - n else j - n, if i < j then j - n else i - n;
        assert Apart(d.book.netClaims[a], d.book.netClaims[b]);
      }
    }
  }

  ghost predicate ScalarsDiffer(a: ScalarRow, b: ScalarRow) {
    ScalarsMeet(a, b) ==> a.value != b.value
  }

  lemma InsertedScalarsApart(id: Id, pol: Policy, nets: seq<NetRow>, scalars: seq<ScalarRow>, domain: Id, d: Draft)
    requires ScalarsApart(scalars) && Good(pol, Opening(pol, domain, nets, scalars), d)
    ensures ScalarsApart(scalars + ScalarRows(id, domain, d.book.scalarClaims))
  {
    var added := ScalarRows(id, domain, d.book.scalarClaims);
    var all, n := scalars + added, |scalars|;
    forall i, j | 0 <= i < j < |all| ensures ScalarsDiffer(all[i], all[j]) {
      if i < n <= j {
        if ScalarsMeet(all[i], all[j]) { NewScalarsAvoidOld(pol, nets, scalars, domain, d, d.book.scalarClaims[j - n], scalars[i]); }
      } else if n <= i {
        assert d.book.scalarClaims[i - n] != d.book.scalarClaims[j - n];
      }
    }
  }

  predicate ScalarsMeet(a: ScalarRow, b: ScalarRow) {
    Active(a.state) && Active(b.state) && a.domain == b.domain && a.kind == b.kind
  }

  lemma ReserveKeepsLedger(db: Db, id: Id, req: Requirements, pol: Policy, key: string, actor: Id, event: Id)
    requires LedgerSafe(db) && ReserveDesign(db, id, req, pol, key, actor, event).Ok?
    ensures LedgerSafe(ReserveDesign(db, id, req, pol, key, actor, event).value.0)
  {
    if AnyOf(ActiveWithKey(db, key)) == None {
      var d := Derive(req, pol, db.nets, db.scalars).value;
      DeriveIsGood(req, pol, db.nets, db.scalars);
      InsertedNetsApart(id, pol, db.nets, db.scalars, req.domain, d);
      InsertedScalarsApart(id, pol, db.nets, db.scalars, req.domain, d);
    }
  }

  /** What `reserve_design` stores, and when it does. */
  lemma ReserveInserts(db: Db, id: Id, req: Requirements, pol: Policy, key: string, actor: Id, event: Id, d: Draft)
    requires KeyAccepted(key) && ActiveWithKey(db, key) == {} && Derive(req, pol, db.nets, db.scalars) == Ok(d)
    requires id !in db.reservations && ActiveWithBody(db, BodyOf(req, d)) == {} && FreshEvent(db.audit, event)
    ensures ReserveDesign(db, id, req, pol, key, actor, event) == Ok((InsertReservation(db, id, req, pol, key, d, actor, event), id, true))
  {
  }

  lemma ReserveInserted(db: Db, id: Id, req: Requirements, pol: Policy, key: string, actor: Id, event: Id, later: Db)
    requires ReserveDesign(db, id, req, pol, key, actor, event) == Ok((later, id, true))
    ensures Derive(req, pol, db.nets, db.scalars).Ok? && id !in db.reservations
    ensures later == InsertReservation(db, id, req, pol, key, Derive(req, pol, db.nets, db.scalars).value, actor, event)
  {
  }

  // ----- Moving -----

  lemma MovedNetsApart(nets: seq<NetRow>, id: Id, to: State)
    requires NetsApart(nets) && forall r :: r in nets && r.reservation == id ==> Active(r.state)
    ensures NetsApart(MoveNets(nets, id, to))
  {
    var moved := MoveNets(nets, id, to);
    forall i | 0 <= i < |moved| && Active(moved[i].state) ensures Active(nets[i].state) {
      assert nets[i] in nets;
    }
  }

  lemma MovedScalarsApart(scalars: seq<ScalarRow>, id: Id, to: State)
    requires ScalarsApart(scalars) && forall r :: r in scalars && r.reservation == id ==> Active(r.state)
    ensures ScalarsApart(MoveScalars(scalars, id, to))
  {
    var moved := MoveScalars(scalars, id, to);
    forall i | 0 <= i < |moved| && Active(moved[i].state) ensures Active(scalars[i].state) {
      assert scalars[i] in scalars;
    }
  }

  lemma MovedRowsFollow(rs: Reservations, nets: seq<NetRow>, scalars: seq<ScalarRow>, id: Id, to: State)
    requires RowsFollow(rs, nets, scalars) && id in rs
    ensures RowsFollow(rs[id := rs[id].(state := to)], MoveNets(nets, id, to), MoveScalars(scalars, id, to))
  {
    assert forall i :: 0 <= i < |nets| ==> nets[i] in nets;
    assert forall i :: 0 <= i < |scalars| ==> scalars[i] in scalars;
  }

  lemma MoveKeepsLedger(db: Db, id: Id, to: State, actor: Id, verified: bool, event: Id)
    requires LedgerSafe(db) && TransitionReservation(db, id, to, actor, verified, event).Ok?
    ensures LedgerSafe(TransitionReservation(db, id, to, actor, verified, event).value)
  {
    MovedNetsApart(db.nets, id, to);
    MovedScalarsApart(db.scalars, id, to);
    MovedRowsFollow(db.reservations, db.nets, db.scalars, id, to);
  }

  lemma ReservationStepKeepsLedger(db: Db, op: Op)
    requires LedgerSafe(db) && (op.OpReserve? || op.OpMoveReservation?)
    ensures LedgerSafe(NextReservation(db, op))
  {
    match op
    case OpReserve(id, req, policy, key, actor, event) =>
      if ReserveDesign(db, id, req, policy, key, actor, event).Ok? { ReserveKeepsLedger(db, id, req, policy, key, actor, event); }
    case OpMoveReservation(id, to, actor, verified, event) =>
      if TransitionReservation(db, id, to, actor, verified, event).Ok? { MoveKeepsLedger(db, id, to, actor, verified, event); }
  }

  lemma StepKeepsLedger(db: Db, op: Op)
    requires LedgerSafe(db)
    ensures LedgerSafe(Next(db, op))
  {
    if op.OpReserve? || op.OpMoveReservation? { ReservationStepKeepsLedger(db, op); }
  }

  /** Ledger safety in every reachable store. */
  lemma {:induction false} LedgerIsSafe(ops: seq<Op>)
    ensures LedgerSafe(After(EmptyDb(), ops))
    decreases |ops|
  {
    if ops != [] {
      LedgerIsSafe(ops[..|ops| - 1]);
      StepKeepsLedger(After(EmptyDb(), ops[..|ops| - 1]), ops[|ops| - 1]);
    }
  }

  // ----- Space is held until a verified release -----

  ghost predicate ReleasedSince(audit: seq<AuditRow>, id: Id) {
    exists r, from :: r in audit && r.body.event == ReservationMoved(id, from, Released, true)
  }

  ghost predicate StillHeld(nets: seq<NetRow>, scalars: seq<ScalarRow>, later: Db, id: Id)
    requires id in later.reservations
  {
    && (forall r :: r in nets && r.reservation == id ==> r.(state := later.reservations[id].state) in later.nets)
    && (forall r :: r in scalars && r.reservation == id ==> r.(state := later.reservations[id].state) in later.scalars)
  }

  lemma MoveNetsExact(rows: seq<NetRow>, id: Id, to: State, r: NetRow)
    requires r in rows
    ensures (if r.reservation == id then r.(state := to) else r) in MoveNets(rows, id, to)
  {
    var i :| 0 <= i < |rows| && rows[i] == r;
    assert MoveNets(rows, id, to)[i] == if r.reservation == id then r.(state := to) else r;
  }

  lemma MoveScalarsExact(rows: seq<ScalarRow>, id: Id, to: State, r: ScalarRow)
    requires r in rows
    ensures (if r.reservation == id then r.(state := to) else r) in MoveScalars(rows, id, to)
  {
    var i :| 0 <= i < |rows| && rows[i] == r;
    assert MoveScalars(rows, id, to)[i] == if r.reservation == id then r.(state := to) else r;
  }

  ghost predicate HoldsOn(nets: seq<NetRow>, scalars: seq<ScalarRow>, db: Db, later: Db, id: Id)
    requires id in db.reservations
  {
    && id in later.reservations && StillHeld(nets, scalars, later, id)
    && db.audit <= later.audit
    && (Active(db.reservations[id].state) && !Active(later.reservations[id].state) ==>
          ReleasedSince(later.audit[|db.audit|..], id))
  }

  lemma MoveHolds(nets: seq<NetRow>, scalars: seq<ScalarRow>, db: Db, id: Id, moved: Id, to: State, actor: Id, verified: bool, event: Id)
    requires id in db.reservations && StillHeld(nets, scalars, db, id)
    requires TransitionReservation(db, moved, to, actor, verified, event).Ok?
    ensures HoldsOn(nets, scalars, db, TransitionReservation(db, moved, to, actor, verified, event).value, id)
  {
    var later := TransitionReservation(db, moved, to, actor, verified, event).value;
    forall r | r in db.nets ensures (if r.reservation == moved then r.(state := to) else r) in later.nets {
      MoveNetsExact(db.nets, moved, to, r);
    }
    forall r | r in db.scalars ensures (if r.reservation == moved then r.(state := to) else r) in later.scalars {
      MoveScalarsExact(db.scalars, moved, to, r);
    }
    assert later.audit[|db.audit|..][0].body.event == ReservationMoved(moved, db.reservations[moved].state, to, verified);
  }

  lemma ReserveHolds(nets: seq<NetRow>, scalars: seq<ScalarRow>, db: Db, id: Id, added: Id, req: Requirements, pol: Policy, key: string, actor: Id, event: Id)
    requires id in db.reservations && StillHeld(nets, scalars, db, id)
    requires ReserveDesign(db, added, req, pol, key, actor, event).Ok?
    ensures HoldsOn(nets, scalars, db, ReserveDesign(db, added, req, pol, key, actor, event).value.0, id)
  {
  }

  lemma StepHolds(nets: seq<NetRow>, scalars: seq<ScalarRow>, db: Db, op: Op, id: Id)
    requires id in db.reservations && StillHeld(nets, scalars, db, id)
    ensures HoldsOn(nets, scalars, db, Next(db, op), id)
  {
    if op.OpReserve? || op.OpMoveReservation? {
      ReservationStepHolds(nets, scalars, db, op, id);
    } else {
      OtherStepHolds(nets, scalars, db, Next(db, op), id);
    }
  }

  lemma ReservationStepHolds(nets: seq<NetRow>, scalars: seq<ScalarRow>, db: Db, op: Op, id: Id)
    requires id in db.reservations && StillHeld(nets, scalars, db, id) && (op.OpReserve? || op.OpMoveReservation?)
    ensures HoldsOn(nets, scalars, db, NextReservation(db, op), id)
  {
    match op
    case OpReserve(added, req, policy, key, actor, event) =>
      if ReserveDesign(db, added, req, policy, key, actor, event).Ok? { ReserveHolds(nets, scalars, db, id, added, req, policy, key, actor, event); }
    case OpMoveReservation(moved, to, actor, verified, event) =>
      if TransitionReservation(db, moved, to, actor, verified, event).Ok? { MoveHolds(nets, scalars, db, id, moved, to, actor, verified, event); }
  }

  lemma OtherStepHolds(nets: seq<NetRow>, scalars: seq<ScalarRow>, db: Db, later: Db, id: Id)
    requires id in db.reservations && StillHeld(nets, scalars, db, id)
    requires later.reservations == db.reservations && later.nets == db.nets && later.scalars == db.scalars && db.audit <= later.audit
    ensures HoldsOn(nets, scalars, db, later, id)
  {
  }

  /**
   Over any run of the store, the space of a reservation stays on the ledger under its
   own rows, and becomes allocatable only through a release recorded as verified.
   */
  lemma {:induction false} SpaceIsHeld(db: Db, ops: seq<Op>, id: Id)
    requires LedgerSafe(db) && id in db.reservations && Active(db.reservations[id].state)
    ensures var later := After(db, ops);
            && id in later.reservations && StillHeld(db.nets, db.scalars, later, id)
            && db.audit <= later.audit
            && (Active(later.reservations[id].state) || ReleasedSince(later.audit[|db.audit|..], id))
    decreases |ops|
  {
    if ops == [] {
      forall r | r in db.nets && r.reservation == id ensures r.(state := db.reservations[id].state) == r {}
    } else {
      var before := After(db, ops[..|ops| - 1]);
      SpaceIsHeld(db, ops[..|ops| - 1], id);
      StepHolds(db.nets, db.scalars, before, ops[|ops| - 1], id);
      var later := After(db, ops);
      HeldOrReleased(db.audit, before.audit, later.audit, id);
    }
  }

  lemma HeldOrReleased(a: seq<AuditRow>, b: seq<AuditRow>, c: seq<AuditRow>, id: Id)
    requires a <= b <= c
    ensures ReleasedSince(b[|a|..], id) ==> ReleasedSince(c[|a|..], id)
    ensures ReleasedSince(c[|b|..], id) ==> ReleasedSince(c[|a|..], id)
  {
    forall r | r in b[|a|..] ensures r in c[|a|..] {
      var i :| 0 <= i < |b| - |a| && b[|a|..][i] == r;
      assert c[|a|..][i] == r;
    }
    forall r | r in c[|b|..] ensures r in c[|a|..] {
      var i :| 0 <= i < |c| - |b| && c[|b|..][i] == r;
      assert c[|a|..][i + |b| - |a|] == r;
    }
  }

  /** Nothing that a reservation of `domain` claims is in the row, or overlaps it. */
  ghost predicate KeepsClear(body: ReservationBody, r: NetRow) {
    forall c :: c in body.nets && c.pool == r.pool && body.domain == r.domain ==> !Overlaps(c.prefix, r.prefix)
  }

  ghost predicate KeepsScalarClear(body: ReservationBody, r: ScalarRow) {
    forall c :: c in body.scalars && c.kind == r.kind && body.domain == r.domain ==> c.value != r.value
  }

  /** While a reservation holds its space (also in quarantine), no new reservation receives any prefix or scalar of it. */
  lemma HeldSpaceIsNotReissued(db: Db, id: Id, req: Requirements, pol: Policy, key: string, actor: Id, event: Id, holder: Id, later: Db)
    requires LedgerSafe(db) && holder in db.reservations && Active(db.reservations[holder].state)
    requires ReserveDesign(db, id, req, pol, key, actor, event) == Ok((later, id, true))
    ensures forall r :: r in db.nets && r.reservation == holder ==> KeepsClear(later.reservations[id].body, r)
    ensures forall r :: r in db.scalars && r.reservation == holder ==> KeepsScalarClear(later.reservations[id].body, r)
  {
    var d := Derive(req, pol, db.nets, db.scalars).value;
    DeriveIsGood(req, pol, db.nets, db.scalars);
    DraftKeepsClear(db.nets, db.scalars, req, pol, d);
  }

  /** A derived design keeps clear of every active row. */
  lemma DraftKeepsClear(nets: seq<NetRow>, scalars: seq<ScalarRow>, req: Requirements, pol: Policy, d: Draft)
    requires Good(pol, Opening(pol, req.domain, nets, scalars), d)
    ensures forall r :: r in nets && Active(r.state) ==> KeepsClear(BodyOf(req, d), r)
    ensures forall r :: r in scalars && Active(r.state) ==> KeepsScalarClear(BodyOf(req, d), r)
  {
    forall r, c | r in nets && Active(r.state) && c in d.book.netClaims && c.pool == r.pool && req.domain == r.domain
      ensures !Overlaps(c.prefix, r.prefix)
    {
      NewRowsAvoidOld(pol, nets, scalars, req.domain, d, c, r);
    }
    forall r, c | r in scalars && Active(r.state) && c in d.book.scalarClaims && c.kind == r.kind && req.domain == r.domain
      ensures c.value != r.value
    {
      NewScalarsAvoidOld(pol, nets, scalars, req.domain, d, c, r);
    }
  }

  // ----- Reserve, release, reserve again -----

  /** One reservation's moves, one after another. */
  function Moves(db: Db, id: Id, path: seq<(State, bool, Id)>, actor: Id): Result<Db, StoreError>
    decreases |path|
  {
    if path == [] then Ok(db)
    else
      match TransitionReservation(db, id, path[0].0, actor, path[0].1, path[0].2)
      case Err(e) => Err(e)
      case Ok(next) => Moves(next, id, path[1..], actor)
  }

  /** Rows that another store has in another state of one reservation only. */
  ghost predicate SameOutside(nets: seq<NetRow>, nets': seq<NetRow>, id: Id, to: State) {
    |nets| == |nets'| && forall i :: 0 <= i < |nets| ==>
      nets'[i] == if nets[i].reservation == id then nets[i].(state := to) else nets[i]
  }

  ghost predicate SameScalarsOutside(rows: seq<ScalarRow>, rows': seq<ScalarRow>, id: Id, to: State) {
    |rows| == |rows'| && forall i :: 0 <= i < |rows| ==>
      rows'[i] == if rows[i].reservation == id then rows[i].(state := to) else rows[i]
  }

  lemma {:induction false} MovesTouchOnlyTheirRows(db: Db, id: Id, path: seq<(State, bool, Id)>, actor: Id)
    requires LedgerSafe(db) && id in db.reservations && Moves(db, id, path, actor).Ok?
    ensures var later := Moves(db, id, path, actor).value;
            && id in later.reservations
            && SameOutside(db.nets, later.nets, id, later.reservations[id].state)
            && SameScalarsOutside(db.scalars, later.scalars, id, later.reservations[id].state)
    decreases |path|
  {
    if path == [] {
      forall r | r in db.nets && r.reservation == id ensures r.(state := db.reservations[id].state) == r {}
      forall r | r in db.scalars && r.reservation == id ensures r.(state := db.reservations[id].state) == r {}
      assert forall i :: 0 <= i < |db.nets| ==> db.nets[i] in db.nets;
      assert forall i :: 0 <= i < |db.scalars| ==> db.scalars[i] in db.scalars;
    } else {
      var next := TransitionReservation(db, id, path[0].0, actor, path[0].1, path[0].2).value;
      MoveKeepsLedger(db, id, path[0].0, actor, path[0].1, path[0].2);
      MovesTouchOnlyTheirRows(next, id, path[1..], actor);
    }
  }

  lemma ReleaseRestores(db: Db, id: Id, domain: Id, later: Db)
    requires LedgerSafe(db) && id !in db.reservations
    requires |later.nets| >= |db.nets| && |later.scalars| >= |db.scalars|
    requires later.nets[..|db.nets|] == db.nets && later.scalars[..|db.scalars|] == db.scalars
    requires forall i :: |db.nets| <= i < |later.nets| ==> later.nets[i].state == Released
    requires forall i :: |db.scalars| <= i < |later.scalars| ==> later.scalars[i].state == Released
    ensures SameActive(domain, db.nets, later.nets, db.scalars, later.scalars)
  {
    forall r ensures r in later.nets && Active(r.state) <==> r in db.nets && Active(r.state) {
      if r in db.nets { var i :| 0 <= i < |db.nets| && db.nets[i] == r; assert later.nets[i] == r; }
      if r in later.nets { var i :| 0 <= i < |later.nets| && later.nets[i] == r; assert i < |db.nets| ==> db.nets[i] == r; }
    }
    forall r ensures r in later.scalars && Active(r.state) <==> r in db.scalars && Active(r.state) {
      if r in db.scalars { var i :| 0 <= i < |db.scalars| && db.scalars[i] == r; assert later.scalars[i] == r; }
      if r in later.scalars { var i :| 0 <= i < |later.scalars| && later.scalars[i] == r; assert i < |db.scalars| ==> db.scalars[i] == r; }
    }
  }

  lemma ReleasedRows(db: Db, id: Id, req: Requirements, pol: Policy, key: string, actor: Id, event: Id, d: Draft, later: Db)
    requires LedgerSafe(db) && id !in db.reservations
    requires var reserved := InsertReservation(db, id, req, pol, key, d, actor, event);
             && SameOutside(reserved.nets, later.nets, id, Released)
             && SameScalarsOutside(reserved.scalars, later.scalars, id, Released)
    ensures SameActive(req.domain, db.nets, later.nets, db.scalars, later.scalars)
  {
    assert forall i :: 0 <= i < |db.nets| ==> db.nets[i] in db.nets;
    assert forall i :: 0 <= i < |db.scalars| ==> db.scalars[i] in db.scalars;
    ReleaseRestores(db, id, req.domain, later);
  }

  /**
   Reuse: reserve a design, move the reservation through any lifecycle that ends in a
   verified release, and derive the same design again, listed in any order: it gets
   the same intent and the same prefixes and scalars.
   */
  lemma ReleaseGivesBack(db: Db, id: Id, req: Requirements, pol: Policy, key: string, actor: Id, event: Id, reserved: Db,
                         path: seq<(State, bool, Id)>, later: Db, again: Requirements, links: seq<LinkReq>, vns: seq<VnReq>)
    requires LedgerSafe(db) && Reordered(req, again, links, vns)
    requires ReserveDesign(db, id, req, pol, key, actor, event) == Ok((reserved, id, true))
    requires Moves(reserved, id, path, actor) == Ok(later)
    requires id in later.reservations && later.reservations[id].state == Released
    ensures Derive(again, pol, later.nets, later.scalars) == Derive(req, pol, db.nets, db.scalars)
  {
    var d := Derive(req, pol, db.nets, db.scalars).value;
    ReserveKeepsLedger(db, id, req, pol, key, actor, event);
    MovesTouchOnlyTheirRows(reserved, id, path, actor);
    ReleasedRows(db, id, req, pol, key, actor, event, d, later);
    DeriveIgnoresOrder(req, again, links, vns, pol, db.nets, later.nets, db.scalars, later.scalars);
  }
}
