/**
 The ISE node behind the adapter's requests.  A script fixes, request by request,
 what the server does and what the client hears of it: every fault pattern is one
 script.  Reads that are answered are truthful; a write may take effect in whole, in
 part or not at all, independently of its answer.
 */
module IseServer {
  import opened Basics
  import opened IseObjects

  datatype IseError = Transport | Collision | Verification | Preflight | RollbackRefused | NotPrepared | ActiveJournal | BadManifest | KeyError

  /** `located`: a usable same-origin Location header; `newId`: the id the server gives a new object. */
  datatype Reply = Reply(answered: bool, effect: Effect, located: bool, newId: Id)

  type Script = nat -> Reply

  /** From this request on the server answers everything and does exactly what it is asked. */
  ghost predicate Healthy(script: Script, from: nat) {
    forall t: nat {:trigger script(t)} :: t >= from ==> script(t).answered && script(t).effect == Wholly && script(t).located
  }

  /** From request `from` up to, not including, `to` the server answers everything and does exactly what it is asked. */
  ghost predicate Serves(script: Script, from: nat, to: nat) {
    forall t: nat {:trigger script(t)} :: from <= t < to ==> script(t).answered && script(t).effect == Wholly && script(t).located
  }

  /** What a search comes to: None for duplicates, else the unique hit, if there is one. */
  ghost function Search(objects: Objects, hits: set<Key>): Option<Option<(Id, Obj)>>
    requires hits <= objects.Keys
  {
    if hits == {} then Some(None)
    else
      var k :| k in hits;
      if hits == {k} then Some(Some((k.1, objects[k]))) else None
  }

  function Hits(objects: Objects, r: Resource, probe: Obj): (hits: set<Key>)
    ensures forall k :: k in hits <==> Matches(objects, r, probe, k)
  {
    set k | k in objects && Matches(objects, r, probe, k)
  }

  function ValueHits(objects: Objects, value: Datum): (hits: set<Key>)
    ensures forall k :: k in hits <==> HasValue(objects, value, k)
  {
    set k | k in objects && HasValue(objects, value, k)
  }

  class Server {
    const script: Script
    var objects: Objects
    var tick: nat
    /** Every PUT, POST and DELETE that was addressed to an object or created one. */
    ghost var writes: seq<Write>

    constructor (script: Script, objects: Objects)
      ensures this.script == script && this.objects == objects && tick == 0 && writes == []
    {
      this.script, this.objects, tick, writes := script, objects, 0, [];
    }

    /** A read of something outside the object map: node roles, the default policy cell. */
    method Check(holds: bool) returns (error: Option<IseError>)
      modifies this`tick
      ensures tick == old(tick) + 1
      ensures error == None <==> script(old(tick)).answered && holds
    {
      var reply := script(tick);
      tick := tick + 1;
      if !reply.answered { return Some(Transport); }
      return if holds then None else Some(Preflight);
    }

    /** `_get_by_id`. */
    method Get(r: Resource, id: Id) returns (answer: Result<Option<Obj>, IseError>)
      modifies this`tick
      ensures tick == old(tick) + 1
      ensures answer == if script(old(tick)).answered
                        then Ok(if (r, id) in objects then Some(objects[(r, id)]) else None) else Err(Transport)
    {
      var reply := script(tick);
      tick := tick + 1;
      if !reply.answered { return Err(Transport); }
      return Ok(if (r, id) in objects then Some(objects[(r, id)]) else None);
    }

    /** A filtered search, each hit read back: the unique exact match, or a collision. */
    method Find(r: Resource, probe: Obj) returns (answer: Result<Option<(Id, Obj)>, IseError>)
      modifies this`tick
      ensures tick == old(tick) + 1
      ensures answer.Ok? && answer.value == None ==> forall k :: !Matches(objects, r, probe, k)
      ensures answer.Ok? && answer.value.Some? ==>
                && (r, answer.value.value.0) in objects && answer.value.value.1 == objects[(r, answer.value.value.0)]
                && forall k :: Matches(objects, r, probe, k) <==> k == (r, answer.value.value.0)
      ensures answer == Err(Collision) ==> exists a, b :: a != b && Matches(objects, r, probe, a) && Matches(objects, r, probe, b)
      ensures answer.Err? ==> answer.error == Collision || !script(old(tick)).answered
      ensures script(old(tick)).answered ==>
                var found := Search(objects, Hits(objects, r, probe));
                answer == if found.Some? then Ok(found.value) else Err(Collision)
    {
      var reply := script(tick);
      tick := tick + 1;
      if !reply.answered { return Err(Transport); }
      var hits := Hits(objects, r, probe);
      if hits == {} { return Ok(None); }
      var hit :| hit in hits;
      if hits == {hit} { return Ok(Some((hit.1, objects[hit]))); }
      ghost var other :| other in hits && other != hit;
      return Err(Collision);
    }

    /** `_find_sgt_by_value`: the unique group with a tag value. */
    method FindByValue(value: Datum) returns (answer: Result<Option<Id>, IseError>)
      modifies this`tick
      ensures tick == old(tick) + 1
      ensures answer.Ok? && answer.value == None ==> forall k :: !HasValue(objects, value, k)
      ensures answer.Ok? && answer.value.Some? ==> HasValue(objects, value, (Sgt, answer.value.value))
      ensures script(old(tick)).answered ==>
                var found := Search(objects, ValueHits(objects, value));
                answer == if found.Some? then Ok(if found.value.Some? then Some(found.value.value.0) else None) else Err(Collision)
    {
      var reply := script(tick);
      tick := tick + 1;
      if !reply.answered { return Err(Transport); }
      var hits := ValueHits(objects, value);
      if hits == {} { return Ok(None); }
      var hit :| hit in hits;
      if hits == {hit} { return Ok(Some(hit.1)); }
      return Err(Collision);
    }

    /** The new object's id is fresh; the answer carries it when the Location is usable. */
    method Post(r: Resource, body: Obj) returns (answer: Result<Option<Id>, IseError>, ghost landed: Option<Key>)
      modifies this`tick, this`objects, this`writes
      ensures tick == old(tick) + 1
      ensures landed == None ==> objects == old(objects) && writes == old(writes)
      ensures landed.Some? ==>
                && landed.value == (r, script(old(tick)).newId) && landed.value !in old(objects)
                && script(old(tick)).effect != Untouched
                && objects == old(objects)[landed.value := IseObjects.Created(r, body, script(old(tick)).effect)]
                && writes == old(writes) + [Write(landed.value, None, Some(body), script(old(tick)).effect)]
      ensures answer.Ok? && answer.value.Some? ==>
                answer.value.value == script(old(tick)).newId && (r, answer.value.value) !in old(objects)
                && (landed == None || landed == Some((r, answer.value.value)))
      ensures answer.Err? ==> answer.error == Transport
      ensures (r, script(old(tick)).newId) !in old(objects) ==>
                && (landed == None <==> script(old(tick)).effect == Untouched)
                && (script(old(tick)).answered && script(old(tick)).located ==> answer == Ok(Some(script(old(tick)).newId)))
    {
      var reply := script(tick);
      tick := tick + 1;
      landed := None;
      if (r, reply.newId) in objects { return Err(Transport), None; }
      if reply.effect != Untouched {
        objects := objects[(r, reply.newId) := IseObjects.Created(r, body, reply.effect)];
        writes := writes + [Write((r, reply.newId), None, Some(body), reply.effect)];
        landed := Some((r, reply.newId));
      }
      if !reply.answered { return Err(Transport), landed; }
      return Ok(if reply.located then Some(reply.newId) else None), landed;
    }

    method Put(r: Resource, id: Id, body: Obj) returns (error: Option<IseError>)
      modifies this`tick, this`objects, this`writes
      ensures tick == old(tick) + 1
      ensures writes == old(writes) + [Write((r, id), ObjectAt(old(objects), (r, id)), Some(body), script(old(tick)).effect)]
      ensures objects == if (r, id) in old(objects)
                         then old(objects)[(r, id) := Blend(old(objects)[(r, id)], body, script(old(tick)).effect)] else old(objects)
      ensures error == None <==> script(old(tick)).answered && (r, id) in old(objects)
    {
      var reply := script(tick);
      tick, writes := tick + 1, writes + [Write((r, id), ObjectAt(objects, (r, id)), Some(body), reply.effect)];
      if (r, id) !in objects { return Some(Transport); }
      objects := objects[(r, id) := Blend(objects[(r, id)], body, reply.effect)];
      return if reply.answered then None else Some(Transport);
    }

    method Delete(r: Resource, id: Id) returns (error: Option<IseError>)
      modifies this`tick, this`objects, this`writes
      ensures tick == old(tick) + 1
      ensures writes == old(writes) + [Write((r, id), ObjectAt(old(objects), (r, id)), None, script(old(tick)).effect)]
      ensures objects == if script(old(tick)).effect == Untouched then old(objects) else old(objects) - {(r, id)}
      ensures error == None <==> script(old(tick)).answered
    {
      var reply := script(tick);
      tick, writes := tick + 1, writes + [Write((r, id), ObjectAt(objects, (r, id)), None, reply.effect)];
      if reply.effect != Untouched { objects := objects - {(r, id)}; }
      return if reply.answered then None else Some(Transport);
    }
  }

  function ObjectAt(objects: Objects, k: Key): Option<Obj> { if k in objects then Some(objects[k]) else None }

  predicate HasValue(objects: Objects, value: Datum, k: Key) {
    k in objects && k.0 == Sgt && Value in objects[k] && objects[k][Value] == value
  }
}
