/** The seed side of enrolment (src/enroll.rs) with requests served one at a time; the
    interleaved counter is module `Permits`. */
module Enroll {
  import opened Wrappers
  import opened Tpm
  import opened Fleet
  import opened Wire
  import Permits

  /** `peerCerts` are the common names of the presented certificate chain, as far as each
      can be parsed; None when the client presented no certificate. */
  datatype DuplicateRequest = DuplicateRequest(peerCerts: Option<seq<Option<string>>>, joinerTransportPublic: Bytes)

  datatype Status = Denied | MaxReached | Internal(error: Error)

  const NODE_IDENTITY_PREFIX := "system:node:"

  function NodeNameFromCn(cn: string): (name: Option<string>)
    ensures name.Some? <==> exists n: string :: n != "" && cn == "system:node:" + n
    ensures name.Some? ==> name.value != "" && cn == "system:node:" + name.value
  {
    if NODE_IDENTITY_PREFIX < cn
    then
      assert cn == NODE_IDENTITY_PREFIX + cn[|NODE_IDENTITY_PREFIX|..];
      Some(cn[|NODE_IDENTITY_PREFIX|..])
    else None
  }

  /** The leaf certificate names a member of the cluster's current Node objects. */
  predicate Authorised(request: DuplicateRequest, nodes: set<string>) {
    && request.peerCerts.Some? && request.peerCerts.value != [] && request.peerCerts.value[0].Some?
    && NodeNameFromCn(request.peerCerts.value[0].value).Some?
    && NodeNameFromCn(request.peerCerts.value[0].value).value in nodes
  }

  /** Spelled out: the leaf's common name is `system:node:` and the name of a current Node. */
  lemma AuthorisedExactly(request: DuplicateRequest, nodes: set<string>)
    ensures Authorised(request, nodes) <==>
              && request.peerCerts.Some? && request.peerCerts.value != []
              && exists name :: name in nodes && name != "" && request.peerCerts.value[0] == Some("system:node:" + name)
  {
    if request.peerCerts.Some? && request.peerCerts.value != [] {
      var cn := request.peerCerts.value[0];
      if name :| name in nodes && name != "" && cn == Some("system:node:" + name) {
        var found := NodeNameFromCn(cn.value).value;
        assert name == cn.value[|"system:node:"|..] == found;
      }
    }
  }

  class EnrollService {
    const ctx: Context
    const fleetKey: Handle
    const max: nat
    var remaining: nat
    var notified: bool
    ghost var served: nat

    /** One request at a time: the counter is exactly what is left, and `done` has been
        notified exactly when the max-th request was served. */
    ghost predicate Valid()
      reads this, ctx
    {
      && ctx.Valid() && 1 <= max < Permits.WRAP
      && served <= max && remaining == max - served
      && (notified <==> served == max)
    }

    constructor (ctx: Context, fleetKey: Handle, max: nat)
      requires ctx.Valid() && 1 <= max < Permits.WRAP
      ensures Valid() && served == 0
      ensures this.ctx == ctx && this.fleetKey == fleetKey && this.max == max
    {
      this.ctx, this.fleetKey, this.max := ctx, fleetKey, max;
      remaining, notified, served := max, false, 0;
    }

    /** Only authorised nodes get an answer, and the answer gives the fleet key to the
        owner of the transport key they sent and to nobody else. */
    method HandleDuplicate(nodes: set<string>, request: DuplicateRequest) returns (r: Result<DuplicateResponse, Status>)
      requires ctx.Valid()
      modifies ctx`transients, ctx`sessions, ctx`next, ctx`faults
      ensures ctx.Valid()
      ensures r == Err(Denied) <==> !Authorised(request, nodes)
      ensures r != Err(Denied) <==>
                && request.peerCerts.Some? && request.peerCerts.value != []
                && exists name :: name in nodes && name != "" && request.peerCerts.value[0] == Some("system:node:" + name)
      ensures r == Err(Denied) ==> ctx.transients == old(ctx.transients) && ctx.sessions == old(ctx.sessions)
      ensures ctx.transients - {old(ctx.next)} == old(ctx.transients)
      ensures r != Err(MaxReached)
      ensures r.Ok? ==>
                && Unmarshall(ctx.crypto, request.joinerTransportPublic).Some?
                && old(ctx.ObjectAt(fleetKey)).Some?
                && Delivers(ctx.crypto, r.value, old(ctx.ObjectAt(fleetKey)).value,
                            Unmarshall(ctx.crypto, request.joinerTransportPublic).value)
      ensures ctx.faults == old(ctx.faults) && Authorised(request, nodes) ==>
                (r.Ok? <==>
                  && Unmarshall(ctx.crypto, request.joinerTransportPublic).Some?
                  && old(ctx.ObjectAt(fleetKey)).Some?
                  && DuplicateRefusal(FRESH_DUPLICATE_SESSION, old(ctx.ObjectAt(fleetKey)).value,
                       Object(Unmarshall(ctx.crypto, request.joinerTransportPublic).value, Absent)) == None)
    {
      AuthorisedExactly(request, nodes);
      if request.peerCerts.None? || request.peerCerts.value == [] || request.peerCerts.value[0].None? {
        return Err(Denied);
      }
      var name := NodeNameFromCn(request.peerCerts.value[0].value);
      if name.None? || name.value !in nodes { return Err(Denied); }
      var joinerPublic := Unmarshall(ctx.crypto, request.joinerTransportPublic);
      if joinerPublic.None? { return Err(Internal(BadMarshalling)); }
      var blob := DuplicateForJoiner(ctx, fleetKey, joinerPublic.value);
      if blob.Err? { return Err(Internal(blob.error)); }
      EncodedBlobDelivers(ctx.crypto, blob.value, old(ctx.ObjectAt(fleetKey)).value, joinerPublic.value);
      return Ok(Encode(ctx.crypto, blob.value));
    }

    /** A served request uses up one permit and the last one notifies; every other request
        leaves counter, signal and slot as they were. */
    method Duplicate(nodes: set<string>, request: DuplicateRequest) returns (r: Result<DuplicateResponse, Status>)
      requires Valid()
      modifies this, ctx`transients, ctx`sessions, ctx`next, ctx`faults
      ensures Valid()
      ensures r.Ok? ==> Authorised(request, nodes) && served == old(served) + 1
      ensures r.Err? ==> served == old(served) && remaining == old(remaining) && notified == old(notified)
      ensures r == Err(MaxReached) <==> old(served) == max
      ensures ctx.transients - {old(ctx.next)} == old(ctx.transients)
      ensures r.Ok? ==>
                && Unmarshall(ctx.crypto, request.joinerTransportPublic).Some?
                && old(ctx.ObjectAt(fleetKey)).Some?
                && Delivers(ctx.crypto, r.value, old(ctx.ObjectAt(fleetKey)).value,
                            Unmarshall(ctx.crypto, request.joinerTransportPublic).value)
      ensures ctx.faults == old(ctx.faults) && Authorised(request, nodes) && old(served) < max ==>
                (r.Ok? <==>
                  && Unmarshall(ctx.crypto, request.joinerTransportPublic).Some?
                  && old(ctx.ObjectAt(fleetKey)).Some?
                  && DuplicateRefusal(FRESH_DUPLICATE_SESSION, old(ctx.ObjectAt(fleetKey)).value,
                       Object(Unmarshall(ctx.crypto, request.joinerTransportPublic).value, Absent)) == None)
    {
      var permitsBefore := remaining;
      remaining := Permits.FetchSub(remaining);
      if permitsBefore == 0 {
        remaining := Permits.FetchAdd(remaining);
        return Err(MaxReached);
      }
      var wasLastPermit := permitsBefore == 1;
      r := HandleDuplicate(nodes, request);
      if r.Ok? {
        if wasLastPermit { notified := true; }
        served := served + 1;
      } else {
        remaining := Permits.FetchAdd(remaining);
      }
    }
  }
}

/** The joiner side (src/join.rs): transport key, one exchange with a seed, import. */
module Join {
  import opened Wrappers
  import opened Tpm
  import opened Fleet
  import opened Wire
  import opened Enroll

  /** A join that reports success leaves the seed's key in this node's slot, public area and
      secret. Whatever fails on either side, the slot holds its old key, nothing, or the
      seed's key, and the seed's slot does not change. With nothing failing and a permit
      left, an authorised node always succeeds, whatever its slot held before. */
  method RunJoin(ctx: Context, seed: EnrollService, nodes: set<string>, peerCerts: Option<seq<Option<string>>>)
    returns (r: Result<(), Status>)
    requires ctx.Valid() && seed.Valid() && ctx != seed.ctx && ctx.crypto == seed.ctx.crypto
    modifies ctx, seed, seed.ctx`transients, seed.ctx`sessions, seed.ctx`next, seed.ctx`faults
    ensures ctx.Valid() && seed.Valid()
    ensures var key := old(seed.ctx.ObjectAt(seed.fleetKey));
            && (r.Ok? ==> key.Some? && ctx.slot == key && seed.served == old(seed.served) + 1)
            && (ctx.slot == old(ctx.slot) || ctx.slot == None || ctx.slot == key)
    ensures old(seed.served) == seed.max || !Authorised(DuplicateRequest(peerCerts, []), nodes) ==>
              r.Err? && ctx.slot == old(ctx.slot) && seed.served == old(seed.served)
    ensures !(&& peerCerts.Some? && peerCerts.value != []
              && exists name :: name in nodes && name != "" && peerCerts.value[0] == Some("system:node:" + name)) ==>
              r.Err? && ctx.slot == old(ctx.slot) && seed.served == old(seed.served)
    ensures ctx.faults == old(ctx.faults) && seed.ctx.faults == old(seed.ctx.faults) ==>
              (r.Ok? <==>
                && old(seed.served) < seed.max && Authorised(DuplicateRequest(peerCerts, []), nodes)
                && old(seed.ctx.ObjectAt(seed.fleetKey)).Some?
                && DuplicateRefusal(FRESH_DUPLICATE_SESSION, old(seed.ctx.ObjectAt(seed.fleetKey)).value,
                                    Object(FleetKeyOf(ctx.seed).pub, Absent)) == None)
  {
    ghost var key := seed.ctx.ObjectAt(seed.fleetKey);
    AuthorisedExactly(DuplicateRequest(peerCerts, []), nodes);
    var transport := CreateTransportKey(ctx);
    if transport.Err? { return Err(Internal(transport.error)); }
    var (handle, pub) := transport.value;
    var response := seed.Duplicate(nodes, DuplicateRequest(peerCerts, Marshall(ctx.crypto, pub)));
    if response.Err? { return Err(response.error); }
    var blob := Decode(ctx.crypto, response.value);
    if blob.Err? { return Err(Internal(BadMarshalling)); }
    assert Imported(ctx.crypto, Some(FleetKeyOf(ctx.seed)), blob.value) == key;
    var persisted := ImportAndPersist(ctx, handle, blob.value);
    return if persisted.Err? then Err(Internal(persisted.error)) else Ok(());
  }
}
