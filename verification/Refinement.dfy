/** The commands of src/main.rs, src/enroll.rs and src/join.rs, as they run against a TPM,
    refine the steps of `Cluster`: whatever fails on the way, the node's new state is one the
    corresponding step allows. The theorems of `Cluster` and `History` therefore hold of them. */
module Refinement {
  import opened Wrappers
  import opened Tpm
  import opened Fleet
  import opened Wire
  import opened Sealer
  import opened Kms
  import E = Enroll
  import C = Cluster

  /** `service` on this TPM is the abstract service `a`: built around the fleet slot with the
      SRK behind it, or around the SRK alone. */
  ghost predicate Serves(ctx: Context, service: KmsService, a: C.Service)
    reads ctx
  {
    var srk := if a.fleet && service.legacySealer.Some? then service.legacySealer.value.primary else service.sealer.primary;
    && srk.Transient? && ctx.ObjectAt(srk) == Some(SrkOf(ctx.seed))
    && (if a.fleet then service == FleetService(ctx.crypto, ctx.seed, a.key, srk.index)
        else service == KmsService(SrkSealer(ctx.crypto, ctx.seed, srk.index), None) && a.key == SrkOf(ctx.seed))
  }

  ghost predicate Represents(ctx: Context, service: Option<KmsService>, s: C.State, n: C.NodeId)
    reads ctx
  {
    && n in s.nodes && s.nodes[n].seed == ctx.seed && s.nodes[n].slot == ctx.slot
    && match (service, s.nodes[n].service)
       case (None, None) => true
       case (Some(concrete), Some(abstract_)) => Serves(ctx, concrete, abstract_)
       case _ => false
  }

  /** `sceau genesis`, also next to a running service on the same TPM. */
  method RunGenesis(ctx: Context, force: bool, ghost service: Option<KmsService>, ghost s: C.State, ghost n: C.NodeId)
    returns (r: Result<(), Error>, ghost t: C.State)
    requires ctx.Valid() && Represents(ctx, service, s, n)
    modifies ctx
    ensures ctx.Valid() && Represents(ctx, service, t, n)
    ensures C.Next(ctx.crypto, s, C.Genesis(n, force, ctx.slot, r.Ok?), t)
  {
    var created := CreateFleetKey(ctx, force);
    t := C.WithSlot(s, n, ctx.slot);
    r := if created.Err? then Err(created.error) else Ok(());
  }

  /** One served Duplicate request adds one reply, made from the key in this node's slot; a
      service running on the same TPM is left intact. */
  method ServeEnrol(seed: E.EnrollService, nodes: set<string>, request: E.DuplicateRequest,
                    ghost service: Option<KmsService>, ghost s: C.State, ghost n: C.NodeId)
    returns (r: Result<DuplicateResponse, E.Status>, ghost t: C.State)
    requires seed.Valid() && seed.fleetKey == FleetSlot && Represents(seed.ctx, service, s, n)
    modifies seed, seed.ctx`transients, seed.ctx`sessions, seed.ctx`next, seed.ctx`faults
    ensures seed.Valid() && Represents(seed.ctx, service, t, n)
    ensures r.Err? ==> t == s
    ensures r.Ok? ==>
              && Unmarshall(seed.ctx.crypto, request.joinerTransportPublic).Some?
              && C.Next(seed.ctx.crypto, s,
                        C.Enrol(n, Unmarshall(seed.ctx.crypto, request.joinerTransportPublic).value, r.value), t)
  {
    r := seed.Duplicate(nodes, request);
    if service.Some? {
      KeptByOthers(old(seed.ctx.transients), seed.ctx.transients, {old(seed.ctx.next)}, {}, SrkHandle(service.value).value.index);
    }
    t := s;
    if r.Ok? {
      var target := Unmarshall(seed.ctx.crypto, request.joinerTransportPublic).value;
      t := s.(replies := s.replies + {C.Reply(target, seed.ctx.slot.value, r.value)});
    }
  }

  /** The end of `sceau join`: decode the reply, import, persist. */
  method FinishJoin(ctx: Context, transport: Handle, response: DuplicateResponse,
                    ghost service: Option<KmsService>, ghost s: C.State, ghost n: C.NodeId, ghost reply: C.Reply)
    returns (r: Result<(), Error>, ghost t: C.State)
    requires ctx.Valid() && Represents(ctx, service, s, n)
    requires transport.Transient? && ctx.ObjectAt(transport) == Some(FleetKeyOf(ctx.seed))
    requires reply in s.replies && reply.response == response
    modifies ctx
    ensures ctx.Valid() && Represents(ctx, service, t, n)
    ensures Decode(ctx.crypto, response).Err? ==> r.Err? && t == s
    ensures Decode(ctx.crypto, response).Ok? ==> C.Next(ctx.crypto, s, C.Join(n, reply, ctx.slot, r.Ok?), t)
  {
    t := s;
    var blob := Decode(ctx.crypto, response);
    if blob.Err? { return Err(blob.error), t; }
    ghost var handles := if service.Some? then SrkHandle(service.value) else None;
    assert handles.Some? ==> handles.value != transport;
    var persisted := ImportAndPersist(ctx, transport, blob.value);
    t := C.WithSlot(s, n, ctx.slot);
    if handles.Some? {
      KeptByOthers(old(ctx.transients), ctx.transients, {old(ctx.next) + 1, transport.index}, {transport.index}, handles.value.index);
    }
    r := if persisted.Err? then Err(persisted.error) else Ok(());
  }

  /** The handle of the SRK a service keeps loaded. */
  function SrkHandle(service: KmsService): Option<Handle> {
    if service.legacySealer.Some? then Some(service.legacySealer.value.primary) else Some(service.sealer.primary)
  }

  lemma KeptByOthers(before: map<nat, Object>, after: map<nat, Object>, touched: set<nat>, gone: set<nat>, h: nat)
    requires after - touched == before - gone && h in before && h !in gone
    ensures h in after && after[h] == before[h]
  {
    assert h in before - gone && (before - gone)[h] == before[h];
    assert h in after - touched;
  }

  /** The start of `sceau serve`. */
  method StartServe(ctx: Context, forceLegacy: bool, ghost s: C.State, ghost n: C.NodeId)
    returns (r: Result<KmsService, Error>, ghost t: C.State)
    requires ctx.Valid() && Represents(ctx, None, s, n)
    modifies ctx`transients, ctx`next, ctx`faults
    ensures ctx.Valid()
    ensures r.Err? ==> t == s
    ensures r.Ok? ==>
              && Represents(ctx, Some(r.value), t, n)
              && C.Next(ctx.crypto, s, C.Serve(n, r.value.legacySealer.Some?), t)
    ensures ctx.faults == old(ctx.faults) ==> r.Ok? && (r.value.legacySealer.Some? <==> !forceLegacy && ctx.slot.Some?)
  {
    r := ChooseSealer(ctx, forceLegacy);
    t := s;
    if r.Ok? {
      var fleet := r.value.legacySealer.Some?;
      t := C.WithService(s, n, Some(C.Service(fleet, C.StartKey(s.nodes[n], fleet))));
    }
  }

  /** The end of `sceau serve`: its sealers are dropped. */
  method StopServe(ctx: Context, service: KmsService, ghost s: C.State, ghost n: C.NodeId) returns (ghost t: C.State)
    requires ctx.Valid() && Represents(ctx, Some(service), s, n)
    modifies ctx`transients, ctx`faults
    ensures ctx.Valid() && Represents(ctx, None, t, n) && C.Next(ctx.crypto, s, C.Stop(n), t)
    ensures ctx.transients - {SrkHandle(service).value.index} == old(ctx.transients) - {SrkHandle(service).value.index}
    ensures ctx.faults == old(ctx.faults) ==> ctx.transients == old(ctx.transients) - {SrkHandle(service).value.index}
  {
    Drop(ctx, service.sealer);
    if service.legacySealer.Some? { Drop(ctx, service.legacySealer.value); }
    t := C.WithService(s, n, None);
  }

  /** An Encrypt request of a running service. */
  method ServeEncrypt(ctx: Context, service: KmsService, plaintext: Bytes, ghost s: C.State, ghost n: C.NodeId)
    returns (r: Result<EncryptResponse, Kms.Status>, ghost t: C.State)
    requires ctx.Valid() && Represents(ctx, Some(service), s, n)
    modifies ctx`faults
    ensures ctx.Valid() && Represents(ctx, Some(service), t, n)
    ensures r.Err? ==> t == s
    ensures r.Ok? ==>
              && C.Next(ctx.crypto, s, C.Encrypt(n, plaintext, r.value.ciphertext), t)
              && C.Answered(ctx.crypto, n, s.nodes[n], plaintext, r.value.ciphertext).keyId == r.value.keyId
    ensures C.Inv(ctx.crypto, s) ==> r != Err(InternalError(Attributes))
    ensures C.Inv(ctx.crypto, s) && ctx.faults == old(ctx.faults) ==>
              (r.Ok? <==> C.SealingKey(s.nodes[n]).Some? && 1 <= |plaintext| <= 128)
  {
    r := Encrypt(ctx, service, plaintext);
    t := s;
    if r.Ok? {
      t := s.(records := s.records + {C.Answered(ctx.crypto, n, s.nodes[n], plaintext, r.value.ciphertext)});
    }
    if C.Inv(ctx.crypto, s) && ctx.ObjectAt(service.sealer.primary).Some? {
      SealerFollows(ctx, service, s, n);
    }
  }

  /** In every state a run can reach, a service creates children exactly as fixed as the key it
      seals under is, even if that is no longer the key it was started with. */
  lemma SealerFollows(ctx: Context, service: KmsService, s: C.State, n: C.NodeId)
    requires C.Inv(ctx.crypto, s) && Represents(ctx, Some(service), s, n)
    requires ctx.ObjectAt(service.sealer.primary).Some?
    ensures FollowsPrimary(ctx, service.sealer) && StorageKey(ctx.ObjectAt(service.sealer.primary).value.pub)
  {
  }

  /** A Status request reports the key the service was started with. */
  method ServeStatus(ctx: Context, service: KmsService, ghost s: C.State, ghost n: C.NodeId) returns (r: StatusResponse)
    requires Represents(ctx, Some(service), s, n)
    ensures r.keyId == KeyId(ctx.crypto, s.nodes[n].service.value.key.pub) == C.Preferred(ctx.crypto, s.nodes[n]).keyId
  {
    r := GetStatus(service);
  }

  /** `sceau status` prints the id a serve started in this state takes, if nothing fails; it
      does not disturb a service that is running. */
  method PrintStatus(ctx: Context, ghost service: Option<KmsService>, ghost s: C.State, ghost n: C.NodeId)
    returns (r: Result<(bool, string), Error>)
    requires ctx.Valid() && Represents(ctx, service, s, n)
    modifies ctx`transients, ctx`next, ctx`faults
    ensures ctx.Valid() && Represents(ctx, service, s, n)
    ensures ctx.faults == old(ctx.faults) ==> r.Ok? && r.value.0 == s.nodes[n].slot.Some?
    ensures r.Ok? ==>
              && (r.value.0 ==> s.nodes[n].slot.Some?)
              && r.value.1 == KeyId(ctx.crypto, C.StartKey(s.nodes[n], r.value.0).pub)
  {
    r := RunStatus(ctx);
    if service.Some? {
      KeptByOthers(old(ctx.transients), ctx.transients, {old(ctx.next)}, {}, SrkHandle(service.value).value.index);
    }
  }

  /** A Decrypt request answers what the abstract node answers; a failing command can only
      withhold the answer. */
  method ServeDecrypt(ctx: Context, service: KmsService, keyId: string, ciphertext: Bytes, ghost s: C.State, ghost n: C.NodeId)
    returns (r: Result<Bytes, Kms.Status>)
    requires ctx.Valid() && Represents(ctx, Some(service), s, n)
    modifies ctx`transients, ctx`sessions, ctx`next, ctx`faults
    ensures ctx.Valid() && Represents(ctx, Some(service), s, n)
    ensures r.Ok? ==> C.DecryptAt(ctx.crypto, s.nodes[n], keyId, ciphertext) == Some(r.value)
    ensures ctx.faults == old(ctx.faults) ==> (r.Ok? <==> C.DecryptAt(ctx.crypto, s.nodes[n], keyId, ciphertext).Some?)
  {
    r := Decrypt(ctx, service, keyId, ciphertext);
    KeptByOthers(old(ctx.transients), ctx.transients, {old(ctx.next)}, {}, SrkHandle(service).value.index);
  }
}
