/** The KMS v2 service (src/kms.rs) and the choice of its sealing key (src/main.rs). */
module Kms {
  import opened Wrappers
  import opened Tpm
  import opened Fleet
  import opened Envelope
  import opened Sealer

  datatype KmsService = KmsService(sealer: TpmSealer, legacySealer: Option<TpmSealer>)

  datatype StatusResponse = StatusResponse(version: string, healthz: string, keyId: string)
  datatype EncryptResponse = EncryptResponse(ciphertext: Bytes, keyId: string)
  datatype Status = InternalError(error: Error) | InvalidArgument(keyId: string)

  /** What a sealer amounts to for a caller: the id it answers to and the key its handle
      names at the moment. */
  datatype KeyView = KeyView(keyId: string, key: Option<Object>)

  function ViewOf(ctx: Context, sealer: TpmSealer): KeyView
    reads ctx
  {
    KeyView(sealer.keyId, ctx.ObjectAt(sealer.primary))
  }

  function LegacyView(ctx: Context, service: KmsService): Option<KeyView>
    reads ctx
  {
    match service.legacySealer case Some(s) => Some(ViewOf(ctx, s)) case None => None
  }

  /** Routing by key id: the preferred key first, then the legacy one; an id that matches
      is final, even when its key does not open the ciphertext. */
  function Routed(preferred: KeyView, legacy: Option<KeyView>, keyId: string): Option<Object> {
    if keyId == preferred.keyId then preferred.key
    else if legacy.Some? && keyId == legacy.value.keyId then legacy.value.key
    else None
  }

  function Answer(c: Crypto, preferred: KeyView, legacy: Option<KeyView>, keyId: string, ciphertext: Bytes): Option<Bytes> {
    Unsealed(c, Routed(preferred, legacy, keyId), ciphertext)
  }

  /** Whatever id is supplied and whoever sealed it: an answer to a ciphertext that was
      sealed to `key` is its plaintext. Key ids need not be distinct for this. */
  lemma AnswerIsPlaintext(c: Crypto, preferred: KeyView, legacy: Option<KeyView>, keyId: string,
                          ciphertext: Bytes, key: Object, plaintext: Bytes)
    requires SealedTo(c, ciphertext, key, plaintext)
    ensures Answer(c, preferred, legacy, keyId, ciphertext).Some? ==>
              Answer(c, preferred, legacy, keyId, ciphertext) == Some(plaintext)
  {
    var k := Routed(preferred, legacy, keyId);
    if k.Some? {
      assert Unsealed(c, Some(k.value), ciphertext).Some? ==> Unsealed(c, Some(k.value), ciphertext) == Some(plaintext);
    }
  }

  method GetStatus(service: KmsService) returns (r: StatusResponse)
    ensures r.keyId == service.sealer.keyId && r.version == "v2" && r.healthz == "ok"
  {
    return StatusResponse("v2", "ok", service.sealer.keyId);
  }

  /** The sealer creates children exactly as fixed as its primary is. */
  predicate FollowsPrimary(ctx: Context, sealer: TpmSealer)
    reads ctx
  {
    ctx.ObjectAt(sealer.primary).Some? && sealer.childFixed == ctx.ObjectAt(sealer.primary).value.pub.fixedTpm
  }

  /** New data is always sealed under the preferred key, and says so. */
  method Encrypt(ctx: Context, service: KmsService, plaintext: Bytes) returns (r: Result<EncryptResponse, Status>)
    requires ctx.Valid()
    modifies ctx`faults
    ensures ctx.Valid() && OnlyOthers(old(ctx.faults), ctx.faults)
    ensures r.Ok? ==>
              && r.value.keyId == service.sealer.keyId
              && ctx.ObjectAt(service.sealer.primary).Some?
              && SealedTo(ctx.crypto, r.value.ciphertext, ctx.ObjectAt(service.sealer.primary).value, plaintext)
              && EnvelopeDecode(ctx.crypto, r.value.ciphertext).Ok?
              && var pub := EnvelopeDecode(ctx.crypto, r.value.ciphertext).value.0;
                 pub.fixedTpm == pub.fixedParent == service.sealer.childFixed
    ensures ctx.faults == old(ctx.faults) ==>
              (r.Ok? <==> Sealable(ctx.ObjectAt(service.sealer.primary), service.sealer.childFixed, plaintext))
    ensures r == Err(InternalError(Attributes)) ==>
              ctx.ObjectAt(service.sealer.primary).Some? && !FollowsPrimary(ctx, service.sealer)
  {
    var sealed := Seal(ctx, service.sealer, plaintext);
    if sealed.Err? { return Err(InternalError(sealed.error)); }
    return Ok(EncryptResponse(sealed.value, service.sealer.keyId));
  }

  /** Never a wrong answer, and the right one whenever nothing fails. An object stays loaded
      without a failure exactly when the ciphertext loads to something else than sealed data. */
  method Decrypt(ctx: Context, service: KmsService, keyId: string, ciphertext: Bytes) returns (r: Result<Bytes, Status>)
    requires ctx.Valid()
    modifies ctx`transients, ctx`sessions, ctx`next, ctx`faults
    ensures ctx.Valid() && OnlyOthers(old(ctx.faults), ctx.faults) && ctx.sessions == old(ctx.sessions)
    ensures ctx.transients - {old(ctx.next)} == old(ctx.transients)
    ensures var answer := Answer(ctx.crypto, old(ViewOf(ctx, service.sealer)), old(LegacyView(ctx, service)), keyId, ciphertext);
            && (r.Ok? ==> answer == Some(r.value) && ctx.transients == old(ctx.transients))
            && (ctx.faults == old(ctx.faults) ==> (r.Ok? <==> answer.Some?))
    ensures ctx.faults == old(ctx.faults) ==>
              var loaded := Loads(ctx.crypto, Routed(old(ViewOf(ctx, service.sealer)), old(LegacyView(ctx, service)), keyId), ciphertext);
              ctx.transients == if Misloads(loaded) then old(ctx.transients)[old(ctx.next) := loaded.value] else old(ctx.transients)
    ensures r == Err(InvalidArgument(keyId)) <==>
              keyId != service.sealer.keyId
              && (service.legacySealer.Some? ==> keyId != service.legacySealer.value.keyId)
  {
    if keyId == service.sealer.keyId {
      var data := Unseal(ctx, service.sealer, ciphertext);
      return if data.Err? then Err(InternalError(data.error)) else Ok(data.value);
    }
    if service.legacySealer.Some? && keyId == service.legacySealer.value.keyId {
      var data := Unseal(ctx, service.legacySealer.value, ciphertext);
      return if data.Err? then Err(InternalError(data.error)) else Ok(data.value);
    }
    return Err(InvalidArgument(keyId));
  }

  // ----- Starting up -----

  /** The key a node with this slot is meant to serve under. */
  function ServeKey(seed: nat, slot: Option<Object>): Object {
    if slot.Some? then slot.value else SrkOf(seed)
  }

  /** A service around the fleet key `key`, with the SRK at `srk` for old ciphertexts. */
  function FleetService(c: Crypto, seed: nat, key: Object, srk: nat): KmsService {
    KmsService(TpmSealer(FleetSlot, KeyId(c, key.pub), key.pub.fixedTpm, false), Some(SrkSealer(c, seed, srk)))
  }

  function SrkSealer(c: Crypto, seed: nat, srk: nat): TpmSealer {
    TpmSealer(Transient(srk), KeyId(c, SrkOf(seed).pub), true, true)
  }

  /** The fleet key is preferred when the probe finds one, with the SRK as a Decrypt-only
      fallback; any probe failure falls back to the SRK alone. When nothing fails, the
      reported key id is that of `ServeKey`. */
  method BuildSealer(ctx: Context) returns (r: Result<KmsService, Error>)
    requires ctx.Valid()
    modifies ctx`transients, ctx`next, ctx`faults
    ensures ctx.Valid() && Grew(old(ctx.faults), ctx.faults)
    ensures ctx.faults == old(ctx.faults) ==>
              && r.Ok?
              && r.value.sealer.keyId == KeyId(ctx.crypto, ServeKey(ctx.seed, ctx.slot).pub)
              && r.value.legacySealer.Some? == ctx.slot.Some?
    ensures r.Ok? ==>
              && ctx.transients == old(ctx.transients)[old(ctx.next) := SrkOf(ctx.seed)]
              && (|| (ctx.slot.Some? && r.value == FleetService(ctx.crypto, ctx.seed, ctx.slot.value, old(ctx.next)))
                  || r.value == KmsService(SrkSealer(ctx.crypto, ctx.seed, old(ctx.next)), None))
    ensures r.Ok? ==> FollowsPrimary(ctx, r.value.sealer)
    ensures r.Ok? && r.value.legacySealer.None? && ctx.slot.Some? ==> ctx.faults.probes > old(ctx.faults).probes
  {
    var fleetKey := LoadFleetKey(ctx);
    if fleetKey.Ok? {
      var primary :- FromPrimary(ctx, fleetKey.value);
      var legacy :- New(ctx);
      return Ok(KmsService(primary, Some(legacy)));
    }
    var sealer :- New(ctx);
    return Ok(KmsService(sealer, None));
  }

  /** `--force-legacy` never looks for the fleet key. */
  method ChooseSealer(ctx: Context, forceLegacy: bool) returns (r: Result<KmsService, Error>)
    requires ctx.Valid()
    modifies ctx`transients, ctx`next, ctx`faults
    ensures ctx.Valid() && Grew(old(ctx.faults), ctx.faults)
    ensures r.Ok? ==>
              && ctx.transients == old(ctx.transients)[old(ctx.next) := SrkOf(ctx.seed)]
              && (|| (!forceLegacy && ctx.slot.Some?
                      && r.value == FleetService(ctx.crypto, ctx.seed, ctx.slot.value, old(ctx.next)))
                  || r.value == KmsService(SrkSealer(ctx.crypto, ctx.seed, old(ctx.next)), None))
    ensures ctx.faults == old(ctx.faults) ==> r.Ok? && (r.value.legacySealer.Some? <==> !forceLegacy && ctx.slot.Some?)
    ensures r.Ok? ==> FollowsPrimary(ctx, r.value.sealer)
  {
    if forceLegacy {
      var sealer :- New(ctx);
      return Ok(KmsService(sealer, None));
    }
    r := BuildSealer(ctx);
  }

  /** What `sceau status` prints. With nothing failing it is what a serve started now would
      report, and no object is left behind. */
  method RunStatus(ctx: Context) returns (r: Result<(bool, string), Error>)
    requires ctx.Valid()
    modifies ctx`transients, ctx`next, ctx`faults
    ensures ctx.Valid() && ctx.transients - {old(ctx.next)} == old(ctx.transients) && Grew(old(ctx.faults), ctx.faults)
    ensures ctx.faults == old(ctx.faults) ==>
              && r == Ok((ctx.slot.Some?, KeyId(ctx.crypto, ServeKey(ctx.seed, ctx.slot).pub)))
              && ctx.transients == old(ctx.transients)
    ensures r.Ok? ==>
              || (ctx.slot.Some? && r.value == (true, KeyId(ctx.crypto, ctx.slot.value.pub)))
              || r.value == (false, KeyId(ctx.crypto, SrkOf(ctx.seed).pub))
  {
    var fleetKey := LoadFleetKey(ctx);
    if fleetKey.Ok? {
      var sealer :- FromPrimary(ctx, fleetKey.value);
      r := Ok((true, sealer.keyId));
      Drop(ctx, sealer);
    } else {
      var sealer :- New(ctx);
      r := Ok((false, sealer.keyId));
      Drop(ctx, sealer);
      assert ctx.faults == old(ctx.faults) ==> ctx.transients == old(ctx.transients);
    }
  }
}
