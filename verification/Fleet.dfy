/** The fleet-key primitives of src/fleet.rs: genesis, the transport key, the seed's
    duplicate and the joiner's import, each a sequence of TPM commands any of which may
    fail. Every method says what it leaves in the persistent slot whatever failed. */
module Fleet {
  import opened Wrappers
  import opened Tpm

  /** The digest a session reaches through PolicyCommandCode(Duplicate) alone. */
  const DUPLICATE_POLICY: Policy := CommandCodeIs(Start, CcDuplicate)

  /** fixedTPM and fixedParent clear, so that the key can leave the TPM at all. */
  const DUPLICABLE_TEMPLATE: Public :=
    Public(RsaStorage, false, false, true, true, true, true, Some(DUPLICATE_POLICY), Blank)

  /** The key `create_primary` makes from that template on the TPM with this owner
      seed: the fleet key of its genesis and also its transport key. */
  function FleetKeyOf(seed: nat): Object {
    PrimaryObject(seed, DUPLICABLE_TEMPLATE)
  }

  datatype DuplicationBlob = DuplicationBlob(
    fleetKeyPublic: Public,
    duplicatePrivate: Bytes,
    encryptedSecret: Bytes,
    encryptionKey: Option<Bytes>)

  /** The key a TPM holding `parent` recovers from the blob. */
  function Imported(c: Crypto, parent: Option<Object>, blob: DuplicationBlob): Option<Object> {
    if parent.None? then None
    else match ImportResult(c, parent.value, blob.encryptionKey, blob.fleetKeyPublic,
                            blob.duplicatePrivate, blob.encryptedSecret)
      case Ok(key) => Some(key)
      case Err(_) => None
  }

  predicate Opens(parent: Object, target: Public) {
    StorageKey(parent.pub) && target.unique == ModulusOf(parent.sensitive)
  }

  /** Every storage key that owns `target` recovers `key` (public area and secret) from
      the blob, every other key recovers nothing, and the blob survives the wire. */
  ghost predicate Carries(c: Crypto, blob: DuplicationBlob, key: Object, target: Public) {
    && blob.fleetKeyPublic == key.pub
    && (forall parent: Object :: Imported(c, Some(parent), blob) == if Opens(parent, target) then Some(key) else None)
    && AcceptsPrivate(c, blob.duplicatePrivate) && AcceptsSecret(c, blob.encryptedSecret)
    && (blob.encryptionKey.Some? ==> AcceptsData(c, blob.encryptionKey.value))
  }

  /** What genesis may do to the slot, under every pattern of failing commands. */
  ghost predicate GenesisOutcome(seed: nat, force: bool, before: Option<Object>, after: Option<Object>, ok: bool) {
    && (!force && before.Some? ==> after == before)
    && (after == before || after == Some(FleetKeyOf(seed)) || (force && after == None))
    && (ok ==> after == if !force && before.Some? then before else Some(FleetKeyOf(seed)))
  }

  /** What a join may do to the slot, given the key its blob imports to. */
  ghost predicate JoinOutcome(imported: Option<Object>, before: Option<Object>, after: Option<Object>, ok: bool) {
    && (imported.None? ==> !ok && after == before)
    && (after == before || after == None || after == imported)
    && (ok ==> after == imported)
  }

  // ----- Sessions -----

  method StartSession(ctx: Context, kind: SessionKind) returns (r: Result<nat, Error>)
    requires ctx.Valid()
    modifies ctx`sessions, ctx`next, ctx`faults
    ensures ctx.Valid() && ctx.next == old(ctx.next) + 1
    ensures OnlyOthers(old(ctx.faults), ctx.faults)
    ensures r.Err? ==> r == Err(Fault)
    ensures r.Ok? <==> ctx.faults == old(ctx.faults)
    ensures r.Ok? ==> r.value == old(ctx.next)
                      && ctx.sessions == old(ctx.sessions)[r.value := Session(kind, Start, true, [])]
    ensures ctx.sessions - {old(ctx.next)} == old(ctx.sessions)
  {
    var session :- ctx.StartAuthSession(kind);
    var _ :- ctx.SessSetAttributes(session);
    return Ok(session);
  }

  /** The trial session is flushed again whenever nothing fails. */
  method DuplicationAuthPolicyDigest(ctx: Context) returns (r: Result<Policy, Error>)
    requires ctx.Valid()
    modifies ctx`sessions, ctx`next, ctx`faults
    ensures ctx.Valid() && ctx.next == old(ctx.next) + 1
    ensures r.Err? ==> r == Err(Fault)
    ensures r.Ok? <==> ctx.faults == old(ctx.faults)
    ensures OnlyOthers(old(ctx.faults), ctx.faults)
    ensures r.Ok? ==> r.value == DUPLICATE_POLICY && ctx.sessions == old(ctx.sessions)
    ensures ctx.sessions - {old(ctx.next)} == old(ctx.sessions)
  {
    var trial :- StartSession(ctx, Trial);
    var _ :- ctx.PolicyCommandCode(trial, CcDuplicate);
    var digest :- ctx.PolicyGetDigest(trial);
    var _ :- ctx.FlushSession(trial);
    return Ok(digest);
  }

  method DuplicableStoragePublic(ctx: Context) returns (r: Result<Public, Error>)
    requires ctx.Valid()
    modifies ctx`sessions, ctx`next, ctx`faults
    ensures ctx.Valid() && ctx.next == old(ctx.next) + 1
    ensures r.Err? ==> r == Err(Fault)
    ensures r.Ok? <==> ctx.faults == old(ctx.faults)
    ensures OnlyOthers(old(ctx.faults), ctx.faults)
    ensures r.Ok? ==> r.value == DUPLICABLE_TEMPLATE && ctx.sessions == old(ctx.sessions)
    ensures r.Ok? ==>
              && r.value.kind == RsaStorage && !r.value.fixedTpm && !r.value.fixedParent && r.value.sensitiveDataOrigin
              && r.value.userWithAuth && r.value.decrypt && r.value.restricted
              && r.value.authPolicy == Some(CommandCodeIs(Start, CcDuplicate))
    ensures ctx.sessions - {old(ctx.next)} == old(ctx.sessions)
  {
    var authPolicy :- DuplicationAuthPolicyDigest(ctx);
    return Ok(Public(RsaStorage, false, false, true, true, true, true, Some(authPolicy), Blank));
  }

  /** The policy session `duplicate_for_joiner` authorises with. */
  const FRESH_DUPLICATE_SESSION: Session := Session(PolicyAuth, DUPLICATE_POLICY, true, [])

  /** A policy session that no command has used yet and whose digest authorises
      TPM2_Duplicate on keys of `DUPLICABLE_TEMPLATE`. */
  method DuplicationAuthPolicySession(ctx: Context) returns (r: Result<nat, Error>)
    requires ctx.Valid()
    modifies ctx`sessions, ctx`next, ctx`faults
    ensures ctx.Valid() && ctx.next == old(ctx.next) + 1
    ensures OnlyOthers(old(ctx.faults), ctx.faults)
    ensures r.Err? ==> r == Err(Fault)
    ensures r.Ok? <==> ctx.faults == old(ctx.faults)
    ensures r.Ok? ==> r.value == old(ctx.next)
                      && ctx.sessions == old(ctx.sessions)[r.value := FRESH_DUPLICATE_SESSION]
    ensures ctx.sessions - {old(ctx.next)} == old(ctx.sessions)
  {
    var session :- StartSession(ctx, PolicyAuth);
    var _ :- ctx.PolicyCommandCode(session, CcDuplicate);
    return Ok(session);
  }

  // ----- The persistent slot -----

  method LoadFleetKey(ctx: Context) returns (r: Result<Handle, Error>)
    modifies ctx`faults
    ensures ctx.faults == if r == Err(Fault) then Failed(old(ctx.faults), CcTrFromTpmPublic) else old(ctx.faults)
    ensures r != Err(Fault) ==> r == if ctx.slot.Some? then Ok(FleetSlot) else Err(NoSuchHandle)
  {
    r := ctx.TrFromTpmPublic();
  }

  /** Ok does not mean the slot is empty: a probe that fails is taken for "nothing
      there". Without a fault the slot is empty afterwards. */
  method DeletePersistedFleetKey(ctx: Context) returns (r: Result<(), Error>)
    modifies ctx`slot, ctx`faults
    ensures Grew(old(ctx.faults), ctx.faults)
    ensures ctx.slot == None || ctx.slot == old(ctx.slot)
    ensures ctx.faults == old(ctx.faults) ==> r.Ok? && ctx.slot == None
    ensures r.Ok? && ctx.slot != None ==> ctx.faults.probes > old(ctx.faults).probes
    ensures r.Err? ==> r == Err(Fault) && ctx.faults.others > old(ctx.faults).others
  {
    var existing := LoadFleetKey(ctx);
    if existing.Err? { return Ok(()); }
    var _ :- ctx.EvictControl(existing.value);
    return Ok(());
  }

  /** Refused while the slot is occupied. */
  method Persist(ctx: Context, transient: Handle) returns (r: Result<Handle, Error>)
    modifies ctx`slot, ctx`faults
    ensures ctx.faults == if r == Err(Fault) then Failed(old(ctx.faults), CcEvictControl) else old(ctx.faults)
    ensures var e := EvictResult(old(ctx.slot), ctx.transients, transient);
            && (r.Ok? ==> r == Ok(FleetSlot) && e.Ok? && ctx.slot == e.value)
            && (r.Err? && r.error != Fault ==> e == Err(r.error) && ctx.slot == old(ctx.slot))
            && (r == Err(Fault) ==> ctx.slot == old(ctx.slot) || e == Ok(ctx.slot))
  {
    r := ctx.EvictControl(transient);
  }

  // ----- Genesis and the transport key -----

  /** Without `force` an occupied slot survives every failure pattern: either the probe
      finds the key, or the TPM refuses to persist over it. Nothing failing means success. */
  method CreateFleetKey(ctx: Context, force: bool) returns (r: Result<Handle, Error>)
    requires ctx.Valid()
    modifies ctx
    ensures ctx.Valid()
    ensures GenesisOutcome(ctx.seed, force, old(ctx.slot), ctx.slot, r.Ok?)
    ensures r.Ok? ==> r.value == FleetSlot && ctx.sessions == old(ctx.sessions)
    ensures ctx.faults == old(ctx.faults) ==> r.Ok?
    ensures r == Err(NvDefined) ==> ctx.faults.probes > old(ctx.faults).probes
    ensures ctx.transients == old(ctx.transients)
            || ctx.transients == old(ctx.transients)[old(ctx.next) + 1 := FleetKeyOf(ctx.seed)]
  {
    if force {
      var _ :- DeletePersistedFleetKey(ctx);
    } else {
      var existing := LoadFleetKey(ctx);
      if existing.Ok? { return existing; }
    }
    var pub :- DuplicableStoragePublic(ctx);
    var created :- ctx.CreatePrimary(pub);
    r := Persist(ctx, created);
  }

  method CreateTransportKey(ctx: Context) returns (r: Result<(Handle, Public), Error>)
    requires ctx.Valid()
    modifies ctx`transients, ctx`sessions, ctx`next, ctx`faults
    ensures ctx.Valid()
    ensures OnlyOthers(old(ctx.faults), ctx.faults)
    ensures r.Err? ==> r == Err(Fault)
    ensures r.Ok? <==> ctx.faults == old(ctx.faults)
    ensures r.Ok? ==>
              var (handle, pub) := r.value;
              && handle.Transient? && handle.index !in old(ctx.transients)
              && ctx.transients == old(ctx.transients)[handle.index := FleetKeyOf(ctx.seed)]
              && pub == FleetKeyOf(ctx.seed).pub && Opens(FleetKeyOf(ctx.seed), pub)
              && ctx.sessions == old(ctx.sessions)
  {
    var template :- DuplicableStoragePublic(ctx);
    var created :- ctx.CreatePrimary(template);
    var pub :- ctx.ReadPublic(created);
    return Ok((created, pub));
  }

  // ----- The seed's side -----

  /** The one command the policy session exists for, between its set-up and its flush. An
      outer error means one of those two failed. */
  method DuplicateUnderPolicy(ctx: Context, fleetKey: Handle, target: Handle)
    returns (r: Result<Result<Duplicated, Error>, Error>)
    requires ctx.Valid()
    modifies ctx`sessions, ctx`next, ctx`faults
    ensures ctx.Valid() && Grew(old(ctx.faults), ctx.faults)
    ensures r.Ok? ==> ctx.sessions == old(ctx.sessions)
                      && ctx.faults == old(ctx.faults).(duplicates := ctx.faults.duplicates)
    ensures r.Err? ==> ctx.faults.others > old(ctx.faults).others
    ensures r.Ok? && r.value.Ok? ==>
              && ctx.ObjectAt(fleetKey).Some? && ctx.ObjectAt(target).Some?
              && DuplicateRefusal(FRESH_DUPLICATE_SESSION, ctx.ObjectAt(fleetKey).value, ctx.ObjectAt(target).value) == None
              && Duplicates(ctx.crypto, r.value.value, ctx.ObjectAt(fleetKey).value, ctx.ObjectAt(target).value.pub)
    ensures r.Ok? && r.value.Err? && ctx.faults == old(ctx.faults) ==>
              || ctx.ObjectAt(fleetKey).None? || ctx.ObjectAt(target).None?
              || DuplicateRefusal(FRESH_DUPLICATE_SESSION, ctx.ObjectAt(fleetKey).value, ctx.ObjectAt(target).value) != None
  {
    var session :- DuplicationAuthPolicySession(ctx);
    var result := ctx.Duplicate(session, fleetKey, target);
    var _ :- ctx.FlushSession(session);
    assert ctx.sessions == old(ctx.sessions);
    return Ok(result);
  }

  /** Hands out the key in `fleetKey` for the owner of `joinerPublic` and for nobody
      else. The slot is untouched, and once the policy session is up and the flushes
      work, sessions and loaded objects are as before, duplicated or not. */
  method DuplicateForJoiner(ctx: Context, fleetKey: Handle, joinerPublic: Public)
    returns (r: Result<DuplicationBlob, Error>)
    requires ctx.Valid()
    modifies ctx`transients, ctx`sessions, ctx`next, ctx`faults
    ensures ctx.Valid()
    ensures r.Ok? ==> old(ctx.ObjectAt(fleetKey)).Some? && ctx.sessions == old(ctx.sessions)
    ensures r.Ok? ==> Carries(ctx.crypto, r.value, old(ctx.ObjectAt(fleetKey)).value, joinerPublic)
    ensures r.Ok? ==> r.value.encryptionKey.Some? && |r.value.encryptionKey.value| == 16
    ensures ctx.faults == old(ctx.faults).(duplicates := ctx.faults.duplicates) ==>
              ctx.sessions == old(ctx.sessions) && ctx.transients == old(ctx.transients)
    ensures ctx.faults == old(ctx.faults) ==>
              (r.Ok? <==> && old(ctx.ObjectAt(fleetKey)).Some?
                          && DuplicateRefusal(FRESH_DUPLICATE_SESSION, old(ctx.ObjectAt(fleetKey)).value,
                                              Object(joinerPublic, Absent)) == None)
    ensures ctx.transients == old(ctx.transients)
            || ctx.transients == old(ctx.transients)[old(ctx.next) := Object(joinerPublic, Absent)]
    ensures Grew(old(ctx.faults), ctx.faults)
  {
    var fleetKeyPublic :- ctx.ReadPublic(fleetKey);
    var external :- ctx.LoadExternal(None, joinerPublic);
    ghost var key := ctx.ObjectAt(fleetKey);
    assert key == old(ctx.ObjectAt(fleetKey));
    var result :- DuplicateUnderPolicy(ctx, fleetKey, external);
    var _ := ctx.FlushObject(external);
    var duplicated :- result;
    r := Ok(DuplicationBlob(fleetKeyPublic, duplicated.duplicate, duplicated.seed, Some(duplicated.innerKey)));
    BlobCarries(ctx.crypto, duplicated, key.value, joinerPublic, r.value);
  }

  lemma BlobCarries(c: Crypto, d: Duplicated, key: Object, target: Public, blob: DuplicationBlob)
    requires Sound(c) && Duplicates(c, d, key, target) && !key.pub.fixedTpm && !key.pub.fixedParent
    requires blob == DuplicationBlob(key.pub, d.duplicate, d.seed, Some(d.innerKey))
    ensures Carries(c, blob, key, target)
  {
  }

  // ----- The joiner's side -----

  /** The two commands that share the HMAC session: import the duplicate, then load it. */
  method ImportAndLoad(ctx: Context, session: nat, transport: Handle, blob: DuplicationBlob)
    returns (r: Result<Handle, Error>)
    requires ctx.Valid() && session in ctx.sessions
    modifies ctx`transients, ctx`sessions, ctx`next, ctx`faults
    ensures ctx.Valid() && ctx.next <= old(ctx.next) + 1
    ensures Grew(old(ctx.faults), ctx.faults)
    ensures ctx.sessions - {session} == old(ctx.sessions) - {session}
    ensures old(ctx.sessions)[session].continues ==> session in ctx.sessions
    ensures var imported := Imported(ctx.crypto, old(ctx.ObjectAt(transport)), blob);
            && (r.Ok? ==> imported.Some? && r.value == Transient(old(ctx.next))
                          && ctx.transients == old(ctx.transients)[old(ctx.next) := imported.value])
            && (r.Err? ==> r.error != NvDefined && ctx.transients - {old(ctx.next)} == old(ctx.transients))
            && (ctx.faults == old(ctx.faults) && old(ctx.sessions)[session] == Session(Hmac, Start, true, []) ==>
                  (r.Ok? <==> imported.Some?))
  {
    var private_ :- ctx.Import(session, transport, blob.encryptionKey, blob.fleetKeyPublic,
                               blob.duplicatePrivate, blob.encryptedSecret);
    r := ctx.Load(Some(session), transport, private_, blob.fleetKeyPublic);
  }

  /** Import and load between the session's start and its flush. An outer error means one of
      those two failed. */
  method ImportUnderSession(ctx: Context, transport: Handle, blob: DuplicationBlob)
    returns (r: Result<Result<Handle, Error>, Error>)
    requires ctx.Valid()
    modifies ctx`transients, ctx`sessions, ctx`next, ctx`faults
    ensures ctx.Valid() && Grew(old(ctx.faults), ctx.faults)
    ensures ctx.transients - {old(ctx.next) + 1} == old(ctx.transients)
    ensures r.Ok? ==> ctx.sessions == old(ctx.sessions)
    ensures r.Err? ==> r == Err(Fault) && ctx.faults != old(ctx.faults)
    ensures r.Ok? ==>
              var imported := Imported(ctx.crypto, old(ctx.ObjectAt(transport)), blob);
              && (r.value.Ok? ==> imported.Some? && r.value.value == Transient(old(ctx.next) + 1)
                                  && ctx.transients == old(ctx.transients)[old(ctx.next) + 1 := imported.value])
              && (r.value.Err? ==> r.value.error != NvDefined)
              && (ctx.faults == old(ctx.faults) ==> (r.value.Ok? <==> imported.Some?))
  {
    var session :- StartSession(ctx, Hmac);
    var result := ImportAndLoad(ctx, session, transport, blob);
    var _ :- ctx.FlushSession(session);
    assert ctx.sessions == old(ctx.sessions);
    return Ok(result);
  }

  /** Evict whatever is in the slot, then persist `transient` there. */
  method ReplaceFleetKey(ctx: Context, transient: Handle) returns (r: Result<Handle, Error>)
    requires transient.Transient? && transient.index in ctx.transients
    modifies ctx`slot, ctx`faults
    ensures Grew(old(ctx.faults), ctx.faults)
    ensures var key := ctx.transients[transient.index];
            && (ctx.slot == old(ctx.slot) || ctx.slot == None || ctx.slot == Some(key))
            && (r.Ok? ==> r.value == FleetSlot && ctx.slot == Some(key))
            && (ctx.faults == old(ctx.faults) ==> (r.Ok? <==> key.sensitive != Absent))
            && (r == Err(NvDefined) && key.sensitive != Absent ==> ctx.faults.probes > old(ctx.faults).probes)
  {
    var _ :- DeletePersistedFleetKey(ctx);
    r := Persist(ctx, transient);
  }

  /** Whatever fails, the slot ends with its old key, with nothing, or with the imported
      key, and it is not touched before that key has been loaded. When nothing fails an
      importable blob always ends up in the slot, whatever was there before. */
  method ImportAndPersist(ctx: Context, transport: Handle, blob: DuplicationBlob) returns (r: Result<Handle, Error>)
    requires ctx.Valid() && transport.Transient?
    modifies ctx
    ensures ctx.Valid()
    ensures JoinOutcome(Imported(ctx.crypto, old(ctx.ObjectAt(transport)), blob), old(ctx.slot), ctx.slot, r.Ok?)
    ensures var imported := Imported(ctx.crypto, old(ctx.ObjectAt(transport)), blob);
            && (ctx.slot != old(ctx.slot) ==>
                  old(ctx.next) + 1 in ctx.transients && Some(ctx.transients[old(ctx.next) + 1]) == imported)
            && (r.Ok? ==> imported.Some? && r.value == FleetSlot && ctx.sessions == old(ctx.sessions)
                          && ctx.transients == old(ctx.transients)[old(ctx.next) + 1 := imported.value] - {transport.index})
            && ctx.transients - {old(ctx.next) + 1, transport.index} == old(ctx.transients) - {transport.index}
            && (ctx.faults == old(ctx.faults) ==> (r.Ok? <==> imported.Some? && imported.value.sensitive != Absent))
            && (r == Err(NvDefined) && imported.Some? && imported.value.sensitive != Absent ==>
                  ctx.faults.probes > old(ctx.faults).probes)
  {
    var result :- ImportUnderSession(ctx, transport, blob);
    var fleetKey :- result;
    var persisted :- ReplaceFleetKey(ctx, fleetKey);
    var _ :- ctx.FlushObject(transport);
    return Ok(persisted);
  }
}
