/** A symbolic TPM 2.0. Keys, public areas, policy digests and wrapped blobs are
    values; what the cryptographic library does to bytes is the record `Crypto`.
    `Context` is the connection every sceau function drives, command by command. */
module Tpm {
  import opened Wrappers

  newtype byte = x: int | 0 <= x < 256
  type Bytes = seq<byte>

  datatype Command =
    | CcCreatePrimary | CcReadPublic | CcTrFromTpmPublic | CcEvictControl
    | CcStartAuthSession | CcSessSetAttributes | CcPolicyCommandCode | CcPolicyGetDigest
    | CcFlushContext | CcLoadExternal | CcDuplicate | CcImport | CcLoad | CcCreate | CcUnseal

  datatype Error =
    | Fault                // the command failed for no reason visible in the TPM's state
    | NoSuchHandle
    | NvDefined            // TPM_RC_NV_DEFINED: the persistent handle is occupied
    | AuthType             // TPM_RC_AUTH_TYPE
    | PolicyFail           // TPM_RC_POLICY_FAIL
    | Attributes           // TPM_RC_ATTRIBUTES
    | EmptyData            // TPM_RC_ATTRIBUTES raised by an empty sensitive buffer
    | WrongType            // TPM_RC_TYPE
    | Integrity            // TPM_RC_INTEGRITY
    | FlushPersistent      // TPM_RC 0x1c4: a persistent handle cannot be flushed
    | NoSessionHandle
    | PlaintextTooLarge(size: nat)
    | MalformedEnvelope
    | BadMarshalling

  // ----- Objects -----

  /** A policy session's digest, as the chain of policy commands that extend it. */
  datatype Policy = Start | CommandCodeIs(prior: Policy, code: Command)

  /** RSA-2048/AES-128-CFB storage keys and keyed-hash sealed data are the only two
      kinds of object sceau asks for. */
  datatype Kind = RsaStorage | SealedData

  datatype Unique = Blank | ModulusOf(sensitive: Sensitive) | SealedUnder(salt: Bytes)

  datatype Public = Public(
    kind: Kind,
    fixedTpm: bool,
    fixedParent: bool,
    sensitiveDataOrigin: bool,
    userWithAuth: bool,
    decrypt: bool,
    restricted: bool,
    authPolicy: Option<Policy>,
    unique: Unique)

  /** The secret half. A primary key's is a function of the owner seed and the
      template (TPM 2.0 Library Part 3, section 24.1). */
  datatype Sensitive = OwnerPrimary(seed: nat, template: Public) | SealedBytes(data: Bytes) | Absent

  datatype Object = Object(pub: Public, sensitive: Sensitive)

  function PrimaryObject(seed: nat, template: Public): Object {
    var secret := OwnerPrimary(seed, template);
    Object(template.(unique := ModulusOf(secret)), secret)
  }

  predicate StorageKey(pub: Public) {
    pub.kind == RsaStorage && pub.restricted && pub.decrypt
  }

  // ----- Bytes -----

  /** What a wrapped private buffer protects: a child of `parent`, or an object in
      transit behind an inner symmetric key and an outer seed. */
  datatype Wrapped =
    | Child(parent: Sensitive, obj: Object)
    | Transit(innerKey: Bytes, outerSeed: nat, obj: Object)

  datatype SeedFor = SeedFor(opener: Sensitive, outerSeed: nat)

  /** The TPM's cryptography and the client library's marshalling. */
  datatype Crypto = Crypto(
    wrap: Wrapped -> Bytes,
    unwrap: Bytes -> Option<Wrapped>,
    protect: SeedFor -> Bytes,
    open: Bytes -> Option<SeedFor>,
    marshall: Public -> Bytes,
    unmarshall: Bytes -> Option<Public>,
    acceptsPrivate: Bytes -> bool,
    acceptsSecret: Bytes -> bool,
    acceptsData: Bytes -> bool,
    name: Public -> Bytes,
    sha256: Bytes -> Bytes)

  const INNER_KEY_BYTES: nat := 16
  const DIGEST_BYTES: nat := 32

  function Wrap(c: Crypto, w: Wrapped): Bytes { c.wrap(w) }
  function Unwrap(c: Crypto, b: Bytes): Option<Wrapped> { c.unwrap(b) }
  function Protect(c: Crypto, s: SeedFor): Bytes { c.protect(s) }
  function Open(c: Crypto, b: Bytes): Option<SeedFor> { c.open(b) }
  function Marshall(c: Crypto, p: Public): Bytes { c.marshall(p) }
  function Unmarshall(c: Crypto, b: Bytes): Option<Public> { c.unmarshall(b) }
  predicate AcceptsPrivate(c: Crypto, b: Bytes) { c.acceptsPrivate(b) }
  predicate AcceptsSecret(c: Crypto, b: Bytes) { c.acceptsSecret(b) }
  predicate AcceptsData(c: Crypto, b: Bytes) { c.acceptsData(b) }
  function NameOf(c: Crypto, p: Public): Bytes { c.name(p) }
  function Sha256(c: Crypto, b: Bytes): Bytes { c.sha256(b) }

  /** The template of a sealed-data object as `TPM2_Create` fills it in. */
  function SealedArea(fixed: bool, salt: Bytes): Public {
    Public(SealedData, fixed, fixed, false, true, false, false, None, SealedUnder(salt))
  }

  /** All that is asked of the library: what it wrote it reads back, a digest has its
      length, and a sealed object's public area fits the envelope's 16-bit length.
      Nothing is said about bytes it did not write. */
  ghost predicate Sound(c: Crypto) {
    && (forall w :: Unwrap(c, Wrap(c, w)) == Some(w) && AcceptsPrivate(c, Wrap(c, w)))
    && (forall s :: Open(c, Protect(c, s)) == Some(s) && AcceptsSecret(c, Protect(c, s)))
    && (forall p :: Unmarshall(c, Marshall(c, p)) == Some(p))
    && (forall k | |k| == INNER_KEY_BYTES :: AcceptsData(c, k))
    && (forall b :: |Sha256(c, b)| == DIGEST_BYTES)
    && (forall fixed, salt | |salt| == DIGEST_BYTES :: |Marshall(c, SealedArea(fixed, salt))| < 0x1_0000)
  }

  lemma ReadsBack(c: Crypto, w: Wrapped)
    requires Sound(c)
    ensures Unwrap(c, Wrap(c, w)) == Some(w) && AcceptsPrivate(c, Wrap(c, w))
  {
  }

  /** The object TPM2_Load yields under `parent`, if it accepts the pair. */
  function LoadResult(c: Crypto, parent: Object, priv: Bytes, pub: Public): Result<Object, Error> {
    if !StorageKey(parent.pub) then Err(WrongType)
    else match Unwrap(c, priv)
      case Some(Child(secret, obj)) =>
        if secret == parent.sensitive && obj.pub == pub then Ok(obj) else Err(Integrity)
      case _ => Err(Integrity)
  }

  /** The object TPM2_Import recovers under `parent`, if it accepts the duplicate. */
  function ImportResult(c: Crypto, parent: Object, innerKey: Option<Bytes>, pub: Public, duplicate: Bytes, seed: Bytes)
    : Result<Object, Error>
  {
    if !StorageKey(parent.pub) then Err(WrongType)
    else if pub.fixedTpm || pub.fixedParent then Err(Attributes)
    else match (Unwrap(c, duplicate), Open(c, seed))
      case (Some(Transit(inner, outer, obj)), Some(SeedFor(opener, outer'))) =>
        if innerKey == Some(inner) && outer == outer' && opener == parent.sensitive && obj.pub == pub
        then Ok(obj) else Err(Integrity)
      case _ => Err(Integrity)
  }

  // ----- Sessions -----

  datatype SessionKind = Hmac | PolicyAuth | Trial

  /** `uses` are the commands the session has been attached to. Without
      `continues` the TPM drops it after the first. */
  datatype Session = Session(kind: SessionKind, policy: Policy, continues: bool, uses: seq<Command>)

  function AfterUse(sessions: map<nat, Session>, s: nat, cc: Command): map<nat, Session>
    requires s in sessions
  {
    if sessions[s].continues then sessions[s := sessions[s].(uses := sessions[s].uses + [cc])]
    else sessions - {s}
  }

  /** TPM2_Duplicate wants ADMIN authorisation on the object: a policy session whose
      digest is the object's authPolicy, limited to this command and attached to no
      other one before it (src/fleet.rs:329-341). */
  function DuplicateRefusal(session: Session, obj: Object, target: Object): Option<Error> {
    if session.kind != PolicyAuth then Some(AuthType)
    else if obj.pub.fixedTpm || obj.pub.fixedParent then Some(Attributes)
    else if obj.sensitive == Absent || !StorageKey(target.pub) || !target.pub.unique.ModulusOf? then Some(WrongType)
    else if obj.pub.authPolicy != Some(session.policy) || session.uses != [] then Some(PolicyFail)
    else if session.policy.Start? || session.policy.code != CcDuplicate then Some(PolicyFail)
    else None
  }

  // ----- The device -----

  datatype Handle = Transient(index: nat) | FleetSlot

  datatype Duplicated = Duplicated(innerKey: Bytes, duplicate: Bytes, seed: Bytes)

  /** What TPM2_EvictControl at the fleet key's handle does to the slot. */
  function EvictResult(slot: Option<Object>, transients: map<nat, Object>, h: Handle): Result<Option<Object>, Error> {
    match h
    case FleetSlot => if slot.None? then Err(NoSuchHandle) else Ok(None)
    case Transient(i) =>
      if i !in transients then Err(NoSuchHandle)
      else if transients[i].sensitive == Absent then Err(Attributes)
      else if slot.Some? then Err(NvDefined)
      else Ok(Some(transients[i]))
  }

  /** TPM2_Create of a sealed-data object: fixedTPM has to be exactly "fixed to the
      parent, which is itself fixed to the TPM", and the data must not be empty. */
  function CreateRefusal(parent: Object, template: Public, data: Bytes): Option<Error> {
    if !StorageKey(parent.pub) then Some(WrongType)
    else if template.fixedTpm != (template.fixedParent && parent.pub.fixedTpm) then Some(Attributes)
    else if data == [] then Some(EmptyData)
    else None
  }

  /** How many commands have failed spuriously: probes for the fleet key, duplicates,
      everything else. Two equal tallies mean that nothing failed in between. */
  datatype Tally = Tally(probes: nat, duplicates: nat, others: nat)

  function Failed(t: Tally, cc: Command): Tally {
    match cc
    case CcTrFromTpmPublic => t.(probes := t.probes + 1)
    case CcDuplicate => t.(duplicates := t.duplicates + 1)
    case _ => t.(others := t.others + 1)
  }

  /** Neither a probe nor a duplicate failed. */
  predicate OnlyOthers(before: Tally, after: Tally) {
    after == before.(others := after.others) && before.others <= after.others
  }

  predicate Grew(before: Tally, after: Tally) {
    before.probes <= after.probes && before.duplicates <= after.duplicates && before.others <= after.others
  }

  class Context {
    const seed: nat
    const crypto: Crypto
    var slot: Option<Object>           // the persistent object at 0x81020001
    var transients: map<nat, Object>
    var sessions: map<nat, Session>
    var next: nat                      // handles are never reused
    ghost var faults: Tally            // commands that failed so far

    ghost predicate Valid()
      reads this
    {
      && Sound(crypto)
      && (forall h :: h in transients ==> h < next)
      && (forall s :: s in sessions ==> s < next)
    }

    function ObjectAt(h: Handle): Option<Object>
      reads this
    {
      match h
      case FleetSlot => slot
      case Transient(i) => if i in transients then Some(transients[i]) else None
    }

    constructor (seed: nat, crypto: Crypto)
      requires Sound(crypto)
      ensures Valid() && this.seed == seed && this.crypto == crypto
      ensures slot == None && transients == map[] && sessions == map[] && faults == Tally(0, 0, 0)
    {
      this.seed, this.crypto := seed, crypto;
      slot, transients, sessions, next, faults := None, map[], map[], 0, Tally(0, 0, 0);
    }

    /** Any command may fail, before or after it took effect. */
    method Glitch(cc: Command) returns (b: bool)
      modifies this`faults
      ensures faults == if b then Failed(old(faults), cc) else old(faults)
    {
      b := *;
      if b { faults := Failed(faults, cc); }
    }

    /** The TPM's random number generator: any buffer of that length. */
    method RandomBytes(n: nat) returns (b: Bytes)
      ensures |b| == n
    {
      assert |seq<byte>(n, _ => 0)| == n;
      b :| |b| == n;
    }

    method CreatePrimary(template: Public) returns (r: Result<Handle, Error>)
      requires Valid()
      modifies this`transients, this`next, this`faults
      ensures Valid() && next == old(next) + 1
      ensures faults == if r.Err? then Failed(old(faults), CcCreatePrimary) else old(faults)
      ensures r == Err(Fault) || r == Ok(Transient(old(next)))
      ensures var made := old(transients)[old(next) := PrimaryObject(seed, template)];
              transients == made || (r.Err? && transients == old(transients))
    {
      next := next + 1;
      var early := Glitch(CcCreatePrimary);
      if early { return Err(Fault); }
      transients := transients[next - 1 := PrimaryObject(seed, template)];
      var late := Glitch(CcCreatePrimary);
      return if late then Err(Fault) else Ok(Transient(next - 1));
    }

    method ReadPublic(h: Handle) returns (r: Result<Public, Error>)
      modifies this`faults
      ensures faults == if r == Err(Fault) then Failed(old(faults), CcReadPublic) else old(faults)
      ensures r != Err(Fault) ==> r == match ObjectAt(h) case Some(o) => Ok(o.pub) case None => Err(NoSuchHandle)
    {
      var glitch := Glitch(CcReadPublic);
      if glitch { return Err(Fault); }
      return match ObjectAt(h) case Some(o) => Ok(o.pub) case None => Err(NoSuchHandle);
    }

    /** tr_from_tpm_public on the fleet key's persistent handle. */
    method TrFromTpmPublic() returns (r: Result<Handle, Error>)
      modifies this`faults
      ensures faults == if r == Err(Fault) then Failed(old(faults), CcTrFromTpmPublic) else old(faults)
      ensures r != Err(Fault) ==> r == if slot.Some? then Ok(FleetSlot) else Err(NoSuchHandle)
    {
      var glitch := Glitch(CcTrFromTpmPublic);
      if glitch { return Err(Fault); }
      return if slot.Some? then Ok(FleetSlot) else Err(NoSuchHandle);
    }

    method EvictControl(h: Handle) returns (r: Result<Handle, Error>)
      modifies this`slot, this`faults
      ensures faults == if r == Err(Fault) then Failed(old(faults), CcEvictControl) else old(faults)
      ensures var e := EvictResult(old(slot), transients, h);
              && (r.Ok? ==> r == Ok(FleetSlot) && e.Ok? && slot == e.value)
              && (r.Err? && r.error != Fault ==> e == Err(r.error) && slot == old(slot))
              && (r == Err(Fault) ==> slot == old(slot) || e == Ok(slot))
    {
      var early := Glitch(CcEvictControl);
      if early { return Err(Fault); }
      var e := EvictResult(slot, transients, h);
      if e.Err? { return Err(e.error); }
      slot := e.value;
      var late := Glitch(CcEvictControl);
      return if late then Err(Fault) else Ok(FleetSlot);
    }

    method StartAuthSession(kind: SessionKind) returns (r: Result<nat, Error>)
      requires Valid()
      modifies this`sessions, this`next, this`faults
      ensures Valid() && next == old(next) + 1
      ensures faults == if r.Err? then Failed(old(faults), CcStartAuthSession) else old(faults)
      ensures r == Err(Fault) || r == Ok(old(next))
      ensures var started := old(sessions)[old(next) := Session(kind, Start, false, [])];
              sessions == started || (r.Err? && sessions == old(sessions))
    {
      next := next + 1;
      var early := Glitch(CcStartAuthSession);
      if early { return Err(Fault); }
      sessions := sessions[next - 1 := Session(kind, Start, false, [])];
      var late := Glitch(CcStartAuthSession);
      return if late then Err(Fault) else Ok(next - 1);
    }

    /** Sets continueSession; the parameter-encryption bits change nothing here. */
    method SessSetAttributes(s: nat) returns (r: Result<(), Error>)
      requires Valid() && s in sessions
      modifies this`sessions, this`faults
      ensures Valid()
      ensures faults == if r.Err? then Failed(old(faults), CcSessSetAttributes) else old(faults)
      ensures r == Ok(()) || r == Err(Fault)
      ensures var set' := old(sessions)[s := old(sessions)[s].(continues := true)];
              sessions == set' || (r.Err? && sessions == old(sessions))
    {
      var early := Glitch(CcSessSetAttributes);
      if early { return Err(Fault); }
      sessions := sessions[s := sessions[s].(continues := true)];
      var late := Glitch(CcSessSetAttributes);
      return if late then Err(Fault) else Ok(());
    }

    method PolicyCommandCode(s: nat, code: Command) returns (r: Result<(), Error>)
      requires Valid() && s in sessions
      modifies this`sessions, this`faults
      ensures Valid()
      ensures faults == if r == Err(Fault) then Failed(old(faults), CcPolicyCommandCode) else old(faults)
      ensures var was := old(sessions)[s];
              var extended := old(sessions)[s := was.(policy := CommandCodeIs(was.policy, code))];
              && (r.Ok? ==> was.kind != Hmac && sessions == extended)
              && (r.Err? && r.error != Fault ==> r.error == NoSessionHandle && was.kind == Hmac && sessions == old(sessions))
              && (r == Err(Fault) ==> sessions == old(sessions) || sessions == extended)
    {
      if sessions[s].kind == Hmac { return Err(NoSessionHandle); }
      var early := Glitch(CcPolicyCommandCode);
      if early { return Err(Fault); }
      sessions := sessions[s := sessions[s].(policy := CommandCodeIs(sessions[s].policy, code))];
      var late := Glitch(CcPolicyCommandCode);
      return if late then Err(Fault) else Ok(());
    }

    method PolicyGetDigest(s: nat) returns (r: Result<Policy, Error>)
      requires s in sessions
      modifies this`faults
      ensures faults == if r.Err? then Failed(old(faults), CcPolicyGetDigest) else old(faults)
      ensures r == Err(Fault) || r == Ok(sessions[s].policy)
    {
      var glitch := Glitch(CcPolicyGetDigest);
      return if glitch then Err(Fault) else Ok(sessions[s].policy);
    }

    method FlushSession(s: nat) returns (r: Result<(), Error>)
      requires Valid()
      modifies this`sessions, this`faults
      ensures Valid()
      ensures faults == if r == Err(Fault) then Failed(old(faults), CcFlushContext) else old(faults)
      ensures r.Ok? ==> s in old(sessions) && sessions == old(sessions) - {s}
      ensures r.Err? && r.error != Fault ==> r.error == NoSuchHandle && s !in old(sessions) && sessions == old(sessions)
      ensures r == Err(Fault) ==> sessions == old(sessions) || sessions == old(sessions) - {s}
    {
      var early := Glitch(CcFlushContext);
      if early { return Err(Fault); }
      if s !in sessions { return Err(NoSuchHandle); }
      sessions := sessions - {s};
      var late := Glitch(CcFlushContext);
      return if late then Err(Fault) else Ok(());
    }

    method FlushObject(h: Handle) returns (r: Result<(), Error>)
      requires Valid()
      modifies this`transients, this`faults
      ensures Valid()
      ensures faults == if r == Err(Fault) then Failed(old(faults), CcFlushContext) else old(faults)
      ensures r.Ok? ==> h.Transient? && h.index in old(transients) && transients == old(transients) - {h.index}
      ensures r == Err(FlushPersistent) <==> r.Err? && r.error != Fault && h.FleetSlot?
      ensures r == Err(NoSuchHandle) <==> r.Err? && r.error != Fault && h.Transient?
      ensures r == Err(NoSuchHandle) ==> h.index !in old(transients)
      ensures r.Err? && r.error != Fault ==> transients == old(transients)
      ensures r == Err(Fault) ==> transients == old(transients) || (h.Transient? && transients == old(transients) - {h.index})
    {
      var early := Glitch(CcFlushContext);
      if early { return Err(Fault); }
      if h.FleetSlot? { return Err(FlushPersistent); }
      if h.index !in transients { return Err(NoSuchHandle); }
      transients := transients - {h.index};
      var late := Glitch(CcFlushContext);
      return if late then Err(Fault) else Ok(());
    }

    /** Loads a public area with no private half. An attached session counts as used. */
    method LoadExternal(session: Option<nat>, pub: Public) returns (r: Result<Handle, Error>)
      requires Valid() && (session.Some? ==> session.value in sessions)
      modifies this`transients, this`sessions, this`next, this`faults
      ensures Valid() && next == old(next) + 1
      ensures faults == if r.Err? then Failed(old(faults), CcLoadExternal) else old(faults)
      ensures r == Err(Fault) || r == Ok(Transient(old(next)))
      ensures var loaded := old(transients)[old(next) := Object(pub, Absent)];
              transients == loaded || (r.Err? && transients == old(transients))
      ensures session.None? ==> sessions == old(sessions)
      ensures session.Some? && r.Ok? ==> sessions == AfterUse(old(sessions), session.value, CcLoadExternal)
    {
      next := next + 1;
      var early := Glitch(CcLoadExternal);
      if early { return Err(Fault); }
      transients := transients[next - 1 := Object(pub, Absent)];
      if session.Some? { sessions := AfterUse(sessions, session.value, CcLoadExternal); }
      var late := Glitch(CcLoadExternal);
      return if late then Err(Fault) else Ok(Transient(next - 1));
    }

    /** On success the three buffers import under exactly the parents whose secret
        the target's public area belongs to, and give back the object. */
    method Duplicate(s: nat, h: Handle, target: Handle) returns (r: Result<Duplicated, Error>)
      requires Valid() && s in sessions
      modifies this`sessions, this`faults
      ensures Valid()
      ensures faults == if r == Err(Fault) then Failed(old(faults), CcDuplicate) else old(faults)
      ensures sessions == old(sessions) || sessions == AfterUse(old(sessions), s, CcDuplicate)
      ensures r.Err? && r.error != Fault ==>
                || ObjectAt(h).None? || ObjectAt(target).None?
                || DuplicateRefusal(old(sessions)[s], ObjectAt(h).value, ObjectAt(target).value) == Some(r.error)
      ensures r.Ok? ==>
                && ObjectAt(h).Some? && ObjectAt(target).Some?
                && DuplicateRefusal(old(sessions)[s], ObjectAt(h).value, ObjectAt(target).value) == None
                && Duplicates(crypto, r.value, ObjectAt(h).value, ObjectAt(target).value.pub)
    {
      var early := Glitch(CcDuplicate);
      if early { return Err(Fault); }
      if ObjectAt(h).None? || ObjectAt(target).None? { return Err(NoSuchHandle); }
      var obj, parent := ObjectAt(h).value, ObjectAt(target).value;
      var refusal := DuplicateRefusal(sessions[s], obj, parent);
      if refusal.Some? { return Err(refusal.value); }
      sessions := AfterUse(sessions, s, CcDuplicate);
      var late := Glitch(CcDuplicate);
      if late { return Err(Fault); }
      var outer: nat := *;
      var inner: Bytes := RandomBytes(INNER_KEY_BYTES);
      ReadsBack(crypto, Transit(inner, outer, obj));
      return Ok(Duplicated(inner, Wrap(crypto, Transit(inner, outer, obj)),
                           Protect(crypto, SeedFor(parent.pub.unique.sensitive, outer))));
    }

    method Import(s: nat, parent: Handle, innerKey: Option<Bytes>, pub: Public, duplicate: Bytes, seed: Bytes)
      returns (r: Result<Bytes, Error>)
      requires Valid() && s in sessions
      modifies this`sessions, this`faults
      ensures Valid()
      ensures faults == if r == Err(Fault) then Failed(old(faults), CcImport) else old(faults)
      ensures sessions == old(sessions) || sessions == AfterUse(old(sessions), s, CcImport)
      ensures r.Ok? ==> ObjectAt(parent).Some? && sessions == AfterUse(old(sessions), s, CcImport)
      ensures r.Ok? ==>
                var imported := ImportResult(crypto, ObjectAt(parent).value, innerKey, pub, duplicate, seed);
                imported.Ok? && LoadResult(crypto, ObjectAt(parent).value, r.value, pub) == imported
      ensures r.Err? && r.error != Fault ==>
                || (ObjectAt(parent).None? && r.error == NoSuchHandle)
                || (old(sessions)[s].kind != Hmac && r.error == AuthType)
                || (ObjectAt(parent).Some?
                    && ImportResult(crypto, ObjectAt(parent).value, innerKey, pub, duplicate, seed) == Err(r.error))
    {
      var early := Glitch(CcImport);
      if early { return Err(Fault); }
      if ObjectAt(parent).None? { return Err(NoSuchHandle); }
      if sessions[s].kind != Hmac { return Err(AuthType); }
      var imported := ImportResult(crypto, ObjectAt(parent).value, innerKey, pub, duplicate, seed);
      if imported.Err? { return Err(imported.error); }
      sessions := AfterUse(sessions, s, CcImport);
      var late := Glitch(CcImport);
      return if late then Err(Fault) else Ok(Wrap(crypto, Child(ObjectAt(parent).value.sensitive, imported.value)));
    }

    /** `session` is None inside a null-authorisation bracket. */
    method Load(session: Option<nat>, parent: Handle, priv: Bytes, pub: Public) returns (r: Result<Handle, Error>)
      requires Valid()
      modifies this`transients, this`sessions, this`next, this`faults
      ensures Valid() && next == old(next) + 1
      ensures faults == if r == Err(Fault) then Failed(old(faults), CcLoad) else old(faults)
      ensures session.None? ==> sessions == old(sessions)
      ensures session.Some? && session.value in old(sessions) ==>
                sessions == old(sessions) || sessions == AfterUse(old(sessions), session.value, CcLoad)
      ensures session.Some? && session.value !in old(sessions) ==> r.Err? && sessions == old(sessions)
      ensures r.Ok? ==>
                && old(ObjectAt(parent)).Some? && r.value == Transient(old(next))
                && var loaded := LoadResult(crypto, old(ObjectAt(parent)).value, priv, pub);
                   loaded.Ok? && transients == old(transients)[old(next) := loaded.value]
      ensures r.Err? && r.error != Fault ==>
                && transients == old(transients)
                && (|| (session.Some? && session.value !in old(sessions) && r.error == NoSuchHandle)
                    || (session.Some? && session.value in old(sessions) && old(sessions)[session.value].kind != Hmac
                        && r.error == AuthType)
                    || (old(ObjectAt(parent)).None? && r.error == NoSuchHandle)
                    || (old(ObjectAt(parent)).Some?
                        && LoadResult(crypto, old(ObjectAt(parent)).value, priv, pub) == Err(r.error)))
      ensures r == Err(Fault) && transients != old(transients) ==>
                (&& old(ObjectAt(parent)).Some?
                 && var loaded := LoadResult(crypto, old(ObjectAt(parent)).value, priv, pub);
                    loaded.Ok? && transients == old(transients)[old(next) := loaded.value])
    {
      next := next + 1;
      var early := Glitch(CcLoad);
      if early { return Err(Fault); }
      if session.Some? && session.value !in sessions { return Err(NoSuchHandle); }
      if session.Some? && sessions[session.value].kind != Hmac { return Err(AuthType); }
      if ObjectAt(parent).None? { return Err(NoSuchHandle); }
      var loaded := LoadResult(crypto, ObjectAt(parent).value, priv, pub);
      if loaded.Err? { return Err(loaded.error); }
      transients := transients[next - 1 := loaded.value];
      if session.Some? { sessions := AfterUse(sessions, session.value, CcLoad); }
      var late := Glitch(CcLoad);
      return if late then Err(Fault) else Ok(Transient(next - 1));
    }

    /** TPM2_Create of a sealed-data object; nothing is loaded. */
    method Create(parent: Handle, template: Public, data: Bytes) returns (r: Result<(Bytes, Public), Error>)
      requires Valid()
      modifies this`faults
      ensures Valid()
      ensures faults == if r == Err(Fault) then Failed(old(faults), CcCreate) else old(faults)
      ensures r.Err? && r.error != Fault ==>
                if ObjectAt(parent).None? then r.error == NoSuchHandle
                else CreateRefusal(ObjectAt(parent).value, template, data) == Some(r.error)
      ensures r.Ok? ==>
                && ObjectAt(parent).Some? && CreateRefusal(ObjectAt(parent).value, template, data) == None
                && SealedChild(crypto, r.value.0, r.value.1, ObjectAt(parent).value.sensitive, template, data)
    {
      var early := Glitch(CcCreate);
      if early { return Err(Fault); }
      if ObjectAt(parent).None? { return Err(NoSuchHandle); }
      var refusal := CreateRefusal(ObjectAt(parent).value, template, data);
      if refusal.Some? { return Err(refusal.value); }
      var late := Glitch(CcCreate);
      if late { return Err(Fault); }
      var salt := RandomBytes(DIGEST_BYTES);
      var pub := template.(unique := SealedUnder(salt));
      return Ok((Wrap(crypto, Child(ObjectAt(parent).value.sensitive, Object(pub, SealedBytes(data)))), pub));
    }

    method Unseal(h: Handle) returns (r: Result<Bytes, Error>)
      modifies this`faults
      ensures faults == if r == Err(Fault) then Failed(old(faults), CcUnseal) else old(faults)
      ensures r != Err(Fault) ==> r == match ObjectAt(h)
                                       case Some(Object(_, SealedBytes(data))) => Ok(data)
                                       case Some(_) => Err(WrongType)
                                       case None => Err(NoSuchHandle)
    {
      var glitch := Glitch(CcUnseal);
      if glitch { return Err(Fault); }
      return match ObjectAt(h)
        case Some(Object(_, SealedBytes(data))) => Ok(data)
        case Some(_) => Err(WrongType)
        case None => Err(NoSuchHandle);
    }
  }

  /** The buffers `d` carry `object` to the holder of the secret behind `target`, and
      to nobody else; the client library accepts all three on the way in. */
  ghost predicate Duplicates(c: Crypto, d: Duplicated, obj: Object, target: Public) {
    && target.unique.ModulusOf?
    && |d.innerKey| == INNER_KEY_BYTES
    && Unwrap(c, d.duplicate).Some? && Unwrap(c, d.duplicate).value.Transit? && AcceptsPrivate(c, d.duplicate)
    && Unwrap(c, d.duplicate).value.innerKey == d.innerKey && Unwrap(c, d.duplicate).value.obj == obj
    && Open(c, d.seed) == Some(SeedFor(target.unique.sensitive, Unwrap(c, d.duplicate).value.outerSeed))
    && AcceptsSecret(c, d.seed)
  }

  /** `priv` and `pub` are the two halves of a child of `parent` holding `data`. */
  ghost predicate SealedChild(c: Crypto, priv: Bytes, pub: Public, parent: Sensitive, template: Public, data: Bytes) {
    && pub.unique.SealedUnder? && |pub.unique.salt| == DIGEST_BYTES && pub == template.(unique := pub.unique)
    && Unwrap(c, priv) == Some(Child(parent, Object(pub, SealedBytes(data)))) && AcceptsPrivate(c, priv)
  }
}
