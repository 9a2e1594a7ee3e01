/** The ciphertext envelope of src/tpm.rs:252-292:
    version(1) || public_len(u16 BE) || public || private. */
module Envelope {
  import opened Wrappers
  import opened Tpm

  const ENVELOPE_VERSION: byte := 1

  /** The envelope as bytes. The length is cut to 16 bits, as `as u16` does. */
  function Framed(pub: Bytes, priv: Bytes): Bytes {
    var len := |pub| % 0x1_0000;
    [ENVELOPE_VERSION, (len / 0x100) as byte, (len % 0x100) as byte] + pub + priv
  }

  /** The byte-level half of `envelope_decode`. */
  function Split(ciphertext: Bytes): Option<(Bytes, Bytes)> {
    if |ciphertext| < 3 || ciphertext[0] != ENVELOPE_VERSION then None
    else
      var publicLen := ciphertext[1] as nat * 0x100 + ciphertext[2] as nat;
      if |ciphertext| < 3 + publicLen then None
      else Some((ciphertext[3..3 + publicLen], ciphertext[3 + publicLen..]))
  }

  method EnvelopeEncode(c: Crypto, pub: Public, priv: Bytes) returns (out: Bytes)
    ensures out == Framed(Marshall(c, pub), priv)
    ensures var area := Marshall(c, pub);
            && |out| == 3 + |area| + |priv| && out[0] == 1
            && out[1] as nat * 0x100 + out[2] as nat == |area| % 0x1_0000
            && out[3..3 + |area|] == area && out[3 + |area|..] == priv
  {
    FramedParts(Marshall(c, pub), priv);
    var publicBytes := Marshall(c, pub);
    var len := |publicBytes| % 0x1_0000;
    out := [];
    out := out + [ENVELOPE_VERSION];
    out := out + [(len / 0x100) as byte, (len % 0x100) as byte];
    out := out + publicBytes;
    out := out + priv;
  }

  function EnvelopeDecode(c: Crypto, ciphertext: Bytes): Result<(Public, Bytes), Error> {
    match Split(ciphertext)
    case None => Err(MalformedEnvelope)
    case Some((pub, priv)) =>
      if Unmarshall(c, pub).None? || !AcceptsPrivate(c, priv) then Err(MalformedEnvelope)
      else Ok((Unmarshall(c, pub).value, priv))
  }

  lemma FramedParts(pub: Bytes, priv: Bytes)
    ensures var f := Framed(pub, priv);
            && |f| == 3 + |pub| + |priv| && f[3..3 + |pub|] == pub && f[3 + |pub|..] == priv
            && f[0] == 1 && f[1] as nat * 0x100 + f[2] as nat == |pub| % 0x1_0000
  {
    var f, len := Framed(pub, priv), |pub| % 0x1_0000;
    assert f[1] as nat == len / 0x100 && f[2] as nat == len % 0x100;
    assert f[3..] == pub + priv;
  }

  /** Splitting gives back both parts exactly when the length fits its 16 bits. */
  lemma SplitUndoesFramed(pub: Bytes, priv: Bytes)
    ensures Split(Framed(pub, priv)) == Some((pub, priv)) <==> |pub| < 0x1_0000
  {
    FramedParts(pub, priv);
    if |pub| >= 0x1_0000 && Split(Framed(pub, priv)).Some? {
      assert |Split(Framed(pub, priv)).value.0| == |pub| % 0x1_0000;
    }
  }

  lemma BigEndian(hi: byte, lo: byte, n: nat)
    requires n == hi as nat * 0x100 + lo as nat
    ensures n < 0x1_0000 && n / 0x100 == hi as nat && n % 0x100 == lo as nat
  {
  }

  /** Every accepted input is the frame of its two parts. */
  lemma FramedUndoesSplit(ciphertext: Bytes)
    requires Split(ciphertext).Some?
    ensures var (pub, priv) := Split(ciphertext).value; Framed(pub, priv) == ciphertext
  {
    var (pub, priv) := Split(ciphertext).value;
    BigEndian(ciphertext[1], ciphertext[2], |pub|);
    assert ciphertext == ciphertext[..3] + pub + priv;
    assert ciphertext[..3] == [ciphertext[0], ciphertext[1], ciphertext[2]];
  }

  /** Accepted exactly: at least three bytes, the first of them 1, the public area within the
      length they give, and two parts the client library takes. */
  lemma DecodeAccepts(c: Crypto, ciphertext: Bytes)
    ensures EnvelopeDecode(c, ciphertext).Ok? <==>
              && |ciphertext| >= 3 && ciphertext[0] == 1
              && var end := 3 + 256 * ciphertext[1] as nat + ciphertext[2] as nat;
                 end <= |ciphertext| && Unmarshall(c, ciphertext[3..end]).Some? && AcceptsPrivate(c, ciphertext[end..])
    ensures EnvelopeDecode(c, ciphertext).Err? ==> EnvelopeDecode(c, ciphertext) == Err(MalformedEnvelope)
    ensures EnvelopeDecode(c, ciphertext).Ok? ==>
              var end := 3 + 256 * ciphertext[1] as nat + ciphertext[2] as nat;
              && Some(EnvelopeDecode(c, ciphertext).value.0) == Unmarshall(c, ciphertext[3..end])
              && EnvelopeDecode(c, ciphertext).value.1 == ciphertext[end..]
  {
  }

  /** A cut envelope is rejected as long as the public part is incomplete; beyond that
      the private part is what has been cut. */
  lemma SplitOfPrefix(pub: Bytes, priv: Bytes, n: nat)
    requires |pub| < 0x1_0000 && n <= 3 + |pub| + |priv|
    ensures n <= |Framed(pub, priv)|
    ensures Split(Framed(pub, priv)[..n])
         == if n < 3 + |pub| then None else Some((pub, priv[..n - 3 - |pub|]))
  {
    FramedParts(pub, priv);
    var f := Framed(pub, priv);
    if n >= 3 + |pub| {
      assert f[..n][3..3 + |pub|] == f[3..3 + |pub|];
      assert f[..n][3 + |pub|..] == f[3 + |pub|..][..n - 3 - |pub|];
    }
  }
}

/** Sealing under a primary key (src/tpm.rs): the per-node SRK or the fleet key. */
module Sealer {
  import opened Wrappers
  import opened Tpm
  import opened Envelope

  const MAX_SEAL_DATA: nat := 128

  const SRK_TEMPLATE: Public := Public(RsaStorage, true, true, true, true, true, true, None, Blank)

  /** The storage root key this TPM re-creates on every start. */
  function SrkOf(seed: nat): Object {
    PrimaryObject(seed, SRK_TEMPLATE)
  }

  function HexDigit(n: nat): char
    requires n < 16
  {
    if n < 10 then '0' + n as char else 'a' + (n - 10) as char
  }

  lemma HexDigitInjective(m: nat, n: nat)
    requires m < 16 && n < 16 && HexDigit(m) == HexDigit(n)
    ensures m == n
  {
  }

  function Hex(b: Bytes): (s: string)
    ensures |s| == 2 * |b|
  {
    if b == [] then [] else [HexDigit(b[0] as nat / 16), HexDigit(b[0] as nat % 16)] + Hex(b[1..])
  }

  /** `sceau-` and the first 16 hex digits of the name's hash. Two keys may share it. */
  function KeyId(c: Crypto, pub: Public): string {
    var digits := Hex(Sha256(c, NameOf(c, pub)));
    "sceau-" + if |digits| < 16 then digits else digits[..16]
  }

  lemma HexDigitTable(n: nat)
    requires n < 16
    ensures HexDigit(n) == "0123456789abcdef"[n]
  {
  }

  lemma {:induction false} HexAt(b: Bytes, i: nat)
    requires i < |b|
    ensures Hex(b)[2 * i] == "0123456789abcdef"[b[i] as nat / 16]
    ensures Hex(b)[2 * i + 1] == "0123456789abcdef"[b[i] as nat % 16]
  {
    if i == 0 {
      HexDigitTable(b[0] as nat / 16);
      HexDigitTable(b[0] as nat % 16);
    } else {
      HexAt(b[1..], i - 1);
      assert Hex(b)[2..] == Hex(b[1..]);
      assert Hex(b)[2 * i] == Hex(b)[2..][2 * i - 2] && Hex(b)[2 * i + 1] == Hex(b)[2..][2 * i - 1];
    }
  }

  /** The digits of a key id: the first eight bytes of the name's hash in lower-case
      hexadecimal, high nibble first. */
  lemma KeyIdDigits(c: Crypto, p: Public, i: nat)
    requires Sound(c) && i < 8
    ensures |KeyId(c, p)| == 22 && KeyId(c, p)[..6] == "sceau-"
    ensures KeyId(c, p)[6 + 2 * i] == "0123456789abcdef"[Sha256(c, NameOf(c, p))[i] as nat / 16]
    ensures KeyId(c, p)[7 + 2 * i] == "0123456789abcdef"[Sha256(c, NameOf(c, p))[i] as nat % 16]
  {
    HexAt(Sha256(c, NameOf(c, p)), i);
  }

  lemma {:induction false} HexInjective(a: Bytes, b: Bytes)
    requires |a| == |b| && Hex(a) == Hex(b)
    ensures a == b
  {
    if a != [] {
      var x, y := Hex(a), Hex(b);
      assert x[2..] == Hex(a[1..]) && y[2..] == Hex(b[1..]);
      HexInjective(a[1..], b[1..]);
      assert x[0] == y[0] && x[1] == y[1];
      HexDigitInjective(a[0] as nat / 16, b[0] as nat / 16);
      HexDigitInjective(a[0] as nat % 16, b[0] as nat % 16);
      assert a == [a[0]] + a[1..] && b == [b[0]] + b[1..];
    }
  }

  lemma {:induction false} HexPrefix(b: Bytes, n: nat)
    requires n <= |b|
    ensures Hex(b)[..2 * n] == Hex(b[..n])
  {
    if n > 0 {
      HexPrefix(b[1..], n - 1);
      assert b[..n][1..] == b[1..][..n - 1];
      assert Hex(b)[..2 * n] == Hex(b)[..2] + Hex(b[1..])[..2 * (n - 1)];
    }
  }

  /** Key ids have one shape, and two keys share one exactly when the hashes of their names
      agree in the first eight bytes. */
  lemma KeyIdsCollide(c: Crypto, p: Public, q: Public)
    requires Sound(c)
    ensures |KeyId(c, p)| == 22 && "sceau-" < KeyId(c, p)
    ensures KeyId(c, p) == KeyId(c, q) <==> Sha256(c, NameOf(c, p))[..8] == Sha256(c, NameOf(c, q))[..8]
  {
    var a, b := Sha256(c, NameOf(c, p)), Sha256(c, NameOf(c, q));
    HexPrefix(a, 8);
    HexPrefix(b, 8);
    assert KeyId(c, p)[6..] == Hex(a[..8]) && KeyId(c, q)[6..] == Hex(b[..8]);
    if Hex(a[..8]) == Hex(b[..8]) { HexInjective(a[..8], b[..8]); }
  }

  datatype TpmSealer = TpmSealer(primary: Handle, keyId: string, childFixed: bool, ownsTransientPrimary: bool)

  /** What the envelope opens to under `parent`, if anything. */
  function Unsealed(c: Crypto, parent: Option<Object>, ciphertext: Bytes): Option<Bytes> {
    if parent.None? then None
    else match EnvelopeDecode(c, ciphertext)
      case Err(_) => None
      case Ok((pub, priv)) =>
        match LoadResult(c, parent.value, priv, pub)
        case Ok(Object(_, SealedBytes(data))) => Some(data)
        case _ => None
  }

  /** Every storage key with the secret of `key` opens the envelope to `plaintext`; no
      other key opens it at all. */
  ghost predicate SealedTo(c: Crypto, ciphertext: Bytes, key: Object, plaintext: Bytes) {
    forall parent: Object :: Unsealed(c, Some(parent), ciphertext)
      == if StorageKey(parent.pub) && parent.sensitive == key.sensitive then Some(plaintext) else None
  }

  lemma EncodedIsSealed(c: Crypto, priv: Bytes, pub: Public, key: Object, fixed: bool, plaintext: Bytes)
    requires Sound(c) && SealedChild(c, priv, pub, key.sensitive, SealedArea(fixed, []), plaintext)
    ensures var ciphertext := Framed(Marshall(c, pub), priv);
            SealedTo(c, ciphertext, key, plaintext) && EnvelopeDecode(c, ciphertext) == Ok((pub, priv))
  {
    assert pub == SealedArea(fixed, pub.unique.salt);
    SplitUndoesFramed(Marshall(c, pub), priv);
  }

  method New(ctx: Context) returns (r: Result<TpmSealer, Error>)
    requires ctx.Valid()
    modifies ctx`transients, ctx`next, ctx`faults
    ensures ctx.Valid() && OnlyOthers(old(ctx.faults), ctx.faults) && ctx.next == old(ctx.next) + 1
    ensures r.Ok? <==> ctx.faults == old(ctx.faults)
    ensures r.Ok? ==>
              && r.value == TpmSealer(Transient(old(ctx.next)), KeyId(ctx.crypto, SrkOf(ctx.seed).pub), true, true)
              && ctx.transients == old(ctx.transients)[old(ctx.next) := SrkOf(ctx.seed)]
    ensures r.Ok? ==>
              var srk := ctx.transients[old(ctx.next)].pub;
              && srk.kind == RsaStorage && srk.fixedTpm && srk.fixedParent && srk.sensitiveDataOrigin
              && srk.userWithAuth && srk.decrypt && srk.restricted && srk.authPolicy == None
    ensures r.Err? ==> ctx.transients == old(ctx.transients)
                       || ctx.transients == old(ctx.transients)[old(ctx.next) := SrkOf(ctx.seed)]
  {
    var primary :- ctx.CreatePrimary(SRK_TEMPLATE);
    var pub :- ctx.ReadPublic(primary);
    return Ok(TpmSealer(primary, KeyId(ctx.crypto, pub), pub.fixedTpm, true));
  }

  method FromPrimary(ctx: Context, primary: Handle) returns (r: Result<TpmSealer, Error>)
    modifies ctx`faults
    ensures OnlyOthers(old(ctx.faults), ctx.faults)
    ensures ctx.faults == old(ctx.faults) ==> (r.Ok? <==> ctx.ObjectAt(primary).Some?)
    ensures r.Ok? ==>
              && ctx.faults == old(ctx.faults) && ctx.ObjectAt(primary).Some?
              && r.value == TpmSealer(primary, KeyId(ctx.crypto, ctx.ObjectAt(primary).value.pub),
                                      ctx.ObjectAt(primary).value.pub.fixedTpm, false)
  {
    var pub :- ctx.ReadPublic(primary);
    return Ok(TpmSealer(primary, KeyId(ctx.crypto, pub), pub.fixedTpm, false));
  }

  /** A sealer whose attribute follows its primary is refused for the plaintext only. */
  predicate Sealable(key: Option<Object>, childFixed: bool, plaintext: Bytes) {
    && key.Some? && StorageKey(key.value.pub) && (childFixed ==> key.value.pub.fixedTpm)
    && 1 <= |plaintext| <= MAX_SEAL_DATA
  }

  /** The envelope opens under the sealing primary's secret only, and its object is fixed
      to the TPM exactly as the primary is. */
  method Seal(ctx: Context, sealer: TpmSealer, plaintext: Bytes) returns (r: Result<Bytes, Error>)
    requires ctx.Valid()
    modifies ctx`faults
    ensures ctx.Valid() && OnlyOthers(old(ctx.faults), ctx.faults)
    ensures |plaintext| > 128 ==> r == Err(PlaintextTooLarge(|plaintext|)) && ctx.faults == old(ctx.faults)
    ensures r.Ok? ==> 1 <= |plaintext| <= 128 && |r.value| >= 3 && r.value[0] == 1
    ensures ctx.faults == old(ctx.faults) ==>
              (r.Ok? <==> Sealable(ctx.ObjectAt(sealer.primary), sealer.childFixed, plaintext))
    ensures r == Err(Attributes) ==>
              ctx.ObjectAt(sealer.primary).Some? && sealer.childFixed && !ctx.ObjectAt(sealer.primary).value.pub.fixedTpm
    ensures r.Ok? ==>
              && Sealable(ctx.ObjectAt(sealer.primary), sealer.childFixed, plaintext)
              && SealedTo(ctx.crypto, r.value, ctx.ObjectAt(sealer.primary).value, plaintext)
              && EnvelopeDecode(ctx.crypto, r.value).Ok?
              && var pub := EnvelopeDecode(ctx.crypto, r.value).value.0;
                 && pub.fixedTpm == pub.fixedParent == sealer.childFixed
                 && pub.kind == SealedData && pub.userWithAuth && !pub.sensitiveDataOrigin
                 && !pub.decrypt && !pub.restricted && pub.authPolicy == None
  {
    if |plaintext| > MAX_SEAL_DATA { return Err(PlaintextTooLarge(|plaintext|)); }
    var created :- ctx.Create(sealer.primary, SealedArea(sealer.childFixed, []), plaintext);
    EncodedIsSealed(ctx.crypto, created.0, created.1, ctx.ObjectAt(sealer.primary).value, sealer.childFixed, plaintext);
    var envelope := EnvelopeEncode(ctx.crypto, created.1, created.0);
    return Ok(envelope);
  }

  /** The object the envelope loads to under `parent`, sealed data or not. */
  function Loads(c: Crypto, parent: Option<Object>, ciphertext: Bytes): Option<Object> {
    match EnvelopeDecode(c, ciphertext)
    case Ok((pub, priv)) =>
      if parent.Some? && LoadResult(c, parent.value, priv, pub).Ok? then Some(LoadResult(c, parent.value, priv, pub).value)
      else None
    case Err(_) => None
  }

  /** The envelope loads to something that is not sealed data. */
  predicate Misloads(loaded: Option<Object>) {
    loaded.Some? && !loaded.value.sensitive.SealedBytes?
  }

  /** Success is the envelope's content under the primary. When nothing fails the loaded
      object is flushed again, except one that loads but is not sealed data: there the
      failing TPM2_Unseal returns before the flush. */
  method Unseal(ctx: Context, sealer: TpmSealer, ciphertext: Bytes) returns (r: Result<Bytes, Error>)
    requires ctx.Valid()
    modifies ctx`transients, ctx`sessions, ctx`next, ctx`faults
    ensures ctx.Valid() && OnlyOthers(old(ctx.faults), ctx.faults) && ctx.sessions == old(ctx.sessions)
    ensures r.Ok? ==> Some(r.value) == Unsealed(ctx.crypto, old(ctx.ObjectAt(sealer.primary)), ciphertext)
                      && ctx.transients == old(ctx.transients)
    ensures ctx.transients - {old(ctx.next)} == old(ctx.transients)
    ensures ctx.next == old(ctx.next) + if EnvelopeDecode(ctx.crypto, ciphertext).Ok? then 1 else 0
    ensures EnvelopeDecode(ctx.crypto, ciphertext).Err? ==>
              r == Err(MalformedEnvelope) && ctx.faults == old(ctx.faults) && ctx.transients == old(ctx.transients)
    ensures ctx.faults == old(ctx.faults) ==>
              var key := old(ctx.ObjectAt(sealer.primary));
              && (r.Ok? <==> Unsealed(ctx.crypto, key, ciphertext).Some?)
              && var loaded := Loads(ctx.crypto, key, ciphertext);
                 ctx.transients == if Misloads(loaded) then old(ctx.transients)[old(ctx.next) := loaded.value] else old(ctx.transients)
  {
    var decoded :- EnvelopeDecode(ctx.crypto, ciphertext);
    var handle :- ctx.Load(None, sealer.primary, decoded.1, decoded.0);
    var data :- ctx.Unseal(handle);
    var _ :- ctx.FlushObject(handle);
    assert ctx.transients == old(ctx.transients);
    return Ok(data);
  }

  /** Frees the primary this sealer created; never touches a persistent one. */
  method Drop(ctx: Context, sealer: TpmSealer)
    requires ctx.Valid()
    modifies ctx`transients, ctx`faults
    ensures ctx.Valid() && OnlyOthers(old(ctx.faults), ctx.faults)
    ensures ctx.transients == old(ctx.transients)
            || (sealer.ownsTransientPrimary && sealer.primary.Transient?
                && ctx.transients == old(ctx.transients) - {sealer.primary.index})
    ensures ctx.faults == old(ctx.faults) && sealer.ownsTransientPrimary && sealer.primary.Transient? ==>
              ctx.transients == old(ctx.transients) - {sealer.primary.index}
  {
    if !sealer.ownsTransientPrimary { return; }
    var _ := ctx.FlushObject(sealer.primary);
  }
}
