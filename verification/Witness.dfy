/** The one assumption of the model is satisfiable: there is a `Crypto` that is `Sound`. Every
    value is written in a prefix-free code and read back by looking for the value written. */
module Witness {
  import opened Wrappers
  import opened Tpm

  function Nat(n: nat): Bytes {
    if n == 0 then [0] else [1] + Nat(n - 1)
  }

  lemma Cut(a: Bytes, b: Bytes, u: Bytes, v: Bytes)
    requires a + u == b + v && |a| == |b|
    ensures a == b && u == v
  {
    assert (a + u)[..|a|] == a && (b + v)[..|b|] == b && (a + u)[|a|..] == u && (b + v)[|b|..] == v;
  }

  lemma {:induction false} NatPrefix(a: nat, b: nat, u: Bytes, v: Bytes)
    requires Nat(a) + u == Nat(b) + v
    ensures a == b && u == v
  {
    assert (Nat(a) + u)[0] == (Nat(b) + v)[0];
    if a == 0 {
      assert (Nat(a) + u)[1..] == u && (Nat(b) + v)[1..] == v;
    } else {
      assert (Nat(a) + u)[1..] == Nat(a - 1) + u && (Nat(b) + v)[1..] == Nat(b - 1) + v;
      NatPrefix(a - 1, b - 1, u, v);
    }
  }

  function Buffer(b: Bytes): Bytes {
    Nat(|b|) + b
  }

  lemma BufferPrefix(a: Bytes, b: Bytes, u: Bytes, v: Bytes)
    requires Buffer(a) + u == Buffer(b) + v
    ensures a == b && u == v
  {
    assert Nat(|a|) + (a + u) == Buffer(a) + u && Nat(|b|) + (b + v) == Buffer(b) + v;
    NatPrefix(|a|, |b|, a + u, b + v);
    assert (a + u)[..|a|] == a && (b + v)[..|b|] == b && (a + u)[|a|..] == u && (b + v)[|b|..] == v;
  }

  function Code(cc: Command): byte {
    match cc
    case CcCreatePrimary => 0 case CcReadPublic => 1 case CcTrFromTpmPublic => 2 case CcEvictControl => 3
    case CcStartAuthSession => 4 case CcSessSetAttributes => 5 case CcPolicyCommandCode => 6 case CcPolicyGetDigest => 7
    case CcFlushContext => 8 case CcLoadExternal => 9 case CcDuplicate => 10 case CcImport => 11 case CcLoad => 12
    case CcCreate => 13 case CcUnseal => 14
  }

  lemma CodeInjective(a: Command, b: Command)
    ensures Code(a) == Code(b) ==> a == b
    ensures Code(a) < 15
  {
  }

  function PolicyCode(p: Policy): Bytes {
    match p
    case Start => [15]
    case CommandCodeIs(prior, code) => [Code(code)] + PolicyCode(prior)
  }

  lemma {:induction false} PolicyPrefix(a: Policy, b: Policy, u: Bytes, v: Bytes)
    requires PolicyCode(a) + u == PolicyCode(b) + v
    ensures a == b && u == v
  {
    var x, y := PolicyCode(a), PolicyCode(b);
    assert x + u == [x[0]] + (x[1..] + u) && y + v == [y[0]] + (y[1..] + v);
    Cut([x[0]], [y[0]], x[1..] + u, y[1..] + v);
    assert x[0] == y[0];
    if a.Start? || b.Start? {
      assert [] + u == u && [] + v == v;
    } else {
      CodeInjective(a.code, b.code);
      assert x[1..] == PolicyCode(a.prior) && y[1..] == PolicyCode(b.prior);
      PolicyPrefix(a.prior, b.prior, u, v);
    }
  }

  function Bit(b: bool): byte { if b then 1 else 0 }

  /** Kind, attributes and the presence of a policy, one byte each. */
  function Flags(p: Public): Bytes {
    [Bit(p.kind == RsaStorage), Bit(p.fixedTpm), Bit(p.fixedParent), Bit(p.sensitiveDataOrigin), Bit(p.userWithAuth),
     Bit(p.decrypt), Bit(p.restricted), Bit(p.authPolicy.Some?)]
  }

  function MaybePolicy(p: Option<Policy>): Bytes {
    if p.Some? then PolicyCode(p.value) else []
  }

  function PublicCode(p: Public): Bytes {
    Flags(p) + (MaybePolicy(p.authPolicy) + UniqueCode(p.unique))
  }

  function UniqueCode(unique: Unique): Bytes {
    match unique
    case Blank => [0]
    case ModulusOf(sensitive) => [1] + SensitiveCode(sensitive)
    case SealedUnder(salt) => [2] + Buffer(salt)
  }

  function SensitiveCode(s: Sensitive): Bytes {
    match s
    case OwnerPrimary(seed, template) => [0] + (Nat(seed) + PublicCode(template))
    case SealedBytes(data) => [1] + Buffer(data)
    case Absent => [2]
  }

  lemma {:induction false} PublicPrefix(a: Public, b: Public, u: Bytes, v: Bytes)
    requires PublicCode(a) + u == PublicCode(b) + v
    ensures a == b && u == v
    decreases a, 0
  {
    var ua, ub := UniqueCode(a.unique) + u, UniqueCode(b.unique) + v;
    assert PublicCode(a) + u == Flags(a) + (MaybePolicy(a.authPolicy) + ua);
    assert PublicCode(b) + v == Flags(b) + (MaybePolicy(b.authPolicy) + ub);
    Cut(Flags(a), Flags(b), MaybePolicy(a.authPolicy) + ua, MaybePolicy(b.authPolicy) + ub);
    SameFlags(a, b);
    MaybePolicyPrefix(a.authPolicy, b.authPolicy, ua, ub);
    UniquePrefix(a.unique, b.unique, u, v);
  }

  lemma MaybePolicyPrefix(a: Option<Policy>, b: Option<Policy>, u: Bytes, v: Bytes)
    requires MaybePolicy(a) + u == MaybePolicy(b) + v && a.Some? == b.Some?
    ensures a == b && u == v
  {
    if a.Some? {
      PolicyPrefix(a.value, b.value, u, v);
    } else {
      assert [] + u == u && [] + v == v;
    }
  }

  lemma SameFlags(a: Public, b: Public)
    requires Flags(a) == Flags(b)
    ensures a.kind == b.kind && a.fixedTpm == b.fixedTpm && a.fixedParent == b.fixedParent
    ensures a.sensitiveDataOrigin == b.sensitiveDataOrigin && a.userWithAuth == b.userWithAuth
    ensures a.decrypt == b.decrypt && a.restricted == b.restricted && a.authPolicy.Some? == b.authPolicy.Some?
  {
    assert forall i :: 0 <= i < 8 ==> Flags(a)[i] == Flags(b)[i];
  }

  lemma {:induction false} UniquePrefix(a: Unique, b: Unique, u: Bytes, v: Bytes)
    requires UniqueCode(a) + u == UniqueCode(b) + v
    ensures a == b && u == v
    decreases a, 0
  {
    var x, y := UniqueCode(a) + u, UniqueCode(b) + v;
    assert x[0] == y[0] && x[1..] == y[1..];
    match a
    case Blank => assert x[1..] == u && y[1..] == v;
    case ModulusOf(s) =>
      assert x[1..] == SensitiveCode(s) + u && y[1..] == SensitiveCode(b.sensitive) + v;
      SensitivePrefix(s, b.sensitive, u, v);
    case SealedUnder(salt) =>
      assert x[1..] == Buffer(salt) + u && y[1..] == Buffer(b.salt) + v;
      BufferPrefix(salt, b.salt, u, v);
  }

  lemma {:induction false} SensitivePrefix(a: Sensitive, b: Sensitive, u: Bytes, v: Bytes)
    requires SensitiveCode(a) + u == SensitiveCode(b) + v
    ensures a == b && u == v
    decreases a, 0
  {
    assert SensitiveCode(a) + u == [SensitiveCode(a)[0]] + (SensitiveCode(a)[1..] + u);
    assert SensitiveCode(b) + v == [SensitiveCode(b)[0]] + (SensitiveCode(b)[1..] + v);
    Cut([SensitiveCode(a)[0]], [SensitiveCode(b)[0]], SensitiveCode(a)[1..] + u, SensitiveCode(b)[1..] + v);
    assert SensitiveCode(a)[0] == SensitiveCode(b)[0];
    match a
    case OwnerPrimary(seed, template) =>
      PrimaryPrefix(seed, template, b.seed, b.template, u, v);
    case SealedBytes(data) => BufferPrefix(data, b.data, u, v);
    case Absent => assert [] + u == u && [] + v == v;
  }

  lemma {:induction false} PrimaryPrefix(a: nat, p: Public, b: nat, q: Public, u: Bytes, v: Bytes)
    requires Nat(a) + PublicCode(p) + u == Nat(b) + PublicCode(q) + v
    ensures a == b && p == q && u == v
    decreases p, 1
  {
    assert Nat(a) + PublicCode(p) + u == Nat(a) + (PublicCode(p) + u);
    assert Nat(b) + PublicCode(q) + v == Nat(b) + (PublicCode(q) + v);
    NatPrefix(a, b, PublicCode(p) + u, PublicCode(q) + v);
    PublicPrefix(p, q, u, v);
  }

  function WrappedCode(w: Wrapped): Bytes {
    match w
    case Child(parent, obj) => [0] + (SensitiveCode(parent) + (PublicCode(obj.pub) + SensitiveCode(obj.sensitive)))
    case Transit(inner, outer, obj) =>
      [1] + (Buffer(inner) + (Nat(outer) + (PublicCode(obj.pub) + SensitiveCode(obj.sensitive))))
  }

  lemma WholeSensitive(a: Sensitive, b: Sensitive)
    requires SensitiveCode(a) == SensitiveCode(b)
    ensures a == b
  {
    assert SensitiveCode(a) + [] == SensitiveCode(b) + [];
    SensitivePrefix(a, b, [], []);
  }

  lemma WrappedInjective(a: Wrapped, b: Wrapped)
    requires WrappedCode(a) == WrappedCode(b)
    ensures a == b
  {
    var x, y := WrappedCode(a), WrappedCode(b);
    assert x[0] == y[0] && x[1..] == y[1..];
    var ta := PublicCode(a.obj.pub) + SensitiveCode(a.obj.sensitive);
    var tb := PublicCode(b.obj.pub) + SensitiveCode(b.obj.sensitive);
    if a.Child? {
      SensitivePrefix(a.parent, b.parent, ta, tb);
    } else {
      BufferPrefix(a.innerKey, b.innerKey, Nat(a.outerSeed) + ta, Nat(b.outerSeed) + tb);
      NatPrefix(a.outerSeed, b.outerSeed, ta, tb);
    }
    PublicPrefix(a.obj.pub, b.obj.pub, SensitiveCode(a.obj.sensitive), SensitiveCode(b.obj.sensitive));
    WholeSensitive(a.obj.sensitive, b.obj.sensitive);
  }

  function SeedCode(s: SeedFor): Bytes {
    Nat(s.outerSeed) + SensitiveCode(s.opener)
  }

  lemma SeedInjective(a: SeedFor, b: SeedFor)
    requires SeedCode(a) == SeedCode(b)
    ensures a == b
  {
    NatPrefix(a.outerSeed, b.outerSeed, SensitiveCode(a.opener), SensitiveCode(b.opener));
    WholeSensitive(a.opener, b.opener);
  }

  ghost function ReadWrapped(b: Bytes): Option<Wrapped> {
    if exists w :: WrappedCode(w) == b then var w :| WrappedCode(w) == b; Some(w) else None
  }

  ghost function ReadSeed(b: Bytes): Option<SeedFor> {
    if exists s :: SeedCode(s) == b then var s :| SeedCode(s) == b; Some(s) else None
  }

  ghost function ReadPublic(b: Bytes): Option<Public> {
    if exists p :: PublicCode(p) == b then var p :| PublicCode(p) == b; Some(p) else None
  }

  lemma {:induction false} NatLength(n: nat)
    ensures |Nat(n)| == n + 1
  {
    if n > 0 { NatLength(n - 1); }
  }

  lemma ReadsWrapped(w: Wrapped)
    ensures ReadWrapped(WrappedCode(w)) == Some(w)
  {
    WrappedInjective(w, ReadWrapped(WrappedCode(w)).value);
  }

  lemma ReadsSeed(s: SeedFor)
    ensures ReadSeed(SeedCode(s)) == Some(s)
  {
    SeedInjective(s, ReadSeed(SeedCode(s)).value);
  }

  lemma ReadsPublic(p: Public)
    ensures ReadPublic(PublicCode(p)) == Some(p)
  {
    var p' := ReadPublic(PublicCode(p)).value;
    assert PublicCode(p) + [] == PublicCode(p') + [];
    PublicPrefix(p, p', [], []);
  }

  lemma SealedAreaIsShort(fixed: bool, salt: Bytes)
    requires |salt| == DIGEST_BYTES
    ensures |PublicCode(SealedArea(fixed, salt))| == 74
  {
    NatLength(|salt|);
    assert |UniqueCode(SealedUnder(salt))| == 66;
  }

  ghost function PlainCrypto(): Crypto {
    Crypto(
      w => WrappedCode(w), b => ReadWrapped(b), s => SeedCode(s), b => ReadSeed(b),
      p => PublicCode(p), b => ReadPublic(b), _ => true, _ => true, _ => true,
      p => PublicCode(p), _ => seq(DIGEST_BYTES, _ => 0))
  }

  /** The model's assumption about the library can be met. */
  lemma SoundCryptoExists()
    ensures exists c :: Sound(c)
  {
    var c := PlainCrypto();
    assert forall w :: Unwrap(c, Wrap(c, w)) == Some(w) by {
      forall w ensures Unwrap(c, Wrap(c, w)) == Some(w) { ReadsWrapped(w); }
    }
    assert forall s :: Open(c, Protect(c, s)) == Some(s) by {
      forall s ensures Open(c, Protect(c, s)) == Some(s) { ReadsSeed(s); }
    }
    assert forall p :: Unmarshall(c, Marshall(c, p)) == Some(p) by {
      forall p ensures Unmarshall(c, Marshall(c, p)) == Some(p) { ReadsPublic(p); }
    }
    assert forall fixed, salt | |salt| == DIGEST_BYTES :: |Marshall(c, SealedArea(fixed, salt))| < 0x1_0000 by {
      forall fixed, salt | |salt| == DIGEST_BYTES ensures |Marshall(c, SealedArea(fixed, salt))| < 0x1_0000 {
        SealedAreaIsShort(fixed, salt);
      }
    }
    assert Sound(c);
  }
}
