/** Handle balance of src/tpm.rs over any sequence of sealer calls on one TPM, failing commands
    included: which loaded objects belong to a live sealer, and how many are left over. */
module Balance {
  import opened Wrappers
  import opened Tpm
  import opened Sealer

  /** The loaded objects, the next handle, and the sealers alive by instance. */
  datatype Loaded = Loaded(transients: map<nat, Object>, next: nat, live: map<nat, TpmSealer>)

  /** One call. `made` is the new sealer, None when the call failed; `loads` is what the
      envelope loads to under the sealer's primary; `failed` says that some command failed. */
  datatype Call =
    | CallNew(id: nat, made: Option<TpmSealer>)
    | CallFromPrimary(id: nat, made: Option<TpmSealer>)
    | CallSeal
    | CallUnseal(loads: Option<Object>, failed: bool)
    | CallDrop(id: nat, failed: bool)

  predicate Owns(s: TpmSealer, h: nat) {
    s.ownsTransientPrimary && s.primary == Transient(h)
  }

  predicate Owned(live: map<nat, TpmSealer>, h: nat) {
    exists i :: i in live && Owns(live[i], h)
  }

  ghost predicate Performs(seed: nat, a: Loaded, call: Call, b: Loaded) {
    && a.next <= b.next && (forall h :: h in b.transients ==> h < b.next)
    && match call
       case CallNew(id, Some(s)) =>
         id !in a.live && Owns(s, a.next) && b.live == a.live[id := s] && b.transients == a.transients[a.next := SrkOf(seed)]
       case CallNew(id, None) =>
         b.live == a.live && (b.transients == a.transients || b.transients == a.transients[a.next := SrkOf(seed)])
       case CallFromPrimary(id, made) =>
         && b.transients == a.transients
         && if made.None? then b.live == a.live
            else id !in a.live && !made.value.ownsTransientPrimary && b.live == a.live[id := made.value]
       case CallSeal => b.transients == a.transients && b.live == a.live
       case CallUnseal(loads, failed) =>
         && b.live == a.live && b.transients - {a.next} == a.transients
         && (!failed ==> b.transients == if Misloads(loads) then a.transients[a.next := loads.value] else a.transients)
       case CallDrop(id, failed) =>
         && id in a.live && b.live == a.live - {id}
         && var s := a.live[id];
            var flushed := if s.ownsTransientPrimary && s.primary.Transient? then a.transients - {s.primary.index} else a.transients;
            b.transients == flushed || (failed && b.transients == a.transients)
  }

  // ----- The methods are such calls -----

  ghost predicate Tracks(ctx: Context, l: Loaded)
    reads ctx
  {
    l.transients == ctx.transients && l.next == ctx.next
  }

  method TracedNew(ctx: Context, ghost a: Loaded, ghost id: nat) returns (r: Result<TpmSealer, Error>, ghost b: Loaded)
    requires ctx.Valid() && Tracks(ctx, a) && id !in a.live
    modifies ctx`transients, ctx`next, ctx`faults
    ensures ctx.Valid() && Tracks(ctx, b)
    ensures Performs(ctx.seed, a, CallNew(id, r.ToOption()), b)
    ensures r.Ok? <==> ctx.faults == old(ctx.faults)
  {
    r := New(ctx);
    b := Loaded(ctx.transients, ctx.next, if r.Ok? then a.live[id := r.value] else a.live);
  }

  method TracedFromPrimary(ctx: Context, primary: Handle, ghost a: Loaded, ghost id: nat)
    returns (r: Result<TpmSealer, Error>, ghost b: Loaded)
    requires ctx.Valid() && Tracks(ctx, a) && id !in a.live
    modifies ctx`faults
    ensures ctx.Valid() && Tracks(ctx, b)
    ensures Performs(ctx.seed, a, CallFromPrimary(id, r.ToOption()), b)
  {
    r := FromPrimary(ctx, primary);
    b := a.(live := if r.Ok? then a.live[id := r.value] else a.live);
  }

  method TracedSeal(ctx: Context, sealer: TpmSealer, plaintext: Bytes, ghost a: Loaded) returns (r: Result<Bytes, Error>)
    requires ctx.Valid() && Tracks(ctx, a)
    modifies ctx`faults
    ensures ctx.Valid() && Tracks(ctx, a)
    ensures Performs(ctx.seed, a, CallSeal, a)
  {
    r := Seal(ctx, sealer, plaintext);
  }

  method TracedUnseal(ctx: Context, sealer: TpmSealer, ciphertext: Bytes, ghost a: Loaded)
    returns (r: Result<Bytes, Error>, ghost b: Loaded)
    requires ctx.Valid() && Tracks(ctx, a)
    modifies ctx`transients, ctx`sessions, ctx`next, ctx`faults
    ensures ctx.Valid() && Tracks(ctx, b)
    ensures var loads := Loads(ctx.crypto, old(ctx.ObjectAt(sealer.primary)), ciphertext);
            Performs(ctx.seed, a, CallUnseal(loads, ctx.faults != old(ctx.faults)), b)
  {
    r := Unseal(ctx, sealer, ciphertext);
    b := Loaded(ctx.transients, ctx.next, a.live);
  }

  method TracedDrop(ctx: Context, ghost a: Loaded, ghost id: nat, sealer: TpmSealer) returns (ghost b: Loaded)
    requires ctx.Valid() && Tracks(ctx, a) && id in a.live && a.live[id] == sealer
    modifies ctx`transients, ctx`faults
    ensures ctx.Valid() && Tracks(ctx, b)
    ensures Performs(ctx.seed, a, CallDrop(id, ctx.faults != old(ctx.faults)), b)
  {
    Drop(ctx, sealer);
    b := Loaded(ctx.transients, ctx.next, a.live - {id});
  }

  // ----- What every sequence of calls keeps -----

  /** Every sealer made by `New` has its primary loaded, and no two share one. */
  ghost predicate Kept(l: Loaded) {
    && (forall h :: h in l.transients ==> h < l.next)
    && (forall i :: i in l.live && l.live[i].ownsTransientPrimary ==>
          l.live[i].primary.Transient? && l.live[i].primary.index in l.transients)
    && (forall i, j | i in l.live && j in l.live && l.live[i].ownsTransientPrimary && l.live[j].ownsTransientPrimary ::
          l.live[i].primary == l.live[j].primary ==> i == j)
  }

  /** Loaded objects that belong to no live sealer. */
  function Strays(l: Loaded): set<nat> {
    set h | h in l.transients && !Owned(l.live, h)
  }

  /** An unseal of something that is not sealed data, with no command failing. */
  predicate LeavesOne(call: Call) {
    call.CallUnseal? && !call.failed && Misloads(call.loads)
  }

  /** A failed call that may leave an object behind. */
  predicate MayLeaveOne(call: Call) {
    match call
    case CallNew(_, made) => made.None?
    case CallUnseal(_, failed) => failed
    case CallDrop(_, failed) => failed
    case _ => false
  }

  lemma NewKeeps(seed: nat, a: Loaded, call: Call, b: Loaded)
    requires Kept(a) && Performs(seed, a, call, b) && call.CallNew? && call.made.Some?
    ensures Kept(b) && Strays(b) == Strays(a)
  {
    assert Owns(b.live[call.id], a.next);
    forall h | h != a.next ensures Owned(b.live, h) <==> Owned(a.live, h) {
      if Owned(a.live, h) {
        var i :| i in a.live && Owns(a.live[i], h);
        assert Owns(b.live[i], h);
      }
    }
  }

  /** With the sealers unchanged, what is loaded in addition is left over. */
  lemma LoadKeeps(seed: nat, a: Loaded, call: Call, b: Loaded)
    requires Kept(a) && Performs(seed, a, call, b) && b.live == a.live
    ensures Kept(b)
    ensures Strays(b) == Strays(a) + (if b.transients == a.transients then {} else {a.next})
  {
    assert forall h :: h in a.transients ==> h != a.next;
    if call.CallUnseal? {
      assert forall h :: h in a.transients <==> h in b.transients && h != a.next;
      if a.next !in b.transients { assert b.transients - {a.next} == b.transients; }
    }
    assert !Owned(a.live, a.next);
  }

  lemma SharedKeeps(seed: nat, a: Loaded, call: Call, b: Loaded)
    requires Kept(a) && Performs(seed, a, call, b) && call.CallFromPrimary? && call.made.Some?
    ensures Kept(b) && Strays(b) == Strays(a)
  {
    forall h ensures Owned(b.live, h) <==> Owned(a.live, h) {
      if Owned(a.live, h) {
        var i :| i in a.live && Owns(a.live[i], h);
        assert Owns(b.live[i], h);
      }
    }
  }

  lemma DropKeeps(seed: nat, a: Loaded, call: Call, b: Loaded)
    requires Kept(a) && Performs(seed, a, call, b) && call.CallDrop?
    ensures Kept(b)
    ensures var primary := a.live[call.id].primary;
            || Strays(b) == Strays(a)
            || (call.failed && primary.Transient? && primary.index !in Strays(a) && Strays(b) == Strays(a) + {primary.index})
  {
    var s := a.live[call.id];
    forall h | !Owns(s, h) ensures Owned(b.live, h) <==> Owned(a.live, h) {
      if Owned(a.live, h) {
        var i :| i in a.live && Owns(a.live[i], h);
        assert Owns(b.live[i], h);
      }
    }
    if s.ownsTransientPrimary {
      assert Owned(a.live, s.primary.index);
    }
  }

  lemma CallKeeps(seed: nat, a: Loaded, call: Call, b: Loaded)
    requires Kept(a) && Performs(seed, a, call, b)
    ensures Kept(b)
    ensures |Strays(a)| + (if LeavesOne(call) then 1 else 0) <= |Strays(b)|
    ensures |Strays(b)| <= |Strays(a)| + (if LeavesOne(call) || MayLeaveOne(call) then 1 else 0)
  {
    match call
    case CallNew(_, made) => if made.Some? { NewKeeps(seed, a, call, b); } else { LoadKeeps(seed, a, call, b); }
    case CallFromPrimary(_, made) => if made.Some? { SharedKeeps(seed, a, call, b); } else { LoadKeeps(seed, a, call, b); }
    case CallDrop(_, _) => DropKeeps(seed, a, call, b);
    case CallSeal => LoadKeeps(seed, a, call, b);
    case CallUnseal(_, _) => LoadKeeps(seed, a, call, b);
  }

  // ----- Over any sequence of calls -----

  function CountOf(calls: seq<Call>, f: Call -> bool): nat {
    if calls == [] then 0 else CountOf(calls[..|calls| - 1], f) + if f(calls[|calls| - 1]) then 1 else 0
  }

  ghost predicate IsTrace(seed: nat, states: seq<Loaded>, calls: seq<Call>) {
    && |states| == |calls| + 1
    && states[0].transients == map[] && states[0].live == map[]
    && forall j :: 0 <= j < |calls| ==> Performs(seed, states[j], calls[j], states[j + 1])
  }

  /** The objects left over are at least the envelopes that loaded to something else than
      sealed data, and at most those plus one for each failed call. When neither happened the
      loaded objects are exactly the primaries of the live sealers made by `New`, one each. */
  lemma {:induction false} SealersBalance(seed: nat, states: seq<Loaded>, calls: seq<Call>, i: nat)
    requires IsTrace(seed, states, calls) && i < |states|
    ensures Kept(states[i])
    ensures CountOf(calls[..i], LeavesOne) <= |Strays(states[i])|
    ensures |Strays(states[i])| <= CountOf(calls[..i], LeavesOne) + CountOf(calls[..i], MayLeaveOne)
    ensures CountOf(calls[..i], LeavesOne) == CountOf(calls[..i], MayLeaveOne) == 0 ==>
              forall h :: h in states[i].transients <==> Owned(states[i].live, h)
  {
    if i > 0 {
      SealersBalance(seed, states, calls, i - 1);
      CallKeeps(seed, states[i - 1], calls[i - 1], states[i]);
      assert calls[..i][..i - 1] == calls[..i - 1];
    }
    if Strays(states[i]) == {} {
      assert forall h :: h in states[i].transients && !Owned(states[i].live, h) ==> h in Strays(states[i]);
    }
  }
}
