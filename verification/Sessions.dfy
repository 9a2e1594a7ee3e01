/** One key per serve session: from the moment a serve starts to its end, every Status and
    Encrypt answer names the key it was started with (src/main.rs:97-159, src/kms.rs:49-88). */
module Sessions {
  import opened Wrappers
  import opened Tpm
  import opened Fleet
  import opened Wire
  import opened Envelope
  import opened Sealer
  import opened Kms
  import C = Cluster
  import R = Refinement

  // ----- In every run of the cluster -----

  /** Step `i` starts a serve on `n`, and up to state `j` it is neither stopped nor restarted. */
  ghost predicate IsSession(run: C.Run, n: C.NodeId, i: nat, j: nat) {
    && i < j < |run.states| == |run.steps| + 1
    && run.steps[i].Serve? && run.steps[i].n == n && n in run.states[i].nodes
    && (run.steps[i].fleet ==> run.states[i].nodes[n].slot.Some?)
    && forall k :: i < k < j && run.steps[k].n == n ==> !run.steps[k].Serve? && !run.steps[k].Stop?
  }

  /** The key the session was started with. */
  function SessionKey(run: C.Run, n: C.NodeId, i: nat): Object
    requires i < |run.steps| && i < |run.states| && run.steps[i].Serve? && n in run.states[i].nodes
    requires run.steps[i].fleet ==> run.states[i].nodes[n].slot.Some?
  {
    C.StartKey(run.states[i].nodes[n], run.steps[i].fleet)
  }

  lemma {:induction false} ServiceStays(c: Crypto, run: C.Run, n: C.NodeId, i: nat, j: nat)
    requires C.IsRun(c, run) && IsSession(run, n, i, j)
    ensures n in run.states[j].nodes && run.states[j].nodes[n].seed == run.states[i].nodes[n].seed
    ensures run.states[j].nodes[n].service == Some(C.Service(run.steps[i].fleet, SessionKey(run, n, i)))
  {
    if j == i + 1 {
      assert C.Next(c, run.states[i], run.steps[i], run.states[j]);
    } else {
      ServiceStays(c, run, n, i, j - 1);
      assert C.Next(c, run.states[j - 1], run.steps[j - 1], run.states[j]);
    }
  }

  /** Step `k` answers an Encrypt request of the session. */
  ghost predicate Answers(run: C.Run, n: C.NodeId, i: nat, j: nat, k: nat) {
    i < k < j <= |run.steps| && run.steps[k].Encrypt? && run.steps[k].n == n
  }

  /** Every answer of the session carries the id of the key it was started with, which is the
      id Status reports throughout. What a session under the fleet key hands out is never
      under an SRK, and the other way round. It is sealed under the very key the id stands for
      exactly when the slot still holds that key at the time. */
  lemma OneKeyPerSession(c: Crypto, run: C.Run, n: C.NodeId, i: nat, j: nat, k: nat)
    requires C.IsRun(c, run) && IsSession(run, n, i, j) && Answers(run, n, i, j, k)
    ensures n in run.states[k].nodes && run.states[k].nodes[n].service.Some? && C.SealingKey(run.states[k].nodes[n]).Some?
    ensures var key, fleet, node := SessionKey(run, n, i), run.steps[i].fleet, run.states[k].nodes[n];
            var rec := C.Answered(c, n, node, run.steps[k].plaintext, run.steps[k].ciphertext);
            && rec in run.states[k + 1].records && rec.fleet == fleet
            && rec.keyId == KeyId(c, key.pub) == C.Preferred(c, node).keyId
            && (if fleet then C.IsFleetKey(rec.key) else rec.key == SrkOf(node.seed))
            && (fleet ==> forall seed :: Unsealed(c, Some(SrkOf(seed)), rec.ciphertext) == None)
            && (rec.key == key <==> !fleet || node.slot == Some(key))
  {
    ServiceStays(c, run, n, i, k);
    C.RunKeepsInv(c, run, k);
    assert C.Next(c, run.states[k], run.steps[k], run.states[k + 1]);
    var rec := C.Answered(c, n, run.states[k].nodes[n], run.steps[k].plaintext, run.steps[k].ciphertext);
    assert SealedTo(c, rec.ciphertext, rec.key, rec.plaintext);
  }

  /** While the slot holds no other fleet key, all answers are under the key of the session. */
  lemma SteadySession(c: Crypto, run: C.Run, n: C.NodeId, i: nat, j: nat)
    requires C.IsRun(c, run) && IsSession(run, n, i, j)
    requires forall k :: i < k < j && n in run.states[k].nodes && run.states[k].nodes[n].slot.Some? && run.steps[i].fleet ==>
               run.states[k].nodes[n].slot.value == SessionKey(run, n, i)
    ensures forall k: nat :: Answers(run, n, i, j, k) ==>
              && n in run.states[k].nodes && run.states[k].nodes[n].service.Some?
              && C.SealingKey(run.states[k].nodes[n]) == Some(SessionKey(run, n, i))
  {
    forall k: nat | Answers(run, n, i, j, k)
      ensures n in run.states[k].nodes && run.states[k].nodes[n].service.Some?
              && C.SealingKey(run.states[k].nodes[n]) == Some(SessionKey(run, n, i))
    {
      OneKeyPerSession(c, run, n, i, j, k);
    }
  }

  /** It does matter, the handle of a fleet key naming the slot: "a" serves under its own fleet
      key, then joins "b". The running service goes on answering with the old id but seals under
      the new key. */
  lemma KeyMoves(c: Crypto, x: nat, y: nat, plaintext: Bytes) returns (run: C.Run)
    requires Sound(c) && x != y
    ensures C.IsRun(c, run) && |run.states| == 7 && IsSession(run, "a", 3, 6) && Answers(run, "a", 3, 6, 5)
    ensures SessionKey(run, "a", 3) == FleetKeyOf(x) != FleetKeyOf(y)
    ensures exists rec :: rec in run.states[6].records && rec.plaintext == plaintext
                          && rec.key == FleetKeyOf(y) && rec.keyId == KeyId(c, FleetKeyOf(x).pub)
  {
    var kx, ky := FleetKeyOf(x), FleetKeyOf(y);
    var response := ReplyFor(c, ky, kx);
    var ciphertext := CiphertextUnder(c, ky, plaintext);
    var reply := C.Reply(kx.pub, ky, response);
    var s0 := C.State(map["a" := C.Node(x, None, None), "b" := C.Node(y, None, None)], {}, {});
    var s1 := C.WithSlot(s0, "b", Some(ky));
    var s2 := s1.(replies := {reply});
    var s3 := C.WithSlot(s2, "a", Some(kx));
    var s4 := C.WithService(s3, "a", Some(C.Service(true, kx)));
    var s5 := C.WithSlot(s4, "a", Some(ky));
    assert "a" != "b";
    assert s1.nodes["b"].slot == Some(ky) && s2.nodes["a"] == s0.nodes["a"];
    var node := s5.nodes["a"];
    assert node == C.Node(x, Some(ky), Some(C.Service(true, kx)));
    var rec := C.Answered(c, "a", node, plaintext, ciphertext);
    var s6 := s5.(records := {rec});
    run := C.Run(
      [s0, s1, s2, s3, s4, s5, s6],
      [ C.Genesis("b", false, Some(ky), true), C.Enrol("b", kx.pub, response), C.Genesis("a", false, Some(kx), true),
        C.Serve("a", true), C.Join("a", reply, Some(ky), true), C.Encrypt("a", plaintext, ciphertext)]);
    FirstGenesis(c, s0, "b");
    FirstGenesis(c, s2, "a");
    Joined(c, s4, "a", reply);
    assert C.Next(c, s1, run.steps[1], s2);
    assert C.Next(c, s3, run.steps[3], s4);
    assert C.Next(c, s5, run.steps[5], s6);
    assert kx.sensitive.seed == x && ky.sensitive.seed == y;
    assert rec in s6.records;
  }

  lemma FirstGenesis(c: Crypto, s: C.State, n: C.NodeId)
    requires n in s.nodes && s.nodes[n].slot == None
    ensures var key := Some(FleetKeyOf(s.nodes[n].seed)); C.Next(c, s, C.Genesis(n, false, key, true), C.WithSlot(s, n, key))
  {
  }

  lemma Joined(c: Crypto, s: C.State, n: C.NodeId, reply: C.Reply)
    requires n in s.nodes && reply in s.replies && reply.target == FleetKeyOf(s.nodes[n].seed).pub
    requires Delivers(c, reply.response, reply.key, reply.target)
    ensures C.Next(c, s, C.Join(n, reply, Some(reply.key), true), C.WithSlot(s, n, Some(reply.key)))
  {
    assert Opens(FleetKeyOf(s.nodes[n].seed), reply.target);
  }

  lemma ReplyFor(c: Crypto, key: Object, joiner: Object) returns (response: DuplicateResponse)
    requires Sound(c) && !key.pub.fixedTpm && !key.pub.fixedParent && Opens(joiner, joiner.pub)
    ensures Delivers(c, response, key, joiner.pub)
    ensures Imported(c, Some(joiner), Decode(c, response).value) == Some(key)
  {
    var inner := seq<byte>(INNER_KEY_BYTES, _ => 0);
    DuplicateSendImport(c, key, joiner, inner, 0);
    response := Encode(c, DuplicationBlob(key.pub, Wrap(c, Transit(inner, 0, key)),
                                          Protect(c, SeedFor(joiner.sensitive, 0)), Some(inner)));
  }

  lemma CiphertextUnder(c: Crypto, key: Object, plaintext: Bytes) returns (ciphertext: Bytes)
    requires Sound(c)
    ensures SealedTo(c, ciphertext, key, plaintext)
  {
    var pub := SealedArea(false, seq<byte>(DIGEST_BYTES, _ => 0));
    var priv := Wrap(c, Child(key.sensitive, Object(pub, SealedBytes(plaintext))));
    ReadsBack(c, Child(key.sensitive, Object(pub, SealedBytes(plaintext))));
    EncodedIsSealed(c, priv, pub, key, false, plaintext);
    ciphertext := Framed(Marshall(c, pub), priv);
  }

  // ----- At one TPM, from `status` to the last answer -----

  datatype Request = AskStatus | AskEncrypt(plaintext: Bytes) | AskDecrypt(keyId: string, ciphertext: Bytes)

  datatype Response =
    | StatusIs(status: StatusResponse)
    | Encrypted(encrypted: Result<EncryptResponse, Status>)
    | Decrypted(decrypted: Result<Bytes, Status>)

  /** The answer of a session under `key` with the id `keyId`. */
  ghost predicate Fits(c: Crypto, seed: nat, key: Object, keyId: string, request: Request, response: Response) {
    match (request, response)
    case (AskStatus, StatusIs(status)) => status.keyId == keyId
    case (AskEncrypt(plaintext), Encrypted(r)) =>
      && r != Err(InternalError(Attributes))
      && (r.Ok? ==> r.value.keyId == keyId && SealedTo(c, r.value.ciphertext, key, plaintext))
    case (AskDecrypt(_, ciphertext), Decrypted(r)) =>
      r.Ok? ==> Unsealed(c, Some(key), ciphertext) == Some(r.value) || Unsealed(c, Some(SrkOf(seed)), ciphertext) == Some(r.value)
    case _ => false
  }

  method Ask(ctx: Context, service: KmsService, request: Request, ghost a: C.Service) returns (response: Response)
    requires ctx.Valid() && R.Serves(ctx, service, a) && (a.fleet ==> ctx.slot == Some(a.key))
    modifies ctx`transients, ctx`sessions, ctx`next, ctx`faults
    ensures ctx.Valid() && R.Serves(ctx, service, a) && Grew(old(ctx.faults), ctx.faults)
    ensures Fits(ctx.crypto, ctx.seed, a.key, KeyId(ctx.crypto, a.key.pub), request, response)
  {
    match request {
      case AskStatus =>
        var status := GetStatus(service);
        response := StatusIs(status);
      case AskEncrypt(plaintext) =>
        var encrypted := Encrypt(ctx, service, plaintext);
        response := Encrypted(encrypted);
      case AskDecrypt(keyId, ciphertext) =>
        var decrypted := Decrypt(ctx, service, keyId, ciphertext);
        R.KeptByOthers(old(ctx.transients), ctx.transients, {old(ctx.next)}, {}, R.SrkHandle(service).value.index);
        response := Decrypted(decrypted);
    }
  }

  /** A service with an undisturbed slot answers any requests under its one key. */
  method AskAll(ctx: Context, service: KmsService, requests: seq<Request>, ghost a: C.Service) returns (responses: seq<Response>)
    requires ctx.Valid() && R.Serves(ctx, service, a) && (a.fleet ==> ctx.slot == Some(a.key))
    modifies ctx`transients, ctx`sessions, ctx`next, ctx`faults
    ensures ctx.Valid() && R.Serves(ctx, service, a) && Grew(old(ctx.faults), ctx.faults)
    ensures |responses| == |requests|
    ensures forall i :: 0 <= i < |requests| ==>
              Fits(ctx.crypto, ctx.seed, a.key, KeyId(ctx.crypto, a.key.pub), requests[i], responses[i])
  {
    responses := [];
    for i := 0 to |requests|
      invariant ctx.Valid() && R.Serves(ctx, service, a) && Grew(old(ctx.faults), ctx.faults)
      invariant |responses| == i
      invariant forall k :: 0 <= k < i ==>
                  Fits(ctx.crypto, ctx.seed, a.key, KeyId(ctx.crypto, a.key.pub), requests[k], responses[k])
    {
      var response := Ask(ctx, service, requests[i], a);
      responses := responses + [response];
    }
  }

  /** `sceau status`, then a serve with any requests. If both found the same about the fleet
      key, every Status and Encrypt answer carries the printed id, every ciphertext is under
      the key it stands for, and none is refused for its attributes, whatever else fails. If
      nothing fails and the flag is not set, both found what is in the slot. */
  method StatusThenServe(ctx: Context, forceLegacy: bool, requests: seq<Request>)
    returns (printed: Result<(bool, string), Error>, service: Result<KmsService, Error>, responses: seq<Response>)
    requires ctx.Valid()
    modifies ctx`transients, ctx`sessions, ctx`next, ctx`faults
    ensures ctx.Valid()
    ensures service.Ok? ==> |responses| == |requests|
    ensures printed.Ok? && service.Ok? && printed.value.0 == service.value.legacySealer.Some? ==>
              && (printed.value.0 ==> ctx.slot.Some?)
              && var key := if printed.value.0 then ctx.slot.value else SrkOf(ctx.seed);
                 && printed.value.1 == KeyId(ctx.crypto, key.pub)
                 && forall i :: 0 <= i < |requests| ==>
                      Fits(ctx.crypto, ctx.seed, key, printed.value.1, requests[i], responses[i])
    ensures ctx.faults == old(ctx.faults) ==>
              && printed.Ok? && service.Ok? && printed.value.0 == ctx.slot.Some?
              && service.value.legacySealer.Some? == (!forceLegacy && ctx.slot.Some?)
  {
    responses := [];
    printed := RunStatus(ctx);
    service := ChooseSealer(ctx, forceLegacy);
    if service.Err? { return; }
    ghost var fleet := service.value.legacySealer.Some?;
    ghost var a := C.Service(fleet, if fleet then ctx.slot.value else SrkOf(ctx.seed));
    responses := AskAll(ctx, service.value, requests, a);
  }
}
