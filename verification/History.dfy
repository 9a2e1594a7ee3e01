/** Reading back what was ever encrypted, in any state of any run. */
module History {
  import opened Wrappers
  import opened Tpm
  import opened Sealer
  import opened Kms
  import opened Cluster

  /** Soundness needs neither agreement nor distinct key ids: in every run, forced and
      repeated geneses included, whenever a node answers Decrypt for a ciphertext some node
      once returned, under any key id, the answer is what was encrypted. */
  lemma DecryptSound(c: Crypto, run: Run, i: nat, n: NodeId, rec: Record, keyId: string)
    requires IsRun(c, run) && i < |run.states| && rec in run.states[i].records
    requires n in run.states[i].nodes && run.states[i].nodes[n].service.Some?
    ensures var answer := DecryptAt(c, run.states[i].nodes[n], keyId, rec.ciphertext);
            answer == None || answer == Some(rec.plaintext)
  {
    RunKeepsInv(c, run, i);
    var node := run.states[i].nodes[n];
    AnswerIsPlaintext(c, Preferred(c, node), Fallback(c, node), keyId, rec.ciphertext, rec.key, rec.plaintext);
  }

  /** Every ciphertext carries the id of the key it was sealed under. */
  ghost predicate HonestIds(c: Crypto, s: State) {
    forall rec :: rec in s.records ==> rec.keyId == KeyId(c, rec.key.pub)
  }

  ghost predicate Agreeing(run: Run) {
    forall i :: 0 <= i < |run.states| ==> Agree(run.states[i])
  }

  lemma StepKeepsHonest(c: Crypto, s: State, step: Step, t: State, key: Object)
    requires Inv(c, s) && Next(c, s, step, t) && HonestIds(c, s) && AgreeOn(s, key)
    ensures HonestIds(c, t)
  {
    if step.Encrypt? {
      var node := s.nodes[step.n];
      assert node.service.value.key == SealingKey(node).value;
    }
  }

  lemma {:induction false} IdsStayHonest(c: Crypto, run: Run, i: nat)
    requires IsRun(c, run) && Agreeing(run) && i < |run.states|
    ensures HonestIds(c, run.states[i])
  {
    if i > 0 {
      IdsStayHonest(c, run, i - 1);
      RunKeepsInv(c, run, i - 1);
      assert Agree(run.states[i - 1]);
      var key :| AgreeOn(run.states[i - 1], key);
      StepKeepsHonest(c, run.states[i - 1], run.steps[i - 1], run.states[i], key);
    }
  }

  /** The keys a serving node can open ciphertexts with: the one it seals under and, when
      that is the fleet key, its own SRK, unless the two share a key id: then the fleet key
      shadows it. */
  predicate Opener(c: Crypto, node: Node, key: Object)
    requires node.service.Some?
  {
    || SealingKey(node) == Some(key)
    || (node.service.value.fleet && key == SrkOf(node.seed)
        && KeyId(c, SrkOf(node.seed).pub) != KeyId(c, node.service.value.key.pub))
  }

  lemma SameSecretSameKey(a: Object, b: Object, seed: nat, seed': nat)
    requires IsFleetKey(a) || a == SrkOf(seed)
    requires IsFleetKey(b) || b == SrkOf(seed')
    requires a.sensitive == b.sensitive
    ensures a == b
  {
  }

  /** An answer means that one of the node's own keys is the record's key. */
  lemma AnsweredByOpener(c: Crypto, run: Run, i: nat, n: NodeId, rec: Record, keyId: string)
    requires IsRun(c, run) && i < |run.states| && rec in run.states[i].records
    requires n in run.states[i].nodes && run.states[i].nodes[n].service.Some?
    requires DecryptAt(c, run.states[i].nodes[n], keyId, rec.ciphertext).Some?
    ensures Opener(c, run.states[i].nodes[n], rec.key)
  {
    RunKeepsInv(c, run, i);
    var s := run.states[i];
    var node := s.nodes[n];
    var used := if keyId == Preferred(c, node).keyId then SealingKey(node) else Some(SrkOf(node.seed));
    assert Unsealed(c, used, rec.ciphertext).Some?;
    assert used.Some? && used.value.sensitive == rec.key.sensitive;
    SameSecretSameKey(used.value, rec.key, node.seed, s.nodes[rec.node].seed);
  }

  /** Exactly what can be read where. In a run that keeps one fleet key, a serving node
      decrypts a ciphertext (whoever made it, whenever) if and only if it was sealed under the
      key the node serves with, or under its SRK behind a fleet key with a different id. */
  lemma DecryptExactly(c: Crypto, run: Run, i: nat, n: NodeId, rec: Record)
    requires IsRun(c, run) && Agreeing(run) && i < |run.states| && rec in run.states[i].records
    requires n in run.states[i].nodes && run.states[i].nodes[n].service.Some?
    ensures var node := run.states[i].nodes[n];
            DecryptAt(c, node, rec.keyId, rec.ciphertext) == (if Opener(c, node, rec.key) then Some(rec.plaintext) else None)
  {
    RunKeepsInv(c, run, i);
    IdsStayHonest(c, run, i);
    var s := run.states[i];
    var node := s.nodes[n];
    if Opener(c, node, rec.key) {
      assert Agree(s);
      var key :| AgreeOn(s, key);
      if SealingKey(node) == Some(rec.key) {
        assert node.service.value.key == rec.key;
        assert rec.keyId == Preferred(c, node).keyId;
      }
      assert StorageKey(rec.key.pub);
      assert Unsealed(c, Some(rec.key), rec.ciphertext) == Some(rec.plaintext);
    } else if DecryptAt(c, node, rec.keyId, rec.ciphertext).Some? {
      AnsweredByOpener(c, run, i, n, rec, rec.keyId);
    }
  }

  /** Cross-node decrypt: in a run that keeps one fleet key (one genesis suffices, see
      `FleetAgreement`), what any node ever encrypted under the fleet key, every node now
      serving under it and still holding it decrypts. */
  lemma CrossNodeDecrypt(c: Crypto, run: Run, i: nat, n: NodeId, rec: Record)
    requires IsRun(c, run) && Agreeing(run) && i < |run.states|
    requires rec in run.states[i].records && rec.fleet
    requires n in run.states[i].nodes && run.states[i].nodes[n].slot.Some?
    requires run.states[i].nodes[n].service.Some? && run.states[i].nodes[n].service.value.fleet
    ensures DecryptAt(c, run.states[i].nodes[n], rec.keyId, rec.ciphertext) == Some(rec.plaintext)
  {
    RunKeepsInv(c, run, i);
    assert Agree(run.states[i]);
    var key :| AgreeOn(run.states[i], key);
    DecryptExactly(c, run, i, n, rec);
  }

  // ----- One node's own history -----

  /** The slot of `n` never holds a fleet key other than `key`; it may be empty at times. */
  ghost predicate SteadySlot(run: Run, n: NodeId, key: Object) {
    forall i :: 0 <= i < |run.states| && n in run.states[i].nodes ==>
      run.states[i].nodes[n].slot == None || run.states[i].nodes[n].slot == Some(key)
  }

  /** What node `n` serves with and has sealed with is `key` or its own SRK, under that
      key's id. */
  ghost predicate OwnKeys(c: Crypto, s: State, n: NodeId, key: Object) {
    && n in s.nodes
    && (s.nodes[n].service.Some? ==>
          s.nodes[n].service.value.key == if s.nodes[n].service.value.fleet then key else SrkOf(s.nodes[n].seed))
    && (forall rec :: rec in s.records && rec.node == n ==>
          && rec.key == (if rec.fleet then key else SrkOf(s.nodes[n].seed))
          && rec.keyId == KeyId(c, rec.key.pub))
  }

  lemma {:induction false} OwnKeysStay(c: Crypto, run: Run, i: nat, n: NodeId, key: Object)
    requires IsRun(c, run) && i < |run.states| && n in run.states[0].nodes && SteadySlot(run, n, key)
    ensures OwnKeys(c, run.states[i], n, key)
  {
    if i > 0 {
      OwnKeysStay(c, run, i - 1, n, key);
      RunKeepsInv(c, run, i - 1);
      StepKeepsOwnKeys(c, run.states[i - 1], run.steps[i - 1], run.states[i], n, key);
    }
  }

  lemma StepKeepsOwnKeys(c: Crypto, s: State, step: Step, t: State, n: NodeId, key: Object)
    requires Next(c, s, step, t) && OwnKeys(c, s, n, key)
    requires s.nodes[n].slot == None || s.nodes[n].slot == Some(key)
    ensures OwnKeys(c, t, n, key)
  {
  }

  /** What of its own history a serving node can read. */
  predicate Readable(c: Crypto, node: Node, key: Object, rec: Record)
    requires node.service.Some?
  {
    if rec.fleet then node.service.value.fleet && node.slot.Some?
    else !(node.service.value.fleet && KeyId(c, SrkOf(node.seed).pub) == KeyId(c, key.pub))
  }

  /** A node's own history, whatever the other nodes do, as long as its slot never changes from
      one fleet key to a different one. It reads back what it sealed under the fleet key exactly
      while it serves with the fleet key and the slot is occupied, and what it sealed under its
      SRK, before or after joining, always, except behind a fleet key with the same key id. */
  lemma HistoryReadable(c: Crypto, run: Run, i: nat, n: NodeId, key: Object, rec: Record)
    requires IsRun(c, run) && i < |run.states|
    requires n in run.states[i].nodes && rec in run.states[i].records && rec.node == n
    requires SteadySlot(run, n, key) && run.states[i].nodes[n].service.Some?
    ensures var node := run.states[i].nodes[n];
            DecryptAt(c, node, rec.keyId, rec.ciphertext) == if Readable(c, node, key, rec) then Some(rec.plaintext) else None
  {
    RunKeepsInv(c, run, i);
    OwnKeysStay(c, run, i, n, key);
    assert StorageKey(rec.key.pub);
    assert Unsealed(c, Some(rec.key), rec.ciphertext) == Some(rec.plaintext);
    assert IsFleetKey(key) ==> Unsealed(c, Some(key), rec.ciphertext).Some? ==> key.sensitive == rec.key.sensitive;
  }
}
