/** Whole runs of a cluster: any number of nodes, each running genesis, enrol, join, serve
    and restarts in any order, with any TPM command failing at any time. A step's effect on
    a slot is exactly what the methods of `Fleet` and `Kms` promise under failures. */
module Cluster {
  import opened Wrappers
  import opened Tpm
  import opened Fleet
  import opened Wire
  import opened Sealer
  import opened Kms

  type NodeId = string

  /** A running `serve`: whether its probe found the fleet key, and the key it read its key
      id from at start-up. */
  datatype Service = Service(fleet: bool, key: Object)

  datatype Node = Node(seed: nat, slot: Option<Object>, service: Option<Service>)

  /** A seed's answer to a request with the public area `target`, whoever sent it. It may
      reach any node, at any time and any number of times. */
  datatype Reply = Reply(target: Public, key: Object, response: DuplicateResponse)

  /** One answer of Encrypt: `key` is the key the ciphertext was sealed under. */
  datatype Record = Record(node: NodeId, fleet: bool, key: Object, plaintext: Bytes, ciphertext: Bytes, keyId: string)

  datatype State = State(nodes: map<NodeId, Node>, replies: set<Reply>, records: set<Record>)

  datatype Step =
    | Genesis(n: NodeId, force: bool, slot: Option<Object>, ok: bool)
    | Enrol(n: NodeId, target: Public, response: DuplicateResponse)
    | Join(n: NodeId, reply: Reply, slot: Option<Object>, ok: bool)
    | Stop(n: NodeId)
    | Serve(n: NodeId, fleet: bool)
    | Encrypt(n: NodeId, plaintext: Bytes, ciphertext: Bytes)

  datatype Run = Run(states: seq<State>, steps: seq<Step>)

  function WithSlot(s: State, n: NodeId, slot: Option<Object>): State
    requires n in s.nodes
  {
    s.(nodes := s.nodes[n := s.nodes[n].(slot := slot)])
  }

  function WithService(s: State, n: NodeId, service: Option<Service>): State
    requires n in s.nodes
  {
    s.(nodes := s.nodes[n := s.nodes[n].(service := service)])
  }

  /** The key a serve starting now takes its key id from. */
  function StartKey(node: Node, fleet: bool): Object
    requires fleet ==> node.slot.Some?
  {
    if fleet then node.slot.value else SrkOf(node.seed)
  }

  /** The key a serving node seals under right now: its handle names the slot. */
  function SealingKey(node: Node): Option<Object>
    requires node.service.Some?
  {
    if node.service.value.fleet then node.slot else Some(SrkOf(node.seed))
  }

  /** What a serving node hands out for `plaintext`. */
  function Answered(c: Crypto, n: NodeId, node: Node, plaintext: Bytes, ciphertext: Bytes): Record
    requires node.service.Some? && SealingKey(node).Some?
  {
    Record(n, node.service.value.fleet, SealingKey(node).value, plaintext, ciphertext, KeyId(c, node.service.value.key.pub))
  }

  function Preferred(c: Crypto, node: Node): KeyView
    requires node.service.Some?
  {
    KeyView(KeyId(c, node.service.value.key.pub), SealingKey(node))
  }

  function Fallback(c: Crypto, node: Node): Option<KeyView>
    requires node.service.Some?
  {
    if node.service.value.fleet then Some(KeyView(KeyId(c, SrkOf(node.seed).pub), Some(SrkOf(node.seed)))) else None
  }

  function DecryptAt(c: Crypto, node: Node, keyId: string, ciphertext: Bytes): Option<Bytes>
    requires node.service.Some?
  {
    Answer(c, Preferred(c, node), Fallback(c, node), keyId, ciphertext)
  }

  ghost predicate Next(c: Crypto, s: State, step: Step, t: State) {
    && step.n in s.nodes
    && var node := s.nodes[step.n];
       match step
       case Genesis(n, force, slot, ok) =>
         GenesisOutcome(node.seed, force, node.slot, slot, ok) && t == WithSlot(s, n, slot)
       case Enrol(n, target, response) =>
         && node.slot.Some? && Delivers(c, response, node.slot.value, target)
         && t == s.(replies := s.replies + {Reply(target, node.slot.value, response)})
       case Join(n, reply, slot, ok) =>
         && reply in s.replies && Decode(c, reply.response).Ok?
         && JoinOutcome(Imported(c, Some(FleetKeyOf(node.seed)), Decode(c, reply.response).value), node.slot, slot, ok)
         && t == WithSlot(s, n, slot)
       case Stop(n) => t == WithService(s, n, None)
       case Serve(n, fleet) =>
         && (fleet ==> node.slot.Some?)
         && t == WithService(s, n, Some(Service(fleet, StartKey(node, fleet))))
       case Encrypt(n, plaintext, ciphertext) =>
         && node.service.Some? && SealingKey(node).Some?
         && SealedTo(c, ciphertext, SealingKey(node).value, plaintext)
         && t == s.(records := s.records + {Answered(c, n, node, plaintext, ciphertext)})
  }

  predicate Initial(s: State) {
    && s.replies == {} && s.records == {}
    && forall n :: n in s.nodes ==> s.nodes[n].slot == None && s.nodes[n].service == None
  }

  ghost predicate IsRun(c: Crypto, run: Run) {
    && |run.states| == |run.steps| + 1
    && Initial(run.states[0])
    && forall i :: 0 <= i < |run.steps| ==> Next(c, run.states[i], run.steps[i], run.states[i + 1])
  }

  // ----- What every run keeps -----

  predicate IsFleetKey(key: Object) {
    key.sensitive.OwnerPrimary? && key == FleetKeyOf(key.sensitive.seed)
  }

  /** Every slot, reply and fleet service holds a key of the duplicable template; replies
      deliver the key they were made from; every ciphertext ever returned opens to its
      plaintext under the key it was sealed under, and under no other. */
  ghost predicate Inv(c: Crypto, s: State) {
    && (forall n :: n in s.nodes ==> (s.nodes[n].slot.Some? ==> IsFleetKey(s.nodes[n].slot.value)))
    && (forall n :: n in s.nodes && s.nodes[n].service.Some? ==>
          var service := s.nodes[n].service.value;
          if service.fleet then IsFleetKey(service.key) else service.key == SrkOf(s.nodes[n].seed))
    && (forall r :: r in s.replies ==>
          IsFleetKey(r.key) && Delivers(c, r.response, r.key, r.target))
    && (forall rec :: rec in s.records ==>
          && rec.node in s.nodes && SealedTo(c, rec.ciphertext, rec.key, rec.plaintext)
          && if rec.fleet then IsFleetKey(rec.key) else rec.key == SrkOf(s.nodes[rec.node].seed))
  }

  /** Wherever a reply ends up: a node recovers from it the key the seed held if the request
      carried that node's transport key, and nothing otherwise. */
  lemma ReplyImports(c: Crypto, s: State, r: Reply, n: NodeId)
    requires Inv(c, s) && r in s.replies && n in s.nodes
    ensures Imported(c, Some(FleetKeyOf(s.nodes[n].seed)), Decode(c, r.response).value)
         == if r.target.unique == FleetKeyOf(s.nodes[n].seed).pub.unique then Some(r.key) else None
  {
    var parent := FleetKeyOf(s.nodes[n].seed);
    assert Opens(parent, r.target) <==> r.target.unique == parent.pub.unique;
  }

  /** What a step writes into a slot is a fleet key: this TPM's own or the one of a reply. */
  lemma WrittenKey(c: Crypto, s: State, step: Step, t: State)
    requires Inv(c, s) && Next(c, s, step, t) && (step.Genesis? || step.Join?)
    ensures step.slot.Some? && step.slot != s.nodes[step.n].slot ==>
              step.slot.value == if step.Genesis? then FleetKeyOf(s.nodes[step.n].seed) else step.reply.key
    ensures step.slot.Some? ==> IsFleetKey(step.slot.value)
  {
    if step.Join? { ReplyImports(c, s, step.reply, step.n); }
  }

  lemma SlotKeepsInv(c: Crypto, s: State, n: NodeId, slot: Option<Object>)
    requires Inv(c, s) && n in s.nodes && (slot.Some? ==> IsFleetKey(slot.value))
    ensures Inv(c, WithSlot(s, n, slot))
  {
  }

  lemma ServiceKeepsInv(c: Crypto, s: State, n: NodeId, service: Option<Service>)
    requires Inv(c, s) && n in s.nodes
    requires service.Some? ==>
               if service.value.fleet then IsFleetKey(service.value.key) else service.value.key == SrkOf(s.nodes[n].seed)
    ensures Inv(c, WithService(s, n, service))
  {
  }

  lemma StepKeepsInv(c: Crypto, s: State, step: Step, t: State)
    requires Inv(c, s) && Next(c, s, step, t)
    ensures Inv(c, t)
  {
    match step
    case Genesis(n, _, slot, _) => WrittenKey(c, s, step, t); SlotKeepsInv(c, s, n, slot);
    case Join(n, _, slot, _) => WrittenKey(c, s, step, t); SlotKeepsInv(c, s, n, slot);
    case Stop(n) => ServiceKeepsInv(c, s, n, None);
    case Serve(n, _) => ServiceKeepsInv(c, s, n, t.nodes[n].service);
    case Enrol(_, _, _) =>
    case Encrypt(_, _, _) =>
  }

  lemma {:induction false} RunKeepsInv(c: Crypto, run: Run, i: nat)
    requires IsRun(c, run) && i < |run.states|
    ensures Inv(c, run.states[i])
    ensures run.states[i].nodes.Keys == run.states[0].nodes.Keys
  {
    if i > 0 {
      RunKeepsInv(c, run, i - 1);
      StepKeepsInv(c, run.states[i - 1], run.steps[i - 1], run.states[i]);
    }
  }

  // ----- Agreement -----

  /** `key` is the only fleet key in any slot, in any reply, in any running service or under
      any ciphertext handed out. */
  ghost predicate AgreeOn(s: State, key: Object) {
    && (forall n :: n in s.nodes ==> s.nodes[n].slot == None || s.nodes[n].slot == Some(key))
    && (forall n :: n in s.nodes && s.nodes[n].service.Some? && s.nodes[n].service.value.fleet ==>
          s.nodes[n].service.value.key == key)
    && (forall r :: r in s.replies ==> r.key == key)
    && (forall rec :: rec in s.records && rec.fleet ==> rec.key == key)
  }

  ghost predicate Agree(s: State) {
    exists key :: AgreeOn(s, key)
  }

  /** Genesis puts a key into the slot of `step.n`. */
  predicate GenesisWrites(s: State, step: Step) {
    step.Genesis? && step.n in s.nodes && step.slot.Some? && step.slot != s.nodes[step.n].slot
  }

  /** To be checked before the command: the key this TPM would create is the one in every
      other node's occupied slot, in every running fleet service, in every reply under way and
      under every fleet ciphertext ever handed out. */
  predicate GenesisSafe(s: State, n: NodeId)
    requires n in s.nodes
  {
    var own := FleetKeyOf(s.nodes[n].seed);
    && (forall m :: m in s.nodes && m != n && s.nodes[m].slot.Some? ==> s.nodes[m].slot.value == own)
    && (forall m :: m in s.nodes && s.nodes[m].service.Some? && s.nodes[m].service.value.fleet ==>
          s.nodes[m].service.value.key == own)
    && (forall r :: r in s.replies ==> r.key == own)
    && (forall rec :: rec in s.records && rec.fleet ==> rec.key == own)
  }

  lemma StepKeepsAgreement(c: Crypto, s: State, step: Step, t: State, key: Object)
    requires Inv(c, s) && Next(c, s, step, t) && AgreeOn(s, key) && !GenesisWrites(s, step)
    ensures AgreeOn(t, key)
  {
    if step.Join? {
      ReplyImports(c, s, step.reply, step.n);
    }
  }

  lemma WriteAgrees(c: Crypto, s: State, step: Step, t: State)
    requires Next(c, s, step, t) && GenesisWrites(s, step)
    ensures Agree(t) <==> GenesisSafe(s, step.n)
  {
    var key := FleetKeyOf(s.nodes[step.n].seed);
    assert t.nodes[step.n].slot == Some(key);
    assert forall n :: n in s.nodes ==> t.nodes[n].service == s.nodes[n].service && (n != step.n ==> t.nodes[n] == s.nodes[n]);
    if Agree(t) {
      var k :| AgreeOn(t, k);
      assert k == key;
    }
    if GenesisSafe(s, step.n) {
      assert AgreeOn(t, key);
    }
  }

  lemma StepAgrees(c: Crypto, run: Run, i: nat)
    requires IsRun(c, run) && i < |run.steps| && Agree(run.states[i])
    requires GenesisWrites(run.states[i], run.steps[i]) ==> GenesisSafe(run.states[i], run.steps[i].n)
    ensures Agree(run.states[i + 1])
  {
    var s, step, t := run.states[i], run.steps[i], run.states[i + 1];
    if GenesisWrites(s, step) {
      WriteAgrees(c, s, step, t);
    } else {
      RunKeepsInv(c, run, i);
      var key :| AgreeOn(s, key);
      StepKeepsAgreement(c, s, step, t, key);
    }
  }

  lemma {:induction false} SafeRunAgrees(c: Crypto, run: Run, i: nat)
    requires IsRun(c, run) && i < |run.states|
    requires forall j :: 0 <= j < i && GenesisWrites(run.states[j], run.steps[j]) ==> GenesisSafe(run.states[j], run.steps[j].n)
    ensures Agree(run.states[i])
  {
    if i == 0 {
      assert AgreeOn(run.states[0], FleetKeyOf(0));
    } else {
      SafeRunAgrees(c, run, i - 1);
      StepAgrees(c, run, i - 1);
    }
  }

  /** One fleet key everywhere, in every state of the run, if and only if no genesis wrote a
      key while a different one was in use. Joins, re-joins, restarts and failures of any
      kind never break it. */
  lemma AgreementExactly(c: Crypto, run: Run)
    requires IsRun(c, run)
    ensures (forall i :: 0 <= i < |run.states| ==> Agree(run.states[i])) <==>
            (forall i :: 0 <= i < |run.steps| && GenesisWrites(run.states[i], run.steps[i]) ==>
               GenesisSafe(run.states[i], run.steps[i].n))
  {
    if forall i :: 0 <= i < |run.states| ==> Agree(run.states[i]) {
      forall i | 0 <= i < |run.steps| && GenesisWrites(run.states[i], run.steps[i])
        ensures GenesisSafe(run.states[i], run.steps[i].n)
      {
        assert Agree(run.states[i + 1]);
        WriteAgrees(c, run.states[i], run.steps[i], run.states[i + 1]);
      }
    }
    if forall i :: 0 <= i < |run.steps| && GenesisWrites(run.states[i], run.steps[i]) ==>
         GenesisSafe(run.states[i], run.steps[i].n)
    {
      forall i | 0 <= i < |run.states| ensures Agree(run.states[i]) {
        SafeRunAgrees(c, run, i);
      }
    }
  }

  /** Every genesis that wrote a key ran on a TPM with owner seed `x`. */
  ghost predicate OneOwner(run: Run, x: nat)
    requires |run.states| == |run.steps| + 1
  {
    forall i :: 0 <= i < |run.steps| && GenesisWrites(run.states[i], run.steps[i]) ==>
      run.states[i].nodes[run.steps[i].n].seed == x
  }

  /** Genesis wrote at most once in the run. */
  ghost predicate OneGenesis(run: Run)
    requires |run.states| == |run.steps| + 1
  {
    forall i, j | 0 <= i < |run.steps| && 0 <= j < |run.steps| ::
      GenesisWrites(run.states[i], run.steps[i]) && GenesisWrites(run.states[j], run.steps[j]) ==> i == j
  }

  lemma OneWriteOneOwner(run: Run) returns (x: nat)
    requires |run.states| == |run.steps| + 1 && OneGenesis(run)
    ensures OneOwner(run, x)
  {
    x := 0;
    if i :| 0 <= i < |run.steps| && GenesisWrites(run.states[i], run.steps[i]) {
      x := run.states[i].nodes[run.steps[i].n].seed;
    }
  }

  lemma OwnWriteKeepsAgreement(c: Crypto, s: State, step: Step, t: State)
    requires Next(c, s, step, t) && GenesisWrites(s, step) && AgreeOn(s, FleetKeyOf(s.nodes[step.n].seed))
    ensures AgreeOn(t, FleetKeyOf(s.nodes[step.n].seed))
  {
  }

  lemma OwnerStep(c: Crypto, run: Run, i: nat, x: nat)
    requires IsRun(c, run) && OneOwner(run, x) && i < |run.steps| && AgreeOn(run.states[i], FleetKeyOf(x))
    ensures AgreeOn(run.states[i + 1], FleetKeyOf(x))
  {
    var s, step, t := run.states[i], run.steps[i], run.states[i + 1];
    if GenesisWrites(s, step) {
      OwnWriteKeepsAgreement(c, s, step, t);
    } else {
      RunKeepsInv(c, run, i);
      StepKeepsAgreement(c, s, step, t, FleetKeyOf(x));
    }
  }

  /** Fleet agreement: if genesis wrote on one TPM only, once or over and over, forced or not,
      then in every state of the run that TPM's key is the only one in use, and any two occupied
      slots hold the same key, public area and secret. */
  lemma {:induction false} FleetAgreement(c: Crypto, run: Run, i: nat, x: nat)
    requires IsRun(c, run) && OneOwner(run, x) && i < |run.states|
    ensures AgreeOn(run.states[i], FleetKeyOf(x)) && Agree(run.states[i])
    ensures forall n, m | n in run.states[i].nodes && m in run.states[i].nodes ::
              run.states[i].nodes[n].slot.Some? && run.states[i].nodes[m].slot.Some? ==>
                run.states[i].nodes[n].slot == run.states[i].nodes[m].slot
  {
    if i == 0 {
      assert Initial(run.states[0]);
    } else {
      FleetAgreement(c, run, i - 1, x);
      OwnerStep(c, run, i - 1, x);
    }
    assert AgreeOn(run.states[i], FleetKeyOf(x));
  }

  /** The precondition is needed: two nodes with different owner seeds that both run an
      unforced genesis on their empty slots end up with different fleet keys. */
  lemma DoubleGenesis(c: Crypto, a: nat, b: nat) returns (run: Run)
    requires a != b
    ensures IsRun(c, run) && |run.steps| == 2
    ensures forall i :: 0 <= i < 2 ==> run.steps[i].Genesis? && !run.steps[i].force && run.steps[i].ok
    ensures run.states[2].nodes == map["a" := Node(a, Some(FleetKeyOf(a)), None), "b" := Node(b, Some(FleetKeyOf(b)), None)]
    ensures !Agree(run.states[2])
  {
    var s0 := State(map["a" := Node(a, None, None), "b" := Node(b, None, None)], {}, {});
    var s1 := WithSlot(s0, "a", Some(FleetKeyOf(a)));
    var s2 := WithSlot(s1, "b", Some(FleetKeyOf(b)));
    run := Run([s0, s1, s2], [Genesis("a", false, Some(FleetKeyOf(a)), true), Genesis("b", false, Some(FleetKeyOf(b)), true)]);
    assert "a" != "b";
    assert s2.nodes["a"].slot == Some(FleetKeyOf(a)) && s2.nodes["b"].slot == Some(FleetKeyOf(b));
    assert FleetKeyOf(a).sensitive.seed == a && FleetKeyOf(b).sensitive.seed == b;
  }

  /** However many joins a key has been through, the node that holds it can enrol the next
      one: its authPolicy is still the digest the seed's policy session reaches, on whatever
      TPM. It is released to a policy session with that digest which no command has used
      before, and to no other session. */
  lemma EveryCopyCanSeed(c: Crypto, run: Run, i: nat, n: NodeId, target: Public, session: Session)
    requires IsRun(c, run) && i < |run.states|
    requires n in run.states[i].nodes && run.states[i].nodes[n].slot.Some?
    requires StorageKey(target) && target.unique.ModulusOf?
    ensures run.states[i].nodes[n].slot.value.pub.authPolicy == Some(DUPLICATE_POLICY)
    ensures var refusal := DuplicateRefusal(session, run.states[i].nodes[n].slot.value, Object(target, Absent));
            && (refusal == None <==> session.kind == PolicyAuth && session.policy == DUPLICATE_POLICY && session.uses == [])
            && (session == FRESH_DUPLICATE_SESSION ==> refusal == None)
            && (session.kind != PolicyAuth ==> refusal == Some(AuthType))
  {
    RunKeepsInv(c, run, i);
  }
}
