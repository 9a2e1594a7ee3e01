/** Several sceau processes on one TPM: genesis, join, enrol and serve, each broken up into the
    TPM commands that read or write the fleet key's slot, which interleave in any order, on any
    number of nodes, any of them failing before or after it took effect. Every such command turns
    out to be a step `Cluster` already allows, so its theorems hold here too. */
module Interleaving {
  import opened Wrappers
  import opened Tpm
  import opened Fleet
  import opened Wire
  import opened Sealer
  import opened Kms
  import C = Cluster

  datatype Failure = No | Before | After

  /** The next command of a process. A join starts here once the key of its reply is loaded. */
  datatype Proc =
    | GenesisProbe(force: bool) | GenesisEvict | GenesisPersist
    | JoinProbe(reply: C.Reply) | JoinEvict(reply: C.Reply) | JoinPersist(reply: C.Reply)
    | ServeProbe | ServeSrk | ServeRead | ServeFallback
    | EnrolRead(target: Public) | EnrolDuplicate(target: Public, pub: Public)
    | Ended(ok: bool)

  datatype State = State(base: C.State, procs: map<nat, (C.NodeId, Proc)>)

  /** `d` is what the TPM returns to an enrolling seed. */
  datatype Step =
    | Launch(p: nat, n: C.NodeId, proc: Proc)
    | Command(p: nat, failure: Failure, d: Duplicated)
    | Single(step: C.Step)   // requests and exits that touch the slot with one command at most

  // ----- The commands -----

  datatype Outcome = Outcome(slot: Option<Object>, ok: bool)

  predicate Probed(slot: Option<Object>, failure: Failure) {
    slot.Some? && failure == No
  }

  function Evicted(slot: Option<Object>, failure: Failure): Outcome {
    if failure == Before || slot.None? then Outcome(slot, false) else Outcome(None, failure == No)
  }

  function Persisted(slot: Option<Object>, key: Object, failure: Failure): Outcome {
    if failure == Before || slot.Some? then Outcome(slot, false) else Outcome(Some(key), failure == No)
  }

  /** Processes that write the slot, and the key each would put there. */
  predicate IsWriter(proc: Proc) {
    proc.GenesisProbe? || proc.GenesisEvict? || proc.GenesisPersist? || proc.JoinProbe? || proc.JoinEvict? || proc.JoinPersist?
  }

  function KeyOf(seed: nat, proc: Proc): Object
    requires IsWriter(proc)
  {
    if proc.JoinProbe? || proc.JoinEvict? || proc.JoinPersist? then proc.reply.key else FleetKeyOf(seed)
  }

  function SlotCommand(key: Object, slot: Option<Object>, proc: Proc, failure: Failure): (Outcome, Proc)
    requires IsWriter(proc)
  {
    var kept, evicted, persisted := Outcome(slot, Probed(slot, failure)), Evicted(slot, failure), Persisted(slot, key, failure);
    match proc
    case GenesisProbe(force) => (kept, if !kept.ok then GenesisPersist else if force then GenesisEvict else Ended(true))
    case GenesisEvict => (evicted, if evicted.ok then GenesisPersist else Ended(false))
    case GenesisPersist => (persisted, Ended(persisted.ok))
    case JoinProbe(reply) => (kept, if kept.ok then JoinEvict(reply) else JoinPersist(reply))
    case JoinEvict(reply) => (evicted, if evicted.ok then JoinPersist(reply) else Ended(false))
    case JoinPersist(_) => (persisted, Ended(persisted.ok))
  }

  /** What the seed sends when it read `pub` and later got `d`. */
  function Sent(c: Crypto, pub: Public, d: Duplicated): DuplicateResponse {
    Encode(c, DuplicationBlob(pub, d.duplicate, d.seed, Some(d.innerKey)))
  }

  /** The TPM releases `key` to the seed's policy session, as `d`. */
  ghost predicate Released(c: Crypto, d: Duplicated, key: Object, target: Public) {
    DuplicateRefusal(FRESH_DUPLICATE_SESSION, key, Object(target, Absent)) == None && Duplicates(c, d, key, target)
  }

  /** The effect of the next command of `proc` on node `n`. A reply whose public area is not
      that of the duplicated key is dropped here: nobody can import it (`RacedReply`). */
  ghost function Executed(c: Crypto, s: C.State, n: C.NodeId, proc: Proc, failure: Failure, d: Duplicated): (C.State, Proc)
    requires n in s.nodes
  {
    var node := s.nodes[n];
    if IsWriter(proc) then
      var (o, proc') := SlotCommand(KeyOf(node.seed, proc), node.slot, proc, failure); (C.WithSlot(s, n, o.slot), proc')
    else match proc
    case ServeProbe => (s, if Probed(node.slot, failure) then ServeRead else ServeSrk)
    case ServeSrk =>
      if failure == No then (C.WithService(s, n, Some(C.Service(false, SrkOf(node.seed)))), Ended(true)) else (s, Ended(false))
    case ServeRead =>
      if Probed(node.slot, failure) then (C.WithService(s, n, Some(C.Service(true, node.slot.value))), ServeFallback)
      else (s, Ended(false))
    case ServeFallback => if failure == No then (s, Ended(true)) else (C.WithService(s, n, None), Ended(false))
    case EnrolRead(target) => (s, if Probed(node.slot, failure) then EnrolDuplicate(target, node.slot.value.pub) else Ended(false))
    case EnrolDuplicate(target, pub) =>
      if !Probed(node.slot, failure) || !Released(c, d, node.slot.value, target) then (s, Ended(false))
      else if pub != node.slot.value.pub then (s, Ended(true))
      else (s.(replies := s.replies + {C.Reply(target, node.slot.value, Sent(c, pub, d))}), Ended(true))
    case _ => (s, proc)
  }

  predicate Launchable(c: Crypto, s: C.State, n: C.NodeId, proc: Proc) {
    && n in s.nodes
    && match proc
       case GenesisProbe(_) => true
       case ServeProbe => true
       case ServeSrk => true   // --force-legacy
       case EnrolRead(_) => true
       case JoinProbe(reply) => CanImport(c, s, n, reply)
       case _ => false
  }

  /** The reply has been sent and imports on this node. */
  predicate CanImport(c: Crypto, s: C.State, n: C.NodeId, reply: C.Reply) {
    && n in s.nodes && reply in s.replies && Decode(c, reply.response).Ok?
    && Imported(c, Some(FleetKeyOf(s.nodes[n].seed)), Decode(c, reply.response).value) == Some(reply.key)
  }

  ghost predicate Next(c: Crypto, s: State, step: Step, t: State) {
    match step
    case Launch(p, n, proc) =>
      p !in s.procs && Launchable(c, s.base, n, proc) && t == s.(procs := s.procs[p := (n, proc)])
    case Command(p, failure, d) =>
      && p in s.procs && s.procs[p].0 in s.base.nodes
      && var (n, proc) := s.procs[p];
         var (base, proc') := Executed(c, s.base, n, proc, failure, d);
         t == State(base, s.procs[p := (n, proc')])
    case Single(step) => (step.Encrypt? || step.Stop?) && C.Next(c, s.base, step, t.base) && t.procs == s.procs
  }

  datatype Run = Run(states: seq<State>, steps: seq<Step>)

  ghost predicate IsRun(c: Crypto, run: Run) {
    && |run.states| == |run.steps| + 1
    && C.Initial(run.states[0].base) && run.states[0].procs == map[]
    && forall i :: 0 <= i < |run.steps| ==> Next(c, run.states[i], run.steps[i], run.states[i + 1])
  }

  // ----- Every command is a step of the cluster -----

  /** A join under way holds a key its reply imports to. */
  ghost predicate ProcInv(c: Crypto, s: C.State, n: C.NodeId, proc: Proc) {
    n in s.nodes && (proc.JoinProbe? || proc.JoinEvict? || proc.JoinPersist? ==> CanImport(c, s, n, proc.reply))
  }

  ghost predicate Inv(c: Crypto, s: State) {
    && C.Inv(c, s.base)
    && forall p :: p in s.procs ==> ProcInv(c, s.base, s.procs[p].0, s.procs[p].1)
  }

  /** A genesis that finds nothing to do. */
  function Idle(s: C.State, n: C.NodeId): C.Step
    requires n in s.nodes
  {
    C.Genesis(n, false, s.nodes[n].slot, false)
  }

  /** The step of the cluster a command amounts to: an eviction is a forced genesis or a join
      that failed half-way, what only reads is a step that changes nothing. */
  function CommandLabel(c: Crypto, s: C.State, n: C.NodeId, proc: Proc, d: Duplicated, t: C.State): C.Step
    requires n in s.nodes && n in t.nodes
  {
    var slot := t.nodes[n].slot;
    match proc
    case GenesisEvict => C.Genesis(n, true, slot, false)
    case GenesisPersist => C.Genesis(n, false, slot, false)
    case JoinEvict(reply) => C.Join(n, reply, slot, false)
    case JoinPersist(reply) => C.Join(n, reply, slot, false)
    case ServeSrk => if t == s then Idle(s, n) else C.Serve(n, false)
    case ServeRead => if t == s then Idle(s, n) else C.Serve(n, true)
    case ServeFallback => if t == s then Idle(s, n) else C.Stop(n)
    case EnrolDuplicate(target, pub) => if t == s then Idle(s, n) else C.Enrol(n, target, Sent(c, pub, d))
    case _ => Idle(s, n)
  }

  lemma IdleStep(c: Crypto, s: C.State, n: C.NodeId)
    requires n in s.nodes
    ensures C.Next(c, s, Idle(s, n), s)
  {
    assert s.nodes[n := s.nodes[n]] == s.nodes;
  }

  lemma SentDelivers(c: Crypto, d: Duplicated, key: Object, target: Public)
    requires Sound(c) && C.IsFleetKey(key) && Duplicates(c, d, key, target)
    ensures Delivers(c, Sent(c, key.pub, d), key, target)
  {
    var blob := DuplicationBlob(key.pub, d.duplicate, d.seed, Some(d.innerKey));
    BlobCarries(c, d, key, target, blob);
    EncodedBlobDelivers(c, blob, key, target);
  }

  /** When the slot changed between the seed's two commands, the reply is of no use to anybody. */
  lemma RacedReply(c: Crypto, d: Duplicated, key: Object, target: Public, pub: Public)
    requires Sound(c) && Duplicates(c, d, key, target) && pub != key.pub
    ensures Decode(c, Sent(c, pub, d)).Ok?
    ensures forall parent: Object :: Imported(c, Some(parent), Decode(c, Sent(c, pub, d)).value) == None
  {
    DecodeUndoesEncode(c, DuplicationBlob(pub, d.duplicate, d.seed, Some(d.innerKey)));
  }

  lemma SlotCommandIsStep(c: Crypto, s: C.State, n: C.NodeId, proc: Proc, failure: Failure, d: Duplicated)
    requires n in s.nodes && IsWriter(proc) && (proc.JoinEvict? || proc.JoinPersist? ==> CanImport(c, s, n, proc.reply))
    ensures var t := Executed(c, s, n, proc, failure, d).0;
            t.nodes.Keys == s.nodes.Keys && C.Next(c, s, CommandLabel(c, s, n, proc, d, t), t)
  {
    IdleStep(c, s, n);
  }

  lemma EnrolCommandIsStep(c: Crypto, s: C.State, n: C.NodeId, proc: Proc, failure: Failure, d: Duplicated)
    requires Sound(c) && C.Inv(c, s) && n in s.nodes && proc.EnrolDuplicate?
    ensures var t := Executed(c, s, n, proc, failure, d).0;
            t.nodes == s.nodes && C.Next(c, s, CommandLabel(c, s, n, proc, d, t), t)
  {
    IdleStep(c, s, n);
    if s.nodes[n].slot.Some? && Duplicates(c, d, s.nodes[n].slot.value, proc.target) {
      SentDelivers(c, d, s.nodes[n].slot.value, proc.target);
    }
  }

  lemma CommandIsStep(c: Crypto, s: C.State, n: C.NodeId, proc: Proc, failure: Failure, d: Duplicated)
    requires Sound(c) && C.Inv(c, s) && n in s.nodes
    requires proc.JoinEvict? || proc.JoinPersist? ==> CanImport(c, s, n, proc.reply)
    ensures var t := Executed(c, s, n, proc, failure, d).0;
            t.nodes.Keys == s.nodes.Keys && C.Next(c, s, CommandLabel(c, s, n, proc, d, t), t)
  {
    if IsWriter(proc) {
      SlotCommandIsStep(c, s, n, proc, failure, d);
    } else if proc.EnrolDuplicate? {
      EnrolCommandIsStep(c, s, n, proc, failure, d);
    } else {
      IdleStep(c, s, n);
    }
  }

  predicate HasLabel(s: State, step: Step, t: State) {
    && (step.Launch? ==> step.n in s.base.nodes)
    && (step.Command? ==> step.p in s.procs && s.procs[step.p].0 in s.base.nodes && s.procs[step.p].0 in t.base.nodes)
  }

  function Label(c: Crypto, s: State, step: Step, t: State): C.Step
    requires HasLabel(s, step, t)
  {
    match step
    case Launch(_, n, _) => Idle(s.base, n)
    case Command(p, _, d) => CommandLabel(c, s.base, s.procs[p].0, s.procs[p].1, d, t.base)
    case Single(step) => step
  }

  /** Later states keep every reply and every node's TPM. */
  predicate Extends(s: C.State, t: C.State) {
    && s.replies <= t.replies && s.nodes.Keys == t.nodes.Keys
    && forall n :: n in s.nodes ==> t.nodes[n].seed == s.nodes[n].seed
  }

  lemma StepExtends(c: Crypto, s: C.State, step: C.Step, t: C.State)
    requires C.Next(c, s, step, t)
    ensures Extends(s, t)
  {
  }

  lemma StepSimulates(c: Crypto, s: State, step: Step, t: State)
    requires Sound(c) && Inv(c, s) && Next(c, s, step, t)
    ensures HasLabel(s, step, t) && C.Next(c, s.base, Label(c, s, step, t), t.base)
  {
    match step
    case Launch(_, n, _) => IdleStep(c, s.base, n);
    case Command(p, failure, d) => CommandIsStep(c, s.base, s.procs[p].0, s.procs[p].1, failure, d);
    case Single(_) =>
  }

  lemma ProcStays(c: Crypto, s: C.State, t: C.State, n: C.NodeId, proc: Proc)
    requires Extends(s, t) && ProcInv(c, s, n, proc)
    ensures ProcInv(c, t, n, proc)
  {
  }

  lemma ProcGoesOn(c: Crypto, s: C.State, n: C.NodeId, proc: Proc, failure: Failure, d: Duplicated)
    requires ProcInv(c, s, n, proc)
    ensures ProcInv(c, s, n, Executed(c, s, n, proc, failure, d).1)
  {
  }

  lemma StepKeepsInv(c: Crypto, s: State, step: Step, t: State)
    requires Sound(c) && Inv(c, s) && Next(c, s, step, t)
    ensures Inv(c, t)
  {
    StepSimulates(c, s, step, t);
    C.StepKeepsInv(c, s.base, Label(c, s, step, t), t.base);
    StepExtends(c, s.base, Label(c, s, step, t), t.base);
    forall p | p in t.procs ensures ProcInv(c, t.base, t.procs[p].0, t.procs[p].1) {
      if step.Command? && p == step.p {
        ProcGoesOn(c, s.base, s.procs[p].0, s.procs[p].1, step.failure, step.d);
      }
      ProcStays(c, s.base, t.base, t.procs[p].0, t.procs[p].1);
    }
  }

  lemma {:induction false} RunKeepsInv(c: Crypto, run: Run, i: nat)
    requires Sound(c) && IsRun(c, run) && i < |run.states|
    ensures Inv(c, run.states[i])
  {
    if i > 0 {
      RunKeepsInv(c, run, i - 1);
      StepKeepsInv(c, run.states[i - 1], run.steps[i - 1], run.states[i]);
    }
  }

  lemma RunSimulates(c: Crypto, run: Run, i: nat)
    requires Sound(c) && IsRun(c, run) && i < |run.steps|
    ensures HasLabel(run.states[i], run.steps[i], run.states[i + 1])
    ensures C.Next(c, run.states[i].base, Label(c, run.states[i], run.steps[i], run.states[i + 1]), run.states[i + 1].base)
  {
    RunKeepsInv(c, run, i);
    StepSimulates(c, run.states[i], run.steps[i], run.states[i + 1]);
  }

  ghost predicate Simulated(c: Crypto, run: Run, i: nat)
    requires i < |run.steps| && |run.states| == |run.steps| + 1
  {
    && HasLabel(run.states[i], run.steps[i], run.states[i + 1])
    && C.Next(c, run.states[i].base, Label(c, run.states[i], run.steps[i], run.states[i + 1]), run.states[i + 1].base)
  }

  lemma Assembled(c: Crypto, run: Run) returns (flat: C.Run)
    requires |run.states| == |run.steps| + 1 && C.Initial(run.states[0].base)
    requires forall i :: 0 <= i < |run.steps| ==> Simulated(c, run, i)
    ensures C.IsRun(c, flat) && |flat.states| == |run.states| && |flat.steps| == |run.steps|
    ensures forall i :: 0 <= i < |run.states| ==> flat.states[i] == run.states[i].base
    ensures forall i :: 0 <= i < |run.steps| ==>
              HasLabel(run.states[i], run.steps[i], run.states[i + 1])
              && flat.steps[i] == Label(c, run.states[i], run.steps[i], run.states[i + 1])
  {
    forall i | 0 <= i < |run.steps| ensures HasLabel(run.states[i], run.steps[i], run.states[i + 1]) {
      assert Simulated(c, run, i);
    }
    flat := C.Run(
      seq(|run.states|, i requires 0 <= i < |run.states| => run.states[i].base),
      seq(|run.steps|, i requires 0 <= i < |run.steps| && HasLabel(run.states[i], run.steps[i], run.states[i + 1]) =>
        Label(c, run.states[i], run.steps[i], run.states[i + 1])));
    forall i | 0 <= i < |flat.steps| ensures C.Next(c, flat.states[i], flat.steps[i], flat.states[i + 1]) {
      assert Simulated(c, run, i);
    }
  }

  /** Every interleaving is a run of the cluster, command by command. */
  lemma Flattened(c: Crypto, run: Run) returns (flat: C.Run)
    requires Sound(c) && IsRun(c, run)
    ensures C.IsRun(c, flat) && |flat.states| == |run.states| && |flat.steps| == |run.steps|
    ensures forall i :: 0 <= i < |run.states| ==> flat.states[i] == run.states[i].base
    ensures forall i :: 0 <= i < |run.steps| ==>
              HasLabel(run.states[i], run.steps[i], run.states[i + 1])
              && flat.steps[i] == Label(c, run.states[i], run.steps[i], run.states[i + 1])
  {
    forall i | 0 <= i < |run.steps| ensures Simulated(c, run, i) {
      RunSimulates(c, run, i);
    }
    flat := Assembled(c, run);
  }

  // ----- Agreement -----

  /** This command puts a genesis key into an empty slot. */
  predicate GenesisPersists(s: State, step: Step) {
    && step.Command? && step.p in s.procs && s.procs[step.p].1.GenesisPersist? && step.failure != Before
    && s.procs[step.p].0 in s.base.nodes && s.base.nodes[s.procs[step.p].0].slot.None?
  }

  /** If so, no other fleet key is in use at that moment. */
  predicate PersistsSafely(s: State, step: Step) {
    GenesisPersists(s, step) ==> C.GenesisSafe(s.base, s.procs[step.p].0)
  }

  lemma WritesOnlyByPersist(c: Crypto, s: State, step: Step, t: State)
    requires Next(c, s, step, t) && HasLabel(s, step, t)
    ensures C.GenesisWrites(s.base, Label(c, s, step, t)) <==> GenesisPersists(s, step)
    ensures GenesisPersists(s, step) ==> Label(c, s, step, t).n == s.procs[step.p].0
    ensures PersistsSafely(s, step) <==>
              (C.GenesisWrites(s.base, Label(c, s, step, t)) ==> C.GenesisSafe(s.base, Label(c, s, step, t).n))
  {
  }

  /** One fleet key everywhere in every interleaving of the processes' commands, if and only if
      no genesis persisted a key while a different one was in use. */
  lemma InterleavedAgreement(c: Crypto, run: Run)
    requires Sound(c) && IsRun(c, run)
    ensures (forall i :: 0 <= i < |run.states| ==> C.Agree(run.states[i].base)) <==>
            (forall i :: 0 <= i < |run.steps| ==> PersistsSafely(run.states[i], run.steps[i]))
  {
    var flat := Flattened(c, run);
    C.AgreementExactly(c, flat);
    forall i | 0 <= i < |run.steps|
      ensures PersistsSafely(run.states[i], run.steps[i]) <==>
                (C.GenesisWrites(flat.states[i], flat.steps[i]) ==> C.GenesisSafe(flat.states[i], flat.steps[i].n))
    {
      WritesOnlyByPersist(c, run.states[i], run.steps[i], run.states[i + 1]);
    }
    assert (forall i :: 0 <= i < |run.states| ==> C.Agree(run.states[i].base)) <==>
           (forall i :: 0 <= i < |flat.states| ==> C.Agree(flat.states[i]));
  }

  /** Every persist of a genesis is on a TPM with owner seed `x`. */
  ghost predicate OneOwner(run: Run, x: nat) {
    forall i :: 0 <= i < |run.steps| && i < |run.states| && GenesisPersists(run.states[i], run.steps[i]) ==>
      run.states[i].base.nodes[run.states[i].procs[run.steps[i].p].0].seed == x
  }

  /** Geneses on one TPM only, however many processes at a time, forced or not, interleaved with
      joins, enrols and serves anywhere: its key is the only one ever in use. */
  lemma InterleavedFleetAgreement(c: Crypto, run: Run, i: nat, x: nat)
    requires Sound(c) && IsRun(c, run) && OneOwner(run, x) && i < |run.states|
    ensures C.AgreeOn(run.states[i].base, FleetKeyOf(x))
  {
    var flat := Flattened(c, run);
    forall j | 0 <= j < |flat.steps| && C.GenesisWrites(flat.states[j], flat.steps[j])
      ensures flat.states[j].nodes[flat.steps[j].n].seed == x
    {
      WritesOnlyByPersist(c, run.states[j], run.steps[j], run.states[j + 1]);
    }
    C.FleetAgreement(c, flat, i, x);
  }

  // ----- The slot -----

  /** A slot changes by a command of a process on that node only: an eviction empties it, and a
      persist fills it when it is empty. No interleaving overwrites a key. */
  lemma SlotChanges(c: Crypto, s: State, step: Step, t: State, n: C.NodeId)
    requires Next(c, s, step, t) && n in s.base.nodes
    ensures n in t.base.nodes
    ensures var before, after := s.base.nodes[n].slot, t.base.nodes[n].slot;
            before != after ==>
              && step.Command? && s.procs[step.p].0 == n && IsWriter(s.procs[step.p].1)
              && var proc := s.procs[step.p].1;
                 if before.Some? then after == None && (proc.GenesisEvict? || proc.JoinEvict?)
                 else after == Some(KeyOf(s.base.nodes[n].seed, proc)) && (proc.GenesisPersist? || proc.JoinPersist?)
  {
  }

  /** A key is never overwritten: through whatever processes a slot comes to hold a different
      key, there was a state in between in which it was empty. */
  lemma {:induction false} EmptyBetween(c: Crypto, run: Run, n: C.NodeId, i: nat, j: nat)
    requires IsRun(c, run) && i <= j < |run.states|
    requires n in run.states[i].base.nodes && run.states[i].base.nodes[n].slot.Some?
    ensures n in run.states[j].base.nodes
    ensures run.states[j].base.nodes[n].slot == run.states[i].base.nodes[n].slot
            || exists k :: i < k <= j && n in run.states[k].base.nodes && run.states[k].base.nodes[n].slot == None
    decreases j
  {
    if i < j {
      EmptyBetween(c, run, n, i, j - 1);
      SlotChanges(c, run.states[j - 1], run.steps[j - 1], run.states[j], n);
    }
  }

  /** A process that reports success has its key in the slot at that moment, or is a genesis that
      found a key there. */
  lemma SuccessMeansKey(c: Crypto, s: State, step: Step, t: State)
    requires Next(c, s, step, t) && step.Command? && IsWriter(s.procs[step.p].1) && t.procs[step.p].1 == Ended(true)
    ensures var (n, proc) := s.procs[step.p];
            n in t.base.nodes && t.base.nodes[n].slot.Some?
            && (proc == GenesisProbe(false) || t.base.nodes[n].slot.value == KeyOf(s.base.nodes[n].seed, proc))
  {
  }

  /** Neither a join nor a forced genesis is ever launched on `n`. */
  ghost predicate NoEvictorLaunched(run: Run, n: C.NodeId) {
    forall i :: 0 <= i < |run.steps| && run.steps[i].Launch? && run.steps[i].n == n ==>
      !run.steps[i].proc.JoinProbe? && run.steps[i].proc != GenesisProbe(true)
  }

  predicate MayEvict(proc: Proc) {
    proc == GenesisProbe(true) || proc.GenesisEvict? || proc.JoinProbe? || proc.JoinEvict?
  }

  lemma {:induction false} NoEvictors(c: Crypto, run: Run, n: C.NodeId, i: nat)
    requires IsRun(c, run) && NoEvictorLaunched(run, n) && i < |run.states|
    ensures forall p :: p in run.states[i].procs && run.states[i].procs[p].0 == n ==> !MayEvict(run.states[i].procs[p].1)
  {
    if i > 0 {
      NoEvictors(c, run, n, i - 1);
      assert Next(c, run.states[i - 1], run.steps[i - 1], run.states[i]);
    }
  }

  /** Non-forced geneses, enrols and serves, however many at a time and whatever fails, never
      take away a key once it is there. */
  lemma {:induction false} OccupiedSurvives(c: Crypto, run: Run, n: C.NodeId, i: nat, j: nat)
    requires IsRun(c, run) && NoEvictorLaunched(run, n) && i <= j < |run.states|
    requires n in run.states[i].base.nodes && run.states[i].base.nodes[n].slot.Some?
    ensures n in run.states[j].base.nodes && run.states[j].base.nodes[n].slot == run.states[i].base.nodes[n].slot
    decreases j
  {
    if i < j {
      OccupiedSurvives(c, run, n, i, j - 1);
      NoEvictors(c, run, n, j - 1);
      SlotChanges(c, run.states[j - 1], run.steps[j - 1], run.states[j], n);
    }
  }

  // ----- One process alone -----

  /** The three commands of a process with nobody else at the slot. */
  function Alone(key: Object, slot: Option<Object>, proc: Proc, f: Failure, g: Failure, h: Failure): (Option<Object>, Proc)
    requires proc.GenesisProbe? || proc.JoinProbe?
  {
    var (o, p) := SlotCommand(key, slot, proc, f);
    if p.Ended? then (o.slot, p)
    else
      var (o, p) := SlotCommand(key, o.slot, p, g);
      if p.Ended? then (o.slot, p)
      else
        var (o, p) := SlotCommand(key, o.slot, p, h);
        (o.slot, p)
  }

  /** Failures that make a replacing process end this way. */
  function Pattern(slot: Option<Object>, after: Option<Object>, ok: bool): (Failure, Failure, Failure) {
    var last := if ok then No else After;
    if slot.None? then (No, if after.None? then Before else last, No)
    else if after.None? then (No, After, No)
    else if after == slot && !ok then (No, Before, No)
    else (No, No, last)
  }

  /** Uninterrupted, the commands of a genesis do exactly what the whole is promised to do under
      failures: each outcome of `GenesisOutcome` and no other. */
  lemma AloneIsGenesis(seed: nat, force: bool, slot: Option<Object>, after: Option<Object>, ok: bool)
    ensures GenesisOutcome(seed, force, slot, after, ok) <==>
              exists f, g, h :: Alone(FleetKeyOf(seed), slot, GenesisProbe(force), f, g, h) == (after, Ended(ok))
  {
    if GenesisOutcome(seed, force, slot, after, ok) {
      var (f, g, h) := if !force && slot.Some? then (if ok then No else Before, Before, No) else Pattern(slot, after, ok);
      assert Alone(FleetKeyOf(seed), slot, GenesisProbe(force), f, g, h) == (after, Ended(ok));
    }
  }

  /** And those of a join, from the loaded key on, each of `JoinOutcome` and no other. */
  lemma AloneIsJoin(reply: C.Reply, slot: Option<Object>, after: Option<Object>, ok: bool)
    ensures JoinOutcome(Some(reply.key), slot, after, ok) <==>
              exists f, g, h :: Alone(reply.key, slot, JoinProbe(reply), f, g, h) == (after, Ended(ok))
  {
    if JoinOutcome(Some(reply.key), slot, after, ok) {
      var (f, g, h) := Pattern(slot, after, ok);
      assert Alone(reply.key, slot, JoinProbe(reply), f, g, h) == (after, Ended(ok));
    }
  }

  /** Three commands of a process with nobody else at the TPM; one that has ended stays so. */
  ghost function Uninterrupted(c: Crypto, s: C.State, n: C.NodeId, proc: Proc, f: Failure, g: Failure, h: Failure, d: Duplicated)
    : (C.State, Proc)
    requires n in s.nodes
  {
    var (s1, p1) := Executed(c, s, n, proc, f, d);
    var (s2, p2) := if n in s1.nodes then Executed(c, s1, n, p1, g, d) else (s1, p1);
    if n in s2.nodes then Executed(c, s2, n, p2, h, d) else (s2, p2)
  }

  /** Uninterrupted, a serve comes up under the fleet key exactly when there is one and the probe
      did not fail, with the SRK behind it, and otherwise under the SRK; it comes up exactly when
      nothing else failed, and a failed read of the fleet key's public area is no fallback. */
  lemma AloneIsServe(c: Crypto, s: C.State, n: C.NodeId, f: Failure, g: Failure, h: Failure, d: Duplicated)
    requires n in s.nodes
    ensures var (t, end) := Uninterrupted(c, s, n, ServeProbe, f, g, h, d);
            var slot, seed := s.nodes[n].slot, s.nodes[n].seed;
            && n in t.nodes && t.nodes[n].slot == slot && end.Ended?
            && (end == Ended(true) <==> g == No && (slot.Some? && f == No ==> h == No))
            && (f == No && g == No && h == No ==>
                  end == Ended(true)
                  && t.nodes[n].service == Some(C.Service(slot.Some?, if slot.Some? then slot.value else SrkOf(seed))))
            && (end == Ended(true) && slot.None? ==> t.nodes[n].service == Some(C.Service(false, SrkOf(seed))))
            && (end == Ended(true) && slot.Some? ==>
                  t.nodes[n].service == Some(if f == No then C.Service(true, slot.value) else C.Service(false, SrkOf(seed))))
            && (slot.Some? && f == No && g != No ==> end == Ended(false) && t == s)
            && (end == Ended(true) ==> C.Next(c, s, C.Serve(n, slot.Some? && f == No), t))
  {
  }

  /** With `--force-legacy` it comes up under the SRK whatever the slot holds. */
  lemma AloneIsForcedLegacy(c: Crypto, s: C.State, n: C.NodeId, f: Failure, g: Failure, h: Failure, d: Duplicated)
    requires n in s.nodes
    ensures var (t, end) := Uninterrupted(c, s, n, ServeSrk, f, g, h, d);
            && (end == Ended(true) <==> f == No)
            && t == if f == No then C.WithService(s, n, Some(C.Service(false, SrkOf(s.nodes[n].seed)))) else s
  {
  }

  /** Uninterrupted, a seed replies exactly when neither command failed, the slot is occupied and
      the TPM releases the key; the reply is made from that key. */
  lemma AloneIsEnrol(c: Crypto, s: C.State, n: C.NodeId, target: Public, f: Failure, g: Failure, h: Failure, d: Duplicated)
    requires n in s.nodes
    ensures var (t, end) := Uninterrupted(c, s, n, EnrolRead(target), f, g, h, d);
            var slot := s.nodes[n].slot;
            && end.Ended?
            && (end == Ended(true) <==> f == No && g == No && slot.Some? && Released(c, d, slot.value, target))
            && (end == Ended(false) ==> t == s)
            && (end == Ended(true) ==>
                  t == s.(replies := s.replies + {C.Reply(target, slot.value, Sent(c, slot.value.pub, d))}))
  {
  }

  // ----- The commands on a TPM -----

  /** Probe, eviction and persist of a genesis or a join. `loaded` is the key to be persisted. */
  method Execute(ctx: Context, proc: Proc, loaded: Handle) returns (next: Proc, ghost failure: Failure)
    requires IsWriter(proc)
    requires proc.GenesisPersist? || proc.JoinPersist? ==>
               loaded.Transient? && ctx.ObjectAt(loaded) == Some(KeyOf(ctx.seed, proc)) && KeyOf(ctx.seed, proc).sensitive != Absent
    modifies ctx`slot, ctx`faults
    ensures var (o, proc') := SlotCommand(KeyOf(ctx.seed, proc), old(ctx.slot), proc, failure);
            ctx.slot == o.slot && next == proc'
    ensures ctx.faults == old(ctx.faults) ==> failure == No
  {
    var r: Result<Handle, Error>;
    if proc.GenesisProbe? || proc.JoinProbe? {
      r := LoadFleetKey(ctx);
    } else if proc.GenesisEvict? || proc.JoinEvict? {
      r := ctx.EvictControl(FleetSlot);
    } else {
      r := Persist(ctx, loaded);
    }
    failure := if r != Err(Fault) then No else if ctx.slot == old(ctx.slot) then Before else After;
    next := match proc
      case GenesisProbe(force) => if r.Err? then GenesisPersist else if force then GenesisEvict else Ended(true)
      case GenesisEvict => if r.Ok? then GenesisPersist else Ended(false)
      case GenesisPersist => Ended(r.Ok?)
      case JoinProbe(reply) => if r.Ok? then JoinEvict(reply) else JoinPersist(reply)
      case JoinEvict(reply) => if r.Ok? then JoinPersist(reply) else Ended(false)
      case JoinPersist(_) => Ended(r.Ok?);
  }

  /** The node's slot is the one of this TPM. */
  ghost predicate At(ctx: Context, s: C.State, n: C.NodeId)
    reads ctx
  {
    n in s.nodes && s.nodes[n].seed == ctx.seed && s.nodes[n].slot == ctx.slot
  }

  /** Probe, public area and SRK of a starting serve. A sealer is made when the command that
      makes one succeeds: around the slot, with the id of the key read there, or around the SRK. */
  method ServeCommand(ctx: Context, proc: Proc, ghost s: C.State, ghost n: C.NodeId, ghost d: Duplicated)
    returns (next: Proc, sealer: Option<TpmSealer>, ghost t: C.State, ghost failure: Failure)
    requires ctx.Valid() && At(ctx, s, n) && (proc.ServeProbe? || proc.ServeRead? || proc.ServeSrk? || proc.ServeFallback?)
    modifies ctx`transients, ctx`next, ctx`faults
    ensures ctx.Valid() && At(ctx, t, n) && (t, next) == Executed(ctx.crypto, s, n, proc, failure, d)
    ensures ctx.faults == old(ctx.faults) ==> failure == No
    ensures sealer.Some? <==> next == ServeFallback || (!proc.ServeProbe? && next == Ended(true))
    ensures sealer.Some? ==>
              if proc.ServeRead? then
                && ctx.slot.Some? && sealer.value == FleetService(ctx.crypto, ctx.seed, ctx.slot.value, 0).sealer
                && t.nodes[n].service == Some(C.Service(true, ctx.slot.value))
              else sealer.value == SrkSealer(ctx.crypto, ctx.seed, old(ctx.next)) && ctx.ObjectAt(sealer.value.primary) == Some(SrkOf(ctx.seed))
  {
    sealer := None;
    if proc.ServeProbe? {
      var r := LoadFleetKey(ctx);
      failure := if r == Err(Fault) then Before else No;
      next := if r.Ok? then ServeRead else ServeSrk;
    } else {
      var r: Result<TpmSealer, Error>;
      if proc.ServeRead? {
        r := FromPrimary(ctx, FleetSlot);
      } else {
        r := New(ctx);
      }
      sealer := r.ToOption();
      failure := if r.Ok? || ctx.faults == old(ctx.faults) then No else Before;
      next := if r.Err? then Ended(false) else if proc.ServeRead? then ServeFallback else Ended(true);
    }
    t := Executed(ctx.crypto, s, n, proc, failure, d).0;
  }

  /** Reading the public area of the seed's key. */
  method EnrolReadCommand(ctx: Context, proc: Proc, ghost s: C.State, ghost n: C.NodeId, ghost d: Duplicated)
    returns (next: Proc, ghost failure: Failure)
    requires At(ctx, s, n) && proc.EnrolRead?
    modifies ctx`faults
    ensures At(ctx, s, n) && (s, next) == Executed(ctx.crypto, s, n, proc, failure, d)
    ensures Grew(old(ctx.faults), ctx.faults) && (ctx.faults == old(ctx.faults) ==> failure == No)
  {
    var pub := ctx.ReadPublic(FleetSlot);
    failure := if pub == Err(Fault) then Before else No;
    next := if pub.Ok? then EnrolDuplicate(proc.target, pub.value) else Ended(false);
  }

  /** TPM2_Duplicate with the commands around it, none of which names the slot. */
  method DuplicateSlot(ctx: Context, target: Public) returns (r: Option<Duplicated>)
    requires ctx.Valid()
    modifies ctx`transients, ctx`sessions, ctx`next, ctx`faults
    ensures ctx.Valid() && Grew(old(ctx.faults), ctx.faults)
    ensures r.Some? ==> ctx.slot.Some? && Released(ctx.crypto, r.value, ctx.slot.value, target)
    ensures ctx.faults == old(ctx.faults) ==>
              (r.Some? <==> ctx.slot.Some? && DuplicateRefusal(FRESH_DUPLICATE_SESSION, ctx.slot.value, Object(target, Absent)) == None)
  {
    var external := ctx.LoadExternal(None, target);
    if external.Err? { return None; }
    var result := DuplicateUnderPolicy(ctx, FleetSlot, external.value);
    if result.Err? { return None; }
    var _ := ctx.FlushObject(external.value);
    r := result.value.ToOption();
  }

  /** Duplicating the seed's key. A reply is sent exactly when that succeeds. */
  method EnrolDuplicateCommand(ctx: Context, proc: Proc, ghost s: C.State, ghost n: C.NodeId)
    returns (next: Proc, response: Option<DuplicateResponse>, ghost t: C.State, ghost failure: Failure, ghost d: Duplicated)
    requires ctx.Valid() && At(ctx, s, n) && proc.EnrolDuplicate?
    modifies ctx`transients, ctx`sessions, ctx`next, ctx`faults
    ensures ctx.Valid() && At(ctx, t, n) && (t, next) == Executed(ctx.crypto, s, n, proc, failure, d)
    ensures Grew(old(ctx.faults), ctx.faults) && (response.Some? <==> next == Ended(true))
    ensures response.Some? ==>
              ctx.slot.Some? && Released(ctx.crypto, d, ctx.slot.value, proc.target) && response.value == Sent(ctx.crypto, proc.pub, d)
    ensures ctx.faults == old(ctx.faults) ==>
              (response.Some? <==>
                 ctx.slot.Some? && DuplicateRefusal(FRESH_DUPLICATE_SESSION, ctx.slot.value, Object(proc.target, Absent)) == None)
  {
    var r := DuplicateSlot(ctx, proc.target);
    if r.Some? {
      response, next, failure, d := Some(Sent(ctx.crypto, proc.pub, r.value)), Ended(true), No, r.value;
    } else {
      response, next, failure, d := None, Ended(false), Before, Duplicated([], [], []);
    }
    t := Executed(ctx.crypto, s, n, proc, failure, d).0;
  }

  /** Both, with nobody else at the TPM and nothing failing: a reply is made exactly when the slot
      is occupied and its key may be duplicated for `target`, and it delivers that key. */
  method EnrolAlone(ctx: Context, target: Public, ghost s: C.State, ghost n: C.NodeId)
    returns (response: Option<DuplicateResponse>, ghost t: C.State)
    requires ctx.Valid() && At(ctx, s, n) && C.Inv(ctx.crypto, s)
    modifies ctx`transients, ctx`sessions, ctx`next, ctx`faults
    ensures ctx.Valid() && At(ctx, t, n)
    ensures response.None? ==> t == s
    ensures response.Some? ==>
              && ctx.slot.Some? && Delivers(ctx.crypto, response.value, ctx.slot.value, target)
              && t == s.(replies := s.replies + {C.Reply(target, ctx.slot.value, response.value)})
    ensures ctx.faults == old(ctx.faults) ==>
              (response.Some? <==>
                 ctx.slot.Some? && DuplicateRefusal(FRESH_DUPLICATE_SESSION, ctx.slot.value, Object(target, Absent)) == None)
  {
    response, t := None, s;
    var next, _ := EnrolReadCommand(ctx, EnrolRead(target), s, n, Duplicated([], [], []));
    if next.Ended? { return; }
    var _, made, after, _, d := EnrolDuplicateCommand(ctx, next, s, n);
    response, t := made, after;
    if response.Some? { SentDelivers(ctx.crypto, d, ctx.slot.value, target); }
  }
}
