/** The epoch and step loop of `scripts/train_dflash.py` under crashes.

    A saved model is identified with the batches it went through, in order, and the optimizer steps it took: `(epoch,
    step_in_epoch)` names a batch, since the loader's order is a function of the epoch. Checkpoints are atomic, and a
    process may die before any batch or save; the gradients it had accumulated die with it. */
module Resume {
  import opened Prelude
  import opened Pieces
  import opened Checkpoint
  import opened Accumulation

  type Key = (nat, nat)

  /** The first `t` batches of training without interruption, with `len` batches to an epoch. */
  ghost function Consumed(len: nat, t: nat): seq<(nat, nat)>
    requires len >= 1
  {
    if t == 0 then [] else Consumed(len, t - 1) + [((t - 1) / len, (t - 1) % len)]
  }

  /** `epochs` epochs contain each batch of each epoch once, in order. */
  lemma {:induction false} ConsumedAt(len: nat, t: nat, i: nat)
    requires len >= 1 && i < t
    ensures |Consumed(len, t)| == t && Consumed(len, t)[i] == (i / len, i % len)
  {
    if t > 1 {
      ConsumedAt(len, t - 1, if i < t - 1 then i else 0);
    }
  }

  lemma PairIs(i: nat, len: nat, epoch: nat, step: nat)
    requires len >= 1 && step < len
    ensures (i / len, i % len) == (epoch, step) <==> i == epoch * len + step
  {
    BlockOf(epoch * len + step, epoch, step, len);
    assert i == (i / len) * len + i % len;
  }

  lemma EveryBatchOnce(len: nat, epochs: nat, epoch: nat, step: nat)
    requires len >= 1 && epoch < epochs && step < len
    ensures |Consumed(len, epochs * len)| == epochs * len
    ensures forall i :: 0 <= i < epochs * len ==>
              (Consumed(len, epochs * len)[i] == (epoch, step) <==> i == epoch * len + step)
  {
    AtLeastOne(epochs, len);
    BatchOnce(len, epochs * len, epoch, step, epoch * len + step);
  }

  lemma AtLeastOne(a: nat, b: nat)
    requires a >= 1 && b >= 1
    ensures a * b >= 1
  {
  }

  lemma BatchOnce(len: nat, n: nat, epoch: nat, step: nat, at: nat)
    requires len >= 1 && n >= 1 && step < len && at == epoch * len + step
    ensures |Consumed(len, n)| == n
    ensures forall i :: 0 <= i < n ==> (Consumed(len, n)[i] == (epoch, step) <==> i == at)
  {
    ConsumedAt(len, n, 0);
    forall i | 0 <= i < n ensures Consumed(len, n)[i] == (epoch, step) <==> i == at {
      ConsumedAt(len, n, i);
      PairIs(i, len, epoch, step);
    }
  }

  lemma ConsumedNext(len: nat, epoch: nat, step: nat, t: nat)
    requires len >= 1 && step < len && t == epoch * len + step
    ensures Consumed(len, t + 1) == Consumed(len, t) + [(epoch, step)]
  {
    BlockOf(t, epoch, step, len);
  }

  // ---------------------------------------------------------------- what a folder of checkpoints promises

  /** `steps` are the optimizer steps behind the weights, each with the numbers of the batches whose gradients it used;
      `resumes` are the steps at which the lineage of processes behind them was resumed. */
  datatype Saved = Saved(epoch: nat, globalStep: nat, batches: seq<(nat, nat)>, steps: seq<seq<nat>>, resumes: set<nat>)

  /** What a checkpoint of the given name holds: exactly the first `step` batches, and the optimizer steps that gradient
      accumulation makes of them. */
  ghost predicate Faithful(k: Key, saved: Saved, len: nat, a: nat)
    requires len >= 1 && a >= 1
  {
    && saved.epoch == k.0 && saved.globalStep == k.1 && saved.batches == Consumed(len, k.1)
    && (forall r :: r in saved.resumes ==> r <= k.1)
    && saved.steps == Applied(a, k.1, saved.resumes)
  }

  ghost predicate Sound(folder: map<Key, Saved>, len: nat, a: nat)
    requires len >= 1 && a >= 1
  {
    forall k :: k in folder ==> Faithful(k, folder[k], len, a)
  }

  /** Every checkpoint and every resume behind it falls between two groups of `a` batches. */
  ghost predicate Grouped(folder: map<Key, Saved>, a: nat)
    requires a >= 1
  {
    forall k :: k in folder ==> k.1 % a == 0 && forall r :: r in folder[k].resumes ==> r % a == 0
  }

  /** The step count lies within the named epoch. */
  ghost predicate InEpoch(k: Key, len: nat) {
    k.0 * len <= k.1 <= k.0 * len + len
  }

  ghost predicate Greatest(folder: map<Key, Saved>, k: Key) {
    k in folder && forall m :: m in folder ==> AtMost(m, k)
  }

  /** The checkpoint a resume would pick lies within its epoch. */
  ghost predicate Resumable(folder: map<Key, Saved>, len: nat) {
    forall k :: Greatest(folder, k) ==> InEpoch(k, len)
  }

  lemma SaveKeepsResumable(folder: map<Key, Saved>, len: nat, k: Key, saved: Saved)
    requires Resumable(folder, len)
    requires InEpoch(k, len) || exists m :: m in folder && !AtMost(m, k)
    ensures Resumable(folder[k := saved], len)
  {
    var after := folder[k := saved];
    forall g | Greatest(after, g) ensures InEpoch(g, len) {
      if g != k {
        assert forall m :: m in folder ==> m in after;
        assert Greatest(folder, g);
      } else if m :| m in folder && !AtMost(m, k) {
        assert m in after;
      }
    }
  }

  /** The directory listing shows the checkpoints of `folder` and otherwise nothing that looks like one. */
  ghost predicate Lists(content: seq<Entry>, folder: map<Key, Saved>) {
    && (forall k :: k in folder ==> Entry(Name(k.0, k.1), true) in content)
    && (forall e :: e in content && IsCheckpoint(e) ==> exists k :: k in folder && e.name == Name(k.0, k.1))
  }

  /** `get_last_checkpoint` on any listing that shows the checkpoints of `folder`: the epoch and step it reads off the
      name are those of the greatest one if and only if nothing else that looks like a checkpoint is greater. */
  lemma LastIsGreatestIff(content: seq<Entry>, folder: map<Key, Saved>)
    requires forall k :: k in folder ==> Entry(Name(k.0, k.1), true) in content
    ensures var last := LastCheckpoint(content);
            && (folder != map[] ==> last.Some?)
            && (last.Some? ==>
                  && Parse(last.value).Some?
                  && (Greatest(folder, Parse(last.value).value) <==>
                      forall e :: e in content && IsCheckpoint(e) ==>
                        exists k :: k in folder && AtMost(Parse(e.name).value, k)))
  {
    var last := LastCheckpoint(content);
    forall k | k in folder ensures last.Some? && AtMost(k, Parse(last.value).value) {
      ParseName(k.0, k.1);
      assert IsCheckpoint(Entry(Name(k.0, k.1), true));
    }
    if last.Some? {
      assert IsCheckpoint(Entry(last.value, true));
    }
  }

  /** On a folder with no such directory the greatest checkpoint is found. */
  lemma LastIsGreatest(content: seq<Entry>, folder: map<Key, Saved>)
    requires Lists(content, folder)
    ensures LastCheckpoint(content) == None <==> folder == map[]
    ensures LastCheckpoint(content).Some? ==>
              Parse(LastCheckpoint(content).value).Some? && Greatest(folder, Parse(LastCheckpoint(content).value).value)
  {
    LastIsGreatestIff(content, folder);
    forall e | e in content && IsCheckpoint(e) ensures exists k :: k in folder && AtMost(Parse(e.name).value, k) {
      var k :| k in folder && e.name == Name(k.0, k.1);
      ParseName(k.0, k.1);
    }
  }

  // ---------------------------------------------------------------- what a schedule of processes leaves

  /** The batches in an epoch, `--save-interval` and `--accumulation-steps`. */
  datatype Config = Config(len: nat, saveInterval: nat, accumulation: nat) {
    ghost predicate Ok() {
      len >= 1 && saveInterval >= 1 && accumulation >= 1
    }

    /** What a lineage resumed at `resumes` saves after `g` batches. */
    ghost function SavedAt(epoch: nat, g: nat, resumes: set<nat>): Saved
      requires Ok()
    {
      Saved(epoch, g, Consumed(len, g), Applied(accumulation, g, resumes), resumes)
    }
  }

  /** How a process is started: its flags, whether the training state file is readable, and how long it lives. */
  datatype Process = Process(resume: bool, hasState: bool, numEpochs: nat, lifetime: nat)

  /** A process between two batches: `life` counts the batches and saves it has left. */
  datatype Running = Running(folder: map<Key, Saved>, globalStep: nat, life: nat, alive: bool)

  /** One batch and, when due, a checkpoint; without life left the process dies before either. */
  ghost function OneBatch(c: Config, resumes: set<nat>, st: Running): Running
    requires c.Ok() && st.alive
  {
    var g := st.globalStep + 1;
    if st.life == 0 then st.(alive := false)
    else if g % c.saveInterval != 0 then Running(st.folder, g, st.life - 1, true)
    else if st.life == 1 then Running(st.folder, g, 0, false)
    else
      var epoch := st.globalStep / c.len;
      Running(st.folder[(epoch, g) := c.SavedAt(epoch, g, resumes)], g, st.life - 2, true)
  }

  /** The batches up to `total`. */
  ghost function Batches(c: Config, resumes: set<nat>, st: Running, total: nat): Running
    requires c.Ok()
    decreases if st.alive then Max(0, total - st.globalStep) + 1 else 0
  {
    if !st.alive || st.globalStep >= total then st else Batches(c, resumes, OneBatch(c, resumes, st), total)
  }

  /** A process that starts after `g0` batches: the folder it leaves and whether it finished. */
  ghost function RunFrom(c: Config, folder: map<Key, Saved>, g0: nat, resumes: set<nat>, numEpochs: nat,
                         life: nat): (map<Key, Saved>, bool)
    requires c.Ok()
  {
    var st := Batches(c, resumes, Running(folder, g0, life, true), numEpochs * c.len);
    if !st.alive || st.life == 0 then (st.folder, false)
    else (st.folder[(numEpochs, st.globalStep) := c.SavedAt(numEpochs, st.globalStep, resumes)], true)
  }

  /** One process on a folder. */
  ghost function Outcome(c: Config, folder: map<Key, Saved>, p: Process): (map<Key, Saved>, bool)
    requires c.Ok()
  {
    if p.resume && exists k :: Greatest(folder, k) then
      var k :| Greatest(folder, k);
      RunFrom(c, folder, k.1, folder[k].resumes + {k.1}, p.numEpochs, p.lifetime)
    else
      RunFrom(c, folder, 0, {}, p.numEpochs, p.lifetime)
  }

  /** The folder after the first `n` processes. */
  ghost function FolderAfter(c: Config, processes: seq<Process>, n: nat): map<Key, Saved>
    requires c.Ok() && n <= |processes|
  {
    if n == 0 then map[] else Outcome(c, FolderAfter(c, processes, n - 1), processes[n - 1]).0
  }

  lemma GreatestUnique(folder: map<Key, Saved>, k: Key, m: Key)
    requires Greatest(folder, k) && Greatest(folder, m)
    ensures k == m
  {
  }

  /** A process starts at the greatest checkpoint, or at the beginning. */
  lemma OutcomeIs(c: Config, folder: map<Key, Saved>, p: Process, epoch: nat, g0: nat, resumes: set<nat>)
    requires c.Ok()
    requires if p.resume && folder != map[]
             then Greatest(folder, (epoch, g0)) && resumes == folder[(epoch, g0)].resumes + {g0}
             else g0 == 0 && resumes == {}
    ensures Outcome(c, folder, p) == RunFrom(c, folder, g0, resumes, p.numEpochs, p.lifetime)
  {
    if p.resume && exists k :: Greatest(folder, k) {
      var k :| Greatest(folder, k);
      GreatestUnique(folder, k, (epoch, g0));
    }
  }

  // ---------------------------------------------------------------- the trainer

  class Trainer {
    const len: nat
    const saveInterval: nat
    const accumulation: nat
    /** Whatever else lies in the output directory. */
    const others: seq<Entry>
    var folder: map<Key, Saved>
    // the state of one process, lost in a crash
    var globalStep: nat
    var batches: seq<(nat, nat)>
    /** Batches whose gradients are held, and the optimizer steps taken so far. */
    var pending: seq<nat>
    var steps: seq<seq<nat>>
    var resumes: set<nat>
    /** Batches and saves the process lives for. */
    var life: nat

    ghost predicate Valid()
      reads this
    {
      && len >= 1 && saveInterval >= 1 && accumulation >= 1
      && (forall e :: e in others ==> !IsCheckpoint(e))
      && Sound(folder, len, accumulation) && Resumable(folder, len)
      && (Divisible() ==> Grouped(folder, accumulation))
    }

    /** The accumulation count divides the save interval and the epoch. */
    ghost predicate Divisible()
      requires accumulation >= 1
      reads this
    {
      saveInterval % accumulation == 0 && len % accumulation == 0
    }

    ghost predicate InStep()
      requires len >= 1 && accumulation >= 1
      reads this
    {
      && batches == Consumed(len, globalStep)
      && (forall r :: r in resumes ==> r <= globalStep)
      && pending == Pending(accumulation, globalStep, resumes) && steps == Applied(accumulation, globalStep, resumes)
      && (Divisible() ==> forall r :: r in resumes ==> r % accumulation == 0)
    }

    function Current(epoch: nat): Saved
      reads this
    {
      Saved(epoch, globalStep, batches, steps, resumes)
    }

    function Flags(): Config {
      Config(len, saveInterval, accumulation)
    }

    function Here(alive: bool): Running
      reads this
    {
      Running(folder, globalStep, life, alive)
    }

    constructor (len: nat, saveInterval: nat, accumulation: nat, others: seq<Entry>)
      requires len >= 1 && saveInterval >= 1 && accumulation >= 1 && forall e :: e in others ==> !IsCheckpoint(e)
      ensures Valid() && folder == map[]
      ensures this.len == len && this.saveInterval == saveInterval && this.accumulation == accumulation
    {
      this.len, this.saveInterval, this.accumulation, this.others := len, saveInterval, accumulation, others;
      folder, globalStep, batches, pending, steps, resumes, life := map[], 0, [], [], [], {}, 0;
    }

    /** `os.listdir`, in any order. */
    method ListDir() returns (content: seq<Entry>)
      requires Valid()
      ensures Lists(content, folder)
    {
      content := others;
      var left := folder.Keys;
      while left != {}
        invariant left <= folder.Keys
        invariant forall k :: k in folder && k !in left ==> Entry(Name(k.0, k.1), true) in content
        invariant forall e :: e in content && IsCheckpoint(e) ==> exists k :: k in folder && e.name == Name(k.0, k.1)
      {
        var k :| k in left;
        left := left - {k};
        content := content + [Entry(Name(k.0, k.1), true)];
      }
    }

    method Save(epoch: nat)
      requires Valid() && InStep()
      requires InEpoch((epoch, globalStep), len) || exists m :: m in folder && !AtMost(m, (epoch, globalStep))
      requires Divisible() ==> globalStep % accumulation == 0
      modifies this`folder
      ensures Valid()
      ensures folder == old(folder)[(epoch, globalStep) := Current(epoch)]
    {
      SaveKeepsResumable(folder, len, (epoch, globalStep), Current(epoch));
      folder := folder[(epoch, globalStep) := Current(epoch)];
    }

    /** Lines 365-369: the greatest checkpoint of the output directory. */
    method FindLast() returns (last: Option<Key>)
      requires Valid()
      ensures last == None <==> folder == map[]
      ensures last.Some? ==> Greatest(folder, last.value)
    {
      var content := ListDir();
      LastIsGreatest(content, folder);
      var name := LastCheckpoint(content);
      last := if name.Some? then Some(Parse(name.value).value) else None;
    }

    /** Lines 382-400 and 461-476: the process takes over a checkpoint. Epoch and step come from the saved state, or
        from the name; the gradients its predecessor had accumulated are gone. */
    method Load(k: Key, hasState: bool) returns (epoch: nat)
      requires Valid() && k in folder
      modifies this`globalStep, this`batches, this`pending, this`steps, this`resumes
      ensures InStep() && (epoch, globalStep) == k && resumes == folder[k].resumes + {k.1}
      ensures Divisible() ==> globalStep % accumulation == 0
    {
      assert Faithful(k, folder[k], len, accumulation);
      batches, steps, resumes, pending := folder[k].batches, folder[k].steps, folder[k].resumes + {k.1}, [];
      AppliedFrame(accumulation, k.1, folder[k].resumes, resumes);
      if hasState {
        epoch, globalStep := folder[k].epoch, folder[k].globalStep;
      } else {
        epoch, globalStep := k.0, k.1;
      }
    }

    /** Where the process starts. */
    method Start(resume: bool, hasState: bool) returns (epoch: nat)
      requires Valid()
      modifies this`globalStep, this`batches, this`pending, this`steps, this`resumes
      ensures InStep() && InEpoch((epoch, globalStep), len)
      ensures Divisible() ==> globalStep % accumulation == 0
      ensures if resume && folder != map[]
              then Greatest(folder, (epoch, globalStep))
                && resumes == folder[(epoch, globalStep)].resumes + {globalStep}
              else epoch == globalStep == 0 && resumes == {}
    {
      var last := None;
      if resume {
        last := FindLast();
      }
      if last.Some? {
        epoch := Load(last.value, hasState);
      } else {
        epoch, globalStep, batches, pending, steps, resumes := 0, 0, [], [], [], {};
      }
    }

    /** One batch: its gradient is accumulated, and every `accumulation` batches the optimizer steps. */
    method TrainBatch(epoch: nat, step: nat)
      requires len >= 1 && accumulation >= 1 && InStep() && step < len && globalStep == epoch * len + step
      modifies this`globalStep, this`batches, this`pending, this`steps
      ensures InStep() && globalStep == old(globalStep) + 1
    {
      ConsumedNext(len, epoch, step, globalStep);
      batches := batches + [(epoch, step)];
      pending := pending + [globalStep];
      globalStep := globalStep + 1;
      if globalStep % accumulation == 0 {
        steps, pending := steps + [pending], [];
      }
    }

    /** One batch and, when due, a checkpoint. */
    method Step(epoch: nat, step: nat) returns (alive: bool)
      requires Valid() && InStep() && step < len && globalStep == epoch * len + step
      modifies this`folder, this`globalStep, this`batches, this`pending, this`steps, this`life
      ensures Valid()
      ensures alive ==> InStep() && globalStep == old(globalStep) + 1
      ensures alive ==> folder == if globalStep % saveInterval == 0
                                  then old(folder)[(epoch, globalStep) := Current(epoch)] else old(folder)
      ensures old(life) >= 2 ==> alive && life >= old(life) - 2
      ensures Here(alive) == OneBatch(Flags(), resumes, old(Here(true)))
    {
      BlockOf(globalStep, epoch, step, len);
      if life == 0 {
        return false;
      }
      life := life - 1;
      TrainBatch(epoch, step);
      if Divisible() && globalStep % saveInterval == 0 {
        Divides(accumulation, saveInterval, globalStep);
      }
      if globalStep % saveInterval == 0 {
        if life == 0 {
          return false;
        }
        life := life - 1;
        Save(epoch);
      }
      alive := true;
    }

    /** One epoch, skipping the batches a resumed process had already consumed. */
    method Epoch(epoch: nat, start: nat, skipSteps: int, ghost g0: nat, ghost base: nat, ghost total: nat)
      returns (alive: bool)
      requires Valid() && InStep() && base == epoch * len && globalStep == Max(g0, base) && g0 <= base + len <= total
      requires if epoch == start then skipSteps == g0 - base else g0 <= base
      modifies this`folder, this`globalStep, this`batches, this`pending, this`steps, this`life
      ensures Valid()
      ensures alive ==> InStep() && globalStep == base + len
      ensures Batches(Flags(), resumes, Here(alive), total) == Batches(Flags(), resumes, old(Here(true)), total)
    {
      for step := 0 to len
        invariant Valid() && InStep() && globalStep == Max(g0, base + step)
        invariant Batches(Flags(), resumes, Here(true), total) == Batches(Flags(), resumes, old(Here(true)), total)
      {
        if epoch == start && step < skipSteps {
          continue;
        }
        alive := Step(epoch, step);
        if !alive {
          return;
        }
      }
      alive := true;
    }

    /** The epoch loop: the process goes through the batches up to the end of the last epoch, or dies. */
    method Epochs(first: nat, numEpochs: nat, ghost total: nat) returns (alive: bool)
      requires Valid() && InStep() && InEpoch((first, globalStep), len) && total == numEpochs * len
      modifies this`folder, this`globalStep, this`batches, this`pending, this`steps, this`life
      ensures Valid()
      ensures alive ==> InStep() && globalStep == Max(old(globalStep), total)
      ensures Here(alive) == Batches(Flags(), resumes, old(Here(true)), total)
    {
      ghost var g0 := globalStep;
      var skipSteps: int := globalStep - first * len;
      var epoch := first;
      ghost var base := first * len;
      while epoch < numEpochs
        invariant Valid() && InStep() && first <= epoch && (epoch <= numEpochs || epoch == first)
        invariant base == epoch * len && globalStep == Max(g0, base) && g0 <= base + len
        invariant if epoch == first then skipSteps == g0 - base else g0 <= base
        invariant Batches(Flags(), resumes, Here(true), total) == Batches(Flags(), resumes, old(Here(true)), total)
      {
        EpochWithin(epoch, numEpochs, len);
        alive := Epoch(epoch, first, skipSteps, g0, base, total);
        if !alive {
          return;
        }
        epoch := epoch + 1;
        base := base + len;
      }
      MulMonotone(numEpochs, first, len);
      alive := true;
    }

    /** One process: it may resume, it may die, it may be given another number of epochs than the previous one. */
    method Run(resume: bool, hasState: bool, numEpochs: nat, lifetime: nat)
      returns (finished: bool, ghost start: nat, ghost g0: nat)
      requires Valid()
      modifies this
      ensures Valid()
      ensures (start, g0) == (0, 0) || Greatest(old(folder), (start, g0))
      ensures resume && old(folder) != map[] ==> Greatest(old(folder), (start, g0))
      // its lineage is that of the checkpoint it resumed, or its own
      ensures resumes == if resume && old(folder) != map[] then old(folder)[(start, g0)].resumes + {g0} else {}
      ensures Grown(old(folder), folder, Max(g0, numEpochs * len), resumes)
      // a finished process leaves a checkpoint that went through everything up to its end, once and in order
      ensures finished ==>
                var total := Max(g0, numEpochs * len);
                && (numEpochs, total) in folder
                && folder[(numEpochs, total)] == Flags().SavedAt(numEpochs, total, resumes)
      ensures (folder, finished) == Outcome(Flags(), old(folder), Process(resume, hasState, numEpochs, lifetime))
    {
      life := lifetime;
      var first := Start(resume, hasState);
      start, g0 := first, globalStep;
      OutcomeIs(Flags(), folder, Process(resume, hasState, numEpochs, lifetime), start, g0, resumes);
      finished := Train(first, numEpochs, numEpochs * len);
    }

    /** The process from its start to its end. */
    method Train(first: nat, numEpochs: nat, ghost total: nat) returns (finished: bool)
      requires Valid() && InStep() && InEpoch((first, globalStep), len) && total == numEpochs * len
      requires (first, globalStep) == (0, 0) || (first, globalStep) in folder
      requires Divisible() ==> globalStep % accumulation == 0
      modifies this
      ensures Valid() && resumes == old(resumes)
      ensures Grown(old(folder), folder, Max(old(globalStep), total), resumes)
      ensures finished ==>
                && globalStep == Max(old(globalStep), total) && (numEpochs, globalStep) in folder
                && folder[(numEpochs, globalStep)] == Flags().SavedAt(numEpochs, globalStep, resumes)
      ensures (folder, finished) == RunFrom(Flags(), old(folder), old(globalStep), resumes, numEpochs, old(life))
    {
      ghost var g0 := globalStep;
      BatchesGrow(Flags(), resumes, Here(true), total);
      var alive := Epochs(first, numEpochs, total);
      if !alive || life == 0 {
        return false;
      }
      SaveLast(numEpochs, total, old(folder), first, g0);
      finished := true;
    }

    /** The save after the last epoch. */
    method SaveLast(numEpochs: nat, ghost total: nat, ghost before: map<Key, Saved>, ghost first: nat, ghost g0: nat)
      requires Valid() && InStep() && total == numEpochs * len && globalStep == Max(g0, total)
      requires InEpoch((first, g0), len) && ((first, g0) == (0, 0) || (first, g0) in before)
      requires Grown(before, folder, globalStep, resumes) && (Divisible() ==> g0 % accumulation == 0)
      modifies this`folder
      ensures Valid() && Grown(before, folder, globalStep, resumes)
      ensures folder == old(folder)[(numEpochs, globalStep) := Flags().SavedAt(numEpochs, globalStep, resumes)]
    {
      LastSave(before, folder, first, g0, numEpochs, globalStep, len);
      if Divisible() {
        WholeEpochs(accumulation, len, numEpochs);
      }
      Save(numEpochs);
    }

    /** Any sequence of processes over one directory, each of which may crash at any point. Whatever happens, every
        checkpoint holds each batch up to its step exactly once and in order; with a fixed number of epochs no process
        trains past the end, and the first one to finish went through every batch of every epoch exactly once. If the
        accumulation count divides the save interval and the epoch length, every batch is also in exactly one optimizer
        step. */
    method Schedule(processes: seq<Process>, ghost numEpochs: nat) returns (finished: bool)
      requires Valid() && folder == map[]
      modifies this
      ensures Valid()
      ensures (forall p :: p in processes ==> p.numEpochs == numEpochs) ==>
                && (forall k :: k in folder ==> k.1 <= numEpochs * len)
                && (finished ==>
                      && (numEpochs, numEpochs * len) in folder
                      && folder[(numEpochs, numEpochs * len)].batches == Consumed(len, numEpochs * len))
      ensures Divisible() ==> forall k :: k in folder ==> Concat(folder[k].steps) == Span(0, k.1)
      ensures folder == FolderAfter(Flags(), processes, |processes|)
    {
      finished := false;
      ghost var total := numEpochs * len;
      ghost var same := forall p :: p in processes ==> p.numEpochs == numEpochs;
      for i := 0 to |processes|
        invariant Valid()
        invariant same ==> forall k :: k in folder ==> k.1 <= total
        invariant same && finished ==> (numEpochs, total) in folder
        invariant folder == FolderAfter(Flags(), processes, i)
      {
        assert processes[i] in processes;
        var done := Next(processes, i, total);
        finished := finished || done;
      }
      AllApplied();
    }

    /** The next process of a schedule. */
    method Next(processes: seq<Process>, i: nat, ghost total: nat) returns (finished: bool)
      requires Valid() && i < |processes| && folder == FolderAfter(Flags(), processes, i)
      modifies this
      ensures Valid() && folder == FolderAfter(Flags(), processes, i + 1)
      ensures total == processes[i].numEpochs * len && (forall k :: k in old(folder) ==> k.1 <= total) ==>
                && (forall k :: k in folder ==> k.1 <= total)
                && (finished ==> (processes[i].numEpochs, total) in folder)
      ensures forall k :: k in old(folder) ==> k in folder
    {
      var p := processes[i];
      ghost var start, g0;
      finished, start, g0 := Run(p.resume, p.hasState, p.numEpochs, p.lifetime);
      assert p == Process(p.resume, p.hasState, p.numEpochs, p.lifetime);
    }

    lemma AllApplied()
      requires Valid()
      ensures Divisible() ==> forall k :: k in folder ==> Concat(folder[k].steps) == Span(0, k.1)
    {
      if Divisible() {
        forall k | k in folder ensures Concat(folder[k].steps) == Span(0, k.1) {
          GroupedIsApplied(k, folder[k], len, accumulation);
        }
      }
    }
  }

  /** Which batches are in an optimizer step behind a checkpoint: all below the last completed group, each once and in
      order, if and only if the accumulation count divides each step at which the lineage was resumed inside those
      groups. */
  lemma CheckpointAppliedIff(k: Key, saved: Saved, len: nat, a: nat)
    requires len >= 1 && a >= 1 && Faithful(k, saved, len, a)
    ensures Concat(saved.steps) == Span(0, Below(a, k.1)) <==>
              forall r :: r in saved.resumes && r < Below(a, k.1) ==> r % a == 0
  {
    EveryBatchAppliedIff(a, k.1, saved.resumes);
  }

  lemma GroupedIsApplied(k: Key, saved: Saved, len: nat, a: nat)
    requires len >= 1 && a >= 1 && Faithful(k, saved, len, a)
    requires k.1 % a == 0 && forall r :: r in saved.resumes ==> r % a == 0
    ensures Concat(saved.steps) == Span(0, k.1)
  {
    CheckpointAppliedIff(k, saved, len, a);
    assert k.1 == (k.1 / a) * a;
  }

  /** One epoch of four batches, two batches to an optimizer step, a checkpoint after each batch, a process that dies
      after the first: the process that takes over goes through the other three and never uses the gradient of
      batch 0. */
  method AccumulationLosesBatch() returns (batches: seq<(nat, nat)>, steps: seq<seq<nat>>)
    ensures batches == [(0, 0), (0, 1), (0, 2), (0, 3)] && steps == [[1], [2, 3]]
  {
    var trainer := FirstBatchSaved();
    ThreeMoreBatches(trainer);
    LostBatch(trainer.resumes);
    FourBatches();
    return trainer.batches, trainer.steps;
  }

  /** The process that takes over. */
  method ThreeMoreBatches(trainer: Trainer)
    requires trainer.Valid() && trainer.len == 4 && trainer.accumulation == 2
    requires trainer.folder.Keys == {(0, 1)} && trainer.folder[(0, 1)].resumes == {}
    modifies trainer
    ensures trainer.InStep() && trainer.globalStep == 4 && trainer.resumes == {1}
  {
    trainer.life := 6;
    var epoch := trainer.Start(true, true);
    OnlyCheckpoint(trainer.folder, (0, 1), (epoch, trainer.globalStep));
    var alive := trainer.Step(0, 1);
    alive := trainer.Step(0, 2);
    alive := trainer.Step(0, 3);
  }

  lemma FourBatches()
    ensures Consumed(4, 4) == [(0, 0), (0, 1), (0, 2), (0, 3)]
  {
    assert Consumed(4, 0) == [];
    assert Consumed(4, 1) == [(0, 0)];
    assert Consumed(4, 2) == [(0, 0), (0, 1)];
    assert Consumed(4, 3) == [(0, 0), (0, 1), (0, 2)];
  }

  /** A process that dies after saving its first batch. */
  method FirstBatchSaved() returns (trainer: Trainer)
    ensures fresh(trainer) && trainer.Valid() && trainer.len == 4 && trainer.accumulation == 2
    ensures trainer.folder.Keys == {(0, 1)} && trainer.folder[(0, 1)].resumes == {}
  {
    trainer := new Trainer(4, 1, 2, []);
    trainer.life := 2;
    var first := trainer.Start(false, true);
    var alive := trainer.Step(0, 0);
  }

  lemma OnlyCheckpoint(folder: map<Key, Saved>, k: Key, g: Key)
    requires folder.Keys == {k} && Greatest(folder, g)
    ensures g == k
  {
    assert g in folder.Keys;
  }

  lemma WholeEpochs(a: nat, len: nat, numEpochs: nat)
    requires a >= 1 && len >= 1 && len % a == 0
    ensures (numEpochs * len) % a == 0
  {
    BlockOf(numEpochs * len, numEpochs, 0, len);
    Divides(a, len, numEpochs * len);
  }

  /** The final save lies within its epoch, unless the number of epochs was lowered below the epoch resumed from. */
  lemma LastSave(before: map<Key, Saved>, folder: map<Key, Saved>, start: nat, g0: nat, numEpochs: nat, g: nat,
                 len: nat)
    requires InEpoch((start, g0), len) && g == Max(g0, numEpochs * len)
    requires (start, g0) == (0, 0) || (start, g0) in before
    requires forall k :: k in before ==> k in folder
    ensures InEpoch((numEpochs, g), len) || exists m :: m in folder && !AtMost(m, (numEpochs, g))
  {
    MulMonotone(start + 1, numEpochs, len);
    if numEpochs < start {
      assert (start, g0) in folder && !AtMost((start, g0), (numEpochs, g));
    }
  }

  lemma EpochWithin(epoch: nat, numEpochs: nat, len: nat)
    requires epoch < numEpochs
    ensures epoch * len + len == (epoch + 1) * len <= numEpochs * len
  {
    MulMonotone(epoch + 1, numEpochs, len);
  }

  /** Earlier checkpoints stay as they were, unless this lineage saved the same step again, and then with the same
      batches; new ones reach at most `limit`. */
  ghost predicate Grown(before: map<Key, Saved>, after: map<Key, Saved>, limit: int, resumes: set<nat>) {
    && (forall k :: k in before ==>
          && k in after && after[k].batches == before[k].batches
            && (after[k] == before[k] || after[k].resumes == resumes))
    && (forall k :: k in after && k !in before ==> k.1 <= limit)
  }

  /** The batches of a process keep the folder sound, and earlier checkpoints as they were. */
  lemma {:induction false} BatchesGrow(c: Config, resumes: set<nat>, st: Running, total: nat)
    requires c.Ok() && Sound(st.folder, c.len, c.accumulation) && forall r :: r in resumes ==> r <= st.globalStep
    ensures var end := Batches(c, resumes, st, total);
            && Sound(end.folder, c.len, c.accumulation)
            && Grown(st.folder, end.folder, Max(st.globalStep, total), resumes)
    decreases if st.alive then Max(0, total - st.globalStep) + 1 else 0
  {
    if st.alive && st.globalStep < total {
      var next := OneBatch(c, resumes, st);
      BatchGrows(c, resumes, st, next, total);
      BatchesGrow(c, resumes, next, total);
      GrownOn(st.folder, next.folder, Batches(c, resumes, next, total).folder, total, resumes);
    }
  }

  lemma BatchGrows(c: Config, resumes: set<nat>, st: Running, next: Running, total: nat)
    requires c.Ok() && Sound(st.folder, c.len, c.accumulation) && forall r :: r in resumes ==> r <= st.globalStep
    requires st.alive && st.globalStep < total && next == OneBatch(c, resumes, st)
    ensures Sound(next.folder, c.len, c.accumulation) && Grown(st.folder, next.folder, total, resumes)
  {
  }

  lemma GrownOn(a: map<Key, Saved>, b: map<Key, Saved>, c: map<Key, Saved>, limit: int, resumes: set<nat>)
    requires Grown(a, b, limit, resumes) && Grown(b, c, limit, resumes)
    ensures Grown(a, c, limit, resumes)
  {
  }
}
