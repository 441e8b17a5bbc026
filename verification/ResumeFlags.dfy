/** For which flags of `scripts/train_dflash.py` no crash can lose a gradient. */
module ResumeFlags {
  import opened Prelude
  import opened Pieces
  import opened Accumulation
  import opened Resume

  /** Every batch of the completed groups behind every checkpoint is in exactly one optimizer step, in order. */
  ghost predicate AllApplied(c: Config, folder: map<Key, Saved>)
    requires c.Ok()
  {
    forall k :: k in folder ==> Concat(folder[k].steps) == Span(0, Below(c.accumulation, k.1))
  }

  /** No schedule of processes with `numEpochs` epochs, whatever dies when, loses a gradient. */
  ghost predicate NeverLoses(c: Config, numEpochs: nat)
    requires c.Ok()
  {
    forall processes: seq<Process> :: (forall p :: p in processes ==> p.numEpochs == numEpochs) ==>
      AllApplied(c, FolderAfter(c, processes, |processes|))
  }

  /** The save interval is a multiple of the accumulation count, or no checkpoint is saved inside the completed
      groups. */
  ghost predicate SafeFlags(c: Config, numEpochs: nat)
    requires c.Ok()
  {
    c.saveInterval % c.accumulation == 0 || c.saveInterval >= Below(c.accumulation, numEpochs * c.len)
  }

  // ---------------------------------------------------------------- where checkpoints can be

  /** A step at which a process may be resumed: a multiple of the save interval, or the end. */
  ghost predicate SavePoint(c: Config, r: nat, total: nat)
    requires c.Ok()
  {
    r <= total && (r % c.saveInterval == 0 || r == total)
  }

  ghost predicate Regular(c: Config, k: Key, saved: Saved, total: nat)
    requires c.Ok()
  {
    && SavePoint(c, k.1, total) && saved.steps == Applied(c.accumulation, k.1, saved.resumes)
    && forall r :: r in saved.resumes ==> SavePoint(c, r, total)
  }

  /** Every checkpoint, and every resume behind it, is at a save point. */
  ghost predicate AllRegular(c: Config, folder: map<Key, Saved>, total: nat)
    requires c.Ok()
  {
    forall k :: k in folder ==> Regular(c, k, folder[k], total)
  }

  lemma {:induction false} BatchesRegular(c: Config, resumes: set<nat>, st: Running, total: nat)
    requires c.Ok() && AllRegular(c, st.folder, total) && forall r :: r in resumes ==> SavePoint(c, r, total)
    ensures AllRegular(c, Batches(c, resumes, st, total).folder, total)
    ensures st.globalStep <= total && Batches(c, resumes, st, total).alive ==>
              Batches(c, resumes, st, total).globalStep == total
    decreases if st.alive then Max(0, total - st.globalStep) + 1 else 0
  {
    if st.alive && st.globalStep < total {
      BatchesRegular(c, resumes, OneBatch(c, resumes, st), total);
    }
  }

  lemma RunRegular(c: Config, folder: map<Key, Saved>, g0: nat, resumes: set<nat>, numEpochs: nat, life: nat,
                   total: nat)
    requires c.Ok() && total == numEpochs * c.len && g0 <= total && AllRegular(c, folder, total)
    requires forall r :: r in resumes ==> SavePoint(c, r, total)
    ensures AllRegular(c, RunFrom(c, folder, g0, resumes, numEpochs, life).0, total)
  {
    BatchesRegular(c, resumes, Running(folder, g0, life, true), total);
  }

  lemma OutcomeRegular(c: Config, folder: map<Key, Saved>, p: Process, total: nat)
    requires c.Ok() && total == p.numEpochs * c.len && AllRegular(c, folder, total)
    ensures AllRegular(c, Outcome(c, folder, p).0, total)
  {
    if p.resume && exists k :: Greatest(folder, k) {
      var k :| Greatest(folder, k);
      assert folder != map[] && Regular(c, k, folder[k], total);
      OutcomeIs(c, folder, p, k.0, k.1, folder[k].resumes + {k.1});
      RunRegular(c, folder, k.1, folder[k].resumes + {k.1}, p.numEpochs, p.lifetime, total);
    } else {
      RunRegular(c, folder, 0, {}, p.numEpochs, p.lifetime, total);
    }
  }

  lemma {:induction false} FolderRegular(c: Config, processes: seq<Process>, n: nat, numEpochs: nat)
    requires c.Ok() && n <= |processes| && forall p :: p in processes ==> p.numEpochs == numEpochs
    ensures AllRegular(c, FolderAfter(c, processes, n), numEpochs * c.len)
  {
    if n > 0 {
      FolderRegular(c, processes, n - 1, numEpochs);
      OutcomeRegular(c, FolderAfter(c, processes, n - 1), processes[n - 1], numEpochs * c.len);
    }
  }

  /** A process that lives has saved at every multiple of the interval it passed, under the epoch of the batch before,
      and has left the folder as it was otherwise. */
  lemma {:induction false} EverySaveMade(c: Config, resumes: set<nat>, st: Running, total: nat, end: Running, k: Key)
    requires c.Ok() && st.alive && end == Batches(c, resumes, st, total) && end.alive
    ensures if st.globalStep < k.1 <= total && k.1 % c.saveInterval == 0 && k.0 == (k.1 - 1) / c.len
            then k in end.folder && end.folder[k] == c.SavedAt(k.0, k.1, resumes)
            else (k in end.folder <==> k in st.folder) && (k in st.folder ==> end.folder[k] == st.folder[k])
    decreases Max(0, total - st.globalStep)
  {
    if st.globalStep < total {
      EverySaveMade(c, resumes, OneBatch(c, resumes, st), total, end, k);
    }
  }

  // ---------------------------------------------------------------- safe flags lose nothing

  lemma BelowMonotone(a: nat, t: nat, u: nat)
    requires a >= 1 && t <= u
    ensures Below(a, t) <= Below(a, u) <= u && Below(a, t) <= t
  {
    BelowIs(a, t);
    BelowIs(a, u);
    FloorMonotone(t / a, u / a, Below(a, t), Below(a, u), a, t, u);
  }

  lemma BelowIs(a: nat, t: nat)
    requires a >= 1
    ensures Below(a, t) == (t / a) * a && Below(a, t) <= t < Below(a, t) + a
  {
    assert t == (t / a) * a + t % a;
  }

  lemma FloorMonotone(q: nat, p: nat, x: nat, y: nat, a: nat, t: nat, u: nat)
    requires x == q * a && y == p * a && x <= t <= u < y + a
    ensures x <= y
  {
    assert (p + 1) * a == p * a + a;
    MulMonotone(p + 1, q, a);
    MulMonotone(q, p, a);
  }

  lemma MultipleBelow(r: nat, n: nat)
    requires n >= 1 && r % n == 0 && r < n
    ensures r == 0
  {
  }

  lemma SafePoint(c: Config, numEpochs: nat, t: nat, r: nat)
    requires c.Ok() && SafeFlags(c, numEpochs) && t <= numEpochs * c.len && SavePoint(c, r, numEpochs * c.len)
    requires r < Below(c.accumulation, t)
    ensures r % c.accumulation == 0
  {
    var total := numEpochs * c.len;
    BelowMonotone(c.accumulation, t, total);
    assert r < total && r % c.saveInterval == 0;
    if c.saveInterval % c.accumulation == 0 {
      Divides(c.accumulation, c.saveInterval, r);
    } else {
      MultipleBelow(r, c.saveInterval);
    }
  }

  lemma SafeFlagsApply(c: Config, numEpochs: nat, folder: map<Key, Saved>)
    requires c.Ok() && SafeFlags(c, numEpochs) && AllRegular(c, folder, numEpochs * c.len)
    ensures AllApplied(c, folder)
  {
    forall k | k in folder ensures Concat(folder[k].steps) == Span(0, Below(c.accumulation, k.1)) {
      assert Regular(c, k, folder[k], numEpochs * c.len);
      forall r | r in folder[k].resumes && r < Below(c.accumulation, k.1) ensures r % c.accumulation == 0 {
        SafePoint(c, numEpochs, k.1, r);
      }
      EveryBatchAppliedIff(c.accumulation, k.1, folder[k].resumes);
    }
  }

  // ---------------------------------------------------------------- other flags lose something

  /** Just enough life for the first checkpoint. */
  lemma {:induction false} ReachSave(c: Config, st: Running, total: nat, epoch: nat, folder: map<Key, Saved>)
    requires c.Ok() && st.alive && st.folder == map[] && st.globalStep < c.saveInterval < total
    requires st.life == c.saveInterval - st.globalStep + 1 && epoch == (c.saveInterval - 1) / c.len
    requires folder == map[(epoch, c.saveInterval) := c.SavedAt(epoch, c.saveInterval, {})]
    ensures Batches(c, {}, st, total) == Running(folder, c.saveInterval, 0, false)
    decreases c.saveInterval - st.globalStep
  {
    if st.globalStep + 1 < c.saveInterval {
      BeforeSave(c, st);
      ReachSave(c, OneBatch(c, {}, st), total, epoch, folder);
    } else {
      AtSave(c, st, epoch, folder);
      Exhausted(c, Running(folder, c.saveInterval, 0, true), total);
    }
  }

  lemma BeforeSave(c: Config, st: Running)
    requires c.Ok() && st.alive && st.life > 0 && st.globalStep + 1 < c.saveInterval
    ensures OneBatch(c, {}, st) == Running(st.folder, st.globalStep + 1, st.life - 1, true)
  {
    BlockOf(st.globalStep + 1, 0, st.globalStep + 1, c.saveInterval);
  }

  lemma AtSave(c: Config, st: Running, epoch: nat, folder: map<Key, Saved>)
    requires c.Ok() && st.alive && st.life == 2 && st.folder == map[] && st.globalStep + 1 == c.saveInterval
    requires epoch == st.globalStep / c.len
    requires folder == map[(epoch, c.saveInterval) := c.SavedAt(epoch, c.saveInterval, {})]
    ensures OneBatch(c, {}, st) == Running(folder, c.saveInterval, 0, true)
  {
    BlockOf(c.saveInterval, 1, 0, c.saveInterval);
    assert folder == map[][(epoch, c.saveInterval) := c.SavedAt(epoch, c.saveInterval, {})];
  }

  lemma Exhausted(c: Config, st: Running, total: nat)
    requires c.Ok() && st.alive && st.life == 0 && st.globalStep < total
    ensures Batches(c, {}, st, total) == st.(alive := false)
  {
  }

  /** Life enough for every batch and every save. */
  lemma {:induction false} ReachEnd(c: Config, resumes: set<nat>, st: Running, total: nat)
    requires c.Ok() && st.alive && st.globalStep <= total && st.life >= 2 * (total - st.globalStep) + 1
    ensures var end := Batches(c, resumes, st, total); end.alive && end.globalStep == total && end.life >= 1
    decreases total - st.globalStep
  {
    if st.globalStep < total {
      ReachEnd(c, resumes, OneBatch(c, resumes, st), total);
    }
  }

  /** A process that dies after its first save, and one that takes over and finishes. */
  function TakenOver(c: Config, numEpochs: nat): seq<Process> {
    [Process(false, true, numEpochs, c.saveInterval + 1), Process(true, true, numEpochs, 2 * (numEpochs * c.len) + 1)]
  }

  lemma FirstSaved(c: Config, numEpochs: nat, folder: map<Key, Saved>)
    requires c.Ok() && c.saveInterval < numEpochs * c.len && folder == FolderAfter(c, TakenOver(c, numEpochs), 1)
    ensures var epoch := (c.saveInterval - 1) / c.len;
            folder == map[(epoch, c.saveInterval) := c.SavedAt(epoch, c.saveInterval, {})]
  {
    var p := TakenOver(c, numEpochs)[0];
    assert FolderAfter(c, TakenOver(c, numEpochs), 0) == map[];
    OutcomeIs(c, map[], p, 0, 0, {});
    var epoch := (c.saveInterval - 1) / c.len;
    ReachSave(c, Running(map[], 0, p.lifetime, true), numEpochs * c.len, epoch,
              map[(epoch, c.saveInterval) := c.SavedAt(epoch, c.saveInterval, {})]);
  }

  lemma SecondFinished(c: Config, numEpochs: nat, folder: map<Key, Saved>, total: nat)
    requires c.Ok() && c.saveInterval < total == numEpochs * c.len
    requires folder == FolderAfter(c, TakenOver(c, numEpochs), 2)
    ensures (numEpochs, total) in folder
    ensures folder[(numEpochs, total)] == c.SavedAt(numEpochs, total, {c.saveInterval})
  {
    var before, p := FolderAfter(c, TakenOver(c, numEpochs), 1), TakenOver(c, numEpochs)[1];
    FirstSaved(c, numEpochs, before);
    var epoch := (c.saveInterval - 1) / c.len;
    assert Greatest(before, (epoch, c.saveInterval));
    assert {} + {c.saveInterval} == {c.saveInterval};
    OutcomeIs(c, before, p, epoch, c.saveInterval, {c.saveInterval});
    ReachEnd(c, {c.saveInterval}, Running(before, c.saveInterval, p.lifetime, true), total);
  }

  lemma UnsafeFlagsLose(c: Config, numEpochs: nat)
    requires c.Ok() && !SafeFlags(c, numEpochs)
    ensures !NeverLoses(c, numEpochs)
  {
    var total, processes := numEpochs * c.len, TakenOver(c, numEpochs);
    BelowMonotone(c.accumulation, total, total);
    var folder := FolderAfter(c, processes, |processes|);
    SecondFinished(c, numEpochs, folder, total);
    EveryBatchAppliedIff(c.accumulation, total, {c.saveInterval});
    assert !Aligned(c.accumulation, total, {c.saveInterval});
    assert !AllApplied(c, folder);
  }

  /** With a fixed number of epochs every schedule of crashes and resumes keeps every gradient of the completed groups
      if and only if the accumulation count divides the save interval, or the first save comes after those groups. */
  lemma NeverLosesIff(c: Config, numEpochs: nat)
    requires c.Ok()
    ensures NeverLoses(c, numEpochs) <==> SafeFlags(c, numEpochs)
  {
    if SafeFlags(c, numEpochs) {
      forall processes: seq<Process> | forall p :: p in processes ==> p.numEpochs == numEpochs
        ensures AllApplied(c, FolderAfter(c, processes, |processes|))
      {
        FolderRegular(c, processes, |processes|, numEpochs);
        SafeFlagsApply(c, numEpochs, FolderAfter(c, processes, |processes|));
      }
    } else {
      UnsafeFlagsLose(c, numEpochs);
    }
  }
}
