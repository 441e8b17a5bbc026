/** The whole test-time-training loop of `core/eagle3.py`, sharded over the sequence-parallel ranks against
    unsharded. */
module ShardedLoop {
  import opened Prelude
  import opened Pieces
  import opened SequenceParallel

  // ---------------------------------------------------------------- steps of a loop

  /** Every step of an unrolled loop starts from what the backbone made of the steps before. */
  lemma {:induction false} UnrollsAt<R, P, H>(backend: Backend, h: Head<R, P>, length: nat, sample: Sample<R, H>,
                                              backbone: Backbone<P, H>, views: seq<StepView<P, H>>, k: nat)
    requires |sample.target| == |sample.lossMask| && Unrolls(backend, h, length, sample, backbone, views) && k < |views|
    ensures StepOf(backend, h, length, sample, k, HiddenAt(sample.hidden, backbone, views[..k])) == Some(views[k])
  {
    if k < |views| - 1 {
      var front := views[..|views| - 1];
      UnrollsAt(backend, h, length, sample, backbone, front, k);
      assert front[..k] == views[..k];
    }
  }

  /** Step `k` of every rank. */
  function StepAcross<V>(runs: seq<seq<V>>, k: nat): (r: seq<V>)
    requires forall rank :: 0 <= rank < |runs| ==> k < |runs[rank]|
    ensures |r| == |runs| && forall rank {:trigger r[rank]} :: 0 <= rank < |r| ==> r[rank] == runs[rank][k]
  {
    seq(|runs|, rank requires 0 <= rank < |runs| => runs[rank][k])
  }

  /** The first `k` steps of every rank. */
  function Until<V>(runs: seq<seq<V>>, k: nat): (r: seq<seq<V>>)
    requires forall rank :: 0 <= rank < |runs| ==> k <= |runs[rank]|
    ensures |r| == |runs| && forall rank {:trigger r[rank]} :: 0 <= rank < |r| ==> r[rank] == runs[rank][..k]
  {
    seq(|runs|, rank requires 0 <= rank < |runs| => runs[rank][..k])
  }

  /** Every rank and the unsharded run have taken `n` steps. */
  ghost predicate Lengths<R, P, H>(s: Setup<R, P, H>, runs: seq<seq<StepView<P, H>>>, whole: seq<StepView<P, H>>,
                                   n: nat) {
    |runs| == s.size && |whole| == n && forall rank :: 0 <= rank < |runs| ==> |runs[rank]| == n
  }

  /** The views of the first `k` steps match. */
  ghost predicate MatchTo<R, P, H>(s: Setup<R, P, H>, runs: seq<seq<StepView<P, H>>>, whole: seq<StepView<P, H>>,
                                   n: nat, k: nat)
    requires s.size >= 1 && Lengths(s, runs, whole, n) && k <= n
  {
    forall j: nat {:trigger whole[j]} :: j < k ==> StepsMatch(s, StepAcross(runs, j), whole[j])
  }

  /** The views of one step match, and have as many columns as the ranks' chunks and the text. */
  ghost predicate StepsMatch<R, P, H>(s: Setup<R, P, H>, views: seq<StepView<P, H>>, view: StepView<P, H>)
    requires s.size >= 1
  {
    && ViewsMatch(views, view, Pad(s), s.head.uniform) && HasColumns(view, s.GlobalLen())
    && forall rank :: 0 <= rank < |views| ==> HasColumns(views[rank], s.ChunkSize())
  }

  /** What the ranks' backbones make of their views so far. */
  function Outputs<P, H>(backbones: seq<Backbone<P, H>>, runs: seq<seq<StepView<P, H>>>): (r: seq<seq<H>>)
    requires |backbones| == |runs|
    ensures |r| == |runs|
    ensures forall rank {:trigger r[rank]} :: 0 <= rank < |r| ==> r[rank] == backbones[rank](runs[rank])
  {
    seq(|runs|, rank requires 0 <= rank < |runs| => backbones[rank](runs[rank]))
  }

  /** The sharded backbones compute what the unsharded one computes: matching views so far give matching outputs in the
      columns of the text. */
  ghost predicate Agree<R, P(!new), H(!new)>(s: Setup<R, P, H>, backbones: seq<Backbone<P, H>>, global: Backbone<P, H>)
    requires s.size >= 1
  {
    && |backbones| == s.size
    && forall runs: seq<seq<StepView<P, H>>>, whole: seq<StepView<P, H>>
         {:trigger Outputs(backbones, runs), global(whole)} ::
         whole != [] && Lengths(s, runs, whole, |whole|) && MatchTo(s, runs, whole, |whole|, |whole|) ==>
           HiddenMatch(s, Outputs(backbones, runs), global(whole))
  }

  /** The same along one run. Only what the backbones return in this run matters, so that a rank may also use what the
      others send it. */
  ghost predicate AgreeOn<R, P, H>(s: Setup<R, P, H>, backbones: seq<Backbone<P, H>>, runs: seq<seq<StepView<P, H>>>,
                                   global: Backbone<P, H>, whole: seq<StepView<P, H>>, n: nat)
    requires s.size >= 1 && |backbones| == s.size && Lengths(s, runs, whole, n)
  {
    forall k: nat {:trigger Until(runs, k)} :: 1 <= k < n && MatchTo(s, runs, whole, n, k) ==>
      HiddenMatch(s, Outputs(backbones, Until(runs, k)), global(whole[..k]))
  }

  lemma AgreeOnRun<R, P(!new), H(!new)>(s: Setup<R, P, H>, backbones: seq<Backbone<P, H>>,
                                        runs: seq<seq<StepView<P, H>>>, global: Backbone<P, H>,
                                        whole: seq<StepView<P, H>>, n: nat)
    requires s.size >= 1 && Agree(s, backbones, global) && Lengths(s, runs, whole, n)
    ensures AgreeOn(s, backbones, runs, global, whole, n)
  {
    forall k: nat | 1 <= k < n && MatchTo(s, runs, whole, n, k)
      ensures HiddenMatch(s, Outputs(backbones, Until(runs, k)), global(whole[..k]))
    {
      PrefixMatches(s, runs, whole, n, k, Until(runs, k), whole[..k]);
    }
  }

  lemma PrefixMatches<R, P, H>(s: Setup<R, P, H>, runs: seq<seq<StepView<P, H>>>, whole: seq<StepView<P, H>>, n: nat,
                               k: nat, until: seq<seq<StepView<P, H>>>, before: seq<StepView<P, H>>)
    requires s.size >= 1 && Lengths(s, runs, whole, n) && k <= n && MatchTo(s, runs, whole, n, k)
    requires until == Until(runs, k) && before == whole[..k]
    ensures Lengths(s, until, before, k) && MatchTo(s, until, before, k, k)
  {
    forall j: nat | j < k ensures StepsMatch(s, StepAcross(until, j), before[j]) {
      assert StepAcross(until, j) == StepAcross(runs, j) && before[j] == whole[j];
    }
  }

  // ---------------------------------------------------------------- runs of the loop

  /** `runs` are complete runs of the ranks' loops. */
  ghost predicate RankRuns<R, P, H>(s: Setup<R, P, H>, backbones: seq<Backbone<P, H>>, runs: seq<seq<StepView<P, H>>>)
    requires s.Ok()
  {
    && |backbones| == |runs| == s.size
    && forall rank: nat {:trigger runs[rank]} :: rank < s.size ==> RankRun(s, backbones[rank], rank, runs[rank])
  }

  ghost predicate RankRun<R, P, H>(s: Setup<R, P, H>, backbone: Backbone<P, H>, rank: nat, run: seq<StepView<P, H>>)
    requires s.Ok()
  {
    && |run| == s.tttLength
    && Unrolls(Usp(s.PlaceOf(rank).Ulysses()), s.head, s.tttLength, s.RankSample(rank), backbone, run)
  }

  /** The sample of the unsharded run. */
  function GlobalSample<R, P, H>(s: Setup<R, P, H>): Option<Sample<R, H>> {
    var raw := ProcessData(s.inputIds, s.lossMask, s.target, s.hidden, s.maxLen);
    if raw.None? then None else Some(Preprocess(raw.value, s.zeroRow))
  }

  /** `whole` is a complete run of the unsharded loop. */
  ghost predicate WholeRun<R, P, H>(s: Setup<R, P, H>, global: Backbone<P, H>, whole: seq<StepView<P, H>>) {
    var sample := GlobalSample(s);
    && |whole| == s.tttLength && sample.Some? && |sample.value.target| == |sample.value.lossMask|
    && Unrolls(SdpaLike, s.head, s.tttLength, sample.value, global, whole)
  }

  /** The hidden states the ranks start step `k` from. */
  ghost function Entering<R, P, H>(s: Setup<R, P, H>, backbones: seq<Backbone<P, H>>, runs: seq<seq<StepView<P, H>>>,
                                   k: nat): (r: seq<seq<H>>)
    requires s.Ok() && RankRuns(s, backbones, runs) && k <= s.tttLength
    ensures |r| == s.size
    ensures forall rank: nat {:trigger r[rank]} :: rank < s.size ==>
              |runs[rank]| == s.tttLength
                && r[rank] == HiddenAt(s.RankSample(rank).hidden, backbones[rank], runs[rank][..k])
  {
    seq(s.size, rank requires 0 <= rank < s.size =>
      assert RankRun(s, backbones[rank], rank, runs[rank]);
      HiddenAt(s.RankSample(rank).hidden, backbones[rank], runs[rank][..k]))
  }

  lemma RankView<R, P, H>(s: Setup<R, P, H>, backbones: seq<Backbone<P, H>>, runs: seq<seq<StepView<P, H>>>, k: nat,
                          rank: nat)
    requires s.Ok() && s.GlobalLen() >= 1 && RankRuns(s, backbones, runs) && k < s.tttLength && rank < s.size
    ensures |runs[rank]| == s.tttLength && runs[rank][k] == s.RankStep(k, rank, Entering(s, backbones, runs, k)[rank])
  {
    var run := runs[rank];
    assert RankRun(s, backbones[rank], rank, run);
    UnrollsAt(Usp(s.PlaceOf(rank).Ulysses()), s.head, s.tttLength, s.RankSample(rank), backbones[rank], run, k);
    RankStepIs(s, k, rank, HiddenAt(s.RankSample(rank).hidden, backbones[rank], run[..k]));
    assert Entering(s, backbones, runs, k)[rank] == HiddenAt(s.RankSample(rank).hidden, backbones[rank], run[..k]);
  }

  lemma WholeView<R, P, H>(s: Setup<R, P, H>, global: Backbone<P, H>, whole: seq<StepView<P, H>>, k: nat)
    requires s.Ok() && s.GlobalLen() >= 1 && WholeRun(s, global, whole) && k < s.tttLength
    ensures whole[k] == s.GlobalStep(k, HiddenAt(s.Hidden(), global, whole[..k]))
  {
    var sample := GlobalSample(s).value;
    GlobalStepIs(s, k, HiddenAt(s.Hidden(), global, whole[..k]));
    UnrollsAt(SdpaLike, s.head, s.tttLength, sample, global, whole, k);
    assert sample.hidden == s.Hidden();
  }

  /** If the hidden states entering step `k` match, so do its views. */
  lemma StepFollows<R, P, H>(s: Setup<R, P, H>, backbones: seq<Backbone<P, H>>, runs: seq<seq<StepView<P, H>>>,
                             global: Backbone<P, H>, whole: seq<StepView<P, H>>, k: nat, hiddens: seq<seq<H>>)
    requires s.Ok() && s.GlobalLen() >= 1 && RankRuns(s, backbones, runs) && WholeRun(s, global, whole)
    requires k < s.tttLength && hiddens == Entering(s, backbones, runs, k)
    requires HiddenMatch(s, hiddens, HiddenAt(s.Hidden(), global, whole[..k]))
    ensures (forall rank :: 0 <= rank < s.size ==> |runs[rank]| == s.tttLength)
    ensures StepsMatch(s, StepAcross(runs, k), whole[k])
  {
    forall rank: nat | rank < s.size
      ensures |runs[rank]| == s.tttLength && runs[rank][k] == s.RankStep(k, rank, hiddens[rank])
    {
      RankView(s, backbones, runs, k, rank);
    }
    assert StepAcross(runs, k) == RankSteps(s, k, hiddens);
    WholeView(s, global, whole, k);
    JoinedIsPadded(s, k, hiddens, HiddenAt(s.Hidden(), global, whole[..k]));
    ColumnsOf(s, k, hiddens, HiddenAt(s.Hidden(), global, whole[..k]));
  }

  lemma ColumnsOf<R, P, H>(s: Setup<R, P, H>, k: nat, hiddens: seq<seq<H>>, hidden: seq<H>)
    requires s.Ok() && HiddenMatch(s, hiddens, hidden)
    ensures HasColumns(s.GlobalStep(k, hidden), s.GlobalLen())
    ensures forall rank :: 0 <= rank < s.size ==> HasColumns(RankSteps(s, k, hiddens)[rank], s.ChunkSize())
  {
  }

  /** If the views of all earlier steps match, so do the hidden states entering step `k`. */
  lemma HiddenFollows<R, P, H>(s: Setup<R, P, H>, backbones: seq<Backbone<P, H>>, runs: seq<seq<StepView<P, H>>>,
                               global: Backbone<P, H>, whole: seq<StepView<P, H>>, k: nat, hiddens: seq<seq<H>>)
    requires s.Ok() && RankRuns(s, backbones, runs) && Lengths(s, runs, whole, s.tttLength) && k < s.tttLength
    requires AgreeOn(s, backbones, runs, global, whole, s.tttLength) && MatchTo(s, runs, whole, s.tttLength, k)
    requires hiddens == Entering(s, backbones, runs, k)
    ensures HiddenMatch(s, hiddens, HiddenAt(s.Hidden(), global, whole[..k]))
  {
    if k == 0 {
      FirstEntering(s, backbones, runs, hiddens);
    } else {
      LaterEntering(s, backbones, runs, k, hiddens);
    }
  }

  lemma FirstEntering<R, P, H>(s: Setup<R, P, H>, backbones: seq<Backbone<P, H>>, runs: seq<seq<StepView<P, H>>>,
                               hiddens: seq<seq<H>>)
    requires s.Ok() && RankRuns(s, backbones, runs) && hiddens == Entering(s, backbones, runs, 0)
    ensures HiddenMatch(s, hiddens, s.Hidden())
  {
    FirstHiddenMatches(s);
    assert hiddens == seq(s.size, rank requires 0 <= rank => s.RankSample(rank).hidden);
  }

  lemma LaterEntering<R, P, H>(s: Setup<R, P, H>, backbones: seq<Backbone<P, H>>, runs: seq<seq<StepView<P, H>>>,
                               k: nat, hiddens: seq<seq<H>>)
    requires s.Ok() && RankRuns(s, backbones, runs) && 1 <= k <= s.tttLength
          && hiddens == Entering(s, backbones, runs, k)
    requires forall rank :: 0 <= rank < s.size ==> |runs[rank]| == s.tttLength
    ensures hiddens == Outputs(backbones, Until(runs, k))
  {
  }

  lemma {:induction false} MatchOn<R, P, H>(s: Setup<R, P, H>, backbones: seq<Backbone<P, H>>,
                                            runs: seq<seq<StepView<P, H>>>, global: Backbone<P, H>,
                                            whole: seq<StepView<P, H>>, k: nat)
    requires s.Ok() && s.GlobalLen() >= 1 && RankRuns(s, backbones, runs) && WholeRun(s, global, whole)
    requires Lengths(s, runs, whole, s.tttLength) && AgreeOn(s, backbones, runs, global, whole, s.tttLength)
    requires k <= s.tttLength
    ensures MatchTo(s, runs, whole, s.tttLength, k)
  {
    if k > 0 {
      MatchOn(s, backbones, runs, global, whole, k - 1);
      NextMatches(s, backbones, runs, global, whole, k);
    }
  }

  lemma OneMoreMatches<R, P, H>(s: Setup<R, P, H>, runs: seq<seq<StepView<P, H>>>, whole: seq<StepView<P, H>>, n: nat,
                                k: nat)
    requires s.size >= 1 && Lengths(s, runs, whole, n) && 1 <= k <= n && MatchTo(s, runs, whole, n, k - 1)
    requires StepsMatch(s, StepAcross(runs, k - 1), whole[k - 1])
    ensures MatchTo(s, runs, whole, n, k)
  {
    forall j: nat | j < k ensures StepsMatch(s, StepAcross(runs, j), whole[j]) {
    }
  }

  lemma NextMatches<R, P, H>(s: Setup<R, P, H>, backbones: seq<Backbone<P, H>>, runs: seq<seq<StepView<P, H>>>,
                             global: Backbone<P, H>, whole: seq<StepView<P, H>>, k: nat)
    requires s.Ok() && s.GlobalLen() >= 1 && RankRuns(s, backbones, runs) && WholeRun(s, global, whole)
    requires Lengths(s, runs, whole, s.tttLength) && AgreeOn(s, backbones, runs, global, whole, s.tttLength)
    requires 1 <= k <= s.tttLength && MatchTo(s, runs, whole, s.tttLength, k - 1)
    ensures MatchTo(s, runs, whole, s.tttLength, k)
  {
    var hiddens := Entering(s, backbones, runs, k - 1);
    HiddenFollows(s, backbones, runs, global, whole, k - 1, hiddens);
    StepFollows(s, backbones, runs, global, whole, k - 1, hiddens);
    OneMoreMatches(s, runs, whole, s.tttLength, k);
  }

  lemma RunLengths<R, P, H>(s: Setup<R, P, H>, backbones: seq<Backbone<P, H>>, runs: seq<seq<StepView<P, H>>>,
                            global: Backbone<P, H>, whole: seq<StepView<P, H>>)
    requires s.Ok() && RankRuns(s, backbones, runs) && WholeRun(s, global, whole)
    ensures Lengths(s, runs, whole, s.tttLength)
  {
    forall rank: nat | rank < s.size ensures |runs[rank]| == s.tttLength {
      assert RankRun(s, backbones[rank], rank, runs[rank]);
    }
  }

  /** In complete runs of the sharded and of the unsharded loop the views of every step match, if the backbones agree
      along these runs. */
  lemma ShardedLoopsMatch<R, P, H>(s: Setup<R, P, H>, backbones: seq<Backbone<P, H>>, runs: seq<seq<StepView<P, H>>>,
                                   global: Backbone<P, H>, whole: seq<StepView<P, H>>)
    requires s.Ok() && s.GlobalLen() >= 1 && RankRuns(s, backbones, runs) && WholeRun(s, global, whole)
    requires Lengths(s, runs, whole, s.tttLength) && AgreeOn(s, backbones, runs, global, whole, s.tttLength)
    ensures MatchTo(s, runs, whole, s.tttLength, s.tttLength)
  {
    MatchOn(s, backbones, runs, global, whole, s.tttLength);
  }

  /** The loop on every rank and on one device. A text is there, so neither fails; if the backbones agree, every rank's
      part of every step is its part of the unsharded step. */
  method TrainSharded<R, P(!new), H(!new)>(s: Setup<R, P, H>, backbones: seq<Backbone<P, H>>, global: Backbone<P, H>)
    returns (runs: seq<seq<StepView<P, H>>>, whole: seq<StepView<P, H>>)
    requires s.Ok() && s.GlobalLen() >= 1 && |backbones| == s.size
    ensures RankRuns(s, backbones, runs) && WholeRun(s, global, whole) && Lengths(s, runs, whole, s.tttLength)
    ensures AgreeOn(s, backbones, runs, global, whole, s.tttLength) ==>
              MatchTo(s, runs, whole, s.tttLength, s.tttLength)
    ensures Agree(s, backbones, global) ==> MatchTo(s, runs, whole, s.tttLength, s.tttLength)
  {
    runs := RunRanks(s, backbones);
    whole := RunWhole(s, global);
    RunLengths(s, backbones, runs, global, whole);
    if Agree(s, backbones, global) {
      AgreeOnRun(s, backbones, runs, global, whole, s.tttLength);
    }
    if AgreeOn(s, backbones, runs, global, whole, s.tttLength) {
      ShardedLoopsMatch(s, backbones, runs, global, whole);
    }
  }

  method RunRanks<R, P, H>(s: Setup<R, P, H>, backbones: seq<Backbone<P, H>>) returns (runs: seq<seq<StepView<P, H>>>)
    requires s.Ok() && s.GlobalLen() >= 1 && |backbones| == s.size
    ensures RankRuns(s, backbones, runs)
  {
    runs := [];
    for rank := 0 to s.size
      invariant FirstRuns(s, backbones, runs, rank)
    {
      var run := RunRank(s, backbones[rank], rank);
      OneMoreRun(s, backbones, runs, rank, run);
      runs := runs + [run];
    }
  }

  ghost predicate FirstRuns<R, P, H>(s: Setup<R, P, H>, backbones: seq<Backbone<P, H>>, runs: seq<seq<StepView<P, H>>>,
                                     ranks: nat)
    requires s.Ok()
  {
    && |runs| == ranks <= |backbones|
    && forall r: nat {:trigger runs[r]} :: r < ranks ==> RankRun(s, backbones[r], r, runs[r])
  }

  lemma OneMoreRun<R, P, H>(s: Setup<R, P, H>, backbones: seq<Backbone<P, H>>, runs: seq<seq<StepView<P, H>>>,
                            ranks: nat, run: seq<StepView<P, H>>)
    requires s.Ok() && FirstRuns(s, backbones, runs, ranks) && ranks < |backbones|
    requires RankRun(s, backbones[ranks], ranks, run)
    ensures FirstRuns(s, backbones, runs + [run], ranks + 1)
  {
    var more := runs + [run];
    forall r: nat | r < ranks + 1 ensures RankRun(s, backbones[r], r, more[r]) {
      assert r < ranks ==> more[r] == runs[r];
    }
  }

  method RunRank<R, P, H>(s: Setup<R, P, H>, backbone: Backbone<P, H>, rank: nat) returns (run: seq<StepView<P, H>>)
    requires s.Ok() && s.GlobalLen() >= 1
    ensures RankRun(s, backbone, rank, run)
  {
    ChunkAtLeastOne(s.GlobalLen(), s.size);
    var done := TttLoop(Usp(s.PlaceOf(rank).Ulysses()), s.head, s.tttLength, s.RankSample(rank), backbone);
    run := done.value;
  }

  method RunWhole<R, P, H>(s: Setup<R, P, H>, global: Backbone<P, H>) returns (whole: seq<StepView<P, H>>)
    requires s.Ok() && s.GlobalLen() >= 1
    ensures WholeRun(s, global, whole)
  {
    GlobalSampleIs(s);
    var done := TttLoop(SdpaLike, s.head, s.tttLength, GlobalSample(s).value, global);
    whole := done.value;
  }

  lemma GlobalSampleIs<R, P, H>(s: Setup<R, P, H>)
    requires s.Ok() && s.GlobalLen() >= 1
    ensures GlobalSample(s).Some? && |GlobalSample(s).value.target| == |GlobalSample(s).value.lossMask|
  {
  }

  ghost predicate Echoes<P(!new), H(!new)>(echo: Backbone<P, H>) {
    forall views: seq<StepView<P, H>> {:trigger echo(views)} ::
      views != [] ==> echo(views) == views[|views| - 1].hidden
  }

  /** Backbones that agree exist: those that return the hidden states they are given. */
  lemma EchoAgrees<R, P(!new), H(!new)>(s: Setup<R, P, H>, echo: Backbone<P, H>, backbones: seq<Backbone<P, H>>)
    requires s.size >= 1 && backbones == Repeat(echo, s.size)
    requires Echoes(echo)
    ensures Agree(s, backbones, echo)
  {
    forall runs: seq<seq<StepView<P, H>>>, whole: seq<StepView<P, H>>
      | whole != [] && Lengths(s, runs, whole, |whole|) && MatchTo(s, runs, whole, |whole|, |whole|)
      ensures HiddenMatch(s, Outputs(backbones, runs), echo(whole))
    {
      EchoMatches(s, echo, backbones, runs, whole, |whole| - 1, Outputs(backbones, runs));
    }
  }

  lemma EchoMatches<R, P(!new), H(!new)>(s: Setup<R, P, H>, echo: Backbone<P, H>, backbones: seq<Backbone<P, H>>,
                             runs: seq<seq<StepView<P, H>>>, whole: seq<StepView<P, H>>, k: nat, out: seq<seq<H>>)
    requires s.size >= 1 && backbones == Repeat(echo, s.size) && Lengths(s, runs, whole, k + 1)
    requires Echoes(echo)
    requires MatchTo(s, runs, whole, k + 1, k + 1) && out == Outputs(backbones, runs)
    ensures HiddenMatch(s, out, echo(whole))
  {
    var step := StepAcross(runs, k);
    assert StepsMatch(s, step, whole[k]);
    forall rank | 0 <= rank < s.size ensures out[rank] == step[rank].hidden {
      assert backbones[rank] == echo && runs[rank] != [];
    }
    ViewsHiddenMatch(s, step, whole[k], out);
  }

  /** Matching views hold matching hidden states. */
  lemma ViewsHiddenMatch<R, P, H>(s: Setup<R, P, H>, views: seq<StepView<P, H>>, view: StepView<P, H>,
                                  hiddens: seq<seq<H>>)
    requires s.size >= 1 && |views| == |hiddens| == s.size && StepsMatch(s, views, view)
    requires forall rank {:trigger hiddens[rank]} :: 0 <= rank < s.size ==> hiddens[rank] == views[rank].hidden
    ensures HiddenMatch(s, hiddens, view.hidden)
  {
    var c := s.ChunkSize();
    forall rank | 0 <= rank < s.size ensures |hiddens[rank]| == c {
      assert HasColumns(views[rank], c);
    }
    WholeChunks(hiddens, c);
    JoinsTo(views, hiddens);
  }

  lemma WholeChunks<H>(hiddens: seq<seq<H>>, c: nat)
    requires forall rank :: 0 <= rank < |hiddens| ==> |hiddens[rank]| == c
    ensures Chunks(hiddens, c) == hiddens
  {
    forall rank | 0 <= rank < |hiddens| ensures Chunks(hiddens, c)[rank] == hiddens[rank] {
      SlicePrefix(hiddens[rank], c);
    }
  }

  lemma JoinsTo<P, H>(views: seq<StepView<P, H>>, hiddens: seq<seq<H>>)
    requires |views| == |hiddens|
    requires forall rank {:trigger hiddens[rank]} :: 0 <= rank < |views| ==> hiddens[rank] == views[rank].hidden
    ensures JoinHidden(views) == Concat(hiddens)
  {
    assert Field(views, (v: StepView<P, H>) => v.hidden) == hiddens;
  }
}
