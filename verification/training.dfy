/**
 The epoch loop: fill the buffer with the exploratory policy, fit the online
 network once per sampled batch, evaluate greedily over 100 episodes, log the
 metric, then decay the buffer's end factor and the agent's epsilon and sync
 the target network; every second epoch a demonstration episode is rendered.

 `clearOnUpdate` selects the buffer update: false is the program as written
 (the buffer is never emptied), true is the evidently intended clearing update.
 */
module Training {
  import opened Types
  import Agents
  import Episodes
  import Replay

  const DefaultEpochs: int := 20

  /** A run of the default length ends with epsilon still above its floor. */
  lemma DefaultRunEndsExploring()
    ensures Agents.EpsilonAfter(Agents.InitialEpsilon, DefaultEpochs) > Agents.EpsilonFloor
  {
    Agents.EpsilonFromInitial();
  }

  /** What the outside world supplies during one epoch. */
  datatype EpochOracle = EpochOracle(env: Replay.Env, rng: Replay.Rng, evaluation: seq<seq<StepResult>>)

  /** One row of the metrics log: (Epoch, val_steps). */
  datatype LogRow = LogRow(epoch: int, valSteps: real)

  /**
   What one epoch produces: besides the new agent, buffer and log row, the
   number of transitions collected, the buffer the batches were drawn from and
   the batches themselves, in the order they were fitted.
   */
  datatype EpochOutcome = EpochOutcome(
    agent: Agents.Agent,
    rb: Replay.ReplayBuffer,
    row: LogRow,
    collected: nat,
    drawnFrom: seq<Transition>,
    samples: seq<Replay.Sample>)

  /** The state of a run, with one entry per finished epoch in each sequence but `gifs`. */
  datatype TrainState = TrainState(
    agent: Agents.Agent,
    rb: Replay.ReplayBuffer,
    log: seq<LogRow>,
    collected: seq<nat>,
    drawnFrom: seq<seq<Transition>>,
    samples: seq<seq<Replay.Sample>>,
    gifs: seq<nat>)

  ghost predicate ValidOracle(oracle: EpochOracle) {
    && |oracle.evaluation| == Episodes.EvaluationEpisodes
    && forall i :: 0 <= i < |oracle.evaluation| ==> Episodes.HasDone(oracle.evaluation[i])
  }

  /** Every stored action is one of the two actions. */
  predicate ActionsValid(buffer: seq<Transition>) {
    forall j :: 0 <= j < |buffer| ==> buffer[j].action < NumActions
  }

  /** A demonstration episode is rendered after every second epoch. */
  predicate RendersAfter(epoch: nat) {
    (epoch + 1) % 2 == 0
  }

  /**
   `samples` are the batches one epoch draws from `drawnFrom` when the
   capacity is `bufferSize`: as many as range(0, bufferSize, 128) has
   elements, each of 128 entries at pairwise distinct positions.
   */
  predicate DrawnBatches(samples: seq<Replay.Sample>, drawnFrom: seq<Transition>, bufferSize: int) {
    && |samples| == Replay.RangeCount(bufferSize, Replay.DefaultBatchSize)
    && forall b :: 0 <= b < |samples| ==> Replay.ValidSample(samples[b], drawnFrom, Replay.DefaultBatchSize)
  }

  /** Epoch e drew its batches from `drawnFrom[e]`, which held the full 1280 transitions. */
  predicate DrawsFromFullBuffers(samples: seq<seq<Replay.Sample>>, drawnFrom: seq<seq<Transition>>) {
    && |samples| == |drawnFrom|
    && forall e :: 0 <= e < |samples| ==>
         |drawnFrom[e]| == Replay.DefaultBufferSize && DrawnBatches(samples[e], drawnFrom[e], Replay.DefaultBufferSize)
  }

  /** The end of an epoch: epsilon decays once, then the target is synced. */
  function EndEpoch(agent: Agents.Agent): Agents.Agent {
    Agents.SyncTarget(agent.(epsilon := Agents.UpdateEpsilon(agent.epsilon)))
  }

  /**
   The agent after a sequence of epochs that drew the given batches: each
   epoch fits once per batch, in order, and then ends.
   */
  function AfterEpochs(agent: Agents.Agent, epochs: seq<seq<Replay.Sample>>, net: Agents.Network,
                       fit: Agents.Fit): (after: Agents.Agent)
    ensures after.epsilon == Agents.EpsilonAfter(agent.epsilon, |epochs|)
    ensures after.gamma == agent.gamma
    ensures |epochs| > 0 ==> after.tWeights == after.qWeights
    decreases |epochs|
  {
    if |epochs| == 0 then agent
    else
      var before := AfterEpochs(agent, epochs[..|epochs| - 1], net, fit);
      EndEpoch(Agents.TrainAll(before, Replay.Batches(epochs[|epochs| - 1]), net, fit))
  }

  /** Running one more epoch extends the fold by that epoch's fits and its end. */
  lemma AfterEpochsStep(agent: Agents.Agent, epochs: seq<seq<Replay.Sample>>, last: seq<Replay.Sample>,
                        net: Agents.Network, fit: Agents.Fit)
    ensures AfterEpochs(agent, epochs + [last], net, fit) ==
              EndEpoch(Agents.TrainAll(AfterEpochs(agent, epochs, net, fit), Replay.Batches(last), net, fit))
  {
    assert (epochs + [last])[..|epochs|] == epochs;
  }

  /** Fits the online network once on each drawn batch, in drawing order. */
  method FitBatches(agent: Agents.Agent, samples: seq<Replay.Sample>, buffer: seq<Transition>,
                    net: Agents.Network, fit: Agents.Fit)
    returns (trained: Agents.Agent)
    requires Agents.ValidNetwork(net)
    requires ActionsValid(buffer)
    requires forall b :: 0 <= b < |samples| ==> Replay.ValidSample(samples[b], buffer, Replay.DefaultBatchSize)
    ensures trained == Agents.TrainAll(agent, Replay.Batches(samples), net, fit)
  {
    trained := agent;
    for b := 0 to |samples|
      invariant trained == Agents.TrainAll(agent, Replay.Batches(samples[..b]), net, fit)
    {
      assert Replay.ValidSample(samples[b], buffer, Replay.DefaultBatchSize);
      var fitted, _ := Agents.Train(trained, samples[b].batch, net, fit);
      trained := fitted;
      ghost var done := Replay.Batches(samples[..b + 1]);
      assert done[..b] == Replay.Batches(samples[..b]);
    }
    assert samples[..|samples|] == samples;
  }

  /**
   One epoch. Sampling fails exactly when the capacity asks for batches but
   the filled buffer holds fewer than 128 transitions.
   */
  method Epoch(epoch: nat, agent: Agents.Agent, rb: Replay.ReplayBuffer, net: Agents.Network,
               fit: Agents.Fit, oracle: EpochOracle, clearOnUpdate: bool)
    returns (r: Result<EpochOutcome, Replay.SampleError>)
    requires Agents.ValidNetwork(net)
    requires ValidOracle(oracle)
    requires ActionsValid(rb.buffer)
    ensures rb.bufferSize >= Replay.DefaultBatchSize || rb.bufferSize <= 0 ==> r.Ok?
    ensures 0 < rb.bufferSize < Replay.DefaultBatchSize && |rb.buffer| < rb.bufferSize ==>
              r == Err(Replay.SampleLargerThanPopulation)
    ensures r.Ok? ==> r.value.agent == EndEpoch(Agents.TrainAll(agent, Replay.Batches(r.value.samples), net, fit))
    ensures r.Ok? ==> r.value.row.epoch == epoch
    ensures r.Ok? ==> r.value.row.valSteps * (Episodes.EvaluationEpisodes as real) ==
                        Episodes.TotalReturn(oracle.evaluation)
    ensures r.Ok? ==> r.value.rb.bufferSize == rb.bufferSize
    ensures r.Ok? ==> r.value.rb.endFactor == Replay.EndFactorDecay * rb.endFactor
    ensures r.Ok? ==> ActionsValid(r.value.rb.buffer)
    ensures r.Ok? && |rb.buffer| >= rb.bufferSize ==> r.value.collected == 0
    ensures r.Ok? && |rb.buffer| < rb.bufferSize ==> r.value.collected == rb.bufferSize - |rb.buffer|
    ensures r.Ok? && clearOnUpdate ==> |r.value.rb.buffer| == 0
    ensures r.Ok? ==> DrawnBatches(r.value.samples, r.value.drawnFrom, rb.bufferSize)
    ensures r.Ok? ==> rb.buffer <= r.value.drawnFrom && |r.value.drawnFrom| >= rb.bufferSize
    ensures r.Ok? && |rb.buffer| < rb.bufferSize ==> |r.value.drawnFrom| == rb.bufferSize
    ensures r.Ok? && |rb.buffer| >= rb.bufferSize ==> r.value.drawnFrom == rb.buffer
    ensures r.Ok? && !clearOnUpdate ==> r.value.rb.buffer == r.value.drawnFrom
    ensures r.Ok? ==> Replay.FilledBy(r.value.drawnFrom, |rb.buffer|, rb.endFactor,
                                      Replay.Rollout(agent, net, oracle.env, oracle.rng))
  {
    var filled, _ := Replay.FillBuffer(rb, Replay.Rollout(agent, net, oracle.env, oracle.rng));
    assert ActionsValid(filled.buffer) by {
      forall j | 0 <= j < |filled.buffer|
        ensures filled.buffer[j].action < NumActions
      {
        if j < |rb.buffer| {
          assert filled.buffer[j] == rb.buffer[j];
        }
      }
    }
    var sampled := Replay.SampleBuffer(filled, Replay.DefaultBatchSize, oracle.rng);
    if sampled.Err? {
      assert sampled.error == Replay.SampleLargerThanPopulation;
      return Err(sampled.error);
    }
    var samples := sampled.value;
    var trained := FitBatches(agent, samples, filled.buffer, net, fit);
    var evalResult := Episodes.Evaluate(oracle.evaluation);
    var row := LogRow(epoch, evalResult);
    var nextRb := if clearOnUpdate then Replay.UpdateClearing(filled) else Replay.Update(filled);
    var nextAgent := trained.(epsilon := Agents.UpdateEpsilon(trained.epsilon));
    nextAgent := Agents.SyncTarget(nextAgent);
    return Ok(EpochOutcome(nextAgent, nextRb, row, |filled.buffer| - |rb.buffer|, filled.buffer, samples));
  }

  /** The log holds one row per finished epoch: its number and its mean greedy return. */
  ghost predicate LoggedEpochs(log: seq<LogRow>, oracles: seq<EpochOracle>, epochs: nat) {
    && epochs <= |oracles| && |log| == epochs
    && forall e :: 0 <= e < epochs ==>
         && log[e].epoch == e
         && ValidOracle(oracles[e])
         && log[e].valSteps * (Episodes.EvaluationEpisodes as real) == Episodes.TotalReturn(oracles[e].evaluation)
  }

  lemma LoggedEpochsStep(log: seq<LogRow>, oracles: seq<EpochOracle>, epochs: nat, row: LogRow)
    requires LoggedEpochs(log, oracles, epochs)
    requires epochs < |oracles| && ValidOracle(oracles[epochs])
    requires row.epoch == epochs
    requires row.valSteps * (Episodes.EvaluationEpisodes as real) == Episodes.TotalReturn(oracles[epochs].evaluation)
    ensures LoggedEpochs(log + [row], oracles, epochs + 1)
  {
  }

  /**
   The buffer side of a run: the capacity stays 1280 and the end factor 0,
   every epoch drew from a full buffer, and as written every epoch drew from
   the first epoch's buffer, which the buffer still holds; with clearing the
   buffer is empty between epochs.
   */
  predicate BufferHistory(rb: Replay.ReplayBuffer, collected: seq<nat>, drawnFrom: seq<seq<Transition>>,
                          samples: seq<seq<Replay.Sample>>, clearOnUpdate: bool)
  {
    && rb.bufferSize == Replay.DefaultBufferSize && rb.endFactor == 0.0
    && ActionsValid(rb.buffer)
    && |collected| == |samples|
    && DrawsFromFullBuffers(samples, drawnFrom)
    && (clearOnUpdate || |samples| == 0 ==> |rb.buffer| == 0)
    && (!clearOnUpdate && |samples| > 0 ==> rb.buffer == drawnFrom[0])
    && (!clearOnUpdate ==> forall e :: 0 <= e < |drawnFrom| ==> drawnFrom[e] == drawnFrom[0])
    && (|collected| > 0 ==> collected[0] == Replay.DefaultBufferSize)
    && (!clearOnUpdate ==> forall e :: 1 <= e < |collected| ==> collected[e] == 0)
    && (clearOnUpdate ==> forall e :: 0 <= e < |collected| ==> collected[e] == Replay.DefaultBufferSize)
  }

  lemma BufferHistoryStep(rb: Replay.ReplayBuffer, collected: seq<nat>, drawnFrom: seq<seq<Transition>>,
                          samples: seq<seq<Replay.Sample>>, clearOnUpdate: bool, o: EpochOutcome)
    requires BufferHistory(rb, collected, drawnFrom, samples, clearOnUpdate)
    requires o.rb.bufferSize == rb.bufferSize && o.rb.endFactor == Replay.EndFactorDecay * rb.endFactor
    requires ActionsValid(o.rb.buffer)
    requires DrawnBatches(o.samples, o.drawnFrom, rb.bufferSize)
    requires |rb.buffer| >= rb.bufferSize ==> o.collected == 0 && o.drawnFrom == rb.buffer
    requires |rb.buffer| < rb.bufferSize ==>
               o.collected == rb.bufferSize - |rb.buffer| && |o.drawnFrom| == rb.bufferSize
    requires !clearOnUpdate ==> o.rb.buffer == o.drawnFrom
    requires clearOnUpdate ==> |o.rb.buffer| == 0
    ensures BufferHistory(o.rb, collected + [o.collected], drawnFrom + [o.drawnFrom], samples + [o.samples],
                          clearOnUpdate)
  {
  }

  /**
   Who collected each epoch's buffer: the new entries of epoch e come from a
   fill by the agent as it stood when epoch e began (after the fits, decays
   and syncs of epochs 0 to e - 1) against that epoch's environment and draws.
   As written only epoch 0 adds entries; with clearing every epoch refills
   from empty.
   */
  ghost predicate EpochFillsBy(drawnFrom: seq<seq<Transition>>, samples: seq<seq<Replay.Sample>>,
                               init: Agents.Agent, net: Agents.Network, fit: Agents.Fit,
                               oracles: seq<EpochOracle>, clearOnUpdate: bool)
  {
    && Agents.ValidNetwork(net)
    && |drawnFrom| == |samples| <= |oracles|
    && forall e :: 0 <= e < |drawnFrom| ==>
         Replay.FilledBy(drawnFrom[e], if clearOnUpdate || e == 0 then 0 else |drawnFrom[e]|, 0.0,
                         Replay.Rollout(AfterEpochs(init, samples[..e], net, fit), net, oracles[e].env, oracles[e].rng))
  }

  lemma EpochFillsByStep(drawnFrom: seq<seq<Transition>>, samples: seq<seq<Replay.Sample>>,
                         init: Agents.Agent, net: Agents.Network, fit: Agents.Fit,
                         oracles: seq<EpochOracle>, clearOnUpdate: bool,
                         buffer: seq<Transition>, drawn: seq<Replay.Sample>,
                         agent: Agents.Agent, start: nat, endFactor: real, oracle: EpochOracle)
    requires EpochFillsBy(drawnFrom, samples, init, net, fit, oracles, clearOnUpdate)
    requires |samples| < |oracles| && oracle == oracles[|samples|]
    requires agent == AfterEpochs(init, samples, net, fit)
    requires start == (if clearOnUpdate || |samples| == 0 then 0 else |buffer|) && endFactor == 0.0
    requires Replay.FilledBy(buffer, start, endFactor, Replay.Rollout(agent, net, oracle.env, oracle.rng))
    ensures EpochFillsBy(drawnFrom + [buffer], samples + [drawn], init, net, fit, oracles, clearOnUpdate)
  {
    var ds := drawnFrom + [buffer];
    var ss := samples + [drawn];
    forall e | 0 <= e < |ds|
      ensures Replay.FilledBy(ds[e], if clearOnUpdate || e == 0 then 0 else |ds[e]|, 0.0,
                              Replay.Rollout(AfterEpochs(init, ss[..e], net, fit), net, oracles[e].env, oracles[e].rng))
    {
      assert ss[..e] == samples[..e];
      if e == |samples| {
        assert samples[..e] == samples;
      } else {
        assert ds[e] == drawnFrom[e];
      }
    }
  }

  /**
   What a run has established after `epoch` epochs from the agent `init` and
   an empty buffer of capacity 1280.
   */
  ghost predicate RunSoFar(st: TrainState, epoch: nat, init: Agents.Agent, net: Agents.Network, fit: Agents.Fit,
                           oracles: seq<EpochOracle>, clearOnUpdate: bool)
  {
    && LoggedEpochs(st.log, oracles, epoch)
    && |st.samples| == epoch
    && BufferHistory(st.rb, st.collected, st.drawnFrom, st.samples, clearOnUpdate)
    && st.agent == AfterEpochs(init, st.samples, net, fit)
    && EpochFillsBy(st.drawnFrom, st.samples, init, net, fit, oracles, clearOnUpdate)
    && (forall e: nat :: e in st.gifs <==> e < epoch && RendersAfter(e))
  }

  /** The run state with one more epoch's outcome recorded. */
  function Record(st: TrainState, epoch: nat, o: EpochOutcome): TrainState {
    TrainState(
      o.agent, o.rb,
      st.log + [o.row],
      st.collected + [o.collected],
      st.drawnFrom + [o.drawnFrom],
      st.samples + [o.samples],
      if RendersAfter(epoch) then st.gifs + [epoch] else st.gifs)
  }

  /** Recording an epoch's outcome, as `Epoch` describes it, keeps what the run has established. */
  lemma RecordKeepsRun(st: TrainState, epoch: nat, init: Agents.Agent, net: Agents.Network, fit: Agents.Fit,
                       oracles: seq<EpochOracle>, clearOnUpdate: bool, o: EpochOutcome)
    requires Agents.ValidNetwork(net)
    requires epoch < |oracles| && ValidOracle(oracles[epoch])
    requires RunSoFar(st, epoch, init, net, fit, oracles, clearOnUpdate)
    requires o.agent == EndEpoch(Agents.TrainAll(st.agent, Replay.Batches(o.samples), net, fit))
    requires o.row.epoch == epoch
    requires o.row.valSteps * (Episodes.EvaluationEpisodes as real) == Episodes.TotalReturn(oracles[epoch].evaluation)
    requires o.rb.bufferSize == st.rb.bufferSize && o.rb.endFactor == Replay.EndFactorDecay * st.rb.endFactor
    requires ActionsValid(o.rb.buffer)
    requires |st.rb.buffer| >= st.rb.bufferSize ==> o.collected == 0 && o.drawnFrom == st.rb.buffer
    requires |st.rb.buffer| < st.rb.bufferSize ==>
               o.collected == st.rb.bufferSize - |st.rb.buffer| && |o.drawnFrom| == st.rb.bufferSize
    requires clearOnUpdate ==> |o.rb.buffer| == 0
    requires !clearOnUpdate ==> o.rb.buffer == o.drawnFrom
    requires DrawnBatches(o.samples, o.drawnFrom, st.rb.bufferSize)
    requires Replay.FilledBy(o.drawnFrom, |st.rb.buffer|, st.rb.endFactor,
                             Replay.Rollout(st.agent, net, oracles[epoch].env, oracles[epoch].rng))
    ensures RunSoFar(Record(st, epoch, o), epoch + 1, init, net, fit, oracles, clearOnUpdate)
  {
    LoggedEpochsStep(st.log, oracles, epoch, o.row);
    BufferHistoryStep(st.rb, st.collected, st.drawnFrom, st.samples, clearOnUpdate, o);
    AfterEpochsStep(init, st.samples, o.samples, net, fit);
    if !clearOnUpdate && epoch > 0 {
      assert st.rb.buffer == st.drawnFrom[0];
    }
    EpochFillsByStep(st.drawnFrom, st.samples, init, net, fit, oracles, clearOnUpdate, o.drawnFrom, o.samples,
                     st.agent, |st.rb.buffer|, st.rb.endFactor, oracles[epoch]);
    var next := Record(st, epoch, o);
    assert next.log == st.log + [o.row] && next.samples == st.samples + [o.samples];
    assert next.collected == st.collected + [o.collected] && next.drawnFrom == st.drawnFrom + [o.drawnFrom];
    assert next.agent == o.agent && next.rb == o.rb;
    assert LoggedEpochs(next.log, oracles, epoch + 1);
    assert BufferHistory(next.rb, next.collected, next.drawnFrom, next.samples, clearOnUpdate);
    assert next.agent == AfterEpochs(init, next.samples, net, fit);
    assert EpochFillsBy(next.drawnFrom, next.samples, init, net, fit, oracles, clearOnUpdate);
    RecordedGifs(st.gifs, epoch);
  }

  /** The epochs rendered so far gain `epoch` exactly when it is a rendering epoch. */
  lemma RecordedGifs(gifs: seq<nat>, epoch: nat)
    requires forall e: nat :: e in gifs <==> e < epoch && RendersAfter(e)
    ensures forall e: nat :: e in (if RendersAfter(epoch) then gifs + [epoch] else gifs) <==>
              e < epoch + 1 && RendersAfter(e)
  {
  }

  /** Runs epoch number `epoch` and records its outcome. */
  method NextEpoch(st: TrainState, epoch: nat, init: Agents.Agent, net: Agents.Network, fit: Agents.Fit,
                   oracles: seq<EpochOracle>, clearOnUpdate: bool)
    returns (next: TrainState)
    requires Agents.ValidNetwork(net)
    requires epoch < |oracles| && ValidOracle(oracles[epoch])
    requires RunSoFar(st, epoch, init, net, fit, oracles, clearOnUpdate)
    ensures RunSoFar(next, epoch + 1, init, net, fit, oracles, clearOnUpdate)
  {
    var r := Epoch(epoch, st.agent, st.rb, net, fit, oracles[epoch], clearOnUpdate);
    RecordKeepsRun(st, epoch, init, net, fit, oracles, clearOnUpdate, r.value);
    next := Record(st, epoch, r.value);
  }

  /**
   The whole run: a fresh agent and a buffer of capacity 1280, then
   `numEpochs` epochs. Sampling never fails at this capacity.
   */
  method RunTraining(numEpochs: int, qInit: Agents.Weights, tInit: Agents.Weights, net: Agents.Network,
                     fit: Agents.Fit, oracles: seq<EpochOracle>, clearOnUpdate: bool)
    returns (final: TrainState)
    requires Agents.ValidNetwork(net)
    requires numEpochs <= |oracles|
    requires forall e :: 0 <= e < |oracles| ==> |oracles[e].evaluation| == Episodes.EvaluationEpisodes
    requires forall e, i :: 0 <= e < |oracles| && 0 <= i < |oracles[e].evaluation| ==>
               Episodes.HasDone(oracles[e].evaluation[i])
    ensures |final.log| == |final.collected| == if numEpochs < 0 then 0 else numEpochs
    ensures forall e :: 0 <= e < |final.log| ==> final.log[e].epoch == e
    ensures forall e :: 0 <= e < |final.log| ==>
              final.log[e].valSteps * (Episodes.EvaluationEpisodes as real) ==
                Episodes.TotalReturn(oracles[e].evaluation)
    ensures final.agent.epsilon == Agents.EpsilonAfter(Agents.InitialEpsilon, |final.log|)
    ensures forall e: nat :: e in final.gifs <==> e < |final.log| && RendersAfter(e)
    ensures final.agent.tWeights == final.agent.qWeights
    ensures final.agent.gamma == Agents.Discount
    ensures final.rb.endFactor == 0.0
    ensures |final.collected| > 0 ==> final.collected[0] == Replay.DefaultBufferSize
    ensures !clearOnUpdate ==> forall e :: 1 <= e < |final.collected| ==> final.collected[e] == 0
    ensures clearOnUpdate ==> forall e :: 0 <= e < |final.collected| ==> final.collected[e] == Replay.DefaultBufferSize
    ensures |final.samples| == |final.log|
    ensures DrawsFromFullBuffers(final.samples, final.drawnFrom)
    ensures !clearOnUpdate ==> forall e :: 0 <= e < |final.drawnFrom| ==> final.drawnFrom[e] == final.drawnFrom[0]
    ensures final.agent == AfterEpochs(Agents.NewAgent(qInit, tInit), final.samples, net, fit)
    ensures EpochFillsBy(final.drawnFrom, final.samples, Agents.NewAgent(qInit, tInit), net, fit, oracles, clearOnUpdate)
  {
    var init := Agents.NewAgent(qInit, tInit);
    var st := TrainState(init, Replay.NewReplayBuffer(Replay.DefaultBufferSize), [], [], [], [], []);
    var n := if numEpochs < 0 then 0 else numEpochs;
    for epoch := 0 to n
      invariant RunSoFar(st, epoch, init, net, fit, oracles, clearOnUpdate)
    {
      st := NextEpoch(st, epoch, init, net, fit, oracles, clearOnUpdate);
    }
    final := st;
  }

  /**
   As written the buffer is never emptied, so every epoch draws its batches
   from the first epoch's fill, which the fresh agent collected with epsilon 1.
   Where every exploration draw lies below 1, each sampled action is the random
   integer draw of the step that recorded it, whatever the network learned.
   */
  lemma TrainsOnFirstFill(drawnFrom: seq<seq<Transition>>, samples: seq<seq<Replay.Sample>>, init: Agents.Agent,
                          net: Agents.Network, fit: Agents.Fit, oracles: seq<EpochOracle>)
    requires EpochFillsBy(drawnFrom, samples, init, net, fit, oracles, false)
    requires DrawsFromFullBuffers(samples, drawnFrom)
    requires forall e :: 0 <= e < |drawnFrom| ==> drawnFrom[e] == drawnFrom[0]
    requires init.epsilon == Agents.InitialEpsilon
    requires 0 < |oracles| && forall k :: oracles[0].rng.explore(k) < 1.0
    ensures forall e, b, i :: 0 <= e < |samples| && 0 <= b < |samples[e]| && 0 <= i < |samples[e][b].batch| ==>
              samples[e][b].batch[i].action == (if oracles[0].rng.coin(samples[e][b].positions[i]) then 1 else 0)
  {
    if |samples| > 0 {
      var ro := Replay.Rollout(AfterEpochs(init, samples[..0], net, fit), net, oracles[0].env, oracles[0].rng);
      assert Replay.FilledBy(drawnFrom[0], 0, 0.0, ro);
      Replay.ExploringFill(drawnFrom[0], 0, 0.0, ro);
      forall e, b, i | 0 <= e < |samples| && 0 <= b < |samples[e]| && 0 <= i < |samples[e][b].batch|
        ensures samples[e][b].batch[i].action == (if oracles[0].rng.coin(samples[e][b].positions[i]) then 1 else 0)
      {
        assert Replay.ValidSample(samples[e][b], drawnFrom[e], Replay.DefaultBatchSize);
      }
    }
  }
}
